/** Every interleaving of the pool's callers, keepalive rounds, eviction, reconnection and shutdown. */
module PoolRuns {
  import opened Outcomes
  import opened PoolSections
  import Counting

  type Tid = nat

  /** Where a thread stands between two locked sections. */
  datatype Pc =
    | Idle
    | Connecting(key: Key)
    | Inserting(key: Key, sid: Sid)
    | Probing(todo: seq<Sid>)

  /** `held` says which caller was given which session and has not given it back. */
  datatype World = World(pool: Pool, pcs: map<Tid, Pc>, held: set<(Tid, Sid)>, nextSid: Sid)

  const START := World(EMPTY_POOL, map[], {}, 0)

  datatype Action =
    | AcquireCheck(t: Tid, key: Key, now: int)
    | ConnectSucceeds(t: Tid)
    | ConnectFails(t: Tid)
    | AcquireInsert(t: Tid, now: int)
    | GiveBack(t: Tid, sid: Sid, now: int)
    | Discard(t: Tid, sid: Sid)
    | KeepaliveSnapshot(t: Tid, order: seq<Sid>)
    | ProbeAnswers(t: Tid, ok: bool, now: int)
    | EvictStale(now: int)
    | DropForReconnect(key: Key)
    | CountReconnect
    | ClosePool

  function PcOf(w: World, t: Tid): Pc {
    if t in w.pcs then w.pcs[t] else Idle
  }

  /** The threads between a passed capacity check and the insertion of what they connect. */
  function Pending(w: World): set<Tid> {
    set t | t in w.pcs && (w.pcs[t].Connecting? || w.pcs[t].Inserting?)
  }

  ghost predicate Enabled(c: Config, w: World, a: Action) {
    && WellFormed(w.pool)
    && match a
       case AcquireCheck(t, _, _) => PcOf(w, t).Idle?
       case ConnectSucceeds(t) => PcOf(w, t).Connecting?
       case ConnectFails(t) => PcOf(w, t).Connecting?
       case AcquireInsert(t, _) => PcOf(w, t).Inserting?
       case GiveBack(t, _, _) => PcOf(w, t).Idle?
       case Discard(t, _) => PcOf(w, t).Idle?
       case KeepaliveSnapshot(t, order) => PcOf(w, t).Idle? && Counting.Lists(order, ProbeTargets(w.pool))
       case ProbeAnswers(t, _, _) =>
         PcOf(w, t).Probing? && PcOf(w, t).todo != [] && PcOf(w, t).todo[0] in w.pool.entries
       case _ => true
  }

  ghost function Next(c: Config, w: World, a: Action): World
    requires Enabled(c, w, a)
  {
    match a
    case AcquireCheck(t, key, now) =>
      var w' := w.(pool := AfterCheck(c, w.pool, key, now));
      (match Check(c, w.pool, key)
       case Reused(s) => w'.(held := w.held + {(t, s)})
       case AtCapacity => w'
       case MayConnect => w'.(pcs := w.pcs[t := Connecting(key)]))
    case ConnectSucceeds(t) =>
      w.(pcs := w.pcs[t := Inserting(w.pcs[t].key, w.nextSid)], nextSid := w.nextSid + 1)
    case ConnectFails(t) =>
      w.(pool := ConnectFailed(w.pool), pcs := w.pcs[t := Idle])
    case AcquireInsert(t, now) =>
      w.(pool := Insert(w.pool, w.pcs[t].key, w.pcs[t].sid, now),
         pcs := w.pcs[t := Idle], held := w.held + {(t, w.pcs[t].sid)})
    case GiveBack(t, s, now) => w.(pool := Release(w.pool, s, now), held := w.held - {(t, s)})
    case Discard(t, s) => w.(pool := Remove(w.pool, s), held := w.held - {(t, s)})
    case KeepaliveSnapshot(t, order) => if order == [] then w else w.(pcs := w.pcs[t := Probing(order)])
    case ProbeAnswers(t, ok, now) =>
      var todo := w.pcs[t].todo;
      w.(pool := ProbeDone(c, w.pool, todo[0], ok, now),
         pcs := w.pcs[t := if |todo| == 1 then Idle else Probing(todo[1..])])
    case EvictStale(now) => w.(pool := Evict(c, w.pool, now))
    case DropForReconnect(key) => w.(pool := ReconnectDrop(w.pool, key))
    case CountReconnect => w.(pool := ReconnectTally(w.pool))
    case ClosePool => w.(pool := CloseAll(w.pool))
  }

  /** The session an action hands to a caller, if any. */
  ghost function HandedOut(c: Config, w: World, a: Action): Option<(Tid, Sid)>
    requires Enabled(c, w, a)
  {
    match a
    case AcquireCheck(t, key, _) =>
      (match Check(c, w.pool, key)
       case Reused(s) => Some((t, s))
       case _ => None)
    case AcquireInsert(t, _) => Some((t, w.pcs[t].sid))
    case _ => None
  }

  ghost predicate CanRun(c: Config, w: World, run: seq<Action>)
    decreases |run|
  {
    run == [] || (Enabled(c, w, run[0]) && CanRun(c, Next(c, w, run[0]), run[1..]))
  }

  ghost function After(c: Config, w: World, run: seq<Action>): World
    requires CanRun(c, w, run)
    decreases |run|
  {
    if run == [] then w else After(c, Next(c, w, run[0]), run[1..])
  }

  // ---- conservation: holds in every run, whatever callers release or remove

  ghost predicate PcSound(pc: Pc, known: set<Sid>, next: Sid) {
    match pc
    case Inserting(_, s) => s < next && s !in known
    case Probing(todo) => forall s | s in todo :: s in known
    case _ => true
  }

  /** Sessions still on their way into the pool are new, and no two threads bring the same one. */
  ghost predicate ThreadsSound(pcs: map<Tid, Pc>, known: set<Sid>, next: Sid) {
    && (forall s | s in known :: s < next)
    && (forall t | t in pcs :: PcSound(pcs[t], known, next))
    && (forall t, u | t in pcs && u in pcs && pcs[t].Inserting? && pcs[u].Inserting? && t != u ::
          pcs[t].sid != pcs[u].sid)
  }

  ghost predicate Sound(w: World) {
    Conserved(w.pool) && ThreadsSound(w.pcs, w.pool.entries.Keys, w.nextSid)
  }

  lemma PoolStepConserves(c: Config, w: World, a: Action)
    requires Sound(w) && Enabled(c, w, a)
    ensures Conserved(Next(c, w, a).pool)
  {
    var p := w.pool;
    match a {
      case AcquireCheck(t, key, now) =>
        if Check(c, p, key).Reused? {
          var s := p.sessions[key];
          FlagsConserve(p, s, p.entries[s].(inUse := true, lastSeen := now));
        }
      case AcquireInsert(t, now) => InsertionConserves(p, w.pcs[t].key, w.pcs[t].sid, now);
      case GiveBack(t, s, now) =>
        if Pooled(p, s) {
          FlagsConserve(p, s, p.entries[s].(inUse := false, lastSeen := now));
        }
      case Discard(t, s) =>
        if Pooled(p, s) {
          ClosingConserves(p, {p.entries[s].key});
        }
      case ProbeAnswers(t, ok, now) =>
        var s := w.pcs[t].todo[0];
        FlagsConserve(p, s, ProbeDone(c, p, s, ok, now).entries[s]);
      case EvictStale(now) => ClosingConserves(p, StaleKeys(c, p, now));
      case DropForReconnect(key) => ClosingConserves(p, {key});
      case ClosePool => ClosingConserves(p, p.sessions.Keys);
      case _ =>
    }
  }

  lemma OneThreadMoves(pcs: map<Tid, Pc>, known: set<Sid>, next: Sid, t: Tid, pc: Pc)
    requires ThreadsSound(pcs, known, next) && PcSound(pc, known, next) && !pc.Inserting?
    ensures ThreadsSound(pcs[t := pc], known, next)
  {}

  lemma NewSessionArrives(pcs: map<Tid, Pc>, known: set<Sid>, next: Sid, t: Tid, key: Key)
    requires ThreadsSound(pcs, known, next)
    ensures ThreadsSound(pcs[t := Inserting(key, next)], known, next + 1)
  {
    forall u | u in pcs && u != t ensures PcSound(pcs[u], known, next + 1) {
      assert PcSound(pcs[u], known, next);
    }
  }

  lemma NewSessionEnters(pcs: map<Tid, Pc>, known: set<Sid>, next: Sid, t: Tid)
    requires ThreadsSound(pcs, known, next) && t in pcs && pcs[t].Inserting?
    ensures ThreadsSound(pcs[t := Idle], known + {pcs[t].sid}, next)
  {
    forall u | u in pcs && u != t ensures PcSound(pcs[u], known + {pcs[t].sid}, next) {
      assert PcSound(pcs[u], known, next);
    }
  }

  /** Entry objects are made by insertions only, and none disappears. */
  lemma StepEntries(c: Config, w: World, a: Action)
    requires Enabled(c, w, a)
    ensures Next(c, w, a).pool.entries.Keys
            == w.pool.entries.Keys + if a.AcquireInsert? then {w.pcs[a.t].sid} else {}
  {}

  lemma StepKeepsThreadsSound(c: Config, w: World, a: Action)
    requires ThreadsSound(w.pcs, w.pool.entries.Keys, w.nextSid) && Enabled(c, w, a)
    ensures ThreadsSound(Next(c, w, a).pcs, Next(c, w, a).pool.entries.Keys, Next(c, w, a).nextSid)
  {
    StepEntries(c, w, a);
    var known := w.pool.entries.Keys;
    match a {
      case ConnectSucceeds(t) => NewSessionArrives(w.pcs, known, w.nextSid, t, w.pcs[t].key);
      case AcquireInsert(t, _) => NewSessionEnters(w.pcs, known, w.nextSid, t);
      case AcquireCheck(t, key, _) => OneThreadMoves(w.pcs, known, w.nextSid, t, Connecting(key));
      case ConnectFails(t) => OneThreadMoves(w.pcs, known, w.nextSid, t, Idle);
      case KeepaliveSnapshot(t, order) => OneThreadMoves(w.pcs, known, w.nextSid, t, Probing(order));
      case ProbeAnswers(t, _, _) =>
        assert PcSound(w.pcs[t], known, w.nextSid);
        OneThreadMoves(w.pcs, known, w.nextSid, t, Next(c, w, a).pcs[t]);
      case _ =>
    }
  }

  lemma StepKeepsSound(c: Config, w: World, a: Action)
    requires Sound(w) && Enabled(c, w, a)
    ensures Sound(Next(c, w, a))
  {
    PoolStepConserves(c, w, a);
    StepKeepsThreadsSound(c, w, a);
  }

  lemma {:induction false} RunsAreSound(c: Config, w: World, run: seq<Action>)
    requires Sound(w) && CanRun(c, w, run)
    ensures Sound(After(c, w, run))
    decreases |run|
  {
    if run != [] {
      StepKeepsSound(c, w, run[0]);
      RunsAreSound(c, Next(c, w, run[0]), run[1..]);
    }
  }

  /** What an action closes: for each action, the keys whose pooled session it logs out. */
  ghost function ClosedKeys(c: Config, w: World, a: Action): set<Key>
    requires Enabled(c, w, a)
  {
    match a
    case AcquireInsert(t, _) => {w.pcs[t].key}
    case Discard(_, s) => if Pooled(w.pool, s) then {w.pool.entries[s].key} else {}
    case EvictStale(now) => StaleKeys(c, w.pool, now)
    case DropForReconnect(key) => {key}
    case ClosePool => w.pool.sessions.Keys
    case _ => {}
  }

  /** How often an action logs a session out. */
  ghost function LogoutsIn(c: Config, w: World, a: Action, s: Sid): int
    requires Enabled(c, w, a)
  {
    Next(c, w, a).pool.closes[s] - w.pool.closes[s]
  }

  lemma ClosesAre(c: Config, w: World, a: Action)
    requires Sound(w) && Enabled(c, w, a)
    ensures Next(c, w, a).pool.closes == CloseKeys(w.pool, ClosedKeys(c, w, a)).closes
  {
    assert SidsOf(w.pool, {}) == {};
    match a {
      case AcquireInsert(_, _) =>
      case Discard(_, s) =>
      case EvictStale(_) =>
      case DropForReconnect(_) =>
      case ClosePool =>
      case _ => assert Next(c, w, a).pool.closes == w.pool.closes;
    }
  }

  lemma ClosesExactly(c: Config, w: World, a: Action, s: Sid)
    requires Sound(w) && Enabled(c, w, a) && s in w.pool.entries
    ensures LogoutsIn(c, w, a, s)
            == if Pooled(w.pool, s) && w.pool.entries[s].key in ClosedKeys(c, w, a) then 1 else 0
  {
    ClosesAre(c, w, a);
    ClosingOne(w.pool, ClosedKeys(c, w, a), s);
  }

  /** Main result on conservation: in every reachable state the connect counter is the number of pooled sessions
      plus the number of logouts, no session is logged out twice, and a pooled one never was. */
  lemma SessionsAreConserved(c: Config, run: seq<Action>)
    requires CanRun(c, START, run)
    ensures var p := After(c, START, run).pool;
            && p.totalConnects == |p.sessions| + |p.closes|
            && (forall s :: p.closes[s] <= 1)
            && forall k | k in p.sessions :: p.closes[p.sessions[k]] == 0
  {
    RunsAreSound(c, START, run);
    var p := After(c, START, run).pool;
    forall k | k in p.sessions ensures p.closes[p.sessions[k]] == 0 {
      assert Pooled(p, p.sessions[k]);
    }
  }

  function CountOf(run: seq<Action>, kind: Action -> bool): nat {
    if run == [] then 0 else (if kind(run[0]) then 1 else 0) + CountOf(run[1..], kind)
  }

  lemma {:induction false} TalliesFrom(c: Config, w: World, run: seq<Action>)
    requires CanRun(c, w, run)
    ensures var p, q := w.pool, After(c, w, run).pool;
            && q.totalConnects == p.totalConnects + CountOf(run, (a: Action) => a.AcquireInsert?)
            && q.totalFailures == p.totalFailures + CountOf(run, (a: Action) => a.ConnectFails?)
            && q.totalReconnects == p.totalReconnects + CountOf(run, (a: Action) => a.CountReconnect?)
    decreases |run|
  {
    if run != [] {
      TalliesFrom(c, Next(c, w, run[0]), run[1..]);
    }
  }

  /** The three totals count what happened, and nothing resets them. */
  lemma TotalsCountEvents(c: Config, run: seq<Action>)
    requires CanRun(c, START, run)
    ensures var p := After(c, START, run).pool;
            && p.totalConnects == CountOf(run, (a: Action) => a.AcquireInsert?)
            && p.totalFailures == CountOf(run, (a: Action) => a.ConnectFails?)
            && p.totalReconnects == CountOf(run, (a: Action) => a.CountReconnect?)
  {
    TalliesFrom(c, START, run);
  }

  /** A session handed out is held from then on, until its holder gives it back or removes it. */
  lemma HeldFromHandout(c: Config, w: World, a: Action, t: Tid, s: Sid)
    requires Enabled(c, w, a)
    ensures (t, s) in Next(c, w, a).held <==>
              HandedOut(c, w, a) == Some((t, s))
              || ((t, s) in w.held && a != Discard(t, s) && !(a.GiveBack? && (a.t, a.sid) == (t, s)))
  {}

  // ---- shutdown

  ghost predicate OnItsWay(w: World, s: Sid) {
    exists t | t in w.pcs :: w.pcs[t].Inserting? && w.pcs[t].sid == s
  }

  ghost predicate Accounted(w: World) {
    forall s: Sid | s < w.nextSid :: s in w.pool.entries || OnItsWay(w, s)
  }

  lemma StepKeepsAccounted(c: Config, w: World, a: Action)
    requires Accounted(w) && Enabled(c, w, a)
    ensures Accounted(Next(c, w, a))
  {
    StepEntries(c, w, a);
    var w' := Next(c, w, a);
    forall s: Sid | s < w'.nextSid ensures s in w'.pool.entries || OnItsWay(w', s) {
      if s < w.nextSid && s !in w.pool.entries {
        var t :| t in w.pcs && w.pcs[t].Inserting? && w.pcs[t].sid == s;
        assert t in w'.pcs;
        assert !(a.AcquireInsert? && a.t == t) ==> w'.pcs[t] == w.pcs[t];
      } else if s == w.nextSid {
        assert w'.pcs[a.t].sid == s;
      }
    }
  }

  lemma {:induction false} RunsAreAccounted(c: Config, w: World, run: seq<Action>)
    requires Accounted(w) && CanRun(c, w, run)
    ensures Accounted(After(c, w, run))
    decreases |run|
  {
    if run != [] {
      StepKeepsAccounted(c, w, run[0]);
      RunsAreAccounted(c, Next(c, w, run[0]), run[1..]);
    }
  }

  /** After `close()`, a session that was ever connected is still open only if some acquire had it in hand. */
  lemma ShutdownLeavesOnlyArrivals(c: Config, run: seq<Action>)
    requires CanRun(c, START, run)
    ensures Enabled(c, After(c, START, run), ClosePool)
    ensures var w := Next(c, After(c, START, run), ClosePool);
            w.pool.sessions == map[]
            && forall s: Sid | s < w.nextSid :: w.pool.closes[s] == 0 <==> OnItsWay(w, s)
  {
    RunsAreSound(c, START, run);
    RunsAreAccounted(c, START, run);
    var v := After(c, START, run);
    var w := Next(c, v, ClosePool);
    StepKeepsSound(c, v, ClosePool);
    StepKeepsAccounted(c, v, ClosePool);
    forall s: Sid | s < w.nextSid ensures w.pool.closes[s] == 0 <==> OnItsWay(w, s) {
      if OnItsWay(w, s) {
        var t :| t in w.pcs && w.pcs[t].Inserting? && w.pcs[t].sid == s;
        assert PcSound(w.pcs[t], w.pool.entries.Keys, w.nextSid);
      }
    }
  }

  // ---- exclusive handout: callers release and remove only what they hold

  ghost predicate Disciplined(w: World, a: Action) {
    && (a.GiveBack? ==> (a.t, a.sid) in w.held)
    && (a.Discard? ==> (a.t, a.sid) in w.held)
  }

  ghost predicate DisciplinedRun(c: Config, w: World, run: seq<Action>)
    requires CanRun(c, w, run)
    decreases |run|
  {
    run == [] || (Disciplined(w, run[0]) && DisciplinedRun(c, Next(c, w, run[0]), run[1..]))
  }

  ghost predicate Exclusive(w: World) {
    && (forall t, s | (t, s) in w.held :: s in w.pool.entries && (Pooled(w.pool, s) ==> w.pool.entries[s].inUse))
    && forall t, u, s | (t, s) in w.held && (u, s) in w.held :: t == u
  }

  /** Nothing but an insertion puts a session into the pool, and nothing but a release makes a pooled one idle. */
  lemma StepKeepsUse(c: Config, w: World, a: Action, s: Sid)
    requires Sound(w) && Enabled(c, w, a) && s in w.pool.entries
    requires Pooled(w.pool, s) ==> w.pool.entries[s].inUse
    requires !(a.GiveBack? && a.sid == s)
    ensures Pooled(Next(c, w, a).pool, s) ==> Next(c, w, a).pool.entries[s].inUse
  {
    if a.AcquireInsert? {
      InsertedIsNew(w, a.t);
      InsertionKeepsUse(w.pool, w.pcs[a.t].key, w.pcs[a.t].sid, a.now, s);
    } else if a.AcquireCheck? || a.GiveBack? || a.ProbeAnswers? {
      FlagStepKeepsUse(c, w, a, s);
    } else {
      ClosingStepKeepsUse(c, w, a, s);
    }
  }

  lemma FlagStepKeepsUse(c: Config, w: World, a: Action, s: Sid)
    requires Enabled(c, w, a) && (a.AcquireCheck? || a.GiveBack? || a.ProbeAnswers?) && s in w.pool.entries
    ensures var p := Next(c, w, a).pool;
            p.sessions == w.pool.sessions && s in p.entries && p.entries[s].key == w.pool.entries[s].key
    ensures w.pool.entries[s].inUse && !(a.GiveBack? && a.sid == s) ==> Next(c, w, a).pool.entries[s].inUse
  {}

  lemma ClosingStepKeepsUse(c: Config, w: World, a: Action, s: Sid)
    requires Enabled(c, w, a) && !a.AcquireCheck? && !a.GiveBack? && !a.ProbeAnswers? && !a.AcquireInsert?
    requires s in w.pool.entries
    ensures Next(c, w, a).pool.entries == w.pool.entries
    ensures Pooled(Next(c, w, a).pool, s) ==> Pooled(w.pool, s)
  {}

  lemma InsertionKeepsUse(p: Pool, key: Key, sid: Sid, now: int, s: Sid)
    requires s in p.entries && s != sid
    ensures Pooled(Insert(p, key, sid, now), s) ==> Pooled(p, s)
    ensures Insert(p, key, sid, now).entries[s] == p.entries[s]
  {}

  lemma InsertedIsNew(w: World, t: Tid)
    requires Sound(w) && PcOf(w, t).Inserting?
    ensures w.pcs[t].sid !in w.pool.entries
  {
    assert PcSound(w.pcs[t], w.pool.entries.Keys, w.nextSid);
  }

  lemma HandoutIsOfIdleOrNew(c: Config, w: World, a: Action, t: Tid, s: Sid)
    requires Sound(w) && Enabled(c, w, a) && HandedOut(c, w, a) == Some((t, s))
    ensures s in w.pool.entries ==> Pooled(w.pool, s) && !w.pool.entries[s].inUse
    ensures var p := Next(c, w, a).pool; Pooled(p, s) && p.entries[s].inUse && !p.entries[s].failed
  {
    if a.AcquireInsert? {
      InsertedIsNew(w, a.t);
    }
  }

  lemma HeldChanges(c: Config, w: World, a: Action, t: Tid, s: Sid)
    requires Enabled(c, w, a) && (t, s) in Next(c, w, a).held
    ensures (t, s) in w.held || HandedOut(c, w, a) == Some((t, s))
    ensures a.GiveBack? && (a.t, a.sid) in w.held ==> (t, s) != (a.t, a.sid)
  {}

  lemma StepKeepsHolder(c: Config, w: World, a: Action, t: Tid, s: Sid)
    requires Sound(w) && Exclusive(w) && Enabled(c, w, a) && Disciplined(w, a)
    requires (t, s) in Next(c, w, a).held
    ensures s in Next(c, w, a).pool.entries
    ensures Pooled(Next(c, w, a).pool, s) ==> Next(c, w, a).pool.entries[s].inUse
    ensures (t, s) !in w.held ==> forall u :: (u, s) !in w.held
  {
    HeldChanges(c, w, a, t, s);
    if (t, s) in w.held {
      StepEntries(c, w, a);
      StepKeepsUse(c, w, a, s);
    } else {
      HandoutIsOfIdleOrNew(c, w, a, t, s);
    }
  }

  lemma StepKeepsExclusive(c: Config, w: World, a: Action)
    requires Sound(w) && Exclusive(w) && Enabled(c, w, a) && Disciplined(w, a)
    ensures Exclusive(Next(c, w, a))
  {
    var held := Next(c, w, a).held;
    forall t, s | (t, s) in held
      ensures s in Next(c, w, a).pool.entries
      ensures Pooled(Next(c, w, a).pool, s) ==> Next(c, w, a).pool.entries[s].inUse
    {
      StepKeepsHolder(c, w, a, t, s);
    }
    forall t, u, s | (t, s) in held && (u, s) in held ensures t == u {
      StepKeepsHolder(c, w, a, t, s);
      StepKeepsHolder(c, w, a, u, s);
      HeldChanges(c, w, a, t, s);
      HeldChanges(c, w, a, u, s);
    }
  }

  lemma {:induction false} RunsAreExclusive(c: Config, w: World, run: seq<Action>)
    requires Sound(w) && Exclusive(w) && CanRun(c, w, run) && DisciplinedRun(c, w, run)
    ensures Sound(After(c, w, run)) && Exclusive(After(c, w, run))
    decreases |run|
  {
    if run != [] {
      StepKeepsSound(c, w, run[0]);
      StepKeepsExclusive(c, w, run[0]);
      RunsAreExclusive(c, Next(c, w, run[0]), run[1..]);
    }
  }

  /** Main result on handout: whatever a disciplined run did before, an acquire hands out a session that nobody
      holds, that is not marked failed and that was never logged out. */
  lemma HandoutIsExclusive(c: Config, run: seq<Action>, a: Action, t: Tid, s: Sid)
    requires CanRun(c, START, run) && DisciplinedRun(c, START, run)
    requires Enabled(c, After(c, START, run), a) && HandedOut(c, After(c, START, run), a) == Some((t, s))
    ensures forall u :: (u, s) !in After(c, START, run).held
    ensures var p := Next(c, After(c, START, run), a).pool;
            Pooled(p, s) && p.entries[s].inUse && !p.entries[s].failed && p.closes[s] == 0
  {
    RunsAreExclusive(c, START, run);
    var w := After(c, START, run);
    StepKeepsSound(c, w, a);
    HandoutIsOfIdleOrNew(c, w, a, t, s);
  }

  /** A session in two hands is impossible in a disciplined run, and eviction never closes one in anybody's hands. */
  lemma HeldSessionsAreSafeFromEviction(c: Config, run: seq<Action>, now: int, u: Tid, s: Sid)
    requires CanRun(c, START, run) && DisciplinedRun(c, START, run)
    requires (u, s) in After(c, START, run).held
    ensures forall t | (t, s) in After(c, START, run).held :: t == u
    ensures Enabled(c, After(c, START, run), EvictStale(now))
    ensures Next(c, After(c, START, run), EvictStale(now)).pool.closes[s] == After(c, START, run).pool.closes[s]
  {
    RunsAreExclusive(c, START, run);
    ClosesExactly(c, After(c, START, run), EvictStale(now), s);
  }

  /** Who can close a session under its holder: an insertion or a reconnect for the same key, shutdown,
      or the holder's own removal; and each of these does close it while it is pooled. */
  lemma ClosedUnderItsHolder(c: Config, run: seq<Action>, a: Action, u: Tid, s: Sid)
    requires CanRun(c, START, run) && DisciplinedRun(c, START, run)
    requires (u, s) in After(c, START, run).held
    requires Enabled(c, After(c, START, run), a) && Disciplined(After(c, START, run), a)
    ensures s in After(c, START, run).pool.entries
    ensures var w := After(c, START, run);
            var key := w.pool.entries[s].key;
            Next(c, w, a).pool.closes[s] > w.pool.closes[s] <==>
              Pooled(w.pool, s) &&
                match a
                case AcquireInsert(t, _) => w.pcs[t].key == key
                case DropForReconnect(k) => k == key
                case ClosePool => true
                case Discard(t, x) => t == u && x == s
                case _ => false
  {
    RunsAreExclusive(c, START, run);
    ClosesExactly(c, After(c, START, run), a, s);
  }

  lemma StepKeepsFailed(c: Config, w: World, a: Action, s: Sid)
    requires Sound(w) && Enabled(c, w, a)
    requires s in w.pool.entries && w.pool.entries[s].failed
    ensures s in Next(c, w, a).pool.entries && Next(c, w, a).pool.entries[s].failed
    ensures forall t :: HandedOut(c, w, a) != Some((t, s))
  {
    if a.AcquireInsert? {
      InsertedIsNew(w, a.t);
    }
  }

  lemma {:induction false} FailureIsForever(c: Config, w: World, run: seq<Action>, s: Sid)
    requires Sound(w) && CanRun(c, w, run)
    requires s in w.pool.entries && w.pool.entries[s].failed
    ensures s in After(c, w, run).pool.entries && After(c, w, run).pool.entries[s].failed
    decreases |run|
  {
    if run != [] {
      StepKeepsSound(c, w, run[0]);
      StepKeepsFailed(c, w, run[0], s);
      FailureIsForever(c, Next(c, w, run[0]), run[1..], s);
    }
  }

  /** Once a keepalive round marked a session failed, no later acquire hands it out, whatever happens between. */
  lemma FailedIsNeverHandedOut(c: Config, before: seq<Action>, run: seq<Action>, a: Action, s: Sid)
    requires CanRun(c, START, before) && CanRun(c, After(c, START, before), run)
    requires var p := After(c, START, before).pool; s in p.entries && p.entries[s].failed
    requires Enabled(c, After(c, After(c, START, before), run), a)
    ensures forall t :: HandedOut(c, After(c, After(c, START, before), run), a) != Some((t, s))
  {
    RunsAreSound(c, START, before);
    var w := After(c, START, before);
    RunsAreSound(c, w, run);
    FailureIsForever(c, w, run, s);
    StepKeepsFailed(c, After(c, w, run), a, s);
  }
}
