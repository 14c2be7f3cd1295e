/** How far the documented session limit holds when the capacity check and the insertion are two steps. */
module PoolLimits {
  import opened PoolSections
  import opened PoolRuns
  import Counting

  /** Along the whole run at most `limit` acquires are between their check and their insertion. */
  ghost predicate AtMostPending(c: Config, w: World, run: seq<Action>, limit: nat)
    requires CanRun(c, w, run)
    decreases |run|
  {
    |Pending(w)| <= limit && (run == [] || AtMostPending(c, Next(c, w, run[0]), run[1..], limit))
  }

  ghost predicate WithinLimit(c: Config, w: World, limit: nat) {
    WellFormed(w.pool) && |Active(w.pool)| + |Pending(w)| <= c.maxActive + limit - 1
  }

  /** Rewriting the flags of one entry without clearing its failure mark adds no counted session. */
  lemma FlagsActive(p: Pool, s: Sid, e: Entry)
    requires WellFormed(p) && s in p.entries && e.key == p.entries[s].key && (p.entries[s].failed ==> e.failed)
    ensures WellFormed(p.(entries := p.entries[s := e]))
    ensures Active(p.(entries := p.entries[s := e])) <= Active(p)
  {}

  lemma FlagStepActive(c: Config, w: World, a: Action)
    requires Sound(w) && Enabled(c, w, a) && (a.AcquireCheck? || a.GiveBack? || a.ProbeAnswers?)
    ensures WellFormed(Next(c, w, a).pool)
    ensures Active(Next(c, w, a).pool) <= Active(w.pool)
  {
    var p := w.pool;
    match a {
      case AcquireCheck(t, key, now) =>
        if Check(c, p, key).Reused? {
          FlagsActive(p, p.sessions[key], p.entries[p.sessions[key]].(inUse := true, lastSeen := now));
        }
      case GiveBack(t, s, now) =>
        if Pooled(p, s) {
          FlagsActive(p, s, p.entries[s].(inUse := false, lastSeen := now));
        }
      case ProbeAnswers(t, ok, now) =>
        var s := w.pcs[t].todo[0];
        FlagsActive(p, s, ProbeDone(c, p, s, ok, now).entries[s]);
    }
  }

  lemma ClosingStepActive(c: Config, w: World, a: Action)
    requires Sound(w) && Enabled(c, w, a)
    requires a.Discard? || a.EvictStale? || a.DropForReconnect? || a.ClosePool?
    ensures WellFormed(Next(c, w, a).pool)
    ensures Active(Next(c, w, a).pool) <= Active(w.pool)
  {
    ClosingConserves(w.pool, ClosedKeys(c, w, a));
  }

  lemma StepActive(c: Config, w: World, a: Action)
    requires Sound(w) && Enabled(c, w, a)
    ensures WellFormed(Next(c, w, a).pool)
    ensures Active(Next(c, w, a).pool) <= Active(w.pool) + if a.AcquireInsert? then {w.pcs[a.t].key} else {}
  {
    if a.AcquireCheck? || a.GiveBack? || a.ProbeAnswers? {
      FlagStepActive(c, w, a);
    } else if a.Discard? || a.EvictStale? || a.DropForReconnect? || a.ClosePool? {
      ClosingStepActive(c, w, a);
    } else if a.AcquireInsert? {
      InsertedIsNew(w, a.t);
      InsertionConserves(w.pool, w.pcs[a.t].key, w.pcs[a.t].sid, a.now);
    }
  }

  lemma StepPending(c: Config, w: World, a: Action)
    requires Enabled(c, w, a)
    ensures Pending(Next(c, w, a)) ==
            match a
            case AcquireCheck(t, key, _) => Pending(w) + if Check(c, w.pool, key).MayConnect? then {t} else {}
            case ConnectFails(t) => Pending(w) - {t}
            case AcquireInsert(t, _) => Pending(w) - {t}
            case _ => Pending(w)
  {}

  lemma StepKeepsLimit(c: Config, w: World, a: Action, limit: nat)
    requires c.maxActive > 0 && Sound(w) && Enabled(c, w, a)
    requires WithinLimit(c, w, limit) && |Pending(Next(c, w, a))| <= limit
    ensures WithinLimit(c, Next(c, w, a), limit)
  {
    StepActive(c, w, a);
    StepPending(c, w, a);
    var w' := Next(c, w, a);
    var more: set<Key> := if a.AcquireInsert? then {w.pcs[a.t].key} else {};
    Counting.SubsetSize(Active(w'.pool), Active(w.pool) + more);
    assert |Active(w.pool) + more| <= |Active(w.pool)| + |more|;
    if a.ConnectFails? || a.AcquireInsert? {
      assert a.t in Pending(w);
    }
  }

  /** Main result on capacity: with at most `limit` acquires in their unlocked part, the sessions that count
      and those about to arrive never exceed the configured maximum by more than `limit - 1`. */
  lemma {:induction false} CapacityHolds(c: Config, w: World, run: seq<Action>, limit: nat)
    requires c.maxActive > 0 && Sound(w) && WithinLimit(c, w, limit)
    requires CanRun(c, w, run) && AtMostPending(c, w, run, limit)
    ensures WithinLimit(c, After(c, w, run), limit)
    decreases |run|
  {
    if run != [] {
      StepKeepsSound(c, w, run[0]);
      StepKeepsLimit(c, w, run[0], limit);
      CapacityHolds(c, Next(c, w, run[0]), run[1..], limit);
    }
  }

  lemma CapacityFromStart(c: Config, run: seq<Action>, limit: nat)
    requires c.maxActive > 0 && CanRun(c, START, run) && AtMostPending(c, START, run, limit)
    ensures WithinLimit(c, After(c, START, run), limit)
    ensures limit == 1 ==> |Active(After(c, START, run).pool)| <= c.maxActive
  {
    assert Active(START.pool) == {} && Pending(START) == {};
    CapacityHolds(c, START, run, limit);
  }

  // ---- the bound is reached, for every limit and every maximum

  ghost predicate Reached(c: Config, limit: nat, w: World) {
    exists run :: ReachedBy(c, limit, w, run)
  }

  ghost predicate ReachedBy(c: Config, limit: nat, w: World, run: seq<Action>) {
    CanRun(c, START, run) && AtMostPending(c, START, run, limit) && After(c, START, run) == w
  }

  lemma {:induction false} OneMoreStep(c: Config, v: World, run: seq<Action>, limit: nat, a: Action)
    requires CanRun(c, v, run) && AtMostPending(c, v, run, limit)
    requires Enabled(c, After(c, v, run), a) && |Pending(Next(c, After(c, v, run), a))| <= limit
    ensures CanRun(c, v, run + [a]) && AtMostPending(c, v, run + [a], limit)
    ensures After(c, v, run + [a]) == Next(c, After(c, v, run), a)
    decreases |run|
  {
    if run == [] {
      assert run + [a] == [a];
    } else {
      assert (run + [a])[1..] == run[1..] + [a];
      OneMoreStep(c, Next(c, v, run[0]), run[1..], limit, a);
    }
  }

  lemma ReachNext(c: Config, limit: nat, w: World, a: Action)
    requires Reached(c, limit, w) && Enabled(c, w, a) && |Pending(Next(c, w, a))| <= limit
    ensures Reached(c, limit, Next(c, w, a))
  {
    var run :| ReachedBy(c, limit, w, run);
    OneMoreStep(c, START, run, limit, a);
    assert ReachedBy(c, limit, Next(c, w, a), run + [a]);
  }

  function KeyNo(i: nat): (k: Key)
    ensures |k| == i
  {
    seq(i, _ => 'a')
  }

  function {:induction false} Upto(lo: nat, hi: nat): (r: set<nat>)
    requires lo <= hi
    ensures forall i :: i in r <==> lo <= i < hi
    ensures |r| == hi - lo
  {
    if lo == hi then {} else Upto(lo, hi - 1) + {hi - 1}
  }

  /** The pool holds exactly the keys below `n`, none failed; threads `lo..hi` are connecting to the keys
      `base + lo .. base + hi`, and every other thread is idle. */
  ghost predicate Stage(w: World, n: nat, lo: nat, hi: nat, base: nat) {
    && Sound(w)
    && (forall k :: k in w.pool.sessions <==> |k| < n && k == KeyNo(|k|))
    && (forall k | k in w.pool.sessions :: !w.pool.entries[w.pool.sessions[k]].failed)
    && (forall t: Tid :: PcOf(w, t) == if lo <= t < hi then Connecting(KeyNo(base + t)) else Idle)
  }

  lemma StageActive(p: Pool, n: nat)
    requires WellFormed(p)
    requires forall k :: k in p.sessions <==> |k| < n && k == KeyNo(|k|)
    requires forall k | k in p.sessions :: !p.entries[p.sessions[k]].failed
    ensures |Active(p)| == n
  {
    assert Active(p) == set i | i in Upto(0, n) :: KeyNo(i);
    Counting.InjectiveImageSize(Upto(0, n), KeyNo, Active(p));
  }

  lemma StageSizes(w: World, n: nat, lo: nat, hi: nat, base: nat)
    requires Stage(w, n, lo, hi, base) && lo <= hi
    ensures |Active(w.pool)| == n
    ensures Pending(w) == Upto(lo, hi) && |Pending(w)| == hi - lo
  {
    StageActive(w.pool, n);
    forall t: Tid ensures t in Pending(w) <==> t in Upto(lo, hi) {
      assert PcOf(w, t) == if lo <= t < hi then Connecting(KeyNo(base + t)) else Idle;
    }
  }

  lemma OpenOne(c: Config, limit: nat, w: World, n: nat, lo: nat, hi: nat, base: nat) returns (w': World)
    requires Reached(c, limit, w) && Stage(w, n, lo, hi, base) && lo <= hi
    requires n < c.maxActive && n <= base + hi && hi - lo < limit
    ensures Reached(c, limit, w') && Stage(w', n, lo, hi + 1, base)
  {
    StageSizes(w, n, lo, hi, base);
    var a := AcquireCheck(hi, KeyNo(base + hi), 0);
    assert PcOf(w, hi) == Idle;
    w' := Next(c, w, a);
    StepKeepsSound(c, w, a);
    OpenedStage(w, w', n, lo, hi, base);
    StageSizes(w', n, lo, hi + 1, base);
    ReachNext(c, limit, w, a);
  }

  lemma OpenedStage(w: World, w': World, n: nat, lo: nat, hi: nat, base: nat)
    requires Stage(w, n, lo, hi, base) && lo <= hi && Sound(w')
    requires w' == w.(pcs := w.pcs[hi := Connecting(KeyNo(base + hi))])
    ensures Stage(w', n, lo, hi + 1, base)
  {
    forall t: Tid ensures PcOf(w', t) == if lo <= t < hi + 1 then Connecting(KeyNo(base + t)) else Idle {
      assert t != hi ==> PcOf(w', t) == PcOf(w, t);
    }
  }

  lemma ConnectOne(c: Config, limit: nat, w: World, t: Tid)
    requires Reached(c, limit, w) && Sound(w) && PcOf(w, t).Connecting? && |Pending(w)| <= limit
    ensures var v := Next(c, w, ConnectSucceeds(t)); Reached(c, limit, v) && Sound(v) && Pending(v) == Pending(w)
  {
    var a := ConnectSucceeds(t);
    StepKeepsSound(c, w, a);
    StepPending(c, w, a);
    ReachNext(c, limit, w, a);
  }

  lemma InsertOne(c: Config, limit: nat, v: World, t: Tid)
    requires Reached(c, limit, v) && Sound(v) && PcOf(v, t).Inserting? && |Pending(v)| <= limit
    ensures var w := Next(c, v, AcquireInsert(t, 0)); Reached(c, limit, w) && Sound(w)
  {
    var b := AcquireInsert(t, 0);
    StepKeepsSound(c, v, b);
    StepPending(c, v, b);
    Counting.SubsetSize(Pending(Next(c, v, b)), Pending(v));
    ReachNext(c, limit, v, b);
  }

  lemma LandOne(c: Config, limit: nat, w: World, n: nat, lo: nat, hi: nat, base: nat) returns (w': World)
    requires Reached(c, limit, w) && Stage(w, n, lo, hi, base) && lo < hi && n == base + lo && hi - lo <= limit
    ensures Reached(c, limit, w') && Stage(w', n + 1, lo + 1, hi, base)
  {
    StageSizes(w, n, lo, hi, base);
    assert PcOf(w, lo) == Connecting(KeyNo(n));
    ConnectOne(c, limit, w, lo);
    var v := Next(c, w, ConnectSucceeds(lo));
    InsertOne(c, limit, v, lo);
    w' := Next(c, v, AcquireInsert(lo, 0));
    LandedStage(w, v, w', n, lo, hi, base);
  }

  lemma LandedStage(w: World, v: World, w': World, n: nat, lo: nat, hi: nat, base: nat)
    requires Stage(w, n, lo, hi, base) && lo < hi && n == base + lo && Sound(w')
    requires v == w.(pcs := w.pcs[lo := Inserting(KeyNo(n), w.nextSid)], nextSid := w.nextSid + 1)
    requires w' == v.(pool := Insert(w.pool, KeyNo(n), w.nextSid, 0), pcs := v.pcs[lo := Idle],
                      held := v.held + {(lo, w.nextSid)})
    ensures Stage(w', n + 1, lo + 1, hi, base)
  {
    forall t: Tid ensures PcOf(w', t) == if lo + 1 <= t < hi then Connecting(KeyNo(base + t)) else Idle {
      assert t != lo ==> PcOf(w', t) == PcOf(w, t);
    }
    LandedKeys(w.pool, n, w.nextSid);
  }

  lemma LandedKeys(p: Pool, n: nat, s: Sid)
    requires WellFormed(p) && s !in p.entries
    requires forall k :: k in p.sessions <==> |k| < n && k == KeyNo(|k|)
    requires forall k | k in p.sessions :: !p.entries[p.sessions[k]].failed
    ensures var q := Insert(p, KeyNo(n), s, 0);
            && (forall k :: k in q.sessions <==> |k| < n + 1 && k == KeyNo(|k|))
            && forall k | k in q.sessions :: q.sessions[k] in q.entries && !q.entries[q.sessions[k]].failed
  {
    assert Insert(p, KeyNo(n), s, 0).sessions.Keys == p.sessions.Keys + {KeyNo(n)};
  }

  lemma {:induction false} FillTo(c: Config, limit: nat, n: nat) returns (w: World)
    requires 0 < limit && n < c.maxActive
    ensures Reached(c, limit, w) && Stage(w, n, 0, 0, 0)
    decreases n
  {
    if n == 0 {
      w := START;
      assert Pending(START) == {};
      assert ReachedBy(c, limit, START, []);
    } else {
      w := FillTo(c, limit, n - 1);
      w := OpenOne(c, limit, w, n - 1, 0, 0, n - 1);
      w := LandOne(c, limit, w, n - 1, 0, 1, n - 1);
    }
  }

  lemma {:induction false} OpenMany(c: Config, limit: nat, n: nat, hi: nat) returns (w: World)
    requires c.maxActive == n + 1 && hi <= limit && 0 < limit
    ensures Reached(c, limit, w) && Stage(w, n, 0, hi, n)
    decreases hi
  {
    if hi == 0 {
      w := FillTo(c, limit, n);
    } else {
      w := OpenMany(c, limit, n, hi - 1);
      w := OpenOne(c, limit, w, n, 0, hi - 1, n);
    }
  }

  lemma {:induction false} LandMany(c: Config, limit: nat, n: nat, lo: nat) returns (w: World)
    requires c.maxActive == n + 1 && lo <= limit && 0 < limit
    ensures Reached(c, limit, w) && Stage(w, n + lo, lo, limit, n)
    decreases lo
  {
    if lo == 0 {
      w := OpenMany(c, limit, n, limit);
    } else {
      w := LandMany(c, limit, n, lo - 1);
      w := LandOne(c, limit, w, n + lo - 1, lo - 1, limit, n);
    }
  }

  /** The bound of `CapacityFromStart` is exact: some run with at most `limit` pending acquires ends with
      `maxActive + limit - 1` counted sessions. So the documented maximum is a hard limit iff `limit <= 1`. */
  lemma CapacityIsTight(c: Config, limit: nat)
    requires 0 < c.maxActive && 0 < limit
    ensures exists run :: CanRun(c, START, run) && AtMostPending(c, START, run, limit)
                          && WellFormed(After(c, START, run).pool)
                          && |Active(After(c, START, run).pool)| == c.maxActive + limit - 1
  {
    var w := LandMany(c, limit, c.maxActive - 1, limit);
    StageSizes(w, c.maxActive - 1 + limit, limit, limit, c.maxActive - 1);
    var run :| ReachedBy(c, limit, w, run);
    assert After(c, START, run) == w;
  }

  // ---- what the limit does not cover

  lemma ThreeSteps(c: Config, w: World, x: Action, y: Action, z: Action)
    requires Enabled(c, w, x) && Enabled(c, Next(c, w, x), y) && Enabled(c, Next(c, Next(c, w, x), y), z)
    ensures CanRun(c, w, [x, y, z]) && After(c, w, [x, y, z]) == Next(c, Next(c, Next(c, w, x), y), z)
  {
    var v := Next(c, w, x);
    RunsOn(c, Next(c, v, y), z, []);
    RunsOn(c, v, y, [z]);
    RunsOn(c, w, x, [y, z]);
    assert [z] + [] == [z] && [y] + [z] == [y, z] && [x] + [y, z] == [x, y, z];
  }

  lemma RunsOn(c: Config, w: World, a: Action, rest: seq<Action>)
    requires Enabled(c, w, a) && CanRun(c, Next(c, w, a), rest)
    ensures CanRun(c, w, [a] + rest) && After(c, w, [a] + rest) == After(c, Next(c, w, a), rest)
  {
    assert ([a] + rest)[1..] == rest;
  }

  /** An acquire for a key whose session is in use connects a second session and closes the first under its holder. */
  lemma SecondAcquireClosesTheFirst(c: Config, w: World, t: Tid, key: Key)
    requires Sound(w) && PcOf(w, t).Idle?
    requires key in w.pool.sessions && w.pool.entries[w.pool.sessions[key]].inUse
    requires c.maxActive != 0 ==> |Active(w.pool)| < c.maxActive
    ensures var run := [AcquireCheck(t, key, 0), ConnectSucceeds(t), AcquireInsert(t, 0)];
            && CanRun(c, w, run)
            && After(c, w, run).pool.closes[w.pool.sessions[key]] == 1
            && key in After(c, w, run).pool.sessions && After(c, w, run).pool.sessions[key] == w.nextSid
  {
    var x, y, z := AcquireCheck(t, key, 0), ConnectSucceeds(t), AcquireInsert(t, 0);
    var v := Next(c, w, x);
    StepKeepsSound(c, w, x);
    StepKeepsSound(c, v, y);
    ThreeSteps(c, w, x, y, z);
    ClosesExactly(c, Next(c, v, y), z, w.pool.sessions[key]);
  }

  function FailedKeys(p: Pool): set<Key>
    requires WellFormed(p)
  {
    set k | k in p.sessions && p.entries[p.sessions[k]].failed
  }

  /** Sessions marked failed stay open but are not counted: with one acquire at a time, the sessions open at once
      exceed the maximum by at most the number of those. */
  lemma OpenSessionsBound(c: Config, run: seq<Action>)
    requires c.maxActive > 0 && CanRun(c, START, run) && AtMostPending(c, START, run, 1)
    ensures var p := After(c, START, run).pool;
            WellFormed(p) && |p.sessions| == |Active(p)| + |FailedKeys(p)| <= c.maxActive + |FailedKeys(p)|
  {
    CapacityFromStart(c, run, 1);
    var p := After(c, START, run).pool;
    assert p.sessions.Keys == Active(p) + FailedKeys(p);
  }

  ghost predicate ExactKeys(p: Pool, n: nat) {
    forall k :: k in p.sessions <==> |k| < n && k == KeyNo(|k|)
  }

  predicate FailedAt(p: Pool, k: Key)
    requires k in p.sessions && p.sessions[k] in p.entries
  {
    p.entries[p.sessions[k]].failed
  }

  predicate UsedAt(p: Pool, k: Key)
    requires k in p.sessions && p.sessions[k] in p.entries
  {
    p.entries[p.sessions[k]].inUse
  }

  /** The pool holds exactly the keys below `n`; those below `f` are marked failed, the others are in use. */
  ghost predicate MixedPool(p: Pool, f: nat, n: nat) {
    && WellFormed(p) && ExactKeys(p, n)
    && (forall k | k in p.sessions :: FailedAt(p, k) <==> |k| < f)
    && (forall k | k in p.sessions && |k| >= f :: UsedAt(p, k))
  }

  ghost predicate AllIdle(w: World) {
    forall t | t in w.pcs :: w.pcs[t].Idle?
  }

  ghost predicate Mixed(w: World, f: nat, n: nat) {
    Sound(w) && AllIdle(w) && MixedPool(w.pool, f, n)
  }

  lemma KeysSize(keys: set<Key>, f: nat, n: nat)
    requires f <= n && forall k :: k in keys <==> f <= |k| < n && k == KeyNo(|k|)
    ensures |keys| == n - f
  {
    assert keys == set i | i in Upto(f, n) :: KeyNo(i);
    Counting.InjectiveImageSize(Upto(f, n), KeyNo, keys);
  }

  lemma MixedSizes(p: Pool, f: nat, n: nat)
    requires MixedPool(p, f, n) && f <= n
    ensures |Active(p)| == n - f && |p.sessions| == n
  {
    forall k ensures k in Active(p) <==> f <= |k| < n && k == KeyNo(|k|) {
      if k in p.sessions {
        assert FailedAt(p, k) <==> |k| < f;
      }
    }
    KeysSize(Active(p), f, n);
    KeysSize(p.sessions.Keys, 0, n);
  }

  /** The three steps of an undisturbed acquire for a key that is not pooled. */
  lemma OpenNext(c: Config, w: World, f: nat, n: nat) returns (w': World)
    requires Reached(c, 1, w) && Mixed(w, f, n) && f <= n < f + c.maxActive
    ensures Reached(c, 1, w') && Mixed(w', f, n + 1)
  {
    var x := AcquireCheck(0, KeyNo(n), 0);
    MixedSizes(w.pool, f, n);
    assert Pending(w) == {} && KeyNo(n) !in w.pool.sessions;
    StepKeepsSound(c, w, x);
    StepPending(c, w, x);
    ReachNext(c, 1, w, x);
    var v := Next(c, w, x);
    w' := ArriveAlone(c, w, v, KeyNo(n));
    OpenedIsMixed(w.pool, f, n, w.nextSid);
  }

  lemma ArriveAlone(c: Config, w: World, v: World, key: Key) returns (w': World)
    requires AllIdle(w) && v == w.(pcs := w.pcs[0 := Connecting(key)])
    requires Reached(c, 1, v) && Sound(v) && Pending(v) == {0}
    ensures Reached(c, 1, w') && Sound(w') && AllIdle(w')
    ensures w.nextSid !in w.pool.entries && w'.pool == Insert(w.pool, key, w.nextSid, 0)
  {
    ConnectOne(c, 1, v, 0);
    var u := Next(c, v, ConnectSucceeds(0));
    InsertOne(c, 1, u, 0);
    InsertedIsNew(u, 0);
    w' := Next(c, u, AcquireInsert(0, 0));
  }

  lemma OpenedIsMixed(p: Pool, f: nat, n: nat, s: Sid)
    requires MixedPool(p, f, n) && f <= n && s !in p.entries
    ensures MixedPool(Insert(p, KeyNo(n), s, 0), f, n + 1)
  {
    var q := Insert(p, KeyNo(n), s, 0);
    assert q.sessions.Keys == p.sessions.Keys + {KeyNo(n)};
    forall k | k in q.sessions
      ensures q.sessions[k] in q.entries && q.entries[q.sessions[k]].key == k
      ensures (FailedAt(q, k) <==> |k| < f) && (|k| >= f ==> UsedAt(q, k))
    {
      if k != KeyNo(n) {
        assert p.sessions[k] != s && (FailedAt(p, k) <==> |k| < f);
        assert |k| >= f ==> UsedAt(p, k);
      }
    }
  }

  /** The keys below `n` are marked failed; the session under key `n` is idle and not yet marked. */
  ghost predicate FailingPool(p: Pool, n: nat, s: Sid) {
    && WellFormed(p) && ExactKeys(p, n + 1)
    && KeyNo(n) in p.sessions && p.sessions[KeyNo(n)] == s
    && !p.entries[s].failed && !p.entries[s].inUse
    && (forall k | k in p.sessions && |k| < n :: FailedAt(p, k))
  }

  ghost predicate Failing(w: World, n: nat, s: Sid) {
    Sound(w) && AllIdle(w) && FailingPool(w.pool, n, s)
  }

  lemma ReleasedIsFailing(p: Pool, n: nat, s: Sid)
    requires MixedPool(p, n, n + 1) && KeyNo(n) in p.sessions && p.sessions[KeyNo(n)] == s
    ensures FailingPool(Release(p, s, 0), n, s)
  {
    assert !FailedAt(p, KeyNo(n));
    var q := Release(p, s, 0);
    forall k | k in q.sessions
      ensures q.sessions[k] in q.entries && q.entries[q.sessions[k]].key == k && (|k| < n ==> FailedAt(q, k))
    {
      assert p.entries[p.sessions[k]].key == k && (|k| < n ==> FailedAt(p, k));
    }
  }

  lemma ReleaseNewest(c: Config, w: World, n: nat) returns (w': World, s: Sid)
    requires Reached(c, 1, w) && Mixed(w, n, n + 1)
    ensures Reached(c, 1, w') && Failing(w', n, s)
  {
    assert KeyNo(n) in w.pool.sessions;
    s := w.pool.sessions[KeyNo(n)];
    var a := GiveBack(0, s, 0);
    assert Pending(w) == {};
    StepKeepsSound(c, w, a);
    StepPending(c, w, a);
    ReachNext(c, 1, w, a);
    w' := Next(c, w, a);
    ReleasedIsFailing(w.pool, n, s);
  }

  /** One keepalive round that fails: the session is marked failed, or has one more failure. */
  lemma FailOneRound(c: Config, w: World, n: nat, s: Sid) returns (w': World)
    requires Reached(c, 1, w) && Failing(w, n, s)
    ensures Reached(c, 1, w')
    ensures w.pool.entries[s].failures + 1 >= c.maxReconnectAttempts ==> Mixed(w', n + 1, n + 1)
    ensures w.pool.entries[s].failures + 1 < c.maxReconnectAttempts ==>
              Failing(w', n, s) && w'.pool.entries[s].failures == w.pool.entries[s].failures + 1
  {
    var y, z := KeepaliveSnapshot(0, [s]), ProbeAnswers(0, false, 0);
    assert Pending(w) == {};
    OnlyTarget(w.pool, n, s);
    StepKeepsSound(c, w, y);
    StepPending(c, w, y);
    ReachNext(c, 1, w, y);
    var u := Next(c, w, y);
    StepKeepsSound(c, u, z);
    StepPending(c, u, z);
    ReachNext(c, 1, u, z);
    w' := Next(c, u, z);
    ProbedAgain(c, w.pool, n, s);
  }

  lemma OnlyTarget(p: Pool, n: nat, s: Sid)
    requires FailingPool(p, n, s)
    ensures Counting.Lists([s], ProbeTargets(p))
  {
    forall k | k in p.sessions && k != KeyNo(n) ensures FailedAt(p, k) {
      assert |k| < n;
    }
    assert ProbeTargets(p) == {s};
  }

  lemma ProbedAgain(c: Config, p: Pool, n: nat, s: Sid)
    requires FailingPool(p, n, s)
    ensures var q := ProbeDone(c, p, s, false, 0);
            if p.entries[s].failures + 1 >= c.maxReconnectAttempts then MixedPool(q, n + 1, n + 1)
            else FailingPool(q, n, s)
  {
    var q := ProbeDone(c, p, s, false, 0);
    forall k | k in q.sessions
      ensures q.sessions[k] in q.entries && q.entries[q.sessions[k]].key == k && (k != KeyNo(n) ==> FailedAt(q, k))
    {
      if k != KeyNo(n) {
        assert |k| < n && FailedAt(p, k);
      }
    }
  }

  lemma {:induction false} FailUntilMarked(c: Config, w: World, n: nat, s: Sid) returns (w': World)
    requires Reached(c, 1, w) && Failing(w, n, s)
    ensures Reached(c, 1, w') && Mixed(w', n + 1, n + 1)
    decreases if c.maxReconnectAttempts > w.pool.entries[s].failures
              then c.maxReconnectAttempts - w.pool.entries[s].failures else 0
  {
    w' := FailOneRound(c, w, n, s);
    if w.pool.entries[s].failures + 1 < c.maxReconnectAttempts {
      w' := FailUntilMarked(c, w', n, s);
    }
  }

  lemma StartIsMixed(c: Config)
    requires c.maxActive > 0
    ensures Reached(c, 1, START) && Mixed(START, 0, 0)
  {
    assert Pending(START) == {};
    assert ReachedBy(c, 1, START, []);
  }

  lemma FailNext(c: Config, w: World, n: nat) returns (w': World)
    requires c.maxActive > 0 && Reached(c, 1, w) && Mixed(w, n, n)
    ensures Reached(c, 1, w') && Mixed(w', n + 1, n + 1)
  {
    var s;
    w' := OpenNext(c, w, n, n);
    w', s := ReleaseNewest(c, w', n);
    w' := FailUntilMarked(c, w', n, s);
  }

  /** One key after the other is opened, released and probed until it is marked. */
  lemma {:induction false} FailMany(c: Config, n: nat) returns (w: World)
    requires c.maxActive > 0
    ensures Reached(c, 1, w) && Mixed(w, n, n)
    decreases n
  {
    if n == 0 {
      w := START;
      StartIsMixed(c);
    } else {
      w := FailMany(c, n - 1);
      w := FailNext(c, w, n - 1);
    }
  }

  lemma {:induction false} FillAfterFailures(c: Config, f: nat, m: nat) returns (w: World)
    requires m <= c.maxActive && c.maxActive > 0
    ensures Reached(c, 1, w) && Mixed(w, f, f + m)
    decreases m
  {
    if m == 0 {
      w := FailMany(c, f);
    } else {
      w := FillAfterFailures(c, f, m - 1);
      w := OpenNext(c, w, f, f + m - 1);
    }
  }

  /** So even one acquire at a time does not make the documented maximum a limit on open sessions, in any
      configuration: for every excess some run ends with that many open sessions too many. */
  lemma OpenSessionsCanExceedTheMaximum(c: Config, excess: nat)
    requires c.maxActive > 0
    ensures exists run :: CanRun(c, START, run) && AtMostPending(c, START, run, 1)
                          && |After(c, START, run).pool.sessions| == c.maxActive + excess
  {
    var w := FillAfterFailures(c, excess, c.maxActive);
    MixedSizes(w.pool, excess, excess + c.maxActive);
    var run :| ReachedBy(c, 1, w, run);
    assert After(c, START, run) == w;
  }
}
