/** The process-global event callback of the native SDK: who owns the slot, how long a callback's thunk is kept,
    and what happens when closing a stream reserves the slot again. */
module CallbackSlot {
  import opened Outcomes

  type ClientId = nat

  /** One client object. `thunk` says that it retains the native callback's Python side, `inflight` how many
      native callbacks are inside it, `initialized` that its SDK library handle is still set. */
  datatype Client = Client(live: bool, initialized: bool, thunk: bool, inflight: nat, closing: bool)

  /** What the holder of the process lock is waiting for: callbacks to drain, in a clear or in a cleanup. */
  datatype LockPhase = Free | Clearing(c: ClientId) | Cleaning(c: ClientId)

  /** `slot` is the client whose callback the native library would call. */
  datatype Process = Process(owner: Option<ClientId>, slot: Option<ClientId>, clients: map<ClientId, Client>,
                             lock: LockPhase)

  const EMPTY := Process(None, None, map[], Free)

  datatype Action =
    | Init(c: ClientId)
    | Install(c: ClientId, accepted: bool)
    | BeginClear(c: ClientId, accepted: bool)
    | EndClear(c: ClientId)
    | EndClearReserving(c: ClientId)
    | Reserve(c: ClientId)
    | BeginCleanup(c: ClientId)
    | EndCleanup(c: ClientId)
    | CallbackEnters(c: ClientId)
    | CallbackLeaves(c: ClientId)

  function Live(p: Process): set<ClientId> {
    set c | c in p.clients && p.clients[c].live
  }

  /** A wait for callbacks ends when none is in flight or when it times out, which it may do at any moment. */
  predicate Enabled(p: Process, a: Action) {
    match a
    case Init(c) => p.lock.Free? && p.owner.None? && c !in p.clients
    case Install(c, _) =>
      && p.lock.Free? && c in p.clients && p.clients[c].initialized && p.owner.None?
      && !p.clients[c].thunk && Live(p) == {c}
    case BeginClear(c, _) =>
      p.lock.Free? && c in p.clients && p.clients[c].initialized && (p.owner.None? || p.owner == Some(c))
    case EndClear(c) => p.lock == Clearing(c) && c in p.clients
    case EndClearReserving(c) => p.lock == Clearing(c) && c in p.clients
    case Reserve(c) => p.lock.Free? && c in p.clients
    case BeginCleanup(c) => p.lock.Free? && c in p.clients && p.clients[c].initialized
    case EndCleanup(c) => p.lock == Cleaning(c) && c in p.clients
    case CallbackEnters(c) => c in p.clients && p.slot == Some(c)
    case CallbackLeaves(c) => c in p.clients && p.clients[c].inflight > 0
  }

  function Disowned(p: Process, c: ClientId): Option<ClientId> {
    if p.owner == Some(c) then None else p.owner
  }

  function WithClient(p: Process, c: ClientId, x: Client): Process {
    p.(clients := p.clients[c := x])
  }

  function EndedClear(p: Process, c: ClientId): Process
    requires c in p.clients
  {
    var x := p.clients[c];
    if x.inflight == 0 then
      WithClient(p, c, x.(thunk := false, closing := false)).(owner := Disowned(p, c), lock := Free)
    else WithClient(p, c, x.(closing := false)).(lock := Free)
  }

  function Next(p: Process, a: Action): Process
    requires Enabled(p, a)
  {
    match a
    case Init(c) => WithClient(p, c, Client(true, true, false, 0, false))
    case Install(c, accepted) =>
      if accepted then
        WithClient(p, c, p.clients[c].(thunk := true, closing := false)).(slot := Some(c), owner := Some(c))
      else p
    case BeginClear(c, accepted) =>
      if accepted then WithClient(p, c, p.clients[c].(closing := true)).(slot := None, lock := Clearing(c))
      else WithClient(p, c, p.clients[c].(closing := false))
    case EndClear(c) => EndedClear(p, c)
    case EndClearReserving(c) => EndedClear(p, c).(owner := Some(c))
    case Reserve(c) => p.(owner := Some(c))
    case BeginCleanup(c) =>
      WithClient(p, c, p.clients[c].(initialized := false)).(slot := None, lock := Cleaning(c))
    case EndCleanup(c) =>
      var x := p.clients[c];
      WithClient(p, c, x.(thunk := x.thunk && x.inflight > 0, closing := false, live := false))
        .(owner := Disowned(p, c), lock := Free)
    case CallbackEnters(c) => WithClient(p, c, p.clients[c].(inflight := p.clients[c].inflight + 1))
    case CallbackLeaves(c) => WithClient(p, c, p.clients[c].(inflight := p.clients[c].inflight - 1))
  }

  predicate CanRun(p: Process, run: seq<Action>)
    decreases |run|
  {
    run == [] || (Enabled(p, run[0]) && CanRun(Next(p, run[0]), run[1..]))
  }

  function After(p: Process, run: seq<Action>): Process
    requires CanRun(p, run)
    decreases |run|
  {
    if run == [] then p else After(Next(p, run[0]), run[1..])
  }

  // ---- the object the clients of one process share

  class SdkProcess {
    var owner: Option<ClientId>
    var slot: Option<ClientId>
    var clients: map<ClientId, Client>
    var lock: LockPhase

    function View(): Process
      reads this
    {
      Process(owner, slot, clients, lock)
    }

    constructor ()
      ensures View() == EMPTY
    {
      owner, slot, clients, lock := None, None, map[], Free;
    }

    /** Creating a client is refused while the slot is owned, and fails when the library does not load or initialize:
        then there is no client. */
    method NewClient(c: ClientId, initializes: bool) returns (ok: bool)
      requires lock.Free? && c !in clients
      modifies this`clients
      ensures ok <==> Enabled(old(View()), Init(c)) && initializes
      ensures View() == if ok then Next(old(View()), Init(c)) else old(View())
    {
      if owner.Some? || !initializes {
        return false;
      }
      clients := clients[c := Client(true, true, false, 0, false)];
      ok := true;
    }

    method InstallCallback(c: ClientId, accepted: bool) returns (ok: bool)
      requires lock.Free? && c in clients
      modifies this`owner, this`slot, this`clients
      ensures ok <==> Enabled(old(View()), Install(c, accepted)) && accepted
      ensures View() == if ok then Next(old(View()), Install(c, accepted)) else old(View())
    {
      if !clients[c].initialized || owner.Some? || clients[c].thunk {
        return false;
      }
      var live := set d | d in clients && clients[d].live;
      if live != {c} || !accepted {
        return false;
      }
      clients := clients[c := clients[c].(thunk := true, closing := false)];
      slot, owner := Some(c), Some(c);
      ok := true;
    }

    /** The first half of clearing: up to the wait for callbacks in flight. */
    method StartClearing(c: ClientId, accepted: bool) returns (ok: bool)
      requires lock.Free? && c in clients
      modifies this`slot, this`clients, this`lock
      ensures ok <==> Enabled(old(View()), BeginClear(c, accepted)) && accepted
      ensures View() == if Enabled(old(View()), BeginClear(c, accepted)) then Next(old(View()), BeginClear(c, accepted))
                        else old(View())
    {
      if !clients[c].initialized || (owner.Some? && owner != Some(c)) {
        return false;
      }
      clients := clients[c := clients[c].(closing := true)];
      if !accepted {
        clients := clients[c := clients[c].(closing := false)];
        return false;
      }
      slot, lock := None, Clearing(c);
      ok := true;
    }

    /** The second half: the thunk goes only if nothing is in flight any more. */
    method FinishClearing(c: ClientId) returns (ok: bool)
      requires lock == Clearing(c) && c in clients
      modifies this`owner, this`clients, this`lock
      ensures ok == (old(clients)[c].inflight == 0)
      ensures View() == Next(old(View()), EndClear(c))
    {
      lock := Free;
      clients := clients[c := clients[c].(closing := false)];
      if clients[c].inflight != 0 {
        return false;
      }
      clients := clients[c := clients[c].(thunk := false)];
      if owner == Some(c) {
        owner := None;
      }
      ok := true;
    }

    method StartCleanup(c: ClientId)
      requires Enabled(View(), BeginCleanup(c))
      modifies this`slot, this`clients, this`lock
      ensures View() == Next(old(View()), BeginCleanup(c))
    {
      clients := clients[c := clients[c].(initialized := false)];
      slot, lock := None, Cleaning(c);
    }

    method FinishCleanup(c: ClientId)
      requires Enabled(View(), EndCleanup(c))
      modifies this`owner, this`clients, this`lock
      ensures View() == Next(old(View()), EndCleanup(c))
    {
      if clients[c].inflight == 0 {
        clients := clients[c := clients[c].(thunk := false)];
      }
      clients := clients[c := clients[c].(closing := false, live := false)];
      if owner == Some(c) {
        owner := None;
      }
      lock := Free;
    }
  }

  // ---- invariants

  ghost predicate OwnerIsOnlyLive(p: Process) {
    p.owner.Some? ==> Live(p) == {p.owner.value}
  }

  /** The native library calls, or is inside, a callback only while its thunk is retained. */
  ghost predicate ThunksRetained(p: Process) {
    && (p.slot.Some? ==> p.slot.value in p.clients && p.clients[p.slot.value].thunk)
    && (forall c | c in p.clients && p.clients[c].inflight > 0 :: p.clients[c].thunk)
    && (p.lock.Free? || p.slot.None?)
  }

  predicate SlotIsOwned(p: Process) {
    p.slot.Some? ==> p.owner == p.slot
  }

  ghost predicate Sound(p: Process) {
    OwnerIsOnlyLive(p) && SlotIsOwned(p) && ThunksRetained(p)
  }

  // ---- lifetime: in every run, guarded or not

  lemma StepKeepsRetained(p: Process, a: Action)
    requires ThunksRetained(p) && Enabled(p, a)
    ensures ThunksRetained(Next(p, a))
  {}

  lemma {:induction false} RunsKeepRetained(p: Process, run: seq<Action>)
    requires ThunksRetained(p) && CanRun(p, run)
    ensures ThunksRetained(After(p, run))
    decreases |run|
  {
    if run != [] {
      StepKeepsRetained(p, run[0]);
      RunsKeepRetained(Next(p, run[0]), run[1..]);
    }
  }

  /** Main result on lifetime: in every run, whoever reserves the slot and when, the callback the library would call
      has its thunk retained, none in flight runs in a dropped thunk, and the slot is clear during every drain. */
  lemma ThunksAreRetained(run: seq<Action>)
    requires CanRun(EMPTY, run)
    ensures ThunksRetained(After(EMPTY, run))
  {
    RunsKeepRetained(EMPTY, run);
  }

  /** And after every run, a step that drops a thunk finds the native slot elsewhere and no callback in flight. */
  lemma ThunkIsDroppedOnlyWhenQuiet(run: seq<Action>, a: Action, c: ClientId)
    requires CanRun(EMPTY, run) && Enabled(After(EMPTY, run), a)
    requires c in After(EMPTY, run).clients && After(EMPTY, run).clients[c].thunk
    requires c in Next(After(EMPTY, run), a).clients && !Next(After(EMPTY, run), a).clients[c].thunk
    ensures var p := After(EMPTY, run);
            p.clients[c].inflight == 0 && p.slot != Some(c) && Next(p, a).slot != Some(c)
    ensures a == EndClear(c) || a == EndClearReserving(c) || a == EndCleanup(c)
  {
    RunsKeepRetained(EMPTY, run);
  }

  /** A callback is installed only where it replaces none: its client retains no thunk, the native slot does not point
      to it, and none of its callbacks is still inside. */
  lemma InstallReplacesNothing(run: seq<Action>, c: ClientId)
    requires CanRun(EMPTY, run) && Enabled(After(EMPTY, run), Install(c, true))
    ensures var p, q := After(EMPTY, run), Next(After(EMPTY, run), Install(c, true));
            && !p.clients[c].thunk && p.clients[c].inflight == 0 && p.slot != Some(c)
            && q.clients[c].thunk && q.slot == Some(c) && q.owner == Some(c) && !q.clients[c].closing
  {
    RunsKeepRetained(EMPTY, run);
  }

  /** What the end of a drain does: with nothing in flight the thunk goes, and the ownership if it was the client's;
      otherwise both stay, so that the clear can be repeated. */
  lemma EndOfDrain(p: Process, c: ClientId)
    requires Enabled(p, EndClear(c))
    ensures var q := Next(p, EndClear(c));
            && (q.clients[c].thunk <==> p.clients[c].thunk && p.clients[c].inflight > 0)
            && (p.owner == Some(c) ==> (q.owner.None? <==> p.clients[c].inflight == 0))
            && (p.owner != Some(c) ==> q.owner == p.owner)
            && q.lock.Free? && q.slot == p.slot && q.clients[c].inflight == p.clients[c].inflight
  {}

  ghost predicate ClosingOnlyInClear(p: Process) {
    && (p.lock.Clearing? ==> p.lock.c in p.clients)
    && forall c | c in p.clients :: p.clients[c].closing <==> p.lock == Clearing(c)
  }

  lemma {:induction false} RunsKeepClosing(p: Process, run: seq<Action>)
    requires ClosingOnlyInClear(p) && CanRun(p, run)
    ensures ClosingOnlyInClear(After(p, run))
    decreases |run|
  {
    if run != [] {
      RunsKeepClosing(Next(p, run[0]), run[1..]);
    }
  }

  /** In every run, callbacks are turned away exactly while their client waits for them in a clear. */
  lemma ClosingMeansClearing(run: seq<Action>, c: ClientId)
    requires CanRun(EMPTY, run) && c in After(EMPTY, run).clients
    ensures After(EMPTY, run).clients[c].closing <==> After(EMPTY, run).lock == Clearing(c)
  {
    RunsKeepClosing(EMPTY, run);
  }

  // ---- ownership: in guarded runs

  predicate Reserves(a: Action) {
    a.Reserve? || a.EndClearReserving?
  }

  /** A reservation is made only by the one live client. */
  predicate Guarded(p: Process, a: Action) {
    Reserves(a) ==> Live(p) == {a.c}
  }

  predicate GuardedRun(p: Process, run: seq<Action>)
    requires CanRun(p, run)
    decreases |run|
  {
    run == [] || (Guarded(p, run[0]) && GuardedRun(Next(p, run[0]), run[1..]))
  }

  lemma LiveChanges(p: Process, a: Action)
    requires Enabled(p, a)
    ensures Live(Next(p, a)) == match a
                                case Init(c) => Live(p) + {c}
                                case EndCleanup(c) => Live(p) - {c}
                                case _ => Live(p)
  {}

  /** A step keeps the invariant exactly when a reservation in it is made by the one live client. */
  lemma StepIsSoundIffGuarded(p: Process, a: Action)
    requires Sound(p) && Enabled(p, a)
    ensures Sound(Next(p, a)) <==> Guarded(p, a)
  {
    LiveChanges(p, a);
    if p.slot.Some? && a.Reserve? && Guarded(p, a) {
      assert p.owner.value in {a.c};
    }
  }

  lemma {:induction false} GuardedRunsAreSound(p: Process, run: seq<Action>)
    requires Sound(p) && CanRun(p, run) && GuardedRun(p, run)
    ensures Sound(After(p, run))
    decreases |run|
  {
    if run != [] {
      StepIsSoundIffGuarded(p, run[0]);
      GuardedRunsAreSound(Next(p, run[0]), run[1..]);
    }
  }

  /** Main result on ownership: in every guarded run an owner is the only live client, and an installed callback is
      its own. */
  lemma SlotIsSafe(run: seq<Action>)
    requires CanRun(EMPTY, run) && GuardedRun(EMPTY, run)
    ensures OwnerIsOnlyLive(After(EMPTY, run)) && SlotIsOwned(After(EMPTY, run)) && ThunksRetained(After(EMPTY, run))
  {
    GuardedRunsAreSound(EMPTY, run);
  }

  /** Only a live client has a library handle. */
  ghost predicate HandlesAreLive(p: Process) {
    forall c | c in p.clients && p.clients[c].initialized :: p.clients[c].live
  }

  lemma {:induction false} RunsKeepHandlesLive(p: Process, run: seq<Action>)
    requires HandlesAreLive(p) && CanRun(p, run) && (p.lock.Cleaning? ==> CleanedHandle(p))
    ensures HandlesAreLive(After(p, run))
    decreases |run|
  {
    if run != [] {
      RunsKeepHandlesLive(Next(p, run[0]), run[1..]);
    }
  }

  /** A cleanup takes the handle first. */
  predicate CleanedHandle(p: Process)
    requires p.lock.Cleaning?
  {
    p.lock.c in p.clients && !p.clients[p.lock.c].initialized
  }

  /** In guarded runs, nobody but the owner can clean up the library that all share. */
  lemma OnlyTheOwnerCleansUp(run: seq<Action>, d: ClientId)
    requires CanRun(EMPTY, run) && GuardedRun(EMPTY, run)
    requires After(EMPTY, run).owner.Some? && Enabled(After(EMPTY, run), BeginCleanup(d))
    ensures After(EMPTY, run).owner == Some(d)
  {
    SlotIsSafe(run);
    RunsKeepHandlesLive(EMPTY, run);
    var p := After(EMPTY, run);
    assert d in Live(p);
    assert d in {p.owner.value};
  }

  /** A clear or a cleanup of the owner, with nothing in flight, lets other clients start again. */
  lemma QuietEndFreesTheSlot(p: Process, a: Action, d: ClientId)
    requires Sound(p) && Enabled(p, a) && (a.EndClear? || a.EndCleanup?) && p.clients[a.c].inflight == 0
    requires p.owner.None? || p.owner == Some(a.c)
    ensures var q := Next(p, a);
            && q.owner == None && !q.clients[a.c].thunk && q.slot == None
            && (Enabled(q, Init(d)) <==> d !in q.clients)
  {}

  /** The owner that starts to clear is still the owner when its wait ends, for nobody else gets the lock. */
  lemma {:induction false} OwnerKeepsLockedSection(p: Process, run: seq<Action>, c: ClientId)
    requires Sound(p) && p.lock == Clearing(c) && p.owner == Some(c) && CanRun(p, run)
    requires forall i | 0 <= i < |run| :: run[i].CallbackEnters? || run[i].CallbackLeaves?
    ensures var q := After(p, run); q.lock == Clearing(c) && q.owner == Some(c) && Live(q) == Live(p)
    decreases |run|
  {
    if run != [] {
      LiveChanges(p, run[0]);
      StepIsSoundIffGuarded(p, run[0]);
      OwnerKeepsLockedSection(Next(p, run[0]), run[1..], c);
    }
  }

  /** So an owner that clears and reserves in one locked section is always the one live client. */
  lemma ReservingInOneStepIsGuarded(p: Process, run: seq<Action>, c: ClientId)
    requires Sound(p) && p.owner == Some(c) && Enabled(p, BeginClear(c, true))
    requires CanRun(Next(p, BeginClear(c, true)), run)
    requires forall i | 0 <= i < |run| :: run[i].CallbackEnters? || run[i].CallbackLeaves?
    ensures Guarded(After(Next(p, BeginClear(c, true)), run), EndClearReserving(c))
  {
    var a := BeginClear(c, true);
    LiveChanges(p, a);
    StepIsSoundIffGuarded(p, a);
    OwnerKeepsLockedSection(Next(p, a), run, c);
  }

  // ---- what the two separate locked sections of the closer admit

  /** Between the clear and the reservation another client can be created: two live clients and an owner. */
  lemma SeparateReservationAdmitsASecondClient()
    ensures var run := [Init(0), Install(0, true), BeginClear(0, true), EndClear(0), Init(1), Reserve(0)];
            && CanRun(EMPTY, run)
            && After(EMPTY, run).owner == Some(0) && Live(After(EMPTY, run)) == {0, 1}
            && Enabled(After(EMPTY, run), BeginCleanup(1))
  {
    var p1 := Next(EMPTY, Init(0));
    assert Live(p1) == {0};
    var p2 := Next(p1, Install(0, true));
    var p3 := Next(p2, BeginClear(0, true));
    var p4 := Next(p3, EndClear(0));
    var p5 := Next(p4, Init(1));
    var p6 := Next(p5, Reserve(0));
    assert Live(p6) == {0, 1};
    RunsOn(p5, Reserve(0), []);
    RunsOn(p4, Init(1), [Reserve(0)]);
    RunsOn(p3, EndClear(0), [Init(1), Reserve(0)]);
    RunsOn(p2, BeginClear(0, true), [EndClear(0), Init(1), Reserve(0)]);
    RunsOn(p1, Install(0, true), [BeginClear(0, true), EndClear(0), Init(1), Reserve(0)]);
    RunsOn(EMPTY, Init(0), [Install(0, true), BeginClear(0, true), EndClear(0), Init(1), Reserve(0)]);
  }

  lemma RunsOn(p: Process, a: Action, rest: seq<Action>)
    requires Enabled(p, a) && CanRun(Next(p, a), rest)
    ensures CanRun(p, [a] + rest) && After(p, [a] + rest) == After(Next(p, a), rest)
  {
    assert ([a] + rest)[1..] == rest;
  }

  /** A stale closer takes the ownership even from a client whose callback is installed, which then cannot clear it. */
  lemma StaleReservationTakesTheSlot(accepted: bool)
    ensures var run := [Init(0), BeginCleanup(0), EndCleanup(0), Init(1), Install(1, true), Reserve(0)];
            && CanRun(EMPTY, run)
            && After(EMPTY, run).slot == Some(1) && After(EMPTY, run).owner == Some(0)
            && !Enabled(After(EMPTY, run), BeginClear(1, accepted))
  {
    var p1 := Next(EMPTY, Init(0));
    var p2 := Next(p1, BeginCleanup(0));
    var p3 := Next(p2, EndCleanup(0));
    var p4 := Next(p3, Init(1));
    assert Live(p4) == {1};
    var p5 := Next(p4, Install(1, true));
    RunsOn(p5, Reserve(0), []);
    RunsOn(p4, Install(1, true), [Reserve(0)]);
    RunsOn(p3, Init(1), [Install(1, true), Reserve(0)]);
    RunsOn(p2, EndCleanup(0), [Init(1), Install(1, true), Reserve(0)]);
    RunsOn(p1, BeginCleanup(0), [EndCleanup(0), Init(1), Install(1, true), Reserve(0)]);
    RunsOn(EMPTY, Init(0), [BeginCleanup(0), EndCleanup(0), Init(1), Install(1, true), Reserve(0)]);
  }

  // ---- who can free the slot again

  /** The owner has no library handle any more, and is in no locked section of its own. */
  predicate Orphaned(p: Process, c: ClientId) {
    && p.owner == Some(c) && c in p.clients && !p.clients[c].initialized
    && p.lock != Clearing(c) && p.lock != Cleaning(c)
  }

  /** Nobody but `c` reserves. */
  predicate ReservedBy(run: seq<Action>, c: ClientId) {
    forall i | 0 <= i < |run| && Reserves(run[i]) :: run[i].c == c
  }

  /** An orphaned slot locks out everybody, also live clients with a handle: nobody can be created or install or clear
      a callback, in no continuation in which the others do not take the ownership over. */
  lemma {:induction false} OrphanedForever(p: Process, run: seq<Action>, c: ClientId, d: ClientId, accepted: bool)
    requires Orphaned(p, c) && CanRun(p, run) && ReservedBy(run, c)
    ensures Orphaned(After(p, run), c)
    ensures !Enabled(After(p, run), Init(d)) && !Enabled(After(p, run), Install(d, accepted))
    ensures !Enabled(After(p, run), BeginClear(d, accepted))
    decreases |run|
  {
    if run != [] {
      assert Reserves(run[0]) ==> run[0].c == c;
      OrphanedForever(Next(p, run[0]), run[1..], c, d, accepted);
    }
  }

  /** Callbacks leave one after the other. */
  function Leaving(c: ClientId, n: nat): (run: seq<Action>)
    ensures |run| == n && forall i | 0 <= i < n :: run[i] == CallbackLeaves(c)
  {
    seq(n, _ => CallbackLeaves(c))
  }

  lemma {:induction false} LeavingAndEnding(p: Process, c: ClientId, n: nat)
    requires c in p.clients && p.clients[c].inflight == n && p.lock == Clearing(c) && p.owner == Some(c)
    ensures CanRun(p, Leaving(c, n) + [EndClear(c)]) && After(p, Leaving(c, n) + [EndClear(c)]).owner.None?
    decreases n
  {
    if n == 0 {
      RunsOn(p, EndClear(c), []);
      assert Leaving(c, 0) + [EndClear(c)] == [EndClear(c)] + [];
    } else {
      LeavingAndEnding(Next(p, CallbackLeaves(c)), c, n - 1);
      RunsOn(p, CallbackLeaves(c), Leaving(c, n - 1) + [EndClear(c)]);
      assert Leaving(c, n) + [EndClear(c)] == [CallbackLeaves(c)] + (Leaving(c, n - 1) + [EndClear(c)]);
    }
  }

  ghost predicate CanBeFreed(p: Process, c: ClientId) {
    exists run :: ReservedBy(run, c) && CanRun(p, run) && After(p, run).owner.None?
  }

  /** The owner clears its callback, and those in flight leave. */
  lemma OwnerFrees(p: Process, c: ClientId) returns (run: seq<Action>)
    requires p.lock.Free? && p.owner == Some(c) && c in p.clients && p.clients[c].initialized
    ensures CanRun(p, run) && After(p, run).owner.None?
    ensures forall i | 0 <= i < |run| :: !Reserves(run[i])
  {
    var rest := Leaving(c, p.clients[c].inflight) + [EndClear(c)];
    LeavingAndEnding(Next(p, BeginClear(c, true)), c, p.clients[c].inflight);
    RunsOn(p, BeginClear(c, true), rest);
    run := [BeginClear(c, true)] + rest;
  }

  /** Main result on a stuck slot: unless another client takes the ownership over, it can become free again exactly
      when its owner still has a library handle. */
  lemma OwnerCanBeFreedIff(p: Process, c: ClientId)
    requires p.lock.Free? && p.owner == Some(c) && c in p.clients
    ensures CanBeFreed(p, c) <==> p.clients[c].initialized
  {
    if p.clients[c].initialized {
      var run := OwnerFrees(p, c);
    } else {
      forall run | ReservedBy(run, c) && CanRun(p, run) ensures After(p, run).owner.Some? {
        OrphanedForever(p, run, c, c, true);
      }
    }
  }

  /** A close that fails: its client ends as owner of a slot that is clear. */
  const FAILED_CLOSE := [Init(0), Install(0, true), BeginClear(0, true), EndClear(0), Reserve(0)]

  /** Its client is cleaned up, the next one starts, and the close is retried. */
  const RETRIED_CLOSE := FAILED_CLOSE + [BeginCleanup(0), EndCleanup(0), Init(1), Reserve(0)]

  lemma {:induction false} JoinRuns(p: Process, front: seq<Action>, back: seq<Action>)
    requires CanRun(p, front) && CanRun(After(p, front), back)
    ensures CanRun(p, front + back) && After(p, front + back) == After(After(p, front), back)
    decreases |front|
  {
    if front == [] {
      assert front + back == back;
    } else {
      assert (front + back)[1..] == front[1..] + back;
      JoinRuns(Next(p, front[0]), front[1..], back);
    }
  }

  lemma FailedCloseRuns()
    ensures CanRun(EMPTY, FAILED_CLOSE)
    ensures After(EMPTY, FAILED_CLOSE) == Process(Some(0), None, map[0 := Client(true, true, false, 0, false)], Free)
  {
    var p1 := Next(EMPTY, Init(0));
    assert Live(p1) == {0};
    var p2 := Next(p1, Install(0, true));
    var p3 := Next(p2, BeginClear(0, true));
    var p4 := Next(p3, EndClear(0));
    RunsOn(p4, Reserve(0), []);
    RunsOn(p3, EndClear(0), [Reserve(0)]);
    RunsOn(p2, BeginClear(0, true), [EndClear(0), Reserve(0)]);
    RunsOn(p1, Install(0, true), [BeginClear(0, true), EndClear(0), Reserve(0)]);
    RunsOn(EMPTY, Init(0), [Install(0, true), BeginClear(0, true), EndClear(0), Reserve(0)]);
  }

  lemma RetriedCloseRuns()
    ensures CanRun(EMPTY, RETRIED_CLOSE)
    ensures var p := After(EMPTY, RETRIED_CLOSE); Orphaned(p, 0) && Live(p) == {1} && p.clients[1].initialized
  {
    FailedCloseRuns();
    RetryRuns(After(EMPTY, FAILED_CLOSE));
    JoinRuns(EMPTY, FAILED_CLOSE, [BeginCleanup(0), EndCleanup(0), Init(1), Reserve(0)]);
  }

  lemma RetryRuns(p: Process)
    requires p == Process(Some(0), None, map[0 := Client(true, true, false, 0, false)], Free)
    ensures var rest := [BeginCleanup(0), EndCleanup(0), Init(1), Reserve(0)];
            && CanRun(p, rest)
            && var q := After(p, rest); Orphaned(q, 0) && Live(q) == {1} && q.clients[1].initialized
  {
    var p6 := Next(p, BeginCleanup(0));
    var p7 := Next(p6, EndCleanup(0));
    var p8 := Next(p7, Init(1));
    var p9 := Next(p8, Reserve(0));
    assert Live(p9) == {1};
    RunsOn(p8, Reserve(0), []);
    RunsOn(p7, Init(1), [Reserve(0)]);
    RunsOn(p6, EndCleanup(0), [Init(1), Reserve(0)]);
    RunsOn(p, BeginCleanup(0), [EndCleanup(0), Init(1), Reserve(0)]);
  }

  /** That client is live, with its handle, and locked out for good: it can install no callback, and no other client
      can be created. */
  lemma RetryLocksOutALiveClient(more: seq<Action>, d: ClientId, accepted: bool)
    requires ReservedBy(more, 0)
    ensures CanRun(EMPTY, RETRIED_CLOSE)
    ensures var p := After(EMPTY, RETRIED_CLOSE);
            && Live(p) == {1} && p.clients[1].initialized
            && (CanRun(p, more) ==>
                  !Enabled(After(p, more), Init(d)) && !Enabled(After(p, more), Install(d, accepted)))
  {
    RetriedCloseRuns();
    var p := After(EMPTY, RETRIED_CLOSE);
    if CanRun(p, more) {
      OrphanedForever(p, more, 0, d, accepted);
    }
  }

  /** An owner, and no client that has a library handle to take the slot over with. */
  ghost predicate DeadOwner(p: Process) {
    p.owner.Some? && p.lock.Free? && forall c | c in p.clients :: !p.clients[c].initialized
  }

  /** Nothing frees such a slot: in no run from there can a client be created again. */
  lemma {:induction false} DeadOwnerIsForever(p: Process, run: seq<Action>, c: ClientId)
    requires DeadOwner(p) && CanRun(p, run)
    ensures DeadOwner(After(p, run)) && !Enabled(After(p, run), Init(c))
    decreases |run|
  {
    if run != [] {
      DeadOwnerIsForever(Next(p, run[0]), run[1..], c);
    }
  }

  /** With no restriction on who reserves, the slot can become free again exactly when some client has a handle: its
      own stale closer may take the ownership over and give it up. */
  lemma SomebodyFreesIff(p: Process)
    requires p.lock.Free? && p.owner.Some?
    ensures (exists run :: CanRun(p, run) && After(p, run).owner.None?)
            <==> exists c | c in p.clients :: p.clients[c].initialized
  {
    if c :| c in p.clients && p.clients[c].initialized {
      var rest := OwnerFrees(Next(p, Reserve(c)), c);
      RunsOn(p, Reserve(c), rest);
      assert CanRun(p, [Reserve(c)] + rest);
    } else {
      forall run | CanRun(p, run) ensures After(p, run).owner.Some? {
        DeadOwnerIsForever(p, run, 0);
      }
    }
  }

  /** A failed close that is retried after its client was cleaned up makes a dead owner. */
  lemma ReservationAfterCleanupMakesADeadOwner()
    ensures var run := [Init(0), Install(0, true), BeginCleanup(0), EndCleanup(0), Reserve(0)];
            CanRun(EMPTY, run) && DeadOwner(After(EMPTY, run))
  {
    var p1 := Next(EMPTY, Init(0));
    assert Live(p1) == {0};
    var p2 := Next(p1, Install(0, true));
    var p3 := Next(p2, BeginCleanup(0));
    var p4 := Next(p3, EndCleanup(0));
    RunsOn(p4, Reserve(0), []);
    RunsOn(p3, EndCleanup(0), [Reserve(0)]);
    RunsOn(p2, BeginCleanup(0), [EndCleanup(0), Reserve(0)]);
    RunsOn(p1, Install(0, true), [BeginCleanup(0), EndCleanup(0), Reserve(0)]);
    RunsOn(EMPTY, Init(0), [Install(0, true), BeginCleanup(0), EndCleanup(0), Reserve(0)]);
  }
}
