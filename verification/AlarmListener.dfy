/** Slot accounting of the bounded alarm listener: the accept loop, its handler threads and `close`, interleaved. */
module AlarmListener {
  import opened Sockets

  type Tid = nat

  datatype Socket = Absent | Present

  /** The fields of the server. `slots` is the value of the bounded semaphore. */
  datatype Server = Server(max: nat, slots: nat, threads: set<Tid>, stop: bool, socket: Socket)

  // ---- the atomic steps on the server's fields

  function TakeSlot(s: Server): Server
    requires s.slots > 0
  {
    s.(slots := s.slots - 1)
  }

  /** A bounded semaphore refuses a release beyond its initial value. */
  function GiveSlot(s: Server): (r: Server)
    requires s.slots < s.max
    ensures r.slots <= r.max
  {
    s.(slots := s.slots + 1)
  }

  function Register(s: Server, t: Tid): Server {
    s.(threads := s.threads + {t})
  }

  function Unregister(s: Server, t: Tid): Server {
    s.(threads := s.threads - {t})
  }

  class AlarmServer {
    const max: nat
    var slots: nat
    var threads: set<Tid>
    var stop: bool
    var socket: Socket

    function View(): Server
      reads this
    {
      Server(max, slots, threads, stop, socket)
    }

    constructor (max: nat)
      requires max > 0
      ensures View() == Server(max, max, {}, false, Absent)
    {
      this.max, slots, threads, stop, socket := max, max, {}, false, Absent;
    }

    method Start() returns (ok: bool)
      modifies this`socket
      ensures ok == old(socket).Absent?
      ensures View() == old(View()).(socket := Present)
    {
      if socket.Present? {
        return false;
      }
      socket := Present;
      ok := true;
    }

    method TryAcquire() returns (ok: bool)
      modifies this`slots
      ensures ok == (old(slots) > 0)
      ensures View() == if ok then TakeSlot(old(View())) else old(View())
    {
      ok := slots > 0;
      if ok {
        slots := slots - 1;
      }
    }

    method Release()
      requires slots < max
      modifies this`slots
      ensures View() == GiveSlot(old(View()))
    {
      slots := slots + 1;
    }

    /** Registers and starts the thread in one locked section; a failed start leaves no trace. */
    method Publish(t: Tid, starts: bool)
      requires t !in threads
      modifies this`threads
      ensures View() == if starts then Register(old(View()), t) else old(View())
    {
      threads := threads + {t};
      if !starts {
        threads := threads - {t};
      }
    }

    method Discard(t: Tid)
      modifies this`threads
      ensures View() == Unregister(old(View()), t)
    {
      threads := threads - {t};
    }

    /** The part of `close` before it joins; `joined` is the set of threads it will wait for. */
    method StopAccepting() returns (joined: set<Tid>)
      modifies this`stop, this`socket
      ensures View() == old(View()).(stop := true, socket := Absent)
      ensures joined == threads
    {
      stop := true;
      if socket.Present? {
        socket := Absent;
      }
      joined := threads;
    }
  }

  // ---- interleavings

  /** Where the accept loop stands. */
  datatype LoopPc = AtCheck | AtAccept | Waiting | Connected | Acquired | StartFailed | Finished | Crashed

  /** A handler has read its connection, then left the thread set, then released its slot. */
  datatype HandlerPc = Running | Unregistered | Released

  datatype World = World(server: Server, loop: LoopPc, handlers: map<Tid, HandlerPc>, joins: set<Tid>,
                         taken: nat, given: nat)

  datatype Accepted = Connection | Timeout | SocketError

  datatype Action =
    | CheckStop
    | CallAccept
    | AcceptReturns(result: Accepted)
    | TryAcquire
    | Publish(t: Tid, starts: bool)
    | ReleaseAfterFailure
    | HandlerLeaves(t: Tid)
    | HandlerReleases(t: Tid)
    | SetStop
    | CloseSocket
    | SnapshotThreads

  function Started(max: nat): World {
    World(Server(max, max, {}, false, Present), AtCheck, map[], {}, 0, 0)
  }

  predicate Enabled(w: World, a: Action) {
    match a
    case CheckStop => w.loop.AtCheck?
    case CallAccept => w.loop.AtAccept?
    case AcceptReturns(_) => w.loop.Waiting?
    case TryAcquire => w.loop.Connected?
    case Publish(t, _) => w.loop.Acquired? && t !in w.handlers
    case ReleaseAfterFailure => w.loop.StartFailed? && w.server.slots < w.server.max
    case HandlerLeaves(t) => t in w.handlers && w.handlers[t].Running?
    case HandlerReleases(t) => t in w.handlers && w.handlers[t].Unregistered? && w.server.slots < w.server.max
    case CloseSocket => w.server.stop
    case _ => true
  }

  /** `close` empties the socket field, so the accept call that follows a passed check may find nothing to call. */
  function Next(w: World, a: Action): World
    requires Enabled(w, a)
  {
    match a
    case CheckStop => w.(loop := if w.server.stop then Finished else AtAccept)
    case CallAccept => w.(loop := if w.server.socket.Absent? then Crashed else Waiting)
    case AcceptReturns(result) =>
      w.(loop := match result
                 case Connection => Connected
                 case Timeout => AtCheck
                 case SocketError => Finished)
    case TryAcquire =>
      if w.server.slots > 0 then w.(server := TakeSlot(w.server), loop := Acquired, taken := w.taken + 1)
      else w.(loop := AtCheck)
    case Publish(t, starts) =>
      if starts then w.(server := Register(w.server, t), handlers := w.handlers[t := Running], loop := AtCheck)
      else w.(loop := StartFailed)
    case ReleaseAfterFailure => w.(server := GiveSlot(w.server), loop := AtCheck, given := w.given + 1)
    case HandlerLeaves(t) => w.(server := Unregister(w.server, t), handlers := w.handlers[t := Unregistered])
    case HandlerReleases(t) =>
      w.(server := GiveSlot(w.server), handlers := w.handlers[t := Released], given := w.given + 1)
    case SetStop => w.(server := w.server.(stop := true))
    case CloseSocket => w.(server := w.server.(socket := Absent))
    case SnapshotThreads => w.(joins := w.server.threads)
  }

  predicate CanRun(w: World, run: seq<Action>)
    decreases |run|
  {
    run == [] || (Enabled(w, run[0]) && CanRun(Next(w, run[0]), run[1..]))
  }

  function After(w: World, run: seq<Action>): World
    requires CanRun(w, run)
    decreases |run|
  {
    if run == [] then w else After(Next(w, run[0]), run[1..])
  }

  /** The handlers that still have to give their slot back. */
  function Busy(w: World): set<Tid> {
    set t | t in w.handlers && !w.handlers[t].Released?
  }

  /** Slots taken but not yet given back: one per busy handler, and one in the accept loop's hands. */
  function Outstanding(w: World): nat {
    |Busy(w)| + if w.loop.Acquired? || w.loop.StartFailed? then 1 else 0
  }

  predicate Counted(w: World) {
    w.server.slots + Outstanding(w) == w.server.max && w.taken == w.given + Outstanding(w)
  }

  ghost predicate ThreadsKnown(w: World) {
    && (forall t :: t in w.server.threads <==> t in w.handlers && w.handlers[t].Running?)
    && (forall t | t in w.joins :: t in w.handlers)
  }

  ghost predicate Accounted(w: World) {
    Counted(w) && ThreadsKnown(w)
  }

  lemma BusyChanges(w: World, a: Action)
    requires Enabled(w, a)
    ensures Busy(Next(w, a)) ==
            match a
            case Publish(t, starts) => if starts then Busy(w) + {t} else Busy(w)
            case HandlerReleases(t) => Busy(w) - {t}
            case _ => Busy(w)
  {}

  lemma StepKeepsCounted(w: World, a: Action)
    requires Counted(w) && Enabled(w, a)
    ensures Counted(Next(w, a))
  {
    BusyChanges(w, a);
    match a {
      case Publish(t, starts) =>
        assert t !in Busy(w) && |Busy(w) + {t}| == |Busy(w)| + 1;
      case HandlerReleases(t) =>
        assert t in Busy(w) && |Busy(w) - {t}| == |Busy(w)| - 1;
      case _ =>
    }
  }

  lemma StepKeepsThreadsKnown(w: World, a: Action)
    requires ThreadsKnown(w) && Enabled(w, a)
    ensures ThreadsKnown(Next(w, a))
  {}

  lemma StepKeepsAccounted(w: World, a: Action)
    requires Accounted(w) && Enabled(w, a)
    ensures Accounted(Next(w, a))
  {
    StepKeepsCounted(w, a);
    StepKeepsThreadsKnown(w, a);
  }

  lemma {:induction false} RunsAreAccounted(w: World, run: seq<Action>)
    requires Accounted(w) && CanRun(w, run)
    ensures Accounted(After(w, run))
    decreases |run|
  {
    if run != [] {
      StepKeepsAccounted(w, run[0]);
      RunsAreAccounted(Next(w, run[0]), run[1..]);
    }
  }

  /** Main result: in every interleaving, free slots and outstanding acquisitions add up to the maximum, every
      acquisition is given back once at most, and `close` only ever waits for threads that were started. */
  lemma SlotsAreConserved(max: nat, run: seq<Action>)
    requires max > 0 && CanRun(Started(max), run)
    ensures var w := After(Started(max), run);
            && w.server.slots + Outstanding(w) == max
            && w.taken - w.given == Outstanding(w)
            && (forall t | t in w.joins :: t in w.handlers)
  {
    assert Busy(Started(max)) == {};
    RunsAreAccounted(Started(max), run);
    MaxIsFixed(Started(max), run);
  }

  lemma {:induction false} MaxIsFixed(w: World, run: seq<Action>)
    requires CanRun(w, run)
    ensures After(w, run).server.max == w.server.max
    decreases |run|
  {
    if run != [] {
      MaxIsFixed(Next(w, run[0]), run[1..]);
    }
  }

  /** A pending release is always accepted by the semaphore, and performs exactly one give-back. */
  lemma ReleaseNeverOverflows(max: nat, run: seq<Action>, t: Tid)
    requires max > 0 && CanRun(Started(max), run)
    ensures var w := After(Started(max), run);
            && (w.loop.StartFailed? ==> Enabled(w, ReleaseAfterFailure))
            && (t in w.handlers && w.handlers[t].Unregistered? ==> Enabled(w, HandlerReleases(t)))
  {
    SlotsAreConserved(max, run);
    MaxIsFixed(Started(max), run);
    var w := After(Started(max), run);
    if t in w.handlers && w.handlers[t].Unregistered? {
      assert t in Busy(w);
    }
  }

  /** Once the loop has ended and every handler has released, the semaphore is full again. */
  lemma IdleServerHasAllSlots(max: nat, run: seq<Action>)
    requires max > 0 && CanRun(Started(max), run)
    requires var w := After(Started(max), run); Busy(w) == {} && !w.loop.Acquired? && !w.loop.StartFailed?
    ensures After(Started(max), run).server.slots == max
  {
    SlotsAreConserved(max, run);
  }

  // ---- how the accept loop ends

  predicate Calls(run: seq<Action>) {
    exists j | 0 <= j < |run| :: run[j].CallAccept?
  }

  /** The accept loop still makes a call after the socket field was emptied. */
  predicate CallsAfterClosing(run: seq<Action>) {
    exists i, j | 0 <= i < j < |run| :: run[i].CloseSocket? && run[j].CallAccept?
  }

  lemma FrontOf(run: seq<Action>)
    requires run != []
    ensures Calls(run) <==> run[0].CallAccept? || Calls(run[1..])
    ensures CallsAfterClosing(run) <==> (run[0].CloseSocket? && Calls(run[1..])) || CallsAfterClosing(run[1..])
  {
    var rest := run[1..];
    assert forall i | 0 <= i < |rest| :: rest[i] == run[i + 1];
    if Calls(rest) {
      var j :| 0 <= j < |rest| && rest[j].CallAccept?;
      assert run[j + 1].CallAccept?;
    }
    if CallsAfterClosing(rest) {
      var i, j :| 0 <= i < j < |rest| && rest[i].CloseSocket? && rest[j].CallAccept?;
      assert run[i + 1].CloseSocket? && run[j + 1].CallAccept?;
    }
    if Calls(run) && !run[0].CallAccept? {
      var j :| 0 <= j < |run| && run[j].CallAccept?;
      assert rest[j - 1].CallAccept?;
    }
    if CallsAfterClosing(run) {
      var i, j :| 0 <= i < j < |run| && run[i].CloseSocket? && run[j].CallAccept?;
      assert rest[j - 1].CallAccept?;
      assert i > 0 ==> rest[i - 1].CloseSocket?;
    }
  }

  /** A loop that failed stays failed and calls nothing. */
  lemma {:induction false} CrashedIsForever(w: World, run: seq<Action>)
    requires w.loop.Crashed? && CanRun(w, run)
    ensures After(w, run).loop.Crashed? && !Calls(run)
    decreases |run|
  {
    if run != [] {
      CrashedIsForever(Next(w, run[0]), run[1..]);
      FrontOf(run);
    }
  }

  /** With the socket gone, the next call fails. */
  lemma {:induction false} ClosedLoopCrashesIff(w: World, run: seq<Action>)
    requires w.server.socket.Absent? && !w.loop.Crashed? && CanRun(w, run)
    ensures After(w, run).loop.Crashed? <==> Calls(run)
    decreases |run|
  {
    if run != [] {
      FrontOf(run);
      if run[0].CallAccept? {
        CrashedIsForever(Next(w, run[0]), run[1..]);
      } else {
        ClosedLoopCrashesIff(Next(w, run[0]), run[1..]);
      }
    }
  }

  lemma {:induction false} OpenLoopCrashesIff(w: World, run: seq<Action>)
    requires w.server.socket.Present? && !w.loop.Crashed? && CanRun(w, run)
    ensures After(w, run).loop.Crashed? <==> CallsAfterClosing(run)
    decreases |run|
  {
    if run != [] {
      FrontOf(run);
      if run[0].CloseSocket? {
        ClosedLoopCrashesIff(Next(w, run[0]), run[1..]);
      } else {
        OpenLoopCrashesIff(Next(w, run[0]), run[1..]);
      }
    }
  }

  /** Main result on the accept loop: it fails on the missing socket exactly when it calls `accept` after `close`
      emptied the field. */
  lemma LoopCrashesIff(max: nat, run: seq<Action>)
    requires CanRun(Started(max), run)
    ensures After(Started(max), run).loop.Crashed? <==> CallsAfterClosing(run)
  {
    OpenLoopCrashesIff(Started(max), run);
  }

  /** Once stopped, a loop that is past its calls makes no other: it ends at the next check. */
  lemma {:induction false} StoppedLoopCallsNoMore(w: World, run: seq<Action>)
    requires w.server.stop && !w.loop.AtAccept? && !w.loop.Crashed? && CanRun(w, run)
    ensures !Calls(run) && !After(w, run).loop.Crashed?
    decreases |run|
  {
    if run != [] {
      FrontOf(run);
      StoppedLoopCallsNoMore(Next(w, run[0]), run[1..]);
    }
  }

  lemma {:induction false} SplitRun(w: World, front: seq<Action>, back: seq<Action>)
    requires CanRun(w, front + back)
    ensures CanRun(w, front) && CanRun(After(w, front), back)
    ensures After(w, front + back) == After(After(w, front), back)
    decreases |front|
  {
    if front == [] {
      assert front + back == back;
    } else {
      assert (front + back)[1..] == front[1..] + back;
      SplitRun(Next(w, front[0]), front[1..], back);
    }
  }

  lemma {:induction false} OpenUntilClosed(w: World, run: seq<Action>)
    requires w.server.socket.Present? && !w.loop.Crashed? && CanRun(w, run)
    requires forall i | 0 <= i < |run| :: !run[i].CloseSocket?
    ensures After(w, run).server.socket.Present? && !After(w, run).loop.Crashed?
    decreases |run|
  {
    if run != [] {
      OpenUntilClosed(Next(w, run[0]), run[1..]);
    }
  }

  /** Where the first emptying of the socket field is dangerous: the loop fails later exactly when it stood between its
      check and its call at that moment, and the call is made. */
  lemma CloseIsDangerousIff(max: nat, before: seq<Action>, later: seq<Action>)
    requires CanRun(Started(max), before + ([CloseSocket] + later))
    requires forall i | 0 <= i < |before| :: !before[i].CloseSocket?
    ensures CanRun(Started(max), before)
    ensures After(Started(max), before + ([CloseSocket] + later)).loop.Crashed? <==>
              After(Started(max), before).loop.AtAccept? && Calls(later)
  {
    SplitRun(Started(max), before, [CloseSocket] + later);
    var w := After(Started(max), before);
    OpenUntilClosed(Started(max), before);
    assert ([CloseSocket] + later)[1..] == later;
    var v := Next(w, CloseSocket);
    if w.loop.AtAccept? {
      ClosedLoopCrashesIff(v, later);
    } else {
      StoppedLoopCallsNoMore(v, later);
    }
  }

  ghost predicate SocketLeavesAfterStop(w: World) {
    (w.server.socket.Absent? ==> w.server.stop) && (w.loop.Crashed? ==> w.server.socket.Absent?)
  }

  /** So without a `close` it never fails. */
  lemma {:induction false} CrashOnlyAfterClose(w: World, run: seq<Action>)
    requires SocketLeavesAfterStop(w) && CanRun(w, run)
    ensures After(w, run).loop.Crashed? ==> After(w, run).server.stop
    decreases |run|
  {
    if run != [] {
      CrashOnlyAfterClose(Next(w, run[0]), run[1..]);
    }
  }

  /** `close` is not a clean way out of the accept loop: when it empties the socket field between the loop's check
      and its call, the loop fails on the missing socket instead of ending. */
  lemma CrashIsReachable(max: nat)
    ensures var run := [CheckStop, SetStop, CloseSocket, CallAccept];
            CanRun(Started(max), run) && After(Started(max), run).loop.Crashed?
  {
    var w := Started(max);
    var w1 := Next(w, CheckStop);
    var w2 := Next(w1, SetStop);
    var w3 := Next(w2, CloseSocket);
    RunsOn(w3, CallAccept, []);
    RunsOn(w2, CloseSocket, [CallAccept]);
    RunsOn(w1, SetStop, [CloseSocket, CallAccept]);
    RunsOn(w, CheckStop, [SetStop, CloseSocket, CallAccept]);
  }

  lemma RunsOn(w: World, a: Action, rest: seq<Action>)
    requires Enabled(w, a) && CanRun(Next(w, a), rest)
    ensures CanRun(w, [a] + rest) && After(w, [a] + rest) == After(Next(w, a), rest)
  {
    assert ([a] + rest)[1..] == rest;
  }

  // ---- one connection

  type Byte = b: int | 0 <= b < 256

  const MAX_FRAME_SIZE := 65536
  const MAX_CONN_BYTES := MAX_FRAME_SIZE * 4
  const CHUNK := 4096

  /** What a handler keeps of a connection, whose peer may send any chunks; `stalls` says which of the handler's
      receives time out. It reads until the first that does, until the peer has closed, or until the bound; so it keeps
      a prefix of what was sent, of bounded size. */
  method ReadConnection(sent: seq<Byte>, stalls: nat -> bool) returns (data: seq<Byte>, receives: nat)
    ensures |data| <= |sent| && data == sent[..|data|]
    ensures |data| <= MAX_CONN_BYTES - 1 + CHUNK
    ensures forall i: nat | i + 1 < receives :: !stalls(i)
    ensures |data| < MAX_CONN_BYTES && data != sent ==> receives > 0 && stalls(receives - 1)
    ensures (forall i: nat :: !stalls(i)) ==> data == sent || |data| >= MAX_CONN_BYTES
    ensures receives <= |data| + 1
  {
    data, receives := [], 0;
    while |data| < MAX_CONN_BYTES
      invariant |data| <= |sent| && data == sent[..|data|]
      invariant |data| <= MAX_CONN_BYTES - 1 + CHUNK
      invariant receives <= |data| && forall i: nat | i < receives :: !stalls(i)
      decreases |sent| - |data|
    {
      receives := receives + 1;
      if stalls(receives - 1) {
        return;
      }
      var chunk := Recv(sent, |data|, CHUNK);
      if chunk == [] {
        return;
      }
      data := data + chunk;
    }
  }
}
