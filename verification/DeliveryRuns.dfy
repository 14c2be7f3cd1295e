/** Runs of the acknowledged delivery protocol: one stream at the runtime, a series of client proxies,
    and exchanges that may lose the request, lose the reply or return one that does not parse. */
module DeliveryRuns {
  import opened Outcomes
  import opened PlateStream

  /** Whether the runtime confirms a repeated acknowledgement of the last acknowledged sequence
      only while it retains nothing, or also while the next delivery is already outstanding. */
  datatype RepeatPolicy = WhileIdle | Always

  /** The runtime retains at most one delivery until its sequence is acknowledged. */
  datatype Runtime = Runtime(policy: RepeatPolicy, issued: seq<int>, outstanding: Option<(int, Event)>,
                             lastAcked: Option<int>, stopped: bool)

  datatype Fate<+T> = RequestLost | ReplyLost | Malformed(reply: T) | Arrives

  /** `arrival` is the event the runtime has queued, with the sequence it would be given. */
  function ServePoll(r: Runtime, arrival: Option<(int, Event)>): (Runtime, RawPoll) {
    if r.stopped then (r, Garbage)
    else if r.outstanding.Some? then
      (r, RawPoll.Poll([Some(r.outstanding.value.1)], Some(r.outstanding.value.0), Some(0)))
    else if arrival.Some? then
      (r.(issued := r.issued + [arrival.value.0], outstanding := arrival),
       RawPoll.Poll([Some(arrival.value.1)], Some(arrival.value.0), Some(0)))
    else (r, RawPoll.Poll([], None, Some(0)))
  }

  function ServeAck(r: Runtime, s: int): (Runtime, RawAck) {
    if r.stopped then (r, GarbledAck)
    else if r.outstanding.Some? && r.outstanding.value.0 == s then
      (r.(outstanding := None, lastAcked := Some(s)), Acked(s, Some(0)))
    else if r.lastAcked == Some(s) && (r.outstanding.None? || r.policy.Always?) then (r, Acked(s, Some(0)))
    else (r, GarbledAck)
  }

  function ServeStop(r: Runtime): Runtime {
    r.(outstanding := None, stopped := true)
  }

  /** `returned` is what polls gave the consumer, `ackCalls` the sequences it called `ack` for; `polled` says that
      the current proxy has sent a poll, `ackOpen` that it sent an acknowledgement it could not confirm. */
  datatype World = World(runtime: Runtime, client: Client, returned: seq<(int, Event)>, ackCalls: set<int>,
                         polled: bool, ackOpen: bool)

  datatype Action =
    | PollOnce(arrival: Option<(int, Event)>, pollFate: Fate<RawPoll>)
    | AckOnce(ackFate: Fate<RawAck>)
    | CloseOnce(discardUnacked: bool, stopFate: Fate<()>)
    | Attach

  function Start(policy: RepeatPolicy): World {
    World(Runtime(policy, [], None, None, false), Fresh(true, 0), [], {}, false, false)
  }

  /** Sequence numbers grow; a malformed reply is one that the proxy's validators reject. */
  predicate Enabled(w: World, a: Action) {
    match a
    case PollOnce(arrival, fate) =>
      && !w.client.closed
      && (arrival.Some? ==> forall i | 0 <= i < |w.runtime.issued| :: w.runtime.issued[i] < arrival.value.0)
      && (fate.Malformed? ==> !Parses(fate.reply, 1, true))
    case AckOnce(fate) =>
      && AckRefusal(w.client).None?
      && (fate.Malformed? ==> !AckParses(fate.reply, w.client.pending.value))
    case CloseOnce(_, fate) => !w.client.closed && !fate.Malformed?
    case Attach => !w.runtime.stopped
  }

  function Seen<T>(fate: Fate<T>, reply: T): Exchange<T> {
    match fate
    case RequestLost => Raised
    case ReplyLost => Raised
    case Malformed(m) => Replied(m)
    case Arrives => Replied(reply)
  }

  function Next(w: World, a: Action): World
    requires Enabled(w, a)
  {
    match a
    case PollOnce(arrival, fate) =>
      var (r, raw) := ServePoll(w.runtime, arrival);
      var (c, got) := AfterPoll(w.client, 1, Seen(fate, raw));
      w.(runtime := if fate.RequestLost? then w.runtime else r, client := c, polled := true,
         returned := if got.Ok? && got.value != [] && c.pending.Some?
                     then w.returned + [(c.pending.value, got.value[0])] else w.returned)
    case AckOnce(fate) =>
      var s := w.client.pending.value;
      var (r, raw) := ServeAck(w.runtime, s);
      var (c, done) := AfterAck(w.client, Seen(fate, raw));
      w.(runtime := if fate.RequestLost? then w.runtime else r, client := c,
         ackCalls := w.ackCalls + {s}, ackOpen := done.Err?)
    case CloseOnce(discardUnacked, fate) =>
      var stops := SendsStop(w.client, discardUnacked);
      var (c, done) := AfterClose(w.client, discardUnacked, Seen(fate, ()));
      w.(runtime := if stops && !fate.RequestLost? then ServeStop(w.runtime) else w.runtime, client := c)
    case Attach => w.(client := Fresh(true, 0), polled := false, ackOpen := false)
  }

  predicate CanRun(w: World, run: seq<Action>)
    decreases |run|
  {
    run == [] || (Enabled(w, run[0]) && CanRun(Next(w, run[0]), run[1..]))
  }

  function After(w: World, run: seq<Action>): World
    requires CanRun(w, run)
    decreases |run|
  {
    if run == [] then w else After(Next(w, run[0]), run[1..])
  }

  // ---- at least once, in order

  ghost predicate Grows(s: seq<int>) {
    forall i, j | 0 <= i < j < |s| :: s[i] < s[j]
  }

  /** What was returned comes in issue order, each sequence always with the same event. */
  ghost predicate OrderedReturns(returned: seq<(int, Event)>) {
    forall i, j | 0 <= i < j < |returned| ::
      returned[i].0 <= returned[j].0 && (returned[i].0 == returned[j].0 ==> returned[i].1 == returned[j].1)
  }

  ghost predicate Returned(w: World, s: int) {
    exists i | 0 <= i < |w.returned| :: w.returned[i].0 == s
  }

  ghost predicate Settled(w: World, s: int) {
    Returned(w, s) && s in w.ackCalls
  }

  ghost predicate Outstanding(w: World, s: int) {
    w.runtime.outstanding.Some? && w.runtime.outstanding.value.0 == s
  }

  ghost predicate KnownReturns(r: Runtime, returned: seq<(int, Event)>) {
    && (forall i | 0 <= i < |returned| :: |r.issued| > 0 && returned[i].0 <= r.issued[|r.issued| - 1])
    && (r.outstanding.Some? ==>
          forall i | 0 <= i < |returned| ::
            returned[i].0 == r.outstanding.value.0 ==> returned[i] == r.outstanding.value)
  }

  ghost predicate RuntimeShape(r: Runtime) {
    && Grows(r.issued)
    && (r.outstanding.Some? ==> |r.issued| > 0 && r.issued[|r.issued| - 1] == r.outstanding.value.0)
  }

  /** Every sequence the runtime ever issued, other than the one it retains, reached the consumer and was
      acknowledged by it. */
  ghost predicate NothingLost(w: World) {
    !w.runtime.stopped ==> forall s | s in w.runtime.issued :: Outstanding(w, s) || Settled(w, s)
  }

  ghost predicate Faithful(w: World) {
    && w.client.acked
    && RuntimeShape(w.runtime) && OrderedReturns(w.returned) && KnownReturns(w.runtime, w.returned)
    && (w.client.pending.Some? ==> Returned(w, w.client.pending.value))
    && NothingLost(w)
  }

  lemma ServingKeepsFaithful(w: World, arrival: Option<(int, Event)>)
    requires Faithful(w) && Enabled(w, PollOnce(arrival, RequestLost))
    ensures Faithful(w.(runtime := ServePoll(w.runtime, arrival).0))
  {
    var r := w.runtime;
    var w' := w.(runtime := ServePoll(r, arrival).0);
    if w'.runtime != r {
      var s := arrival.value.0;
      assert w'.runtime.issued == r.issued + [s];
      assert |r.issued| > 0 ==> r.issued[|r.issued| - 1] < s;
      assert forall i | 0 <= i < |w.returned| :: w.returned[i].0 < s;
      forall q | q in w'.runtime.issued ensures Outstanding(w', q) || Settled(w', q) {
        if q in r.issued {
          assert !Outstanding(w, q);
          assert Settled(w, q);
          assert Settled(w', q);
        }
      }
    }
  }

  lemma MoreReturned(w: World, w': World)
    requires w.returned <= w'.returned
    ensures forall s | Returned(w, s) :: Returned(w', s)
  {
    forall s | Returned(w, s) ensures Returned(w', s) {
      var i :| 0 <= i < |w.returned| && w.returned[i].0 == s;
      assert w'.returned[i].0 == s;
    }
  }

  lemma ReceivingKeepsFaithful(w: World, w': World)
    requires Faithful(w) && w.runtime.outstanding.Some?
    requires w' == w.(client := w'.client, polled := true, returned := w.returned + [w.runtime.outstanding.value])
    requires w'.client.acked && w'.client.pending == Some(w.runtime.outstanding.value.0)
    ensures Faithful(w')
  {
    MoreReturned(w, w');
    var last := w'.returned[|w.returned|];
    assert last == w.runtime.outstanding.value;
    assert Returned(w', last.0);
    forall s | s in w'.runtime.issued && !w'.runtime.stopped ensures Outstanding(w', s) || Settled(w', s) {
      assert Outstanding(w, s) || Settled(w, s);
    }
  }

  lemma SameReturns(w: World, w': World)
    requires Faithful(w) && w'.returned == w.returned && w'.runtime == w.runtime && w.ackCalls <= w'.ackCalls
    requires w'.client.acked && (w'.client.pending.Some? ==> w'.client.pending == w.client.pending)
    ensures Faithful(w')
  {
    MoreReturned(w, w');
    forall s | s in w'.runtime.issued && !w'.runtime.stopped ensures Outstanding(w', s) || Settled(w', s) {
      assert Outstanding(w, s) || Settled(w, s);
    }
  }

  lemma PollKeepsFaithful(w: World, a: Action)
    requires Faithful(w) && Enabled(w, a) && a.PollOnce?
    ensures Faithful(Next(w, a))
  {
    var w' := Next(w, a);
    var v := w.(runtime := w'.runtime);
    if !a.pollFate.RequestLost? {
      ServingKeepsFaithful(w, a.arrival);
    }
    if w'.returned != w.returned {
      ReceivingKeepsFaithful(v, w');
    } else {
      SameReturns(v, w');
    }
  }

  lemma AckKeepsFaithful(w: World, a: Action)
    requires Faithful(w) && Enabled(w, a) && a.AckOnce?
    ensures Faithful(Next(w, a))
  {
    var s := w.client.pending.value;
    var v := w.(ackCalls := w.ackCalls + {s});
    SameReturns(w, v);
    var u := v.(runtime := Next(w, a).runtime);
    forall q | q in u.runtime.issued && !u.runtime.stopped ensures Outstanding(u, q) || Settled(u, q) {
      assert Outstanding(v, q) || Settled(v, q);
      assert Outstanding(v, q) && !Outstanding(u, q) ==> q == s;
      assert Settled(v, q) ==> Settled(u, q);
      assert Settled(v, s);
    }
    SameReturns(u, Next(w, a));
  }

  lemma StoppingKeepsFaithful(w: World, c: Client)
    requires Faithful(w) && c.acked && c.pending == w.client.pending
    ensures Faithful(w.(runtime := ServeStop(w.runtime), client := c))
  {
    var w' := w.(runtime := ServeStop(w.runtime), client := c);
    MoreReturned(w, w');
    StoppedStillKnows(w.runtime, w.returned);
  }

  lemma StoppedStillKnows(r: Runtime, returned: seq<(int, Event)>)
    requires KnownReturns(r, returned) && RuntimeShape(r)
    ensures KnownReturns(ServeStop(r), returned) && RuntimeShape(ServeStop(r))
  {
    if returned == [] {
      return;
    }
    assert returned[0].0 <= r.issued[|r.issued| - 1];
    var last := r.issued[|r.issued| - 1];
    assert forall i | 0 <= i < |returned| :: returned[i].0 <= last;
  }

  lemma StepKeepsFaithful(w: World, a: Action)
    requires Faithful(w) && Enabled(w, a)
    ensures Faithful(Next(w, a))
  {
    match a {
      case PollOnce(_, _) => PollKeepsFaithful(w, a);
      case AckOnce(_) => AckKeepsFaithful(w, a);
      case CloseOnce(discard, fate) =>
        if Next(w, a).runtime.stopped {
          StoppingKeepsFaithful(w, Next(w, a).client);
        } else {
          SameReturns(w, Next(w, a));
        }
      case Attach => SameReturns(w, Next(w, a));
    }
  }

  lemma {:induction false} RunsAreFaithful(w: World, run: seq<Action>)
    requires Faithful(w) && CanRun(w, run)
    ensures Faithful(After(w, run))
    decreases |run|
  {
    if run != [] {
      StepKeepsFaithful(w, run[0]);
      RunsAreFaithful(Next(w, run[0]), run[1..]);
    }
  }

  /** Main result on delivery: while the stream lives, the runtime has moved past a sequence only if a poll returned
      it to the consumer and the consumer called `ack` for it; and the consumer sees sequences in issue order,
      a repeated one always with the same event. */
  lemma DeliveredAtLeastOnceInOrder(policy: RepeatPolicy, run: seq<Action>)
    requires CanRun(Start(policy), run)
    ensures var w := After(Start(policy), run);
            && (!w.runtime.stopped ==> forall s | s in w.runtime.issued && !Outstanding(w, s) :: Settled(w, s))
            && OrderedReturns(w.returned)
  {
    RunsAreFaithful(Start(policy), run);
  }

  /** No acknowledgement is confirmed along the run, and the proxy stays the same. */
  predicate NothingConfirmed(w: World, run: seq<Action>)
    requires CanRun(w, run)
    decreases |run|
  {
    run == [] ||
    (!run[0].Attach? && (run[0].AckOnce? ==> Next(w, run[0]).ackOpen) && NothingConfirmed(Next(w, run[0]), run[1..]))
  }

  /** Until its acknowledgement is confirmed, a pending sequence is the only one the consumer can be given. */
  lemma {:induction false} PendingIsPinned(w: World, run: seq<Action>, s: int)
    requires w.client.acked && w.client.pending == Some(s)
    requires CanRun(w, run) && NothingConfirmed(w, run)
    ensures After(w, run).client.pending == Some(s)
    ensures w.returned <= After(w, run).returned
    ensures forall i | |w.returned| <= i < |After(w, run).returned| :: After(w, run).returned[i].0 == s
    decreases |run|
  {
    if run != [] {
      PendingIsPinned(Next(w, run[0]), run[1..], s);
    }
  }

  // ---- no silent discard

  /** A caller that retries an unconfirmed acknowledgement before it polls again. */
  predicate Patient(w: World, a: Action) {
    a.PollOnce? ==> !w.ackOpen
  }

  predicate PatientRun(w: World, run: seq<Action>)
    requires CanRun(w, run)
    decreases |run|
  {
    run == [] || (Patient(w, run[0]) && PatientRun(Next(w, run[0]), run[1..]))
  }

  /** What the proxy's two fields must tell it: once it has polled, "nothing pending and not uncertain"
      means that the runtime retains nothing. */
  ghost predicate Guarded(w: World) {
    && w.client.acked
    && (!w.client.closed && w.polled && w.client.pending.None? && !w.client.uncertain ==> w.runtime.outstanding.None?)
    && (!w.client.closed && !w.polled ==> w.client.pending.None? && !w.client.uncertain)
    && (w.runtime.stopped ==> w.runtime.outstanding.None?)
  }

  /** What patience adds: the pending sequence is the retained one, or its acknowledgement got through unconfirmed. */
  ghost predicate Tracked(w: World) {
    !w.runtime.stopped && w.client.pending.Some? ==>
      Outstanding(w, w.client.pending.value) || (w.ackOpen && w.runtime.outstanding.None?)
  }

  lemma StepKeepsGuarded(w: World, a: Action)
    requires Guarded(w) && Enabled(w, a)
    requires w.runtime.policy.WhileIdle? || (Tracked(w) && Patient(w, a))
    ensures Guarded(Next(w, a)) && Next(w, a).runtime.policy == w.runtime.policy
    ensures w.runtime.policy.WhileIdle? || Tracked(Next(w, a))
  {}

  /** The runtime confirms a repeated acknowledgement while it already retains another delivery, and the proxy hears
      of it. */
  predicate ConfirmsOver(w: World, a: Action) {
    && a.AckOnce? && a.ackFate.Arrives? && w.runtime.policy.Always? && !w.runtime.stopped
    && w.runtime.outstanding.Some? && w.client.pending.Some?
    && w.runtime.outstanding.value.0 != w.client.pending.value && w.runtime.lastAcked == w.client.pending
  }

  /** This, and nothing else, makes the proxy believe that nothing is retained when something is. */
  lemma StepKeepsGuardedIff(w: World, a: Action)
    requires Guarded(w) && Enabled(w, a)
    ensures Guarded(Next(w, a)) <==> !ConfirmsOver(w, a)
  {}

  /** Whether the proxy heard such a confirmation and has not polled since. */
  function FooledBy(w: World, run: seq<Action>, before: bool): bool
    requires CanRun(w, run)
    decreases |run|
  {
    if run == [] then before
    else FooledBy(Next(w, run[0]), run[1..],
                  ConfirmsOver(w, run[0]) || (before && !run[0].PollOnce? && !run[0].Attach?))
  }

  /** The proxy's fields tell the truth about the runtime, unless it is fooled. */
  ghost predicate Told(w: World, fooled: bool) {
    && w.client.acked && (w.runtime.stopped ==> w.runtime.outstanding.None?)
    && (!w.client.closed && w.polled && w.client.pending.None? && !w.client.uncertain && w.runtime.outstanding.Some? ==>
          fooled)
    && (!w.client.closed && (fooled || !w.polled) ==> w.client.pending.None? && !w.client.uncertain)
  }

  lemma {:induction false} RunsTell(w: World, run: seq<Action>, fooled: bool)
    requires CanRun(w, run) && Told(w, fooled)
    ensures Told(After(w, run), FooledBy(w, run, fooled))
    decreases |run|
  {
    if run != [] {
      var a := run[0];
      RunsTell(Next(w, a), run[1..], ConfirmsOver(w, a) || (fooled && !a.PollOnce? && !a.Attach?));
    }
  }

  /** Main result on closing, for every policy and every caller: a plain close abandons a retained delivery exactly
      when its proxy has not polled since it was attached, or has not polled since it was fooled. */
  lemma PlainCloseDiscardsIff(policy: RepeatPolicy, run: seq<Action>)
    requires CanRun(Start(policy), run)
    ensures var w := After(Start(policy), run);
            SendsStop(w.client, false) && w.runtime.outstanding.Some? <==>
              && !w.client.closed && w.runtime.outstanding.Some?
              && (!w.polled || FooledBy(Start(policy), run, false))
  {
    RunsTell(Start(policy), run, false);
  }

  lemma {:induction false} RunsAreGuarded(w: World, run: seq<Action>)
    requires Guarded(w) && CanRun(w, run)
    requires w.runtime.policy.WhileIdle? || (Tracked(w) && PatientRun(w, run))
    ensures Guarded(After(w, run))
    decreases |run|
  {
    if run != [] {
      StepKeepsGuarded(w, run[0]);
      RunsAreGuarded(Next(w, run[0]), run[1..]);
    }
  }

  /** So if the runtime confirms repeats only while idle, or if the caller is patient, then a
      plain close abandons a retained delivery exactly when the proxy was attached to it and has not polled yet. */
  lemma PlainCloseDiscardsIffUnpolled(policy: RepeatPolicy, run: seq<Action>)
    requires CanRun(Start(policy), run)
    requires policy.WhileIdle? || PatientRun(Start(policy), run)
    ensures var w := After(Start(policy), run);
            SendsStop(w.client, false) && w.runtime.outstanding.Some? <==>
              !w.client.closed && !w.polled && w.runtime.outstanding.Some?
  {
    RunsAreGuarded(Start(policy), run);
  }

  predicate NoAttach(run: seq<Action>) {
    forall i | 0 <= i < |run| :: !run[i].Attach?
  }

  lemma {:induction false} UnpolledMeansNothingIssued(w: World, run: seq<Action>)
    requires CanRun(w, run) && NoAttach(run) && (!w.polled ==> w.runtime.outstanding.None?)
    ensures !After(w, run).polled ==> After(w, run).runtime.outstanding.None?
    decreases |run|
  {
    if run != [] {
      UnpolledMeansNothingIssued(Next(w, run[0]), run[1..]);
    }
  }

  /** So the proxy that opened the stream never abandons a delivered event without being told to. */
  lemma FirstProxyNeverDiscards(policy: RepeatPolicy, run: seq<Action>)
    requires CanRun(Start(policy), run) && NoAttach(run)
    requires policy.WhileIdle? || PatientRun(Start(policy), run)
    ensures var w := After(Start(policy), run); SendsStop(w.client, false) ==> w.runtime.outstanding.None?
  {
    PlainCloseDiscardsIffUnpolled(policy, run);
    UnpolledMeansNothingIssued(Start(policy), run);
  }

  /** When no exchange fails, a poll and an ack deliver the next event and leave both sides settled. */
  lemma OneDelivery(w: World, n: int, e: Event)
    requires Faithful(w) && !w.runtime.stopped && !w.client.closed
    requires w.client.pending.None? && w.runtime.outstanding.None? && 1 <= n <= MAX_SEQUENCE
    requires forall i | 0 <= i < |w.runtime.issued| :: w.runtime.issued[i] < n
    ensures var run := [PollOnce(Some((n, e)), Arrives), AckOnce(Arrives)];
            && CanRun(w, run)
            && var v := After(w, run);
               && v.returned == w.returned + [(n, e)] && n in v.ackCalls
               && v.runtime.outstanding.None? && v.runtime.lastAcked == Some(n)
               && v.client.pending.None? && !v.client.uncertain && !v.ackOpen
  {
    TwoSteps(w, PollOnce(Some((n, e)), Arrives), AckOnce(Arrives));
  }

  lemma TwoSteps(w: World, x: Action, y: Action)
    requires Enabled(w, x) && Enabled(Next(w, x), y)
    ensures CanRun(w, [x, y]) && After(w, [x, y]) == Next(Next(w, x), y)
  {
    RunsOn(Next(w, x), y, []);
    RunsOn(w, x, [y]);
  }

  lemma RunsOn(w: World, a: Action, rest: seq<Action>)
    requires Enabled(w, a) && CanRun(Next(w, a), rest)
    ensures CanRun(w, [a] + rest) && After(w, [a] + rest) == After(Next(w, a), rest)
  {
    assert ([a] + rest)[1..] == rest;
  }

  /** Without patience, a runtime that confirms every repeat lets it happen: whenever an acknowledgement got through
      unconfirmed, polling before the retry makes the plain close abandon an event no consumer ever saw. */
  lemma ImpatientCloseLosesAnEvent(w: World, s: int, n: int, e: Event)
    requires Faithful(w) && w.runtime.policy.Always? && !w.runtime.stopped && !w.client.closed
    requires w.client.pending == Some(s) && w.ackOpen
    requires w.runtime.outstanding.None? && w.runtime.lastAcked == Some(s)
    requires forall i | 0 <= i < |w.runtime.issued| :: w.runtime.issued[i] < n
    ensures var run := [PollOnce(Some((n, e)), Arrives), AckOnce(Arrives)];
            && CanRun(w, run)
            && SendsStop(After(w, run).client, false)
            && After(w, run).runtime.outstanding == Some((n, e))
            && !Returned(After(w, run), n)
  {
    var x, y := PollOnce(Some((n, e)), Arrives), AckOnce(Arrives);
    assert Returned(w, s);
    assert !Returned(w, n);
    var v := Next(w, x);
    assert v.client.pending == Some(s) && v.returned == w.returned;
    TwoSteps(w, x, y);
    assert !Returned(Next(v, y), n);
  }

  /** Such a state is reached by a first delivery whose acknowledgement is answered and the answer lost. */
  lemma UnconfirmedAckIsReachable(e: Event)
    ensures var run := [PollOnce(Some((1, e)), Arrives), AckOnce(ReplyLost)];
            && CanRun(Start(Always), run)
            && var w := After(Start(Always), run);
               && Faithful(w) && w.client.pending == Some(1) && w.ackOpen && !w.client.closed && !w.runtime.stopped
               && w.runtime.outstanding.None? && w.runtime.lastAcked == Some(1) && w.runtime.issued == [1]
  {
    var x, y := PollOnce(Some((1, e)), Arrives), AckOnce(ReplyLost);
    var w := Start(Always);
    var v := Next(w, x);
    TwoSteps(w, x, y);
    RunsAreFaithful(w, [x, y]);
  }
}
