/** Getting back to rest after faults: from which states of the delivery protocol retries settle everything. */
module DeliveryRecovery {
  import opened Outcomes
  import opened PlateStream
  import opened DeliveryRuns

  /** Nothing is retained, nothing is pending, and an open proxy knows it. */
  predicate AtRest(w: World) {
    && !w.runtime.stopped && !w.client.closed
    && w.runtime.outstanding.None? && w.client.pending.None? && !w.client.uncertain
  }

  predicate Readable(n: int) {
    1 <= n <= MAX_SEQUENCE
  }

  /** The runtime retains another delivery than the pending one, and the proxy cannot get at it: its sequence is out
      of range, or the pending sequence stands in the way of a runtime that does not confirm it again. */
  predicate Blocked(w: World) {
    && w.runtime.outstanding.Some?
    && var n := w.runtime.outstanding.value.0;
       w.client.pending != Some(n) && (!Readable(n) || (w.runtime.policy.WhileIdle? && w.client.pending.Some?))
  }

  /** A pending sequence is the retained one or the last acknowledged one. */
  ghost predicate AckKnown(w: World) {
    && w.client.acked
    && (w.runtime.stopped ==> w.runtime.outstanding.None?)
    && (!w.runtime.stopped && w.client.pending.Some? ==>
          Outstanding(w, w.client.pending.value) || w.runtime.lastAcked == w.client.pending)
  }

  lemma StepKeepsAckKnown(w: World, a: Action)
    requires AckKnown(w) && Enabled(w, a)
    ensures AckKnown(Next(w, a))
  {}

  lemma {:induction false} RunsKeepAckKnown(w: World, run: seq<Action>)
    requires AckKnown(w) && CanRun(w, run)
    ensures AckKnown(After(w, run))
    decreases |run|
  {
    if run != [] {
      StepKeepsAckKnown(w, run[0]);
      RunsKeepAckKnown(Next(w, run[0]), run[1..]);
    }
  }

  // ---- a blocked proxy

  lemma BlockedStays(w: World, a: Action)
    requires Blocked(w) && w.client.acked && Enabled(w, a) && !a.Attach?
    ensures Next(w, a).client.acked && Next(w, a).returned == w.returned
    ensures Blocked(Next(w, a)) || Next(w, a).runtime.stopped
  {}

  /** Nothing short of another proxy helps: no run brings it to rest or returns another event. */
  lemma {:induction false} BlockedForGood(w: World, run: seq<Action>)
    requires Blocked(w) && w.client.acked && CanRun(w, run) && NoAttach(run)
    ensures !AtRest(After(w, run)) && After(w, run).returned == w.returned
    decreases |run|
  {
    if run != [] {
      BlockedStays(w, run[0]);
      if Blocked(Next(w, run[0])) {
        BlockedForGood(Next(w, run[0]), run[1..]);
      } else {
        StoppedForGood(Next(w, run[0]), run[1..]);
      }
    }
  }

  lemma {:induction false} StoppedForGood(w: World, run: seq<Action>)
    requires w.runtime.stopped && w.client.acked && CanRun(w, run)
    ensures After(w, run).runtime.stopped && After(w, run).returned == w.returned
    decreases |run|
  {
    if run != [] {
      StoppedForGood(Next(w, run[0]), run[1..]);
    }
  }

  // ---- the remedy

  const POLL := PollOnce(None, Arrives)
  const ACK := AckOnce(Arrives)

  /** Retry the acknowledgement if there is one, then poll and acknowledge what is retained. */
  function Remedy(w: World): seq<Action> {
    if w.client.pending.Some? then
      if w.runtime.outstanding.None? || w.runtime.outstanding.value.0 == w.client.pending.value then [ACK]
      else [ACK, POLL, ACK]
    else if w.runtime.outstanding.Some? then [POLL, ACK]
    else [POLL]
  }

  predicate AllArrive(run: seq<Action>) {
    forall i | 0 <= i < |run| ::
      match run[i]
      case PollOnce(_, fate) => fate.Arrives?
      case AckOnce(fate) => fate.Arrives?
      case _ => false
  }

  lemma OneStep(w: World, a: Action)
    requires Enabled(w, a)
    ensures CanRun(w, [a]) && After(w, [a]) == Next(w, a)
  {
    RunsOn(w, a, []);
    assert [a] + [] == [a];
  }

  lemma AckSettles(w: World)
    requires AckKnown(w) && !w.runtime.stopped && !w.client.closed && w.client.pending.Some? && !Blocked(w)
    requires w.runtime.outstanding.Some? ==>
               Readable(w.runtime.outstanding.value.0) || Outstanding(w, w.client.pending.value)
    ensures Enabled(w, ACK)
    ensures var v := Next(w, ACK);
            && AckKnown(v) && !v.runtime.stopped && !v.client.closed && v.client.pending.None? && !v.client.uncertain
            && v.runtime.outstanding == if Outstanding(w, w.client.pending.value) then None else w.runtime.outstanding
  {}

  lemma PollAndAckSettle(w: World)
    requires AckKnown(w) && !w.runtime.stopped && !w.client.closed && w.client.pending.None?
    requires w.runtime.outstanding.Some? && Readable(w.runtime.outstanding.value.0)
    ensures CanRun(w, [POLL, ACK]) && AtRest(After(w, [POLL, ACK]))
  {
    var v := Next(w, POLL);
    assert v.client.pending == Some(w.runtime.outstanding.value.0) && v.runtime == w.runtime;
    AckSettles(v);
    TwoSteps(w, POLL, ACK);
  }

  /** Fault-free retries bring every state that is not blocked to rest. */
  lemma RemedyWorks(w: World)
    requires AckKnown(w) && !w.runtime.stopped && !w.client.closed && !Blocked(w)
    ensures CanRun(w, Remedy(w)) && AtRest(After(w, Remedy(w)))
    ensures AllArrive(Remedy(w)) && NoAttach(Remedy(w))
  {
    if w.client.pending.Some? {
      AckSettles(w);
      OneStep(w, ACK);
      if w.runtime.outstanding.Some? && w.runtime.outstanding.value.0 != w.client.pending.value {
        PollAndAckSettle(Next(w, ACK));
        RunsOn(w, ACK, [POLL, ACK]);
        assert [ACK] + [POLL, ACK] == [ACK, POLL, ACK];
      }
    } else if w.runtime.outstanding.Some? {
      PollAndAckSettle(w);
    } else {
      OneStep(w, POLL);
    }
  }

  ghost predicate CanRecover(w: World) {
    exists run :: NoAttach(run) && CanRun(w, run) && AtRest(After(w, run))
  }

  /** Main result on recovery: whatever went wrong before, an open proxy of a live stream can get back to rest exactly
      when it is not blocked; the remedy then does it, and everything the runtime ever issued was returned and
      acknowledged. */
  lemma RecoversIff(policy: RepeatPolicy, run: seq<Action>)
    requires CanRun(Start(policy), run)
    requires !After(Start(policy), run).runtime.stopped && !After(Start(policy), run).client.closed
    ensures var w := After(Start(policy), run);
            && (CanRecover(w) <==> !Blocked(w))
            && (!Blocked(w) ==>
                  && CanRun(w, Remedy(w)) && AllArrive(Remedy(w)) && AtRest(After(w, Remedy(w)))
                  && forall s | s in After(w, Remedy(w)).runtime.issued :: Settled(After(w, Remedy(w)), s))
  {
    var w := After(Start(policy), run);
    RunsKeepAckKnown(Start(policy), run);
    RunsAreFaithful(Start(policy), run);
    if Blocked(w) {
      forall more | NoAttach(more) && CanRun(w, more) ensures !AtRest(After(w, more)) {
        BlockedForGood(w, more);
      }
    } else {
      RemedyWorks(w);
      RunsAreFaithful(w, Remedy(w));
    }
  }

  lemma {:induction false} PatientRunsAreTracked(w: World, run: seq<Action>)
    requires Guarded(w) && Tracked(w) && CanRun(w, run) && PatientRun(w, run)
    ensures Tracked(After(w, run))
    decreases |run|
  {
    if run != [] {
      PatienceTracks(w, run[0]);
      PatientRunsAreTracked(Next(w, run[0]), run[1..]);
    }
  }

  lemma PatienceTracks(w: World, a: Action)
    requires Guarded(w) && Tracked(w) && Enabled(w, a) && Patient(w, a)
    ensures Guarded(Next(w, a)) && Tracked(Next(w, a))
  {}

  /** A caller that retries an unconfirmed acknowledgement before it polls is never blocked, as long as the runtime
      numbers its deliveries within the range. */
  lemma PatienceNeverBlocks(policy: RepeatPolicy, run: seq<Action>)
    requires CanRun(Start(policy), run) && PatientRun(Start(policy), run)
    requires !After(Start(policy), run).runtime.stopped
    requires forall s | s in After(Start(policy), run).runtime.issued :: Readable(s)
    ensures !Blocked(After(Start(policy), run))
  {
    PatientRunsAreTracked(Start(policy), run);
    RunsAreFaithful(Start(policy), run);
    var w := After(Start(policy), run);
    if w.runtime.outstanding.Some? {
      assert w.runtime.outstanding.value.0 in w.runtime.issued;
    }
  }

  /** And a new proxy is blocked by nothing but a sequence out of range. */
  lemma ReattachingUnblocks(policy: RepeatPolicy, run: seq<Action>)
    requires CanRun(Start(policy), run) && !After(Start(policy), run).runtime.stopped
    ensures var v := Next(After(Start(policy), run), Attach);
            && (Blocked(v) <==> v.runtime.outstanding.Some? && !Readable(v.runtime.outstanding.value.0))
            && (!Blocked(v) ==> CanRun(v, Remedy(v)) && AtRest(After(v, Remedy(v))))
  {
    var w := After(Start(policy), run);
    RunsKeepAckKnown(Start(policy), run);
    var v := Next(w, Attach);
    StepKeepsAckKnown(w, Attach);
    if !Blocked(v) {
      RemedyWorks(v);
    }
  }

  /** Impatience does block a proxy of a runtime that confirms repeats only while idle: a delivery, an acknowledgement
      whose answer is lost, and a poll before the retry. */
  lemma ImpatienceBlocks(e: Event, f: Event)
    ensures var run := [PollOnce(Some((1, e)), Arrives), AckOnce(ReplyLost), PollOnce(Some((2, f)), Arrives)];
            CanRun(Start(WhileIdle), run) && Blocked(After(Start(WhileIdle), run))
  {
    var a, b, c := PollOnce(Some((1, e)), Arrives), AckOnce(ReplyLost), PollOnce(Some((2, f)), Arrives);
    var w1 := Next(Start(WhileIdle), a);
    var w2 := Next(w1, b);
    assert w2.runtime.outstanding == None && w2.client.pending == Some(1);
    TwoSteps(w1, b, c);
    RunsOn(Start(WhileIdle), a, [b, c]);
    assert [a] + [b, c] == [a, b, c];
  }
}
