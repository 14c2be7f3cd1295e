/** Runs of a stream without acknowledgements, which is what a caller gets by default. */
module PlainDelivery {
  import opened Outcomes
  import opened PlateStream

  datatype Action =
    | PollOnce(limit: int, polled: Exchange<RawPoll>)
    | CloseOnce(discardUnacked: bool, stopped: Exchange<()>)

  /** `returned` is what polls gave the consumer, `stops` how many stop requests were sent. */
  datatype World = World(client: Client, returned: seq<Event>, stops: nat)

  function Next(w: World, a: Action): World {
    match a
    case PollOnce(limit, x) =>
      var (c, got) := AfterPoll(w.client, limit, x);
      w.(client := c, returned := w.returned + if got.Ok? then got.value else [])
    case CloseOnce(discard, x) =>
      w.(client := AfterClose(w.client, discard, x).0,
         stops := w.stops + if SendsStop(w.client, discard) then 1 else 0)
  }

  function After(run: seq<Action>, stats: nat): World {
    if run == [] then World(Fresh(false, stats), [], 0)
    else Next(After(run[..|run| - 1], stats), run[|run| - 1])
  }

  /** No stop was answered. */
  predicate StillOpen(run: seq<Action>) {
    forall i | 0 <= i < |run| && run[i].CloseOnce? :: run[i].stopped.Raised?
  }

  /** The events of the replies that answered a poll of the open stream. */
  function Answered(run: seq<Action>): seq<Event> {
    if run == [] then []
    else
      var before, a := run[..|run| - 1], run[|run| - 1];
      Answered(before)
      + if a.PollOnce? && StillOpen(before) && a.polled.Replied? && Answers(a.polled.reply, a.limit, false)
        then ParsedEvents(a.polled.reply) else []
  }

  function ClosesWhileOpen(run: seq<Action>): nat {
    if run == [] then 0
    else
      var before := run[..|run| - 1];
      ClosesWhileOpen(before) + if run[|run| - 1].CloseOnce? && StillOpen(before) then 1 else 0
  }

  lemma StillOpenStep(run: seq<Action>)
    requires run != []
    ensures var a := run[|run| - 1];
            StillOpen(run) <==> StillOpen(run[..|run| - 1]) && (a.CloseOnce? ==> a.stopped.Raised?)
  {
    var before := run[..|run| - 1];
    assert run == before + [run[|run| - 1]];
    if StillOpen(run) {
      forall i | 0 <= i < |before| && before[i].CloseOnce? ensures before[i].stopped.Raised? {
        assert run[i] == before[i];
      }
    }
  }

  /** Main result: whatever exchanges fail or are malformed, the consumer gets exactly the events of the replies that
      answered its polls, in order; the stream is closed exactly once a stop was answered; and every close before that
      sends one. */
  lemma {:induction false} EveryAnswerIsReturned(run: seq<Action>, stats: nat)
    ensures var w := After(run, stats);
            && w.returned == Answered(run) && (w.client.closed <==> !StillOpen(run)) && w.stops == ClosesWhileOpen(run)
            && !w.client.acked && w.client.pending.None? && !w.client.uncertain
    decreases |run|
  {
    if run != [] {
      var before, a := run[..|run| - 1], run[|run| - 1];
      EveryAnswerIsReturned(before, stats);
      StillOpenStep(run);
      var c := After(before, stats).client;
      match a {
        case PollOnce(limit, x) =>
          PollReturnsTheReply(c, limit, x);
          if AfterPoll(c, limit, x).1.Ok? {
            assert AfterPoll(c, limit, x).1.value == ParsedEvents(x.reply);
          }
        case CloseOnce(discard, x) => CloseStopsUnlessPending(c, discard, x);
      }
    }
  }
}
