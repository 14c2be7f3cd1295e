/** The client's proxy for one plate stream in the persistent runtime: polls, acknowledgements and close. */
module PlateStream {
  import opened Outcomes

  const MAX_POLL_ITEMS := 16
  const MAX_SEQUENCE := 0x7FFF_FFFF_FFFF_FFFF

  type Event = nat

  /** A poll reply as received: `Garbage` stands for every reply that is not an object with a list of events. */
  datatype RawPoll = Garbage | Poll(events: seq<Option<Event>>, sequence: Option<int>, stats: Option<nat>)

  datatype RawAck = GarbledAck | Acked(sequence: int, stats: Option<nat>)

  /** What `execute` yields: it raises, or it returns a reply. */
  datatype Exchange<+T> = Raised | Replied(reply: T)

  datatype Error =
    | StreamClosed
    | ExchangeFailed
    | InvalidResponse
    | ReplacedDelivery
    | QueueEmpty
    | NotAcknowledged
    | NothingToAcknowledge

  /** `None` among the events stands for one that does not parse. */
  predicate Parses(raw: RawPoll, maxItems: int, acked: bool) {
    && raw.Poll?
    && |raw.events| <= maxItems
    && (acked ==> |raw.events| <= 1 && (raw.events != [] <==> raw.sequence.Some?))
    && (raw.sequence.Some? ==> acked && 1 <= raw.sequence.value <= MAX_SEQUENCE)
    && (forall i | 0 <= i < |raw.events| :: raw.events[i].Some?)
    && raw.stats.Some?
  }

  function ParsedEvents(raw: RawPoll): (r: seq<Event>)
    requires raw.Poll? && forall i | 0 <= i < |raw.events| :: raw.events[i].Some?
    ensures |r| == |raw.events| && forall i | 0 <= i < |r| :: raw.events[i] == Some(r[i])
  {
    seq(|raw.events|, i requires 0 <= i < |raw.events| => raw.events[i].value)
  }

  predicate AckParses(raw: RawAck, expected: int) {
    raw.Acked? && raw.sequence == expected && raw.stats.Some?
  }

  /** The proxy's fields. */
  datatype Client = Client(acked: bool, pending: Option<int>, uncertain: bool, closed: bool, stats: nat)

  function Fresh(acked: bool, stats: nat): Client {
    Client(acked, None, false, false, stats)
  }

  /** The state while a poll is in flight: once it is sent, only a good reply can settle what the runtime retains. */
  function Polling(c: Client): Client {
    if c.acked then c.(uncertain := true) else c
  }

  function AfterPoll(c: Client, limit: int, x: Exchange<RawPoll>): (Client, Result<seq<Event>, Error>) {
    if c.closed then (c, Err(StreamClosed))
    else if x.Raised? then (Polling(c), Err(ExchangeFailed))
    else if !Parses(x.reply, limit, c.acked) then (Polling(c), Err(InvalidResponse))
    else
      var d := Polling(c).(stats := x.reply.stats.value);
      if !c.acked then (d, Ok(ParsedEvents(x.reply)))
      else if c.pending.Some? && x.reply.sequence != c.pending then (d, Err(ReplacedDelivery))
      else (d.(pending := x.reply.sequence, uncertain := x.reply.sequence.Some?), Ok(ParsedEvents(x.reply)))
  }

  /** A reply that answers a poll for at most `limit` events: each event parses, and a sequence number comes with
      exactly one event of an acknowledged stream, and with none of another. */
  predicate Answers(raw: RawPoll, limit: int, acked: bool) {
    && raw.Poll? && raw.stats.Some? && |raw.events| <= limit
    && (forall i | 0 <= i < |raw.events| :: raw.events[i].Some?)
    && if !acked || raw.events == [] then raw.sequence.None?
       else |raw.events| == 1 && raw.sequence.Some? && 0 < raw.sequence.value < 0x8000_0000_0000_0000
  }

  /** Main result on polling: an open proxy returns the events of the reply, all and in order, exactly when the reply
      answers the poll and does not replace a pending delivery; and then it has the reply's numbers and sequence. */
  lemma PollReturnsTheReply(c: Client, limit: int, x: Exchange<RawPoll>)
    requires c.acked || (c.pending.None? && !c.uncertain)
    ensures var (d, r) := AfterPoll(c, limit, x);
            && (r.Ok? <==> !c.closed && x.Replied? && Answers(x.reply, limit, c.acked)
                           && (c.acked && c.pending.Some? ==> x.reply.sequence == c.pending))
            && (r.Ok? ==>
                  && |r.value| == |x.reply.events|
                  && (forall i | 0 <= i < |r.value| :: x.reply.events[i] == Some(r.value[i]))
                  && d.stats == x.reply.stats.value && d.pending == x.reply.sequence
                  && d.uncertain == (r.value != [] && c.acked) && d.acked == c.acked && !d.closed)
            && (r.Err? ==> d == c.(uncertain := d.uncertain, stats := d.stats))
            && (r.Err? && c.acked && !c.closed ==> d.uncertain)
  {}

  /** An acknowledgement is confirmed exactly by a reply that names the pending sequence. */
  lemma AckNeedsItsSequence(c: Client, x: Exchange<RawAck>)
    ensures var (d, r) := AfterAck(c, x);
            && (r.Ok? <==> !c.closed && c.acked && c.pending.Some? && x.Replied? && x.reply.Acked?
                           && x.reply.sequence == c.pending.value && x.reply.stats.Some?)
            && (r.Ok? ==> d == c.(pending := None, uncertain := false, stats := x.reply.stats.value))
            && (r.Err? ==> d == c)
  {}

  /** A close sends stop unless the proxy is closed or would abandon a delivery it was not told to discard; and then
      it is closed unless the exchange failed. */
  lemma CloseStopsUnlessPending(c: Client, discardUnacked: bool, x: Exchange<()>)
    ensures c.closed ==> !SendsStop(c, discardUnacked)
    ensures !c.closed && (discardUnacked || !c.acked) ==> SendsStop(c, discardUnacked)
    ensures !c.closed && !discardUnacked && c.acked ==> (SendsStop(c, false) <==> c.pending.None? && !c.uncertain)
    ensures AfterClose(c, discardUnacked, x).0.closed <==> c.closed || !SendsStop(c, discardUnacked) || x.Replied?
    ensures AfterClose(c, discardUnacked, x).0 == c.(closed := AfterClose(c, discardUnacked, x).0.closed)
  {}

  function AckRefusal(c: Client): Option<Error> {
    if c.closed then Some(StreamClosed)
    else if !c.acked then Some(NotAcknowledged)
    else if c.pending.None? then Some(NothingToAcknowledge)
    else None
  }

  function AfterAck(c: Client, x: Exchange<RawAck>): (Client, Result<(), Error>) {
    if AckRefusal(c).Some? then (c, Err(AckRefusal(c).value))
    else if x.Raised? then (c, Err(ExchangeFailed))
    else if !AckParses(x.reply, c.pending.value) then (c, Err(InvalidResponse))
    else (c.(stats := x.reply.stats.value, pending := None, uncertain := false), Ok(()))
  }

  /** Whether `close` asks the runtime to stop the stream, which abandons whatever it retains. */
  predicate SendsStop(c: Client, discardUnacked: bool) {
    !c.closed && (!c.acked || (c.pending.None? && !c.uncertain) || discardUnacked)
  }

  function AfterClose(c: Client, discardUnacked: bool, x: Exchange<()>): (Client, Result<(), Error>) {
    if SendsStop(c, discardUnacked) && x.Raised? then (c, Err(ExchangeFailed))
    else (c.(closed := true), Ok(()))
  }

  class RuntimePlateEventStream {
    const acked: bool
    var pending: Option<int>
    var uncertain: bool
    var closed: bool
    var stats: nat

    function View(): Client
      reads this
    {
      Client(acked, pending, uncertain, closed, stats)
    }

    constructor (acked: bool, stats: nat)
      ensures View() == Fresh(acked, stats)
    {
      this.acked, this.stats := acked, stats;
      pending, uncertain, closed := None, false, false;
    }

    /** `x` is what the runtime exchange yields after the request went out. */
    method Poll(limit: int, x: Exchange<RawPoll>) returns (r: Result<seq<Event>, Error>)
      modifies this
      ensures (View(), r) == AfterPoll(old(View()), limit, x)
      ensures r.Ok? ==> x.Replied? && x.reply.Poll? && |r.value| == |x.reply.events|
                        && forall i | 0 <= i < |r.value| :: x.reply.events[i] == Some(r.value[i])
    {
      if closed {
        return Err(StreamClosed);
      }
      if acked {
        uncertain := true;
      }
      if x.Raised? {
        return Err(ExchangeFailed);
      }
      var raw := x.reply;
      if !Parses(raw, limit, acked) {
        return Err(InvalidResponse);
      }
      stats := raw.stats.value;
      if acked {
        if pending.Some? && raw.sequence != pending {
          return Err(ReplacedDelivery);
        }
        pending := raw.sequence;
        uncertain := raw.sequence.Some?;
      }
      r := Ok(ParsedEvents(raw));
    }

    /** The next event, or the reason there is none; an acknowledged stream gets it under its sequence number. */
    method Get(x: Exchange<RawPoll>) returns (r: Result<Event, Error>)
      modifies this
      ensures View() == AfterPoll(old(View()), 1, x).0
      ensures r.Ok? <==> AfterPoll(old(View()), 1, x).1.Ok? && AfterPoll(old(View()), 1, x).1.value != []
      ensures r.Ok? ==> AfterPoll(old(View()), 1, x).1.value == [r.value] && (acked ==> pending.Some? && uncertain)
      ensures r == Err(QueueEmpty) && acked ==> pending.None? && !uncertain
    {
      var events := Poll(1, x);
      if events.Err? {
        return Err(events.error);
      }
      if events.value == [] {
        return Err(QueueEmpty);
      }
      r := Ok(events.value[0]);
    }

    method Drain(limit: int, x: Exchange<RawPoll>) returns (r: Result<seq<Event>, Error>)
      modifies this
      ensures limit <= 0 ==> View() == old(View()) && r == Ok([])
      ensures limit > 0 && acked ==> (View(), r) == AfterPoll(old(View()), 1, x)
      ensures r.Ok? ==> |r.value| <= MAX_POLL_ITEMS && (limit > 0 ==> |r.value| <= limit)
      ensures limit > 0 && !acked ==> (View(), r) == AfterPoll(old(View()), if limit < 16 then limit else 16, x)
    {
      var n := if limit < MAX_POLL_ITEMS then limit else MAX_POLL_ITEMS;
      if n <= 0 {
        return Ok([]);
      }
      if acked {
        n := 1;
      }
      r := Poll(n, x);
    }

    method Ack(x: Exchange<RawAck>) returns (r: Result<(), Error>)
      modifies this
      ensures (View(), r) == AfterAck(old(View()), x)
    {
      if closed {
        return Err(StreamClosed);
      }
      if !acked {
        return Err(NotAcknowledged);
      }
      if pending.None? {
        return Err(NothingToAcknowledge);
      }
      if x.Raised? {
        return Err(ExchangeFailed);
      }
      if !AckParses(x.reply, pending.value) {
        return Err(InvalidResponse);
      }
      stats := x.reply.stats.value;
      pending := None;
      uncertain := false;
      r := Ok(());
    }

    method Close(discardUnacked: bool, x: Exchange<()>) returns (stopped: bool, r: Result<(), Error>)
      modifies this
      ensures (View(), r) == AfterClose(old(View()), discardUnacked, x)
      ensures stopped == SendsStop(old(View()), discardUnacked)
    {
      if closed {
        return false, Ok(());
      }
      if acked && (pending.Some? || uncertain) && !discardUnacked {
        closed := true;
        return false, Ok(());
      }
      if x.Raised? {
        return true, Err(ExchangeFailed);
      }
      closed := true;
      return true, Ok(());
    }
  }
}
