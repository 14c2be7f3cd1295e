/** The bounded queue between the native event callback and its readers: limits, drop policies, byte accounting
    and the signal that wakes blocked readers after a close. The queue has its own lock, so that readers can take
    items at any moment, also while a callback holds the stream's lock. */
module EventQueue {
  /** `no` numbers the events in the order in which callbacks take the lock; `size` is that of the images. */
  datatype Event = Event(no: nat, size: nat)

  /** `Signal` is the marker that tells a reader about the close. */
  datatype Item = Plate(event: Event) | Signal

  function SizeOf(x: Item): nat {
    if x.Plate? then x.event.size else 0
  }

  function Bytes(items: seq<Item>): nat {
    if items == [] then 0 else SizeOf(items[0]) + Bytes(items[1..])
  }

  function Signals(items: seq<Item>): nat {
    if items == [] then 0 else (if items[0].Signal? then 1 else 0) + Signals(items[1..])
  }

  function Events(items: seq<Item>): (r: seq<Event>)
    ensures |r| + Signals(items) == |items|
  {
    if items == [] then []
    else (if items[0].Plate? then [items[0].event] else []) + Events(items[1..])
  }

  lemma {:induction false} SplitItems(a: seq<Item>, b: seq<Item>)
    ensures Bytes(a + b) == Bytes(a) + Bytes(b) && Signals(a + b) == Signals(a) + Signals(b)
    ensures Events(a + b) == Events(a) + Events(b)
    decreases |a|
  {
    if a == [] {
      assert a + b == b;
    } else {
      var front := if a[0].Plate? then [a[0].event] else [];
      assert (a + b)[0] == a[0] && (a + b)[1..] == a[1..] + b;
      SplitItems(a[1..], b);
      assert front + (Events(a[1..]) + Events(b)) == (front + Events(a[1..])) + Events(b);
    }
  }

  lemma OneItem(x: Item)
    ensures Bytes([x]) == SizeOf(x) && Signals([x]) == if x.Signal? then 1 else 0
    ensures Events([x]) == if x.Plate? then [x.event] else []
  {
    assert [x][1..] == [];
  }

  function Without(items: seq<Item>, i: nat): seq<Item>
    requires i < |items|
  {
    items[..i] + items[i + 1..]
  }

  lemma WithoutOne(items: seq<Item>, i: nat)
    requires i < |items|
    ensures Bytes(Without(items, i)) == Bytes(items) - SizeOf(items[i])
    ensures Signals(Without(items, i)) == Signals(items) - if items[i].Signal? then 1 else 0
  {
    assert items[i..] == [items[i]] + items[i + 1..];
    assert items == items[..i] + items[i..];
    Middle(items[..i], items[i], items[i + 1..]);
  }

  lemma Middle(front: seq<Item>, x: Item, back: seq<Item>)
    ensures Bytes(front + ([x] + back)) == Bytes(front + back) + SizeOf(x)
    ensures Signals(front + ([x] + back)) == Signals(front + back) + if x.Signal? then 1 else 0
  {
    Measures(front, [x] + back);
    Measures([x], back);
    Measures(front, back);
    OneItem(x);
  }

  lemma Measures(a: seq<Item>, b: seq<Item>)
    ensures Bytes(a + b) == Bytes(a) + Bytes(b) && Signals(a + b) == Signals(a) + Signals(b)
  {
    SplitItems(a, b);
  }

  lemma FrontItem(items: seq<Item>)
    requires items != []
    ensures Bytes(items) == SizeOf(items[0]) + Bytes(items[1..])
    ensures Signals(items) == (if items[0].Signal? then 1 else 0) + Signals(items[1..])
    ensures Events(items) == (if items[0].Plate? then [items[0].event] else []) + Events(items[1..])
  {}

  // ---- what becomes of the events

  /** The queued events and the fate of every event ever accepted: still queued, taken by a reader, or evicted.
      Later events are numbered from `next` on. */
  datatype Flow = Flow(queue: seq<Event>, accepted: seq<Event>, taken: seq<Event>, evicted: seq<Event>, next: nat)

  ghost predicate Older(x: seq<Event>, y: seq<Event>) {
    forall i, j | 0 <= i < |x| && 0 <= j < |y| :: x[i].no < y[j].no
  }

  ghost predicate Increasing(events: seq<Event>) {
    forall i, j | 0 <= i < j < |events| :: events[i].no < events[j].no
  }

  ghost predicate AllBelow(events: seq<Event>, n: nat) {
    forall i | 0 <= i < |events| :: events[i].no < n
  }

  /** Every accepted event is exactly one of taken, queued and evicted, and exactly once; what readers took and will
      take comes in the order of acceptance; and what was evicted is older than anything still queued. */
  ghost predicate Sound(f: Flow) {
    && multiset(f.accepted) == multiset(f.taken) + multiset(f.queue) + multiset(f.evicted)
    && Increasing(f.accepted) && AllBelow(f.accepted, f.next)
    && Increasing(f.taken) && Increasing(f.queue) && Older(f.taken, f.queue) && Older(f.evicted, f.queue)
    && AllBelow(f.taken, f.next) && AllBelow(f.queue, f.next) && AllBelow(f.evicted, f.next)
  }

  datatype Step = TakeFront | EvictFront | Accept(event: Event)

  /** What a step does; one that cannot happen does nothing. */
  function Apply(f: Flow, step: Step): Flow {
    match step
    case TakeFront => if f.queue == [] then f else f.(queue := f.queue[1..], taken := f.taken + [f.queue[0]])
    case EvictFront => if f.queue == [] then f else f.(queue := f.queue[1..], evicted := f.evicted + [f.queue[0]])
    case Accept(e) =>
      if e.no < f.next then f else f.(queue := f.queue + [e], accepted := f.accepted + [e], next := e.no + 1)
  }

  const NOTHING_YET := Flow([], [], [], [], 0)

  function Replay(log: seq<Step>): Flow {
    if log == [] then NOTHING_YET else Apply(Replay(log[..|log| - 1]), log[|log| - 1])
  }

  lemma ReplayOneMore(log: seq<Step>, step: Step)
    ensures Replay(log + [step]) == Apply(Replay(log), step)
  {
    assert (log + [step])[..|log|] == log;
  }

  lemma FrontLeaves(f: Flow)
    requires Sound(f) && f.queue != []
    ensures var rest := f.queue[1..]; Increasing(rest) && AllBelow(rest, f.next) && Older([f.queue[0]], rest)
    ensures multiset(f.queue) == multiset([f.queue[0]]) + multiset(f.queue[1..])
  {
    assert f.queue == [f.queue[0]] + f.queue[1..];
  }

  lemma TakeIsSound(f: Flow)
    requires Sound(f) && f.queue != []
    ensures Sound(Apply(f, TakeFront))
  {
    FrontLeaves(f);
  }

  lemma EvictIsSound(f: Flow)
    requires Sound(f) && f.queue != []
    ensures Sound(Apply(f, EvictFront))
  {
    FrontLeaves(f);
  }

  lemma AcceptIsSound(f: Flow, e: Event)
    requires Sound(f) && f.next <= e.no
    ensures Sound(Apply(f, Accept(e)))
  {}

  lemma StepIsSound(f: Flow, step: Step)
    requires Sound(f)
    ensures Sound(Apply(f, step))
  {
    if Apply(f, step) != f {
      match step {
        case TakeFront => TakeIsSound(f);
        case EvictFront => EvictIsSound(f);
        case Accept(e) => AcceptIsSound(f, e);
      }
    }
  }

  /** Whatever the order of callbacks, readers and evictions, the fate of the events is sound. */
  lemma {:induction false} ReplayIsSound(log: seq<Step>)
    ensures Sound(Replay(log))
    decreases |log|
  {
    if log != [] {
      ReplayIsSound(log[..|log| - 1]);
      StepIsSound(Replay(log[..|log| - 1]), log[|log| - 1]);
    }
  }

  lemma {:induction false} IncreasingCount(events: seq<Event>, e: Event)
    requires Increasing(events)
    ensures multiset(events)[e] == if e in events then 1 else 0
    decreases |events|
  {
    if events != [] {
      var n := |events| - 1;
      assert events == events[..n] + [events[n]];
      IncreasingCount(events[..n], e);
      assert events[n] !in events[..n];
    }
  }

  /** Main result on the fate of events: each accepted one is taken, queued or evicted, exactly one of them, once. */
  lemma EachEventHasOneFate(log: seq<Step>, e: Event)
    ensures var f := Replay(log);
            multiset(f.taken)[e] + multiset(f.queue)[e] + multiset(f.evicted)[e] == if e in f.accepted then 1 else 0
    ensures Increasing(Replay(log).taken) && Older(Replay(log).taken, Replay(log).queue)
  {
    ReplayIsSound(log);
    IncreasingCount(Replay(log).accepted, e);
  }

  // ---- the stream

  /** The fields that decide what the stream does: `hand` is what readers took from the queue and have not yet dealt
      with under the lock. */
  datatype State = State(items: seq<Item>, hand: seq<Item>, bytes: int, closed: bool, closing: bool, signalQueued: bool)

  /** The byte counter is exact, a queue within its limits, and a close that no blocked reader can miss. */
  ghost predicate Coherent(s: State, maxEvents: nat, maxBytes: nat) {
    && |s.items| <= maxEvents && Bytes(s.items) <= maxBytes
    && s.bytes == Bytes(s.items) + Bytes(s.hand)
    && Signals(s.items) + Signals(s.hand) == (if s.signalQueued then 1 else 0)
    && (Signals(s.items) > 0 ==> s.items[|s.items| - 1].Signal?)
    && (Signals(s.hand) > 0 ==> s.items == [])
    && (s.signalQueued ==> s.closed)
    && (s.closed ==> !s.closing && (s.items != [] || s.hand != []))
  }

  /** Once a closed stream's events are all read, the signal is there for every reader that still waits. */
  lemma SignalAwaits(s: State, maxEvents: nat, maxBytes: nat)
    requires Coherent(s, maxEvents, maxBytes) && s.closed && s.hand == [] && Events(s.items) == []
    ensures s.items == [Signal]
  {
    assert |s.items| == Signals(s.items);
  }

  /** A reader takes the front of the queue. */
  function Taken(s: State): State
    requires s.items != []
  {
    s.(items := s.items[1..], hand := s.hand + [s.items[0]])
  }

  function EvictedOne(s: State): State
    requires s.items != []
  {
    s.(items := s.items[1..], bytes := s.bytes - SizeOf(s.items[0]))
  }

  function Put(s: State, e: Event): State {
    s.(items := s.items + [Plate(e)], bytes := s.bytes + e.size)
  }

  function Recorded(s: State, i: nat): State
    requires i < |s.hand|
  {
    var left := s.(hand := Without(s.hand, i), bytes := s.bytes - SizeOf(s.hand[i]));
    if Drained(s) then left.(items := [Signal], signalQueued := true) else left
  }

  function Closed(s: State, maxEvents: nat): State {
    var closed := s.(closing := false, closed := true);
    if |s.items| < maxEvents then closed.(items := s.items + [Signal], signalQueued := true) else closed
  }

  /** What the stream's counters tell it. */
  predicate HasRoom(s: State, size: nat, maxEvents: nat, maxBytes: nat) {
    |s.items| < maxEvents && s.bytes + size <= maxBytes
  }

  /** The eviction loop when no reader comes between its steps. */
  function RoomMade(s: State, size: nat, maxEvents: nat, maxBytes: nat): (r: State)
    ensures |r.items| <= |s.items| && r.hand == s.hand
    decreases |s.items|
  {
    if s.items == [] || HasRoom(s, size, maxEvents, maxBytes) then s
    else RoomMade(EvictedOne(s), size, maxEvents, maxBytes)
  }

  /** Readers only ever add to their hands; if none did, `after` is the expected state. */
  predicate Undisturbed(before: State, after: State, expected: State) {
    |after.hand| >= |before.hand| && (|after.hand| == |before.hand| ==> after == expected)
  }

  /** The queue itself could hold the event. */
  predicate QueueHasRoom(s: State, size: nat, maxEvents: nat, maxBytes: nat) {
    |s.items| < maxEvents && Bytes(s.items) + size <= maxBytes
  }

  /** Main result on the byte limit: though the queue has room for an event, older ones are evicted for it exactly
      when some are queued and the bytes in readers' hands bring the sum over the limit. */
  lemma RoomIsWastedIff(s: State, size: nat, maxEvents: nat, maxBytes: nat)
    requires Coherent(s, maxEvents, maxBytes) && QueueHasRoom(s, size, maxEvents, maxBytes)
    ensures RoomMade(s, size, maxEvents, maxBytes).items != s.items <==>
              s.items != [] && Bytes(s.items) + Bytes(s.hand) + size > maxBytes
  {}

  lemma LastSize(items: seq<Item>)
    requires items != []
    ensures Bytes(items) >= SizeOf(items[|items| - 1])
  {
    var n := |items| - 1;
    assert items == items[..n] + [items[n]];
    Measures(items[..n], [items[n]]);
    OneItem(items[n]);
  }

  /** And all of them are evicted exactly when the newest of them would not fit beside the bytes in hand either. */
  lemma {:induction false} EverythingIsEvictedIff(s: State, size: nat, maxEvents: nat, maxBytes: nat)
    requires Coherent(s, maxEvents, maxBytes) && !s.closed && s.items != []
    requires QueueHasRoom(s, size, maxEvents, maxBytes)
    ensures RoomMade(s, size, maxEvents, maxBytes).items == [] <==>
              Bytes(s.hand) + SizeOf(s.items[|s.items| - 1]) + size > maxBytes
    decreases |s.items|
  {
    LastSize(s.items);
    FrontItem(s.items);
    if !HasRoom(s, size, maxEvents, maxBytes) && |s.items| > 1 {
      EvictingIsCoherent(s, maxEvents, maxBytes);
      EverythingIsEvictedIff(EvictedOne(s), size, maxEvents, maxBytes);
    }
  }

  /** Such a state: one byte queued, nine in a reader's hands, a limit of ten, and an event of one byte. */
  lemma RoomIsWasted()
    ensures var s := State([Plate(Event(1, 1))], [Plate(Event(0, 9))], 10, false, false, false);
            && Coherent(s, 5, 10) && QueueHasRoom(s, 1, 5, 10)
            && RoomMade(s, 1, 5, 10).items == []
  {
    var s := State([Plate(Event(1, 1))], [Plate(Event(0, 9))], 10, false, false, false);
    OneItem(s.items[0]);
    OneItem(s.hand[0]);
    EverythingIsEvictedIff(s, 1, 5, 10);
  }

  lemma TakingIsCoherent(s: State, maxEvents: nat, maxBytes: nat)
    requires Coherent(s, maxEvents, maxBytes) && s.items != []
    ensures Coherent(Taken(s), maxEvents, maxBytes)
    ensures Bytes(Taken(s).hand) >= Bytes(s.hand)
  {
    SplitItems(s.hand, [s.items[0]]);
    OneItem(s.items[0]);
    FrontItem(s.items);
    if |s.items| > 1 && s.items[|s.items| - 1].Signal? {
      LastSignalCounts(s.items[1..]);
    }
  }

  /** Taking an event is a step of its fate; taking the signal is none. */
  lemma TakingIsAStep(s: State, log: seq<Step>)
    requires Replay(log).queue == Events(s.items) && s.items != []
    ensures Replay(log + AsStep(s.items[0])).queue == Events(Taken(s).items)
    ensures Replay(log + AsStep(s.items[0])).evicted == Replay(log).evicted
    ensures Replay(log + AsStep(s.items[0])).accepted == Replay(log).accepted
    ensures Replay(log + AsStep(s.items[0])).next == Replay(log).next
  {
    FrontItem(s.items);
    if s.items[0].Plate? {
      ReplayOneMore(log, TakeFront);
    } else {
      assert log + [] == log;
    }
  }

  function AsStep(x: Item): seq<Step> {
    if x.Plate? then [TakeFront] else []
  }

  lemma LastSignalCounts(items: seq<Item>)
    requires items != [] && items[|items| - 1].Signal?
    ensures Signals(items) > 0
  {
    var n := |items| - 1;
    SplitItems(items[..n], [items[n]]);
    assert items == items[..n] + [items[n]];
    OneItem(items[n]);
  }

  function Clipped(n: int): nat {
    if n > 0 then n else 0
  }

  predicate Drained(s: State) {
    s.closed && !s.signalQueued && s.items == []
  }

  lemma ForgettingIsCoherent(s: State, i: nat, maxEvents: nat, maxBytes: nat)
    requires Coherent(s, maxEvents, maxBytes) && i < |s.hand| && s.hand[i].Plate? && !Drained(s)
    ensures s.bytes >= SizeOf(s.hand[i])
    ensures Coherent(s.(hand := Without(s.hand, i), bytes := s.bytes - SizeOf(s.hand[i])), maxEvents, maxBytes)
  {
    WithoutOne(s.hand, i);
  }

  /** The last event recorded, and the signal queued. */
  function Signalling(s: State, i: nat): State
    requires i < |s.hand|
  {
    State([Signal], Without(s.hand, i), s.bytes - SizeOf(s.hand[i]), true, false, true)
  }

  lemma SignallingIsCoherent(s: State, i: nat, maxEvents: nat, maxBytes: nat)
    requires Coherent(s, maxEvents, maxBytes) && maxEvents > 0 && i < |s.hand| && s.hand[i].Plate? && Drained(s)
    ensures s.bytes >= SizeOf(s.hand[i])
    ensures Coherent(Signalling(s, i), maxEvents, maxBytes)
    ensures Events([Signal]) == []
  {
    WithoutOne(s.hand, i);
    OneItem(Signal);
  }

  lemma RequeueIsCoherent(s: State, i: nat, maxEvents: nat, maxBytes: nat)
    requires Coherent(s, maxEvents, maxBytes) && maxEvents > 0 && i < |s.hand| && s.hand[i].Signal?
    ensures s.items == []
    ensures Coherent(s.(hand := Without(s.hand, i), items := [Signal], signalQueued := true), maxEvents, maxBytes)
    ensures Events([Signal]) == []
  {
    WithoutOne(s.hand, i);
    OneItem(Signal);
  }

  lemma ClosingIsCoherent(s: State, maxEvents: nat, maxBytes: nat)
    requires Coherent(s, maxEvents, maxBytes) && maxEvents > 0 && s.closing
    ensures Coherent(Closed(s, maxEvents), maxEvents, maxBytes)
    ensures Events(Closed(s, maxEvents).items) == Events(s.items)
  {
    SplitItems(s.items, [Signal]);
    OneItem(Signal);
  }

  lemma PuttingIsCoherent(s: State, e: Event, maxEvents: nat, maxBytes: nat)
    requires Coherent(s, maxEvents, maxBytes) && !s.closed
    requires |s.items| < maxEvents && Bytes(s.items) + e.size <= maxBytes
    ensures Coherent(Put(s, e), maxEvents, maxBytes) && Events(Put(s, e).items) == Events(s.items) + [e]
  {
    SplitItems(s.items, [Plate(e)]);
    OneItem(Plate(e));
  }

  /** An open stream has no signal in its queue, so an eviction always finds an event. */
  lemma EvictingIsCoherent(s: State, maxEvents: nat, maxBytes: nat)
    requires Coherent(s, maxEvents, maxBytes) && !s.closed && s.items != []
    ensures s.items[0].Plate?
    ensures Coherent(EvictedOne(s), maxEvents, maxBytes)
    ensures Events(s.items) == [s.items[0].event] + Events(s.items[1..])
  {
    FrontItem(s.items);
  }

  ghost predicate SameAccepted(f: Flow, g: Flow) {
    f.accepted == g.accepted && f.next == g.next
  }

  ghost predicate SameButTaken(f: Flow, g: Flow) {
    SameAccepted(f, g) && f.evicted == g.evicted
  }

  class PlateEventStream {
    const maxEvents: nat
    const maxBytes: nat
    const dropNewest: bool
    var items: seq<Item>
    var bytes: int
    var dropped: nat
    var closed: bool
    var closing: bool
    var signalQueued: bool
    ghost var hand: seq<Item>
    ghost var log: seq<Step>
    ghost var refused: nat

    ghost function View(): State
      reads this
    {
      State(items, hand, bytes, closed, closing, signalQueued)
    }

    ghost function Fate(): Flow
      reads this
    {
      Replay(log)
    }

    ghost predicate Valid()
      reads this
    {
      && maxEvents > 0 && maxBytes > 0
      && Coherent(View(), maxEvents, maxBytes)
      && Fate().queue == Events(items)
      && dropped == refused + |Fate().evicted|
    }

    constructor (maxEvents: nat, maxBytes: nat, dropNewest: bool)
      requires maxEvents > 0 && maxBytes > 0
      ensures Valid() && !closed && Fate() == NOTHING_YET
      ensures this.maxEvents == maxEvents && this.maxBytes == maxBytes && this.dropNewest == dropNewest
    {
      this.maxEvents, this.maxBytes, this.dropNewest := maxEvents, maxBytes, dropNewest;
      items, bytes, dropped, closed, closing, signalQueued := [], 0, 0, false, false, false;
      hand, log, refused := [], [], 0;
    }

    /** A reader takes the front of the queue, with no more than the queue's own lock. */
    method Take() returns (x: Item)
      requires Valid() && items != []
      modifies this`items, this`hand, this`log
      ensures Valid() && x == old(items)[0] && View() == Taken(old(View()))
      ensures log == old(log) + AsStep(x)
    {
      x := items[0];
      TakingIsCoherent(View(), maxEvents, maxBytes);
      TakingIsAStep(View(), log);
      log := log + AsStep(x);
      hand := hand + [x];
      items := items[1..];
    }

    /** What readers may do while a callback holds the stream's lock: take any number of items. */
    method ReadersMayTake()
      requires Valid()
      modifies this`items, this`hand, this`log
      ensures Valid() && |items| <= |old(items)| && Bytes(hand) >= Bytes(old(hand))
      ensures SameButTaken(Fate(), old(Fate())) && Undisturbed(old(View()), View(), old(View()))
    {
      while *
        invariant Valid() && |items| <= |old(items)| && Bytes(hand) >= Bytes(old(hand))
        invariant SameButTaken(Fate(), old(Fate())) && Undisturbed(old(View()), View(), old(View()))
        decreases |items|
      {
        if items == [] {
          break;
        }
        TakingIsCoherent(View(), maxEvents, maxBytes);
        TakingIsAStep(View(), log);
        var _ := Take();
      }
    }

    method Evict()
      requires Valid() && !closed && items != []
      modifies this`items, this`bytes, this`dropped, this`log
      ensures Valid() && View() == EvictedOne(old(View())) && log == old(log) + [EvictFront]
    {
      EvictingIsCoherent(View(), maxEvents, maxBytes);
      ReplayOneMore(log, EvictFront);
      var oldest := items[0];
      items := items[1..];
      bytes := bytes - oldest.event.size;
      dropped := dropped + 1;
      log := log + [EvictFront];
    }

    /** One round of the eviction loop. Readers may take items between any two of its steps. */
    method EvictOldest() returns (found: bool)
      requires Valid() && !closed
      modifies this`items, this`hand, this`bytes, this`dropped, this`log
      ensures Valid() && |items| <= |old(items)| && bytes <= old(bytes) && Bytes(hand) >= Bytes(old(hand))
      ensures if found then |items| < |old(items)| else items == []
      ensures SameAccepted(Fate(), old(Fate()))
      ensures Undisturbed(old(View()), View(), if old(items) == [] then old(View()) else EvictedOne(old(View())))
    {
      ReadersMayTake();
      if items == [] {
        return false;
      }
      Evict();
      ReadersMayTake();
      found := true;
    }

    /** The eviction loop; undisturbed by readers it makes room as `RoomMade` does. */
    method MakeRoom(size: nat)
      requires Valid() && !closed && size <= maxBytes
      modifies this`items, this`hand, this`bytes, this`dropped, this`log
      ensures Valid() && |items| < maxEvents && Bytes(items) + size <= maxBytes
      ensures |old(items)| < maxEvents && old(bytes) + size <= maxBytes ==> Fate().evicted == old(Fate()).evicted
      ensures Bytes(old(hand)) + size > maxBytes ==> items == []
      ensures SameAccepted(Fate(), old(Fate()))
      ensures Undisturbed(old(View()), View(), RoomMade(old(View()), size, maxEvents, maxBytes))
    {
      ghost var s := View();
      ghost var made := RoomMade(s, size, maxEvents, maxBytes);
      while |items| == maxEvents || bytes + size > maxBytes
        invariant Valid() && |items| <= |old(items)| && bytes <= old(bytes) && Bytes(hand) >= Bytes(old(hand))
        invariant |old(items)| < maxEvents && old(bytes) + size <= maxBytes ==> Fate().evicted == old(Fate()).evicted
        invariant SameAccepted(Fate(), old(Fate()))
        invariant |hand| >= |s.hand|
        invariant |hand| == |s.hand| ==> RoomMade(View(), size, maxEvents, maxBytes) == made
        decreases |items|
      {
        var found := EvictOldest();
        if !found {
          break;
        }
      }
      assert items == [] || bytes + size <= maxBytes;
      ReadersMayTake();
    }

    /** A native callback's event, under the stream's lock. It is refused by a stream that is closed or closing, when
        it is too large for any queue, or by a full queue that drops the newest; otherwise it enters the queue, after
        the oldest events were evicted as far as the counters ask. */
    method Enqueue(e: Event)
      requires Valid() && Fate().next <= e.no
      modifies this`items, this`hand, this`bytes, this`dropped, this`log, this`refused
      ensures Valid() && Fate().accepted == old(Fate()).accepted + if refused == old(refused) then [e] else []
      ensures refused != old(refused) ==> refused == old(refused) + 1 && Fate().evicted == old(Fate()).evicted
      ensures old(closed || closing) || e.size > maxBytes ==> refused != old(refused)
      ensures !old(closed || closing) && e.size <= maxBytes
              && (!dropNewest || (|old(items)| < maxEvents && old(bytes) + e.size <= maxBytes)) ==>
                refused == old(refused)
      ensures dropNewest || (|old(items)| < maxEvents && old(bytes) + e.size <= maxBytes) ==>
                Fate().evicted == old(Fate()).evicted
      ensures refused == old(refused) && Bytes(old(hand)) + e.size > maxBytes ==> items == [Plate(e)]
      ensures |hand| == |old(hand)| ==>
                (refused != old(refused) <==>
                   old(closed || closing) || e.size > maxBytes
                   || (dropNewest && !HasRoom(old(View()), e.size, maxEvents, maxBytes)))
      ensures |hand| == |old(hand)| && refused == old(refused) ==>
                View() == Put(RoomMade(old(View()), e.size, maxEvents, maxBytes), e)
    {
      if closed || closing || e.size > maxBytes {
        dropped, refused := dropped + 1, refused + 1;
        return;
      }
      ReadersMayTake();
      if dropNewest && (|items| == maxEvents || bytes + e.size > maxBytes) {
        dropped, refused := dropped + 1, refused + 1;
        return;
      }
      MakeRoom(e.size);
      Append(e);
    }

    method Append(e: Event)
      requires Valid() && !closed && Fate().next <= e.no && |items| < maxEvents && Bytes(items) + e.size <= maxBytes
      modifies this`items, this`bytes, this`log
      ensures Valid() && View() == Put(old(View()), e) && log == old(log) + [Accept(e)]
      ensures Fate().accepted == old(Fate()).accepted + [e] && Fate().evicted == old(Fate()).evicted
    {
      PuttingIsCoherent(View(), e, maxEvents, maxBytes);
      ReplayOneMore(log, Accept(e));
      items, bytes := items + [Plate(e)], bytes + e.size;
      log := log + [Accept(e)];
    }

    method Forget(ghost i: nat, size: nat)
      requires Valid() && i < |hand| && hand[i].Plate? && size == SizeOf(hand[i]) && !Drained(View())
      modifies this`bytes, this`hand
      ensures Valid() && View() == Recorded(old(View()), i)
    {
      ForgettingIsCoherent(View(), i, maxEvents, maxBytes);
      hand, bytes := Without(hand, i), Clipped(bytes - size);
    }

    method ForgetAndSignal(ghost i: nat, size: nat)
      requires Valid() && i < |hand| && hand[i].Plate? && size == SizeOf(hand[i]) && Drained(View())
      modifies this`items, this`bytes, this`signalQueued, this`hand
      ensures Valid() && View() == Recorded(old(View()), i)
    {
      SignallingIsCoherent(View(), i, maxEvents, maxBytes);
      hand, bytes := Without(hand, i), Clipped(bytes - size);
      items, signalQueued := [Signal], true;
    }

    /** A reader accounts for an event it took; after a close, the one that emptied the queue leaves the signal. */
    method RecordDequeue(ghost i: nat, size: nat)
      requires Valid() && i < |hand| && hand[i].Plate? && size == SizeOf(hand[i])
      modifies this`items, this`bytes, this`signalQueued, this`hand
      ensures Valid() && View() == Recorded(old(View()), i)
      ensures hand == old(hand)[..i] + old(hand)[i + 1..] && bytes == old(bytes) - size && closed == old(closed)
      ensures items == if old(closed && !signalQueued && items == []) then [Signal] else old(items)
    {
      if closed && !signalQueued && items == [] {
        ForgetAndSignal(i, size);
      } else {
        Forget(i, size);
      }
    }

    /** A reader that took the signal puts it back for the next one: there is always room for it. */
    method RequeueCloseSignal(ghost i: nat)
      requires Valid() && i < |hand| && hand[i].Signal?
      modifies this`items, this`signalQueued, this`hand
      ensures Valid() && hand == Without(old(hand), i) && items == [Signal] && signalQueued
    {
      RequeueIsCoherent(View(), i, maxEvents, maxBytes);
      hand := Without(hand, i);
      signalQueued := |items| < maxEvents;
      if signalQueued {
        items := items + [Signal];
      }
    }

    method BeginClose() returns (proceeds: bool)
      requires Valid()
      modifies this`closing
      ensures Valid() && proceeds == (!closed && !old(closing)) && closing == (old(closing) || proceeds)
    {
      if closed || closing {
        return false;
      }
      closing := true;
      proceeds := true;
    }

    /** After the closer ran: closed only if it returned normally. */
    method EndClose(closerReturned: bool)
      requires Valid() && closing
      modifies this`items, this`closed, this`closing, this`signalQueued
      ensures Valid()
      ensures View() == if closerReturned then Closed(old(View()), maxEvents) else old(View()).(closing := false)
      ensures closed == closerReturned && !closing && bytes == old(bytes)
      ensures items == old(items) + if closerReturned && |old(items)| < maxEvents then [Signal] else []
    {
      ghost var s := View();
      if !closerReturned {
        closing := false;
        return;
      }
      ClosingIsCoherent(s, maxEvents, maxBytes);
      closing, closed := false, true;
      if |items| < maxEvents {
        items, signalQueued := items + [Signal], true;
        assert View() == Closed(s, maxEvents);
        return;
      }
      assert View() == Closed(s, maxEvents);
    }

    /** The numbers reported as buffered. */
    method Stats() returns (bufferedEvents: nat, bufferedBytes: int)
      requires Valid()
      ensures bufferedEvents == |Events(items)|
      ensures bufferedBytes == Bytes(items) + Bytes(hand)
    {
      var n := |items| - if signalQueued then 1 else 0;
      bufferedEvents := if n > 0 then n else 0;
      bufferedBytes := bytes;
    }
  }
}
