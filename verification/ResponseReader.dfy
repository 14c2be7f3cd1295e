/** The receive loop of a runtime request: one newline-terminated reply of bounded size, from chunks of any size. */
module ResponseReader {
  import opened Outcomes
  import opened Sockets

  type Byte = bv8

  const NEWLINE: Byte := 10
  const MAX_RESPONSE := 34 * 1024 * 1024
  const MAX_CHUNK := 64 * 1024

  datatype Failure = Incomplete | TooLarge

  /** No newline among the first `n` bytes. */
  predicate NoneBefore(wire: seq<Byte>, n: nat) {
    forall i | 0 <= i < n && i < |wire| :: wire[i] != NEWLINE
  }

  predicate FirstNewline(wire: seq<Byte>, n: nat) {
    n < |wire| && wire[n] == NEWLINE && NoneBefore(wire, n)
  }

  /** What the peer's byte stream means, with no mention of chunks: the line up to and including the first newline,
      if that newline is among the first `MAX_RESPONSE + 1` bytes. */
  ghost predicate Means(wire: seq<Byte>, r: Result<seq<Byte>, Failure>) {
    match r
    case Ok(line) => exists n: nat :: FirstNewline(wire, n) && n <= MAX_RESPONSE && line == wire[..n + 1]
    case Err(TooLarge) => |wire| > MAX_RESPONSE && NoneBefore(wire, MAX_RESPONSE + 1)
    case Err(Incomplete) => |wire| <= MAX_RESPONSE && NoneBefore(wire, |wire|)
  }

  /** Every stream means exactly one result, so the chunk boundaries cannot matter. */
  lemma MeaningIsUnique(wire: seq<Byte>, r: Result<seq<Byte>, Failure>, q: Result<seq<Byte>, Failure>)
    requires Means(wire, r) && Means(wire, q)
    ensures r == q
  {
    if r.Ok? && q.Ok? {
      var n: nat :| FirstNewline(wire, n) && n <= MAX_RESPONSE && r.value == wire[..n + 1];
      var m: nat :| FirstNewline(wire, m) && m <= MAX_RESPONSE && q.value == wire[..m + 1];
      assert n == m;
    }
  }

  /** The first newline of a chunk, or its length. */
  method Find(chunk: seq<Byte>) returns (n: nat)
    ensures n <= |chunk| && NoneBefore(chunk, n)
    ensures n < |chunk| ==> chunk[n] == NEWLINE
  {
    n := 0;
    while n < |chunk| && chunk[n] != NEWLINE
      invariant n <= |chunk| && NoneBefore(chunk, n)
    {
      n := n + 1;
    }
  }

  lemma ChunkIsWire(wire: seq<Byte>, at: nat, chunk: seq<Byte>, n: nat)
    requires at + |chunk| <= |wire| && chunk == wire[at..at + |chunk|] && n <= |chunk|
    requires NoneBefore(wire, at) && NoneBefore(chunk, n)
    ensures NoneBefore(wire, at + n)
  {
    forall i | at <= i < at + n ensures wire[i] != NEWLINE {
      assert wire[i] == chunk[i - at];
    }
  }

  /** `peak` is the most the loop ever buffers. `Recv`'s precondition shows that it never asks for zero bytes. */
  method Receive(wire: seq<Byte>) returns (r: Result<seq<Byte>, Failure>, peak: nat)
    ensures Means(wire, r)
    ensures peak <= MAX_RESPONSE + 1
  {
    var buffer: seq<Byte> := [];
    var received := 0;
    peak := 0;
    while true
      invariant received <= MAX_RESPONSE && received <= |wire|
      invariant buffer == wire[..received] && NoneBefore(wire, received)
      invariant peak <= MAX_RESPONSE + 1
      decreases |wire| - received
    {
      var ask := if MAX_CHUNK < MAX_RESPONSE + 1 - received then MAX_CHUNK else MAX_RESPONSE + 1 - received;
      var chunk := Recv(wire, received, ask);
      if chunk == [] {
        return Err(Incomplete), peak;
      }
      var n := Find(chunk);
      if n < |chunk| {
        buffer := buffer + chunk[..n + 1];
        peak := if |buffer| > peak then |buffer| else peak;
        assert buffer == wire[..received + n + 1];
        assert NoneBefore(wire, received + n) by {
          ChunkIsWire(wire, received, chunk, n);
        }
        assert FirstNewline(wire, received + n);
        return Ok(buffer), peak;
      }
      ChunkIsWire(wire, received, chunk, n);
      assert wire[..received + |chunk|] == buffer + chunk;
      buffer := buffer + chunk;
      received := received + |chunk|;
      peak := if |buffer| > peak then |buffer| else peak;
      if received > MAX_RESPONSE {
        return Err(TooLarge), peak;
      }
    }
  }
}
