/** What a stream socket may do to a reader. `wire` is everything the peer ever sends. */
module Sockets {
  /** Any non-empty amount up to what was asked for, and nothing once the peer has closed. */
  method Recv<Byte>(wire: seq<Byte>, at: nat, ask: nat) returns (chunk: seq<Byte>)
    requires at <= |wire| && ask > 0
    ensures at + |chunk| <= |wire| && |chunk| <= ask && chunk == wire[at..at + |chunk|]
    ensures chunk == [] <==> at == |wire|
  {
    if at == |wire| {
      return [];
    }
    var k: nat :| 1 <= k <= ask && at + k <= |wire|;
    chunk := wire[at..at + k];
  }
}
