/** Framing of the recorder protocol: 20-byte command headers behind a "1111" or "head" flag, 64-byte init packets,
    and a receiver that must take them apart whatever chunks the socket delivers. */
module Packets {
  import opened Outcomes
  import opened Sockets

  type Byte = b: int | 0 <= b < 256

  const WORD := 0x1_0000_0000
  const HEADER_FLAG: seq<Byte> := [0x31, 0x31, 0x31, 0x31]
  const INIT_FLAG: seq<Byte> := [0x68, 0x65, 0x61, 0x64]
  const INIT_PACKET_SIZE := 64

  // ---- little-endian words

  function Pack(n: int): (r: seq<Byte>)
    requires 0 <= n < WORD
    ensures |r| == 4 && Unpack(r) == n
  {
    var q := n / 256;
    var p := q / 256;
    [n % 256, q % 256, p % 256, p / 256]
  }

  function Unpack(b: seq<Byte>): (n: int)
    requires |b| == 4
    ensures 0 <= n < WORD
  {
    b[0] as int + 256 * (b[1] as int + 256 * (b[2] as int + 256 * b[3] as int))
  }

  /** The least significant byte comes first. */
  lemma LeastByteFirst(b: seq<Byte>)
    requires |b| == 4
    ensures Unpack(b) % 0x100 == b[0] && Unpack(b) / 0x100 % 0x100 == b[1]
    ensures Unpack(b) / 0x1_0000 % 0x100 == b[2] && Unpack(b) / 0x100_0000 == b[3]
  {
    var h2 := b[2] as int + 256 * b[3] as int;
    var h1 := b[1] as int + 256 * h2;
    assert Unpack(b) == b[0] as int + 256 * h1;
    assert Unpack(b) / 0x100 == h1;
    assert Unpack(b) / 0x1_0000 == h1 / 0x100 == h2;
    assert Unpack(b) / 0x100_0000 == h2 / 0x100;
  }

  // ---- sending

  function MakeHeader(cmd: int, dataLen: int, cmdId: int, cmdVer: int, flag: seq<Byte>): (r: seq<Byte>)
    requires 0 <= cmd < WORD && 0 <= cmdId < WORD && 0 <= cmdVer < WORD && 0 <= dataLen && 16 + dataLen < WORD
    ensures |r| == |flag| + 20
  {
    flag + Pack(16 + dataLen) + Pack(cmd) + Pack(cmdId) + Pack(cmdVer) + Pack(dataLen)
  }

  datatype Item = Keepalive | Command(cmd: int, cmdId: int, cmdVer: int, payload: seq<Byte>)

  predicate Sendable(x: Item) {
    x.Command? ==> 0 <= x.cmd < WORD && 0 <= x.cmdId < WORD && 0 <= x.cmdVer < WORD && 16 + |x.payload| < WORD
  }

  function Frame(x: Item, flag: seq<Byte>): seq<Byte>
    requires Sendable(x)
  {
    match x
    case Keepalive => flag + Pack(0)
    case Command(cmd, cmdId, cmdVer, payload) => MakeHeader(cmd, |payload|, cmdId, cmdVer, flag) + payload
  }

  // ---- receiving

  /** `cmd` is `None` for raw data and -1 for an empty packet. */
  datatype Received = Received(cmd: Option<int>, data: seq<Byte>)

  /** A parsed packet and how many bytes of the stream it took; or the peer closed before it was complete. */
  datatype Parsed = Closed | Got(packet: Received, taken: nat)

  predicate LooksLikeInit(length: int) {
    length <= 0x10 || 0x1000 < length < 0x1000_0000
  }

  function CommandOf(body: seq<Byte>): Received
    requires |body| >= 16
  {
    var dataLen := Unpack(body[12..16]);
    Received(Some(Unpack(body[..4])), if dataLen > 0 then body[16..][..Least(dataLen, |body| - 16)] else [])
  }

  function Least(a: int, b: int): int { if a < b then a else b }

  /** The first packet of a byte stream. */
  function Parse(wire: seq<Byte>): (r: Parsed)
    ensures r.Got? ==> 0 < r.taken <= |wire|
  {
    if |wire| < 4 then Closed
    else if wire[..4] != INIT_FLAG && wire[..4] != HEADER_FLAG then Got(Received(None, wire[..4]), 4)
    else if |wire| < 8 then Closed
    else
      var length := Unpack(wire[4..8]);
      if wire[..4] == INIT_FLAG then
        if LooksLikeInit(length) then
          if |wire| < INIT_PACKET_SIZE then Closed
          else Got(Received(None, wire[..INIT_PACKET_SIZE]), INIT_PACKET_SIZE)
        else if |wire| < 8 + length then Closed
        else Got(CommandOf(wire[8..8 + length]), 8 + length)
      else if length == 0 then Got(Received(Some(-1), []), 8)
      else if |wire| < 8 + length then Closed
      else if length >= 16 then Got(CommandOf(wire[8..8 + length]), 8 + length)
      else Got(Received(None, wire[..4]), 8 + length)
  }

  method RecvExact(wire: seq<Byte>, at: nat, n: nat) returns (r: Option<seq<Byte>>)
    requires at <= |wire|
    ensures r == if at + n <= |wire| then Some(wire[at..at + n]) else None
  {
    var buf: seq<Byte> := [];
    while |buf| < n
      invariant |buf| <= n && at + |buf| <= |wire| && buf == wire[at..at + |buf|]
    {
      var chunk := Recv(wire, at + |buf|, n - |buf|);
      if chunk == [] {
        return None;
      }
      buf := buf + chunk;
    }
    r := Some(buf);
  }

  /** Whatever the chunks, the receiver takes exactly the first packet of what is still unread. */
  method RecvPacket(wire: seq<Byte>, at: nat) returns (r: Option<Received>, next: nat)
    requires at <= |wire|
    ensures Parse(wire[at..]).Closed? ==> r.None?
    ensures Parse(wire[at..]).Got? ==> r == Some(Parse(wire[at..]).packet) && next == at + Parse(wire[at..]).taken
    ensures next <= |wire|
  {
    next := at;
    ghost var rest := wire[at..];
    var flag := RecvExact(wire, at, 4);
    if flag.None? {
      return None, next;
    }
    assert flag.value == rest[..4];
    if flag.value != INIT_FLAG && flag.value != HEADER_FLAG {
      return Some(Received(None, flag.value)), at + 4;
    }
    var lengthBytes := RecvExact(wire, at + 4, 4);
    if lengthBytes.None? {
      return None, next;
    }
    assert lengthBytes.value == rest[4..8];
    var length := Unpack(lengthBytes.value);
    if flag.value == INIT_FLAG && LooksLikeInit(length) {
      var remaining := RecvExact(wire, at + 8, INIT_PACKET_SIZE - 8);
      if remaining.None? {
        return None, next;
      }
      assert flag.value + lengthBytes.value + remaining.value == rest[..INIT_PACKET_SIZE];
      return Some(Received(None, flag.value + lengthBytes.value + remaining.value)), at + INIT_PACKET_SIZE;
    }
    if length == 0 {
      return Some(Received(Some(-1), [])), at + 8;
    }
    var body := RecvExact(wire, at + 8, length);
    if body.None? {
      return None, next;
    }
    assert body.value == rest[8..8 + length];
    if length >= 16 {
      return Some(CommandOf(body.value)), at + 8 + length;
    }
    return Some(Received(None, flag.value)), at + 8 + length;
  }

  /** The header on the wire: flag, total length, command, command id, version, payload length. */
  lemma HeaderLayout(cmd: int, dataLen: int, cmdId: int, cmdVer: int, flag: seq<Byte>)
    requires 0 <= cmd < WORD && 0 <= cmdId < WORD && 0 <= cmdVer < WORD && 0 <= dataLen && 16 + dataLen < WORD
    requires |flag| == 4
    ensures var r := MakeHeader(cmd, dataLen, cmdId, cmdVer, flag);
            && r[..4] == flag && Unpack(r[4..8]) == 16 + dataLen && Unpack(r[8..12]) == cmd
            && Unpack(r[12..16]) == cmdId && Unpack(r[16..20]) == cmdVer && Unpack(r[20..24]) == dataLen
  {
    var r := MakeHeader(cmd, dataLen, cmdId, cmdVer, flag);
    assert r[4..8] == Pack(16 + dataLen) && r[8..12] == Pack(cmd) && r[12..16] == Pack(cmdId);
    assert r[16..20] == Pack(cmdVer) && r[20..] == Pack(dataLen) && r[20..24] == r[20..];
  }

  /** The payload of a received command: what follows its 16 bytes, up to the stated length or to the end. */
  lemma PayloadIsAPrefix(body: seq<Byte>)
    requires |body| >= 16
    ensures var stated, data := Unpack(body[12..16]), CommandOf(body).data;
            && CommandOf(body).cmd == Some(Unpack(body[..4]))
            && 16 + |data| <= |body| && data == body[16..16 + |data|]
            && (16 + stated <= |body| ==> |data| == stated) && (16 + stated > |body| ==> 16 + |data| == |body|)
  {}

  /** Bytes that are not a packet: an unknown flag is given back alone; a "1111" packet too short for a command gives
      back its flag and is skipped. */
  lemma StrayBytes(wire: seq<Byte>, body: seq<Byte>, rest: seq<Byte>)
    ensures |wire| >= 4 && wire[..4] !in {[0x68, 0x65, 0x61, 0x64], [0x31, 0x31, 0x31, 0x31]} ==>
              Parse(wire) == Got(Received(None, wire[..4]), 4)
    ensures 0 < |body| < 16 ==>
              Parse(HEADER_FLAG + Pack(|body|) + body + rest)
              == Got(Received(None, [0x31, 0x31, 0x31, 0x31]), 8 + |body|)
  {
    if 0 < |body| < 16 {
      var short := HEADER_FLAG + Pack(|body|) + body + rest;
      assert short[..4] == HEADER_FLAG && short[4..8] == Pack(|body|);
    }
  }

  /** An init packet is its 64 bytes, flag included. */
  lemma InitIsReadWhole(wire: seq<Byte>)
    requires |wire| >= 8 && wire[..4] == [0x68, 0x65, 0x61, 0x64]
    requires var n := Unpack(wire[4..8]); n <= 0x10 || 0x1000 < n < 0x1000_0000
    ensures Parse(wire) == if |wire| < 64 then Closed else Got(Received(None, wire[..64]), 64)
  {}

  // ---- round trips

  lemma HeaderFields(x: Item, flag: seq<Byte>, rest: seq<Byte>)
    requires x.Command? && Sendable(x) && |flag| == 4
    ensures var wire := Frame(x, flag) + rest;
            var length := 16 + |x.payload|;
            && |wire| == 8 + length + |rest|
            && wire[..4] == flag && Unpack(wire[4..8]) == length
            && CommandOf(wire[8..8 + length]) == Received(Some(x.cmd), x.payload)
  {
    var wire := Frame(x, flag) + rest;
    var n := |x.payload|;
    var command := Pack(x.cmd) + Pack(x.cmdId) + Pack(x.cmdVer) + Pack(n);
    assert wire == flag + Pack(16 + n) + (command + x.payload) + rest;
    assert wire[..4] == flag && wire[4..8] == Pack(16 + n);
    assert wire[8..24 + n] == command + x.payload;
    CommandFields(Pack(x.cmd), Pack(x.cmdId), Pack(x.cmdVer), Pack(n), x.payload);
  }

  lemma CommandFields(cmd: seq<Byte>, cmdId: seq<Byte>, cmdVer: seq<Byte>, dataLen: seq<Byte>, payload: seq<Byte>)
    requires |cmd| == |cmdId| == |cmdVer| == |dataLen| == 4 && Unpack(dataLen) == |payload|
    ensures CommandOf(cmd + cmdId + cmdVer + dataLen + payload) == Received(Some(Unpack(cmd)), payload)
  {
    var body := cmd + cmdId + cmdVer + dataLen + payload;
    assert body[..4] == cmd;
    assert body[12..16] == dataLen;
    assert body[16..] == payload && payload[..|payload|] == payload;
  }

  /** A sent "1111" command or keepalive is what the receiver reads, and it takes exactly the sent bytes. */
  lemma FrameParses(x: Item, rest: seq<Byte>)
    requires Sendable(x)
    ensures Parse(Frame(x, HEADER_FLAG) + rest)
            == Got(Received(Some(if x.Command? then x.cmd else -1), if x.Command? then x.payload else []),
                   |Frame(x, HEADER_FLAG)|)
  {
    var wire := Frame(x, HEADER_FLAG) + rest;
    if x.Command? {
      HeaderFields(x, HEADER_FLAG, rest);
    } else {
      assert wire[..4] == HEADER_FLAG && wire[4..8] == Pack(0);
    }
  }

  /** The same frame behind the "head" flag is read as that command exactly for these total lengths;
      in particular a "head" command without payload is mistaken for an init packet. */
  lemma HeadFrameParsesIff(x: Item, rest: seq<Byte>)
    requires x.Command? && Sendable(x)
    ensures var length := 16 + |x.payload|;
            Parse(Frame(x, INIT_FLAG) + rest) == Got(Received(Some(x.cmd), x.payload), 8 + length)
            <==> 0x10 < length <= 0x1000 || 0x1000_0000 <= length
  {
    HeaderFields(x, INIT_FLAG, rest);
  }

  function ItemsOf(sent: seq<Item>): seq<Received> {
    seq(|sent|, i requires 0 <= i < |sent| =>
      Received(Some(if sent[i].Command? then sent[i].cmd else -1), if sent[i].Command? then sent[i].payload else []))
  }

  function Stream(sent: seq<Item>): seq<Byte>
    requires forall i | 0 <= i < |sent| :: Sendable(sent[i])
  {
    if sent == [] then [] else Frame(sent[0], HEADER_FLAG) + Stream(sent[1..])
  }

  lemma StreamStep(sent: seq<Item>, i: nat, unread: seq<Byte>, after: seq<Byte>)
    requires i < |sent| && forall j | 0 <= j < |sent| :: Sendable(sent[j])
    requires unread == Stream(sent[i..]) + after
    ensures Parse(unread) == Got(ItemsOf(sent)[i], |Frame(sent[i], HEADER_FLAG)|)
    ensures |Frame(sent[i], HEADER_FLAG)| <= |unread|
    ensures unread[|Frame(sent[i], HEADER_FLAG)|..] == Stream(sent[i + 1..]) + after
  {
    assert sent[i..][1..] == sent[i + 1..];
    assert unread == Frame(sent[i], HEADER_FLAG) + (Stream(sent[i + 1..]) + after);
    FrameParses(sent[i], Stream(sent[i + 1..]) + after);
  }

  /** Main result on framing: for every list of commands and keepalives and every chunking, repeated receives
      return exactly those commands and payloads and leave exactly the bytes that follow. */
  method ReceiveAll(ghost sent: seq<Item>, count: nat, wire: seq<Byte>, ghost after: seq<Byte>)
    returns (got: seq<Received>, next: nat)
    requires count == |sent| && forall i | 0 <= i < |sent| :: Sendable(sent[i])
    requires wire == Stream(sent) + after
    ensures got == ItemsOf(sent)
    ensures next <= |wire| && wire[next..] == after
  {
    got, next := [], 0;
    ghost var items := ItemsOf(sent);
    assert sent[0..] == sent && wire[0..] == wire;
    for i := 0 to count
      invariant next <= |wire| && wire[next..] == Stream(sent[i..]) + after
      invariant got == items[..i]
    {
      ghost var unread := wire[next..];
      StreamStep(sent, i, unread, after);
      var r, n := RecvPacket(wire, next);
      assert wire[n..] == unread[n - next..];
      assert items[..i + 1] == items[..i] + [items[i]];
      got, next := got + [r.value], n;
    }
    assert sent[count..] == [] && Stream([]) == [] && [] + after == after;
  }

  // ---- the init packet

  datatype InitInfo = InitInfo(devType: int, protocolVer: int, encryptType: int, encryptParam: int,
                               mac: seq<Byte>, loginEncrypt: Byte, xorKey: seq<Byte>, nonce: nat)

  function ParseInit(data: seq<Byte>): (r: Option<InitInfo>)
    ensures r.Some? <==> |data| >= 64
    ensures r.Some? ==> |r.value.xorKey| == 4 && r.value.xorKey[0] == r.value.loginEncrypt
    ensures r.Some? ==> r.value.nonce == Unpack(r.value.xorKey[1..] + [0]) && r.value.nonce < 0x100_0000
  {
    if |data| < INIT_PACKET_SIZE then None
    else assert data[44..48][1..] == data[45..48];
         Some(InitInfo(Unpack(data[4..8]), Unpack(data[12..16]), Unpack(data[24..28]), Unpack(data[28..32]),
                       data[32..38], data[44], data[44..48], Unpack(data[45..48] + [0])))
  }

  /** The layout of the init packet: after the flag come the device type, the initial product type, the protocol and
      configuration versions, an id, encryption type and parameter, the address in eight bytes, the initial software
      version, the login encryption with its nonce in three bytes, and sixteen bytes more. */
  lemma InitLayout(flag: seq<Byte>, devType: int, product: int, protocolVer: int, configVer: int, id: int,
                   encryptType: int, encryptParam: int, mac: seq<Byte>, software: int, loginEncrypt: Byte,
                   n0: Byte, n1: Byte, n2: Byte, rest: seq<Byte>)
    requires |flag| == 4 && |mac| == 8 && |rest| >= 16
    requires 0 <= devType < WORD && 0 <= product < WORD && 0 <= protocolVer < WORD && 0 <= configVer < WORD
    requires 0 <= id < WORD && 0 <= encryptType < WORD && 0 <= encryptParam < WORD && 0 <= software < WORD
    ensures var packet := flag + Pack(devType) + Pack(product) + Pack(protocolVer) + Pack(configVer) + Pack(id)
                          + Pack(encryptType) + Pack(encryptParam) + mac + Pack(software)
                          + [loginEncrypt, n0, n1, n2] + rest;
            ParseInit(packet)
            == Some(InitInfo(devType, protocolVer, encryptType, encryptParam, mac[..6], loginEncrypt,
                             [loginEncrypt, n0, n1, n2], n0 as int + 0x100 * n1 as int + 0x1_0000 * n2 as int))
  {
    var front := flag + Pack(devType) + Pack(product) + Pack(protocolVer) + Pack(configVer) + Pack(id)
                 + Pack(encryptType) + Pack(encryptParam);
    var back := mac + Pack(software) + [loginEncrypt, n0, n1, n2] + rest;
    var packet := flag + Pack(devType) + Pack(product) + Pack(protocolVer) + Pack(configVer) + Pack(id)
                  + Pack(encryptType) + Pack(encryptParam) + mac + Pack(software)
                  + [loginEncrypt, n0, n1, n2] + rest;
    assert packet == front + back && |front| == 32;
    assert packet[4..8] == front[4..8] == Pack(devType) && packet[12..16] == front[12..16] == Pack(protocolVer);
    assert packet[24..28] == front[24..28] == Pack(encryptType);
    assert packet[28..32] == front[28..32] == Pack(encryptParam);
    assert packet[32..38] == back[0..6] == mac[..6];
    assert packet[44..48] == back[12..16] == [loginEncrypt, n0, n1, n2];
    assert packet[45..48] == packet[44..48][1..] == [n0, n1, n2];
    assert packet[45..48] + [0] == [n0, n1, n2, 0];
    assert packet[44] == packet[44..48][0];
  }
}
