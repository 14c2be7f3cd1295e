/** The obfuscation of login fields: XOR with the printed nonce that skips zero bytes, XOR with a repeated
    four-byte key, and the fixed-width nonce that is hashed with the password. */
module LoginCiphers {
  import opened Decimals
  import Packets

  type Byte = bv8

  const USERNAME_SIZE := 64
  const PASSWORD_SIZE := 32

  function Padded(field: seq<Byte>, size: nat): (r: seq<Byte>)
    ensures |r| == size
  {
    if |field| >= size then field[..size] else field + seq(size - |field|, _ => 0)
  }

  // ---- printed numbers

  /** `%08d`: at least eight digits, zeros in front. */
  function EightDigits(n: nat): seq<nat> {
    if |Digits(n)| >= 8 then Digits(n) else seq(8 - |Digits(n)|, _ => 0) + Digits(n)
  }

  /** The nonce fills exactly eight digits, so that the hashed text has a fixed width, iff it is below 10^8;
      and the digits always give the nonce back. */
  lemma EightDigitsExactly(n: nat)
    ensures |EightDigits(n)| == 8 <==> n < 1_0000_0000
    ensures ValueOf(EightDigits(n)) == n
  {
    assert Pow10(8) == 1_0000_0000 by {
      assert Pow10(4) == 10000;
      assert Pow10(6) == 100 * Pow10(4);
      assert Pow10(8) == 100 * Pow10(6);
    }
    DigitCount(n, 8);
    DigitsValue(n);
    if |Digits(n)| < 8 {
      var zeros: seq<nat> := seq(8 - |Digits(n)|, _ => 0);
      LeadingZeros(zeros, Digits(n));
      assert EightDigits(n) == zeros + Digits(n);
    }
  }

  /** Every nonce an init packet can carry makes a hashed text of 40 characters, after any 32-character digest. */
  lemma HashedTextWidth(data: seq<Packets.Byte>, digest: seq<nat>)
    requires |data| >= Packets.INIT_PACKET_SIZE && |digest| == 32
    ensures |digest + EightDigits(Packets.ParseInit(data).value.nonce)| == 40
  {
    EightDigitsExactly(Packets.ParseInit(data).value.nonce);
  }

  // ---- username

  function DigitByte(d: nat): (b: Byte)
    requires d < 10
  {
    0x30 + d as bv8
  }

  function NonceKey(nonce: nat): (key: seq<Byte>)
    ensures |key| == |Digits(nonce)|
  {
    seq(|Digits(nonce)|, i requires 0 <= i < |Digits(nonce)| => DigitByte(Digits(nonce)[i]))
  }

  /** The key is the number in decimal: its bytes, less "0", are the digits of the nonce from the greatest on, and
      there is no leading zero. */
  lemma KeyIsTheNumber(nonce: nat)
    ensures var key := NonceKey(nonce);
            && (exists digits: seq<nat> :: |digits| == |key| && ValueOf(digits) == nonce
                                           && forall i | 0 <= i < |key| :: key[i] as int == 0x30 + digits[i])
            && (|key| > 1 ==> key[0] != 0x30)
  {
    DigitsValue(nonce);
    NoLeadingZero(nonce);
    var digits: seq<nat> := Digits(nonce);
    forall i | 0 <= i < |digits| ensures NonceKey(nonce)[i] as int == 0x30 + digits[i] {
      DigitByteValue(digits[i]);
    }
  }

  lemma DigitByteValue(d: nat)
    requires d < 10
    ensures DigitByte(d) as int == 0x30 + d
  {
    assert d == 0 || d == 1 || d == 2 || d == 3 || d == 4 || d == 5 || d == 6 || d == 7 || d == 8 || d == 9;
  }

  lemma {:induction false} NoLeadingZero(n: nat)
    ensures |Digits(n)| > 1 ==> Digits(n)[0] != 0
    decreases n
  {
    if n >= 10 {
      NoLeadingZero(n / 10);
    }
  }

  predicate IsDigit(b: Byte) {
    0x30 <= b <= 0x39
  }

  lemma KeyIsDigits(nonce: nat)
    ensures forall i | 0 <= i < |NonceKey(nonce)| :: IsDigit(NonceKey(nonce)[i])
  {
    forall i | 0 <= i < |NonceKey(nonce)| ensures IsDigit(NonceKey(nonce)[i]) {
      DigitByteIsDigit(Digits(nonce)[i]);
    }
  }

  lemma DigitByteIsDigit(d: nat)
    requires d < 10
    ensures IsDigit(DigitByte(d))
  {
    assert d == 0 || d == 1 || d == 2 || d == 3 || d == 4 || d == 5 || d == 6 || d == 7 || d == 8 || d == 9;
  }

  function Masked(b: Byte, k: Byte): Byte {
    if b == 0 then 0 else b ^ k
  }

  /** The keyed pass over a whole buffer; zero bytes stay zero. */
  function MaskAll(buf: seq<Byte>, key: seq<Byte>): (r: seq<Byte>)
    requires |key| > 0
    ensures |r| == |buf|
  {
    seq(|buf|, i requires 0 <= i < |buf| => Masked(buf[i], key[i % |key|]))
  }

  method MaskInPlace(buf: array<Byte>, key: seq<Byte>)
    requires |key| > 0
    modifies buf
    ensures buf[..] == MaskAll(old(buf[..]), key)
  {
    for i := 0 to buf.Length
      invariant forall j | 0 <= j < i :: buf[j] == Masked(old(buf[j]), key[j % |key|])
      invariant forall j | i <= j < buf.Length :: buf[j] == old(buf[j])
    {
      if buf[i] != 0 {
        buf[i] := buf[i] ^ key[i % |key|];
      }
    }
  }

  method EncryptUsername(username: seq<Byte>, nonce: nat) returns (r: seq<Byte>)
    ensures r == MaskAll(Padded(username, USERNAME_SIZE), NonceKey(nonce)) && |r| == 64
  {
    var padded := Padded(username, USERNAME_SIZE);
    var buf := new Byte[USERNAME_SIZE](i requires 0 <= i < USERNAME_SIZE => padded[i]);
    assert buf[..] == padded;
    MaskInPlace(buf, NonceKey(nonce));
    r := buf[..];
  }

  lemma MaskedTwice(b: Byte, k: Byte)
    ensures Masked(Masked(b, k), k) == b <==> b == 0 || b != k
  {
    XorTwice(b, k);
  }

  lemma XorTwice(b: Byte, k: Byte)
    ensures (b ^ k) ^ k == b
    ensures b ^ k == 0 <==> b == k
  {}

  /** Encrypting twice gives the buffer back iff no non-zero byte equals the key byte at its position. */
  lemma TwiceIsIdentityIff(buf: seq<Byte>, key: seq<Byte>)
    requires |key| > 0
    ensures MaskAll(MaskAll(buf, key), key) == buf <==>
              forall i | 0 <= i < |buf| :: buf[i] == 0 || buf[i] != key[i % |key|]
  {
    var twice := MaskAll(MaskAll(buf, key), key);
    forall i | 0 <= i < |buf| ensures twice[i] == buf[i] <==> buf[i] == 0 || buf[i] != key[i % |key|] {
      MaskedTwice(buf[i], key[i % |key|]);
    }
    if forall i | 0 <= i < |buf| :: buf[i] == 0 || buf[i] != key[i % |key|] {
      assert twice == buf;
    }
  }

  predicate PlainName(username: seq<Byte>) {
    |username| <= USERNAME_SIZE && forall i | 0 <= i < |username| :: username[i] != 0 && !IsDigit(username[i])
  }

  lemma PlainNameComesBack(username: seq<Byte>, nonce: nat)
    requires PlainName(username)
    ensures var padded := Padded(username, USERNAME_SIZE);
            MaskAll(MaskAll(padded, NonceKey(nonce)), NonceKey(nonce)) == padded
  {
    KeyIsDigits(nonce);
    TwiceIsIdentityIff(Padded(username, USERNAME_SIZE), NonceKey(nonce));
  }

  /** Hence two different usernames without digits or zero bytes, of at most 64 bytes, never encrypt alike. */
  lemma UsernamesStayApart(a: seq<Byte>, b: seq<Byte>, nonce: nat)
    requires PlainName(a) && PlainName(b)
    requires MaskAll(Padded(a, USERNAME_SIZE), NonceKey(nonce)) == MaskAll(Padded(b, USERNAME_SIZE), NonceKey(nonce))
    ensures a == b
  {
    PlainNameComesBack(a, nonce);
    PlainNameComesBack(b, nonce);
    PaddingIsInjective(a, b);
  }

  lemma PaddingIsInjective(a: seq<Byte>, b: seq<Byte>)
    requires PlainName(a) && PlainName(b) && Padded(a, USERNAME_SIZE) == Padded(b, USERNAME_SIZE)
    ensures a == b
  {
    var p, q := Padded(a, USERNAME_SIZE), Padded(b, USERNAME_SIZE);
    assert forall i | 0 <= i < USERNAME_SIZE :: i < |a| <==> p[i] != 0;
    assert forall i | 0 <= i < USERNAME_SIZE :: i < |b| <==> q[i] != 0;
    var n := if |a| < |b| then |a| else |b|;
    assert n < USERNAME_SIZE ==> (n < |a| <==> p[n] != 0) && (n < |b| <==> q[n] != 0);
    assert forall i | 0 <= i < n :: p[i] == a[i] && q[i] == b[i];
  }

  lemma MaskedAlike(a: Byte, b: Byte, k: Byte)
    ensures Masked(a, k) == Masked(b, k) <==> a == b || (a == 0 && b == k) || (a == k && b == 0)
  {
    XorTwice(a, k);
    XorTwice(b, k);
  }

  /** The bytes that the pass does not tell apart under a key byte. */
  predicate Confused(a: Byte, b: Byte, k: Byte) {
    a == b || (a == 0 && b == k) || (a == k && b == 0)
  }

  /** The exact collisions: two buffers encrypt alike iff at each position they agree, or one of them has a zero byte
      where the other has the key byte. */
  lemma CollideIff(a: seq<Byte>, b: seq<Byte>, key: seq<Byte>)
    requires |key| > 0 && |a| == |b|
    ensures MaskAll(a, key) == MaskAll(b, key) <==> forall i | 0 <= i < |a| :: Confused(a[i], b[i], key[i % |key|])
  {
    var x, y := MaskAll(a, key), MaskAll(b, key);
    forall i | 0 <= i < |a| ensures x[i] == y[i] <==> Confused(a[i], b[i], key[i % |key|]) {
      MaskedAlike(a[i], b[i], key[i % |key|]);
    }
    if forall i | 0 <= i < |a| :: Confused(a[i], b[i], key[i % |key|]) {
      assert x == y;
    }
  }

  /** With a digit in the name the pass can lose it: any name whose first byte is the nonce's first digit
      encrypts like the name with a zero byte there. */
  lemma DigitIsLost(rest: seq<Byte>, nonce: nat)
    requires |rest| < USERNAME_SIZE
    ensures var k := NonceKey(nonce)[0];
            MaskAll(Padded([k] + rest, USERNAME_SIZE), NonceKey(nonce))
            == MaskAll(Padded([0] + rest, USERNAME_SIZE), NonceKey(nonce))
  {
    var key := NonceKey(nonce);
    var x, y := Padded([key[0]] + rest, USERNAME_SIZE), Padded([0] + rest, USERNAME_SIZE);
    assert x[0] == key[0] && y[0] == 0;
    assert forall i | 1 <= i < USERNAME_SIZE :: x[i] == y[i];
    CollideIff(x, y, key);
  }

  // ---- password

  function EncryptPassword(password: seq<Byte>, loginEncrypt: nat, key: seq<Byte>): (r: seq<Byte>)
    requires |key| == 4
    ensures |r| == PASSWORD_SIZE
  {
    var padded := Padded(password, PASSWORD_SIZE);
    if loginEncrypt == 1 || loginEncrypt == 2 then
      seq(PASSWORD_SIZE, i requires 0 <= i < PASSWORD_SIZE => padded[i] ^ key[i % 4])
    else padded
  }

  /** The password pass is its own inverse for every key and mode, so it never merges two padded passwords. */
  lemma PasswordTwice(password: seq<Byte>, loginEncrypt: nat, key: seq<Byte>)
    requires |key| == 4
    ensures EncryptPassword(EncryptPassword(password, loginEncrypt, key), loginEncrypt, key)
            == Padded(password, PASSWORD_SIZE)
  {
    var once := EncryptPassword(password, loginEncrypt, key);
    var twice := EncryptPassword(once, loginEncrypt, key);
    var padded := Padded(password, PASSWORD_SIZE);
    assert Padded(once, PASSWORD_SIZE) == once;
    forall i | 0 <= i < PASSWORD_SIZE ensures twice[i] == padded[i] {
      XorTwice(padded[i], key[i % 4]);
    }
  }

  /** What the pass sends: the password, cut or filled with zeros to 32 bytes; in modes 1 and 2 each byte differs from
      that by its key byte, in every other mode not at all. */
  lemma PasswordBytes(password: seq<Byte>, loginEncrypt: nat, key: seq<Byte>, i: nat)
    requires |key| == 4 && i < 32
    ensures var sent := EncryptPassword(password, loginEncrypt, key)[i];
            var plain: Byte := if i < |password| then password[i] else 0;
            sent ^ plain == if loginEncrypt in {1, 2} then key[i % 4] else 0
  {
    var plain: Byte := if i < |password| then password[i] else 0;
    assert Padded(password, PASSWORD_SIZE)[i] == plain;
    XorSelf(plain, key[i % 4]);
  }

  lemma XorSelf(b: Byte, k: Byte)
    ensures (b ^ k) ^ b == k && b ^ b == 0
  {}
}
