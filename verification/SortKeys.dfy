/** The ordering of report lists: strings by character, integer channels by their zero-padded decimal text. */
module SortKeys {
  import opened Counting
  import opened Outcomes
  import opened Decimals
  import opened XmlAttributes

  /** Character by character, a proper prefix first. */
  predicate Before(a: string, b: string) {
    if b == "" then false
    else if a == "" then true
    else if a[0] != b[0] then a[0] < b[0]
    else Before(a[1..], b[1..])
  }

  lemma {:induction false} BeforeIsTransitive(a: string, b: string, c: string)
    requires !Before(b, a) && !Before(c, b)
    ensures !Before(c, a)
    decreases |a|
  {
    if a != "" && b != "" && c != "" && a[0] == b[0] == c[0] {
      BeforeIsTransitive(a[1..], b[1..], c[1..]);
    }
  }

  lemma {:induction false} BeforeIsTotal(a: string, b: string)
    ensures !(Before(a, b) && Before(b, a))
    ensures Before(a, b) || Before(b, a) || a == b
    decreases |a|
  {
    if a != "" && b != "" && a[0] == b[0] {
      BeforeIsTotal(a[1..], b[1..]);
      assert a == [a[0]] + a[1..] && b == [b[0]] + b[1..];
    }
  }

  /** A rank first, then a text. */
  datatype SortKey = SortKey(rank: int, text: string)

  predicate NotAfter(x: SortKey, y: SortKey) {
    x.rank < y.rank || (x.rank == y.rank && !Before(y.text, x.text))
  }

  ghost predicate Ascending<K>(items: seq<K>, key: K -> SortKey) {
    forall i, j | 0 <= i < j < |items| :: NotAfter(key(items[i]), key(items[j]))
  }

  /** One insertion: after everything that does not come later. */
  method InsertSorted<K(!new)>(order: seq<K>, x: K, key: K -> SortKey) returns (r: seq<K>)
    requires Ascending(order, key)
    ensures Ascending(r, key)
    ensures exists n | 0 <= n <= |order| :: r == order[..n] + [x] + order[n..]
  {
    var n := |order|;
    while n > 0 && !NotAfter(key(order[n - 1]), key(x))
      invariant 0 <= n <= |order|
      invariant forall i | n <= i < |order| :: NotAfter(key(x), key(order[i]))
    {
      NotAfterIsTotal(key(order[n - 1]), key(x));
      n := n - 1;
    }
    r := order[..n] + [x] + order[n..];
    forall i | 0 <= i < n ensures NotAfter(key(order[i]), key(x)) {
      if i < n - 1 {
        NotAfterIsTransitive(key(order[i]), key(order[n - 1]), key(x));
      }
    }
    forall i, j | 0 <= i < j < |r| ensures NotAfter(key(r[i]), key(r[j])) {
      assert r[n] == x && (i < n ==> r[i] == order[i]) && (j > n ==> r[j] == order[j - 1]);
      assert i > n ==> r[i] == order[i - 1];
      assert j < n ==> r[j] == order[j];
    }
  }

  lemma NotAfterIsTotal(x: SortKey, y: SortKey)
    ensures NotAfter(x, y) || NotAfter(y, x)
  {
    BeforeIsTotal(x.text, y.text);
  }

  lemma NotAfterIsTransitive(x: SortKey, y: SortKey, z: SortKey)
    requires NotAfter(x, y) && NotAfter(y, z)
    ensures NotAfter(x, z)
  {
    if x.rank == y.rank == z.rank {
      BeforeIsTransitive(x.text, y.text, z.text);
    }
  }

  /** The members of a set in the order of their keys. */
  method SortBy<K(==, !new)>(items: set<K>, key: K -> SortKey) returns (r: seq<K>)
    ensures Lists(r, items) && Ascending(r, key)
  {
    r := [];
    var rest := items;
    while rest != {}
      invariant rest <= items && Lists(r, items - rest) && Ascending(r, key)
      decreases rest
    {
      var x :| x in rest;
      var longer := InsertSorted(r, x, key);
      ghost var n :| 0 <= n <= |r| && longer == r[..n] + [x] + r[n..];
      InsertedLists(r, n, x, items - rest);
      assert items - (rest - {x}) == (items - rest) + {x};
      r, rest := longer, rest - {x};
    }
    assert items - {} == items;
  }

  lemma InsertedLists<K(!new)>(order: seq<K>, n: nat, x: K, items: set<K>)
    requires Lists(order, items) && n <= |order| && x !in items
    ensures Lists(order[..n] + [x] + order[n..], items + {x})
  {
    var r := order[..n] + [x] + order[n..];
    assert order == order[..n] + order[n..];
    forall i, j | 0 <= i < j < |r| ensures r[i] != r[j] {
      assert i != n ==> r[i] == order[if i < n then i else i - 1];
      assert j != n ==> r[j] == order[if j < n then j else j - 1];
    }
  }

  /** `r` selects, in order, those of the first `n` that belong to `items`; `from` says where each was. */
  ghost predicate Picks<K(!new)>(r: seq<K>, order: seq<K>, from: seq<nat>, n: nat, items: set<K>) {
    && |from| == |r| && n <= |order|
    && (forall i | 0 <= i < |r| :: from[i] < n && r[i] == order[from[i]])
    && (forall i, j | 0 <= i < j < |r| :: from[i] < from[j])
    && forall m | 0 <= m < n :: order[m] in r <==> order[m] in items
  }

  lemma PicksGrow<K(!new)>(r: seq<K>, order: seq<K>, from: seq<nat>, n: nat, items: set<K>)
    requires Picks(r, order, from, n, items) && n < |order|
    requires forall i, j | 0 <= i < j < |order| :: order[i] != order[j]
    ensures order[n] in items ==> Picks(r + [order[n]], order, from + [n], n + 1, items)
    ensures order[n] !in items ==> Picks(r, order, from, n + 1, items)
  {
    var longer := r + [order[n]];
    assert order[n] !in r;
    forall m | 0 <= m < n ensures order[m] in longer <==> order[m] in r {}
    assert longer[|r|] == order[n];
  }

  lemma PicksAreListed<K(!new)>(r: seq<K>, order: seq<K>, from: seq<nat>, items: set<K>, key: K -> SortKey)
    requires Picks(r, order, from, |order|, items) && Ascending(order, key)
    requires forall i, j | 0 <= i < j < |order| :: order[i] != order[j]
    requires forall x | x in items :: x in order
    ensures Lists(r, items) && Ascending(r, key)
  {
    forall i, j | 0 <= i < j < |r| ensures r[i] != r[j] && NotAfter(key(r[i]), key(r[j])) {
      assert from[i] < from[j];
    }
  }

  /** With distinct keys, a set has one ascending list. */
  lemma {:induction false} SortedListIsUnique<K(!new)>(a: seq<K>, b: seq<K>, items: set<K>, key: K -> SortKey)
    requires Lists(a, items) && Lists(b, items) && Ascending(a, key) && Ascending(b, key)
    requires forall x, y :: key(x) == key(y) ==> x == y
    ensures a == b
    decreases |a|
  {
    ListsSize(a, items);
    ListsSize(b, items);
    if a != [] {
      var n := |a| - 1;
      LastIsGreatest(a, b, items, key);
      assert a == a[..n] + [a[n]] && b == b[..n] + [b[n]];
      SortedListIsUnique(a[..n], b[..n], items - {a[n]}, key);
    }
  }

  lemma LastIsGreatest<K(!new)>(a: seq<K>, b: seq<K>, items: set<K>, key: K -> SortKey)
    requires Lists(a, items) && Lists(b, items) && Ascending(a, key) && Ascending(b, key)
    requires forall x, y :: key(x) == key(y) ==> x == y
    requires |a| == |b| > 0
    ensures a[|a| - 1] == b[|b| - 1]
  {
    var n := |a| - 1;
    assert a[n] in b && b[n] in a;
    var i :| 0 <= i <= n && b[i] == a[n];
    var j :| 0 <= j <= n && a[j] == b[n];
    BeforeIsTotal(key(a[n]).text, key(b[n]).text);
  }

  // ---- zero-padded numbers

  const CHANNEL_WIDTH := 10

  /** What is missing from the width. */
  function Zeros(s: string): (r: string)
    ensures |s| + |r| == if |s| >= CHANNEL_WIDTH then |s| else CHANNEL_WIDTH
    ensures forall i | 0 <= i < |r| :: r[i] == '0'
  {
    if |s| >= CHANNEL_WIDTH then "" else seq(CHANNEL_WIDTH - |s|, _ => '0')
  }

  /** Python's `zfill`: zeros after a leading minus sign. */
  function ZeroFill(s: string): string {
    if s != "" && s[0] == '-' then "-" + (Zeros(s) + s[1..]) else Zeros(s) + s
  }

  function DigitText(digits: seq<nat>): (s: string)
    requires forall i | 0 <= i < |digits| :: digits[i] < 10
    ensures |s| == |digits| && forall i | 0 <= i < |s| :: s[i] == DigitChar(digits[i])
  {
    seq(|digits|, i requires 0 <= i < |digits| => DigitChar(digits[i]))
  }

  lemma {:induction false} BeforeInPrefix(a: string, b: string, x: string, y: string)
    requires |a| == |b| && Before(a, b)
    ensures Before(a + x, b + y)
    decreases |a|
  {
    if a[0] == b[0] {
      assert (a + x)[1..] == a[1..] + x && (b + y)[1..] == b[1..] + y;
      BeforeInPrefix(a[1..], b[1..], x, y);
    }
  }

  lemma {:induction false} BeforeAfterPrefix(a: string, x: string, y: string)
    requires Before(x, y)
    ensures Before(a + x, a + y)
    decreases |a|
  {
    if a == "" {
      assert a + x == x && a + y == y;
    } else {
      assert (a + x)[1..] == a[1..] + x && (a + y)[1..] == a[1..] + y;
      BeforeAfterPrefix(a[1..], x, y);
    }
  }

  lemma {:induction false} SameValueSameDigits(a: seq<nat>, b: seq<nat>)
    requires |a| == |b| && ValueOf(a) == ValueOf(b)
    requires forall i | 0 <= i < |a| :: a[i] < 10 && b[i] < 10
    ensures a == b
    decreases |a|
  {
    if a != [] {
      var n := |a| - 1;
      assert ValueOf(a) == 10 * ValueOf(a[..n]) + a[n] && ValueOf(b) == 10 * ValueOf(b[..n]) + b[n];
      SameValueSameDigits(a[..n], b[..n]);
      assert a == a[..n] + [a[n]] && b == b[..n] + [b[n]];
    }
  }

  /** Digit texts of one length are ordered like the numbers they print. */
  lemma {:induction false} DigitOrder(a: seq<nat>, b: seq<nat>)
    requires |a| == |b| && ValueOf(a) < ValueOf(b)
    requires forall i | 0 <= i < |a| :: a[i] < 10 && b[i] < 10
    ensures Before(DigitText(a), DigitText(b))
    decreases |a|
  {
    var n := |a| - 1;
    var x, y := DigitText([a[n]]), DigitText([b[n]]);
    assert DigitText(a) == DigitText(a[..n]) + x && DigitText(b) == DigitText(b[..n]) + y;
    if ValueOf(a[..n]) < ValueOf(b[..n]) {
      DigitOrder(a[..n], b[..n]);
      BeforeInPrefix(DigitText(a[..n]), DigitText(b[..n]), x, y);
    } else {
      SameValueSameDigits(a[..n], b[..n]);
      DigitCharValue(a[n]);
      DigitCharValue(b[n]);
      BeforeAfterPrefix(DigitText(a[..n]), x, y);
    }
  }

  lemma PaddedIsDigits(zeros: string, text: string)
    requires AllDigits(text) && forall i | 0 <= i < |zeros| :: zeros[i] == '0'
    ensures AllDigits(zeros + text)
    ensures var values := DigitValues(zeros + text);
            values[|zeros|..] == DigitValues(text) && forall i | 0 <= i < |zeros| :: values[i] == 0
  {
    var padded := zeros + text;
    forall i | 0 <= i < |padded| ensures '0' <= padded[i] <= '9' {
      assert i >= |zeros| ==> padded[i] == text[i - |zeros|];
    }
    forall i | 0 <= i < |text| ensures DigitValues(padded)[|zeros|..][i] == DigitValues(text)[i] {
      assert padded[|zeros| + i] == text[i];
    }
  }

  /** Zeros in front of a number's digits do not change what they read as. */
  lemma ZerosRead(zeros: string, n: nat)
    requires forall i | 0 <= i < |zeros| :: zeros[i] == '0'
    ensures AllDigits(zeros + NatText(n)) && ParseNat(zeros + NatText(n)) == n
  {
    NatRoundTrip(n);
    PaddedIsDigits(zeros, NatText(n));
    var values, k := DigitValues(zeros + NatText(n)), |zeros|;
    LeadingZeros(values[..k], values[k..]);
    assert values == values[..k] + values[k..];
  }

  lemma SignedReads(digits: string, n: int)
    requires digits != "" && AllDigits(digits) && ParseNat(digits) == n
    ensures digits[0] != '-'
    ensures ParseInt(digits) == Some(n) && ParseInt("-" + digits) == Some(-n)
  {
    assert '0' <= digits[0];
    var signed := "-" + digits;
    assert signed[0] == '-' && signed[1..] == digits;
  }

  lemma PaddedNatReads(n: nat)
    ensures ParseInt(ZeroFill(NatText(n))) == Some(n)
  {
    var text := NatText(n);
    NatRoundTrip(n);
    SignedReads(text, n);
    ZerosRead(Zeros(text), n);
    SignedReads(Zeros(text) + text, n);
  }

  lemma PaddedNegativeReads(n: int)
    requires n >= 0
    ensures ParseInt(ZeroFill("-" + NatText(n))) == Some(-n)
  {
    var text := NatText(n);
    NatRoundTrip(n);
    var all := "-" + text;
    assert all[0] == '-' && all[1..] == text;
    ZerosRead(Zeros(all), n);
    SignedReads(Zeros(all) + text, n);
  }

  /** Padding loses nothing: the padded text still reads as the number. */
  lemma PaddedReads(n: int)
    ensures ParseInt(ZeroFill(IntText(n))) == Some(n)
  {
    if n < 0 {
      var m: nat := -n;
      var all := "-" + NatText(m);
      assert IntText(n) == all;
      PaddedNegativeReads(m);
    } else {
      var all := NatText(n);
      assert IntText(n) == all;
      PaddedNatReads(n);
    }
  }

  lemma ZeroFillIsInjective(m: int, n: int)
    requires ZeroFill(IntText(m)) == ZeroFill(IntText(n))
    ensures m == n
  {
    PaddedReads(m);
    PaddedReads(n);
  }

  lemma PaddedDigits(n: nat) returns (digits: seq<nat>)
    requires n < Pow10(CHANNEL_WIDTH)
    ensures |digits| == CHANNEL_WIDTH && (forall i | 0 <= i < |digits| :: digits[i] < 10)
    ensures ValueOf(digits) == n && DigitText(digits) == ZeroFill(IntText(n))
  {
    var text := NatText(n);
    DigitCount(n, CHANNEL_WIDTH);
    ZerosRead(Zeros(text), n);
    NatRoundTrip(n);
    digits := DigitValues(Zeros(text) + text);
    ReadDigitsPrint(Zeros(text) + text);
  }

  lemma ReadDigitsPrint(s: string)
    requires AllDigits(s)
    ensures (forall i | 0 <= i < |s| :: DigitValues(s)[i] < 10) && DigitText(DigitValues(s)) == s
  {
    forall i | 0 <= i < |s| ensures DigitChar(DigitValues(s)[i]) == s[i] {
      DigitCharValue(DigitValues(s)[i]);
    }
  }

  /** Channels from zero to 10^10 - 1 are listed in numeric order. */
  lemma ChannelOrder(m: nat, n: nat)
    requires m < n < Pow10(CHANNEL_WIDTH)
    ensures Before(ZeroFill(IntText(m)), ZeroFill(IntText(n)))
  {
    var a := PaddedDigits(m);
    var b := PaddedDigits(n);
    DigitOrder(a, b);
  }

  lemma {:induction false} FirstDigits(k: nat)
    ensures Digits(Pow10(k))[0] == 1
    ensures k > 0 ==> Digits(Pow10(k) - 1)[0] == 9
    decreases k
  {
    if k > 0 {
      FirstDigits(k - 1);
      assert Pow10(k) == 10 * Pow10(k - 1);
      assert Pow10(k) / 10 == Pow10(k - 1) && (Pow10(k) - 1) / 10 == Pow10(k - 1) - 1;
    }
  }

  lemma WideText(n: nat)
    requires |Digits(n)| >= CHANNEL_WIDTH
    ensures ZeroFill(IntText(n)) != "" && ZeroFill(IntText(n))[0] == DigitChar(Digits(n)[0])
  {
    NatRoundTrip(n);
    SignedReads(NatText(n), n);
  }

  lemma FirstCharDecides(a: string, b: string)
    requires a != "" && b != "" && a[0] < b[0]
    ensures Before(a, b)
  {}

  lemma PowWidths(k: nat)
    requires k > 0
    ensures |Digits(Pow10(k))| > k && |Digits(Pow10(k) - 1)| >= k
  {
    assert Pow10(k) == 10 * Pow10(k - 1);
    DigitCount(Pow10(k), k);
    if k > 1 {
      DigitCount(Pow10(k) - 1, k - 1);
    }
  }

  lemma OneBeforeNine(m: nat, n: nat)
    requires |Digits(m)| >= CHANNEL_WIDTH && |Digits(n)| >= CHANNEL_WIDTH
    requires Digits(m)[0] == 1 && Digits(n)[0] == 9
    ensures Before(ZeroFill(IntText(m)), ZeroFill(IntText(n)))
  {
    WideText(m);
    WideText(n);
    DigitCharValue(1);
    DigitCharValue(9);
    FirstCharDecides(ZeroFill(IntText(m)), ZeroFill(IntText(n)));
  }

  /** Beyond ten digits the text order is not the numeric one: the first number of more digits comes before the last
      one of fewer. */
  lemma LongerComesFirst(k: nat)
    requires k >= CHANNEL_WIDTH
    ensures Before(ZeroFill(IntText(Pow10(k))), ZeroFill(IntText(Pow10(k) - 1)))
  {
    PowWidths(k);
    FirstDigits(k);
    OneBeforeNine(Pow10(k), Pow10(k) - 1);
  }

  lemma WideChannelsMisorder()
    ensures Before(ZeroFill(IntText(Pow10(CHANNEL_WIDTH))), ZeroFill(IntText(Pow10(CHANNEL_WIDTH) - 1)))
  {
    LongerComesFirst(CHANNEL_WIDTH);
  }

  lemma SignComesFirst(n: nat)
    ensures Before(ZeroFill(IntText(-1)), ZeroFill(IntText(n)))
  {
    var text := NatText(n);
    NatRoundTrip(n);
    SignedReads(text, n);
    ZerosRead(Zeros(text), n);
    SignedReads(Zeros(text) + text, n);
    assert '0' <= (Zeros(text) + text)[0];
    assert IntText(-1) == "-" + NatText(1);
  }

  /** The text keys of the integers from `lo` up to `hi` come in numeric order. */
  ghost predicate NumericFrom(lo: int, hi: int) {
    forall m, n | lo <= m < n < hi :: Before(ZeroFill(IntText(m)), ZeroFill(IntText(n)))
  }

  lemma NegativesMisorder()
    ensures Before(ZeroFill(IntText(-1)), ZeroFill(IntText(-2)))
  {
    assert NatText(1) == "1" && NatText(2) == "2";
    assert IntText(-1) == "-1" && IntText(-2) == "-2";
    var zeros := Zeros("-1");
    assert zeros == Zeros("-2");
    BeforeAfterPrefix("-" + zeros, "1", "2");
    assert "-1"[1..] == "1" && "-2"[1..] == "2";
    assert "-" + zeros + "1" == "-" + (zeros + "1") && "-" + zeros + "2" == "-" + (zeros + "2");
  }

  lemma SmallRange(lo: int, hi: int)
    requires -1 <= lo && hi <= Pow10(CHANNEL_WIDTH)
    ensures NumericFrom(lo, hi)
  {
    forall m, n | lo <= m < n < hi ensures Before(ZeroFill(IntText(m)), ZeroFill(IntText(n))) {
      if m == -1 {
        SignComesFirst(n);
      } else {
        ChannelOrder(m, n);
      }
    }
  }

  lemma MisorderIn(lo: int, hi: int, m: int, n: int)
    requires lo <= m < n < hi && Before(ZeroFill(IntText(n)), ZeroFill(IntText(m)))
    ensures !NumericFrom(lo, hi)
  {
    BeforeIsTotal(ZeroFill(IntText(m)), ZeroFill(IntText(n)));
  }

  lemma WideRange(lo: int, hi: int, k: nat)
    requires k >= CHANNEL_WIDTH && lo < Pow10(k) < hi
    ensures !NumericFrom(lo, hi)
  {
    LongerComesFirst(k);
    MisorderIn(lo, hi, Pow10(k) - 1, Pow10(k));
  }

  /** Main result on the order: the integers of a range that includes zero are listed in numeric order exactly when
      the range starts at -1 or later and ends before 10^10. */
  lemma NumericIff(lo: int, hi: int)
    requires lo <= 0 < hi
    ensures NumericFrom(lo, hi) <==> -1 <= lo && hi <= Pow10(CHANNEL_WIDTH)
  {
    if lo < -1 {
      NegativesMisorder();
      MisorderIn(lo, hi, -2, -1);
    } else if hi > Pow10(CHANNEL_WIDTH) {
      WideRange(lo, hi, CHANNEL_WIDTH);
    } else {
      SmallRange(lo, hi);
    }
  }
}
