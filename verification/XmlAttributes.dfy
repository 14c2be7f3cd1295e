/** The attribute printer and the lenient, pattern-based attribute parser of the encode API. */
module XmlAttributes {
  import opened Outcomes
  import opened Decimals

  type Pair = (string, string)

  /** The character classes of the patterns: `\w`, `\s`, `[^"]` and `[^/>]`. */
  datatype Class = Word | Space | NotQuote | InTag

  predicate Is(c: char, k: Class) {
    match k
    case Word => 'a' <= c <= 'z' || 'A' <= c <= 'Z' || '0' <= c <= '9' || c == '_'
    case Space => c == ' ' || c == '\t' || c == '\n' || c == '\r'
    case NotQuote => c != '"'
    case InTag => c != '/' && c != '>'
  }

  // ---- printing

  function PrintPair(p: Pair): string {
    p.0 + "=\"" + p.1 + "\""
  }

  function PrintPairs(pairs: seq<Pair>): string {
    if pairs == [] then ""
    else if |pairs| == 1 then PrintPair(pairs[0])
    else PrintPair(pairs[0]) + " " + PrintPairs(pairs[1..])
  }

  function PrintTag(tag: string, pairs: seq<Pair>): string {
    "<" + tag + " " + PrintPairs(pairs) + "/>"
  }

  // ---- parsing

  /** How many characters at the front are of the class. */
  function Run(s: string, k: Class): (n: nat)
    ensures n <= |s| && (forall i | 0 <= i < n :: Is(s[i], k)) && (n < |s| ==> !Is(s[n], k))
  {
    if s == "" || !Is(s[0], k) then 0 else 1 + Run(s[1..], k)
  }

  /** A `name="value"` match at the front, and its length. */
  function MatchPair(s: string): (r: Option<(Pair, nat)>)
    ensures r.Some? ==> 0 < r.value.1 <= |s|
  {
    var n := Run(s, Word);
    if n == 0 || n + 2 > |s| || s[n] != '=' || s[n + 1] != '"' then None
    else
      var q := Run(s[n + 2..], NotQuote);
      if n + 2 + q == |s| then None else Some(((s[..n], s[n + 2..n + 2 + q]), n + 3 + q))
  }

  /** All matches, left to right. */
  function ScanPairs(s: string): seq<Pair>
    decreases |s|
  {
    if s == "" then []
    else if MatchPair(s).Some? then [MatchPair(s).value.0] + ScanPairs(s[MatchPair(s).value.1..])
    else ScanPairs(s[1..])
  }

  function Attributes(pairs: seq<Pair>): map<string, string> {
    if pairs == [] then map[]
    else Attributes(pairs[..|pairs| - 1])[pairs[|pairs| - 1].0 := pairs[|pairs| - 1].1]
  }

  /** What follows a tag's name: white space, then text up to the first slash or bracket, which must close the tag. */
  function TagText(inner: string): Option<string> {
    var rest := inner[Run(inner, Space)..];
    var e := Run(rest, InTag);
    if e == |rest| || (rest[e] == '/' && (e + 1 == |rest| || rest[e + 1] != '>')) then None
    else Some(rest[..e])
  }

  /** The attribute text of an opening tag that starts here. */
  function TagHere(s: string, tag: string): Option<string> {
    var open := "<" + tag;
    if |s| <= |open| || s[..|open|] != open || !Is(s[|open|], Space) then None else TagText(s[|open|..])
  }

  function FindTag(s: string, tag: string): Option<string>
    decreases |s|
  {
    if s == "" then None
    else if TagHere(s, tag).Some? then TagHere(s, tag)
    else FindTag(s[1..], tag)
  }

  function TagAttributes(body: string, tag: string): map<string, string> {
    match FindTag(body, tag)
    case None => map[]
    case Some(text) => Attributes(ScanPairs(text))
  }

  // ---- what survives printing and parsing

  predicate Plain(value: string) {
    forall i | 0 <= i < |value| :: value[i] != '"' && value[i] != '/' && value[i] != '<' && value[i] != '>'
  }

  predicate Name(name: string) {
    name != "" && forall i | 0 <= i < |name| :: Is(name[i], Word)
  }

  predicate Printable(pairs: seq<Pair>) {
    forall i | 0 <= i < |pairs| :: Name(pairs[i].0) && Plain(pairs[i].1)
  }

  lemma RunExact(s: string, n: nat, k: Class)
    requires n <= |s| && (forall i | 0 <= i < n :: Is(s[i], k)) && (n < |s| ==> !Is(s[n], k))
    ensures Run(s, k) == n
  {}

  lemma QuotedRun(value: string, rest: string)
    requires Plain(value)
    ensures Run(value + ("\"" + rest), NotQuote) == |value|
  {
    var tail := value + ("\"" + rest);
    assert tail[|value|] == '"' && forall i | 0 <= i < |value| :: tail[i] == value[i];
    RunExact(tail, |value|, NotQuote);
  }

  lemma NameRun(name: string, rest: string)
    requires Name(name)
    ensures Run(name + ("=" + rest), Word) == |name|
  {
    var s := name + ("=" + rest);
    assert s[|name|] == '=' && forall i | 0 <= i < |name| :: s[i] == name[i];
    RunExact(s, |name|, Word);
  }

  lemma MatchOnePair(p: Pair, rest: string)
    requires Name(p.0) && Plain(p.1)
    ensures MatchPair(PrintPair(p) + rest) == Some((p, |PrintPair(p)|))
  {
    NameRun(p.0, "\"" + (p.1 + ("\"" + rest)));
    QuotedRun(p.1, rest);
    PairShape(p, rest);
  }

  lemma ScanOnePair(p: Pair, rest: string)
    requires Name(p.0) && Plain(p.1)
    ensures ScanPairs(PrintPair(p) + rest) == [p] + ScanPairs(rest)
  {
    MatchOnePair(p, rest);
    assert (PrintPair(p) + rest)[|PrintPair(p)|..] == rest;
  }

  lemma PairShape(p: Pair, rest: string)
    ensures var s, n, q := PrintPair(p) + rest, |p.0|, |p.1|;
            && s == p.0 + ("=" + ("\"" + (p.1 + ("\"" + rest))))
            && |s| == n + 3 + q + |rest|
            && s[..n] == p.0 && s[n] == '=' && s[n + 1] == '"'
            && s[n + 2..] == p.1 + ("\"" + rest)
            && s[n + 2..n + 2 + q] == p.1 && s[n + 3 + q..] == rest
  {}

  lemma ScanSpace(s: string)
    ensures ScanPairs(" " + s) == ScanPairs(s)
  {
    assert (" " + s)[1..] == s;
  }

  /** Whatever stands between attributes, other than letters, digits and underscores, is skipped. */
  lemma ScanSkips(c: char, s: string)
    requires !('a' <= c <= 'z' || 'A' <= c <= 'Z' || '0' <= c <= '9' || c == '_')
    ensures ScanPairs([c] + s) == ScanPairs(s)
  {
    assert ([c] + s)[1..] == s;
  }

  /** A tag's name must end where its text begins: a longer name is another tag. */
  lemma LongerNameIsAnotherTag(tag: string, c: char, rest: string)
    requires c !in {' ', '\t', '\n', '\r'}
    ensures TagHere("<" + tag + [c] + rest, tag).None?
  {
    var s, open := "<" + tag + [c] + rest, "<" + tag;
    assert s[|open|] == c;
  }

  /** Printed attributes are read back, all and in order. */
  lemma {:induction false} ScanPrinted(pairs: seq<Pair>)
    requires Printable(pairs)
    ensures ScanPairs(PrintPairs(pairs)) == pairs
    decreases |pairs|
  {
    if |pairs| == 1 {
      ScanOnePair(pairs[0], "");
      assert PrintPair(pairs[0]) + "" == PrintPair(pairs[0]);
    } else if |pairs| > 1 {
      ScanPrinted(pairs[1..]);
      ScanTwo(pairs[0], PrintPairs(pairs[1..]));
    }
  }

  lemma ScanTwo(first: Pair, rest: string)
    requires Name(first.0) && Plain(first.1)
    ensures ScanPairs(PrintPair(first) + " " + rest) == [first] + ScanPairs(rest)
  {
    ScanOnePair(first, " " + rest);
    ScanSpace(rest);
    assert PrintPair(first) + " " + rest == PrintPair(first) + (" " + rest);
  }

  lemma {:induction false} PrintedIsPlain(pairs: seq<Pair>)
    requires Printable(pairs)
    ensures forall i | 0 <= i < |PrintPairs(pairs)| ::
              PrintPairs(pairs)[i] != '/' && PrintPairs(pairs)[i] != '<' && PrintPairs(pairs)[i] != '>'
    ensures pairs != [] ==> PrintPairs(pairs) != "" && Is(PrintPairs(pairs)[0], Word)
    decreases |pairs|
  {
    if pairs != [] {
      var p := PrintPair(pairs[0]);
      assert forall i | 0 <= i < |p| :: p[i] != '/' && p[i] != '<' && p[i] != '>';
      assert p[0] == pairs[0].0[0];
      if |pairs| > 1 {
        PrintedIsPlain(pairs[1..]);
      }
    }
  }

  lemma OneSpace(rest: string)
    requires rest != "" && !Is(rest[0], Space)
    ensures Run(" " + rest, Space) == 1
  {
    RunExact(" " + rest, 1, Space);
  }

  lemma TagTextRun(text: string, after: string)
    requires forall i | 0 <= i < |text| :: text[i] != '/' && text[i] != '>'
    ensures Run(text + ("/>" + after), InTag) == |text|
  {
    var rest := text + ("/>" + after);
    assert forall i | 0 <= i < |text| :: rest[i] == text[i];
    RunExact(rest, |text|, InTag);
  }

  lemma TagTextMatches(text: string, after: string)
    requires forall i | 0 <= i < |text| :: text[i] != '/' && text[i] != '>'
    requires text != "" ==> !Is(text[0], Space)
    ensures TagText(" " + (text + ("/>" + after))) == Some(text)
  {
    var rest := text + ("/>" + after);
    assert rest[0] == if text == "" then '/' else text[0];
    OneSpace(rest);
    assert (" " + rest)[1..] == rest;
    TagTextRun(text, after);
    assert rest[|text|] == '/' && rest[|text| + 1] == '>' && rest[..|text|] == text;
  }

  lemma OpenTag(open: string, text: string, after: string)
    ensures var s := open + " " + text + "/>" + after;
            && |s| > |open| && s[..|open|] == open && s[|open|] == ' '
            && s[|open|..] == " " + (text + ("/>" + after))
  {}

  lemma TagMatches(tag: string, text: string, after: string)
    requires forall i | 0 <= i < |text| :: text[i] != '/' && text[i] != '>'
    requires text != "" ==> !Is(text[0], Space)
    ensures TagHere("<" + tag + " " + text + "/>" + after, tag) == Some(text)
  {
    OpenTag("<" + tag, text, after);
    TagTextMatches(text, after);
  }

  /** The first printed tag of a text is found with exactly its attributes. */
  lemma FindsFirst(tag: string, pairs: seq<Pair>, after: string)
    requires Printable(pairs)
    ensures FindTag(PrintTag(tag, pairs) + after, tag) == Some(PrintPairs(pairs))
  {
    PrintedIsPlain(pairs);
    TagMatches(tag, PrintPairs(pairs), after);
  }

  /** Text without an opening bracket is skipped. */
  lemma {:induction false} SkipsPlain(before: string, after: string, tag: string)
    requires forall i | 0 <= i < |before| :: before[i] != '<'
    ensures FindTag(before + after, tag) == FindTag(after, tag)
    decreases |before|
  {
    if before == "" {
      assert before + after == after;
    } else {
      var s := before + after;
      assert TagHere(s, tag).None? by {
        if |s| > |"<" + tag| {
          assert s[..|"<" + tag|][0] == before[0];
        }
      }
      assert s[1..] == before[1..] + after;
      SkipsPlain(before[1..], after, tag);
    }
  }

  predicate Differ(tag: string, other: string) {
    exists i | 0 <= i < |tag| && i < |other| :: tag[i] != other[i]
  }

  /** A printed tag of another name is skipped. */
  lemma SkipsOther(other: string, pairs: seq<Pair>, after: string, tag: string)
    requires Printable(pairs) && Differ(tag, other) && Name(other)
    ensures FindTag(PrintTag(other, pairs) + after, tag) == FindTag(after, tag)
  {
    PrintedIsPlain(pairs);
    var s := PrintTag(other, pairs) + after;
    var i :| 0 <= i < |tag| && i < |other| && tag[i] != other[i];
    assert s[i + 1] == other[i];
    assert |"<" + tag| < |s| ==> s[..|"<" + tag|][i + 1] != ("<" + tag)[i + 1];
    var before := other + " " + PrintPairs(pairs) + "/>";
    assert s == "<" + (before + after);
    assert s[1..] == before + after;
    SkipsPlain(before, after, tag);
  }

  // ---- integers

  function IntText(n: int): string {
    if n < 0 then "-" + NatText(-n) else NatText(n)
  }

  function NatText(n: nat): (s: string)
    ensures |s| == |Digits(n)| && forall i | 0 <= i < |s| :: s[i] == DigitChar(Digits(n)[i])
  {
    seq(|Digits(n)|, i requires 0 <= i < |Digits(n)| => DigitChar(Digits(n)[i]))
  }

  function DigitChar(d: nat): char
    requires d < 10
  {
    "0123456789"[d]
  }

  /** An optional minus sign and decimal digits; the empty text counts as zero, anything else is an error. */
  function ParseInt(s: string): Option<int> {
    if s == "" then Some(0)
    else if s[0] == '-' then
      if |s| > 1 && AllDigits(s[1..]) then Some(-(ParseNat(s[1..]) as int)) else None
    else if AllDigits(s) then Some(ParseNat(s)) else None
  }

  predicate AllDigits(s: string) {
    forall i | 0 <= i < |s| :: '0' <= s[i] <= '9'
  }

  function ParseNat(s: string): nat
    requires AllDigits(s)
  {
    ValueOf(DigitValues(s))
  }

  function DigitValues(s: string): (r: seq<nat>)
    requires AllDigits(s)
    ensures |r| == |s| && forall i | 0 <= i < |s| :: r[i] == s[i] as int - '0' as int
  {
    seq(|s|, i requires 0 <= i < |s| => (s[i] as int - '0' as int) as nat)
  }

  lemma NatRoundTrip(n: nat)
    ensures AllDigits(NatText(n)) && ParseNat(NatText(n)) == n && NatText(n) != ""
  {
    var s := NatText(n);
    forall i | 0 <= i < |s| ensures '0' <= s[i] <= '9' && s[i] as int - '0' as int == Digits(n)[i] {
      DigitCharValue(Digits(n)[i]);
    }
    assert DigitValues(s) == Digits(n);
    DigitsValue(n);
  }

  lemma DigitCharValue(d: nat)
    requires d < 10
    ensures '0' <= DigitChar(d) <= '9' && DigitChar(d) as int - '0' as int == d
  {}

  lemma IntRoundTrip(n: int)
    ensures ParseInt(IntText(n)) == Some(n)
    ensures IntText(n) != "" && Plain(IntText(n))
  {
    NatRoundTrip(if n < 0 then -n else n);
    if n < 0 {
      assert IntText(n)[1..] == NatText(-n);
    }
  }
}
