/** The guarded update of one channel's encode profile: read, compare, write, and verify in a fresh session. */
module EncodeUpdate {
  import opened Outcomes
  import opened XmlAttributes

  datatype Stream = Stream(resolution: string, fps: int, bitrateType: string, quality: string, maxBitrate: int,
                           audio: bool)

  datatype Node = Node(codec: string, aGop: int, mGop: int, continuous: Option<Stream>, event: Option<Stream>)

  /** Only the fields that are present are changed. */
  datatype Changes = Changes(resolution: Option<string>, fps: Option<int>, bitrateType: Option<string>,
                             quality: Option<string>, maxBitrate: Option<int>, audio: Option<bool>)

  const NO_CHANGES := Changes(None, None, None, None, None, None)

  function Or<T>(x: Option<T>, y: T): T {
    if x.Some? then x.value else y
  }

  function Apply(s: Stream, ch: Changes): Stream {
    Stream(Or(ch.resolution, s.resolution), Or(ch.fps, s.fps), Or(ch.bitrateType, s.bitrateType),
           Or(ch.quality, s.quality), Or(ch.maxBitrate, s.maxBitrate), Or(ch.audio, s.audio))
  }

  /** Every requested field has the requested value. */
  predicate Shows(s: Stream, ch: Changes) {
    && (ch.resolution.Some? ==> s.resolution == ch.resolution.value)
    && (ch.fps.Some? ==> s.fps == ch.fps.value)
    && (ch.bitrateType.Some? ==> s.bitrateType == ch.bitrateType.value)
    && (ch.quality.Some? ==> s.quality == ch.quality.value)
    && (ch.maxBitrate.Some? ==> s.maxBitrate == ch.maxBitrate.value)
    && (ch.audio.Some? ==> s.audio == ch.audio.value)
  }

  /** What a request means, field by field: the requested value, or the one there was. */
  lemma ApplyIsFieldByField(s: Stream, ch: Changes)
    ensures var t := Apply(s, ch);
            && (if ch.resolution.None? then t.resolution == s.resolution else ch.resolution == Some(t.resolution))
            && (if ch.fps.None? then t.fps == s.fps else ch.fps == Some(t.fps))
            && (if ch.bitrateType.None? then t.bitrateType == s.bitrateType else ch.bitrateType == Some(t.bitrateType))
            && (if ch.quality.None? then t.quality == s.quality else ch.quality == Some(t.quality))
            && (if ch.maxBitrate.None? then t.maxBitrate == s.maxBitrate else ch.maxBitrate == Some(t.maxBitrate))
            && (if ch.audio.None? then t.audio == s.audio else ch.audio == Some(t.audio))
  {}

  /** A profile shows a request exactly when applying the request would not change it. */
  lemma ShowsIffApplied(s: Stream, ch: Changes)
    ensures Shows(s, ch) <==> Apply(s, ch) == s
    ensures Apply(Apply(s, ch), ch) == Apply(s, ch)
  {}

  // ---- printing the write

  /** What a missing profile counts as when the pair is written. */
  const DEFAULT_STREAM := Stream("", 0, "VBR", "medium", 0, false)

  function Fields(s: Stream): seq<Pair> {
    [("res", s.resolution), ("fps", IntText(s.fps)), ("bitType", s.bitrateType), ("level", s.quality),
     ("QoI", IntText(s.maxBitrate)), ("audio", if s.audio then "ON" else "OFF"), ("type", "main")]
  }

  function MainFields(codec: string, aGop: int, mGop: int): seq<Pair> {
    [("enct", codec)] + (if aGop != 0 then [("aGOP", IntText(aGop))] else [])
    + (if mGop != 0 then [("mGOP", IntText(mGop))] else [])
  }

  /** Attributes with an empty value are left out. */
  function NonEmpty(pairs: seq<Pair>): seq<Pair> {
    if pairs == [] then []
    else NonEmpty(pairs[..|pairs| - 1]) + if pairs[|pairs| - 1].1 == "" then [] else [pairs[|pairs| - 1]]
  }

  /** An empty codec counts as none given. */
  function Chosen(codec: Option<string>, current: string): string {
    if codec.Some? && codec.value != "" then codec.value else current
  }

  /** Both profiles go out in one item; the device edits them as a pair. */
  function WriteBody(n: Node, continuous: Changes, event: Changes, codec: Option<string>): string {
    PrintTag("an", NonEmpty(Fields(Apply(Or(n.continuous, DEFAULT_STREAM), continuous))))
    + (PrintTag("ae", NonEmpty(Fields(Apply(Or(n.event, DEFAULT_STREAM), event))))
       + PrintTag("main", MainFields(Chosen(codec, n.codec), n.aGop, n.mGop)))
  }

  function Quoted(name: string, value: string): string {
    name + "=\"" + value + "\""
  }

  lemma PrintMore(p: Pair, rest: seq<Pair>)
    requires rest != []
    ensures PrintPairs([p] + rest) == Quoted(p.0, p.1) + " " + PrintPairs(rest)
  {
    assert ([p] + rest)[1..] == rest;
  }

  /** The text of a printed profile, attribute by attribute. */
  lemma PrintedFields(s: Stream)
    ensures PrintPairs(Fields(s))
            == Quoted("res", s.resolution) + " " + (Quoted("fps", IntText(s.fps)) + " "
               + (Quoted("bitType", s.bitrateType) + " " + (Quoted("level", s.quality) + " "
               + (Quoted("QoI", IntText(s.maxBitrate)) + " " + (Quoted("audio", if s.audio then "ON" else "OFF") + " "
               + Quoted("type", "main"))))))
  {
    var f := Fields(s);
    PrintMore(f[5], [f[6]]);
    PrintMore(f[4], [f[5]] + [f[6]]);
    PrintMore(f[3], [f[4]] + ([f[5]] + [f[6]]));
    PrintMore(f[2], [f[3]] + ([f[4]] + ([f[5]] + [f[6]])));
    PrintMore(f[1], [f[2]] + ([f[3]] + ([f[4]] + ([f[5]] + [f[6]]))));
    PrintMore(f[0], [f[1]] + ([f[2]] + ([f[3]] + ([f[4]] + ([f[5]] + [f[6]])))));
    assert f == [f[0]] + ([f[1]] + ([f[2]] + ([f[3]] + ([f[4]] + ([f[5]] + [f[6]])))));
    assert PrintPairs([f[6]]) == Quoted("type", "main");
  }

  /** What is left out: exactly the attributes with an empty value, the others keep their order. */
  lemma {:induction false} NonEmptyConcat(a: seq<Pair>, b: seq<Pair>)
    ensures NonEmpty(a + b) == NonEmpty(a) + NonEmpty(b)
    ensures forall p: Pair :: NonEmpty([p]) == if p.1 == "" then [] else [p]
    decreases |b|
  {
    forall p: Pair ensures NonEmpty([p]) == if p.1 == "" then [] else [p] {
      assert [p][..0] == [];
    }
    if b == [] {
      assert a + b == a;
    } else {
      var front, last := b[..|b| - 1], b[|b| - 1];
      assert (a + b)[..|a + b| - 1] == a + front;
      NonEmptyConcat(a, front);
      assert NonEmpty(b) == NonEmpty(front) + if last.1 == "" then [] else [last];
    }
  }

  lemma FirstLeftOut(first: Pair, rest: seq<Pair>)
    requires first.1 == "" && forall i | 0 <= i < |rest| :: rest[i].1 != ""
    ensures NonEmpty([first] + rest) == rest
  {
    NonEmptyConcat([first], rest);
    NonEmptyKeeps(rest);
  }

  /** A missing profile is written with no resolution, no frames, "VBR" at "medium" quality, no cap, and no sound. */
  lemma MissingProfileFields()
    ensures NonEmpty(Fields(DEFAULT_STREAM))
            == [("fps", "0"), ("bitType", "VBR"), ("level", "medium"), ("QoI", "0"), ("audio", "OFF"), ("type", "main")]
  {
    assert IntText(0) == "0";
    var rest: seq<Pair> :=
      [("fps", "0"), ("bitType", "VBR"), ("level", "medium"), ("QoI", "0"), ("audio", "OFF"), ("type", "main")];
    assert Fields(DEFAULT_STREAM) == [("res", "")] + rest;
    FirstLeftOut(("res", ""), rest);
  }

  lemma {:induction false} NonEmptyKeeps(pairs: seq<Pair>)
    requires forall i | 0 <= i < |pairs| :: pairs[i].1 != ""
    ensures NonEmpty(pairs) == pairs
    decreases |pairs|
  {
    if pairs != [] {
      NonEmptyKeeps(pairs[..|pairs| - 1]);
      assert pairs == pairs[..|pairs| - 1] + [pairs[|pairs| - 1]];
    }
  }

  /** The written item: both profiles, then the codec with the group lengths that are not zero. */
  lemma WrittenItem(n: Node, continuous: Changes, event: Changes, codec: Option<string>)
    ensures var an := NonEmpty(Fields(Apply(Or(n.continuous, DEFAULT_STREAM), continuous)));
            var ae := NonEmpty(Fields(Apply(Or(n.event, DEFAULT_STREAM), event)));
            var main := Quoted("enct", Chosen(codec, n.codec))
                        + (if n.aGop == 0 then "" else " " + Quoted("aGOP", IntText(n.aGop)))
                        + (if n.mGop == 0 then "" else " " + Quoted("mGOP", IntText(n.mGop)));
            WriteBody(n, continuous, event, codec)
            == "<an " + PrintPairs(an) + "/>" + ("<ae " + PrintPairs(ae) + "/>" + ("<main " + main + "/>"))
    ensures codec.Some? && codec.value != "" ==> Chosen(codec, n.codec) == codec.value
    ensures codec.None? || codec.value == "" ==> Chosen(codec, n.codec) == n.codec
  {
    PrintedMain(Chosen(codec, n.codec), n.aGop, n.mGop);
    PrintedTag("an", NonEmpty(Fields(Apply(Or(n.continuous, DEFAULT_STREAM), continuous))), "<an ");
    PrintedTag("ae", NonEmpty(Fields(Apply(Or(n.event, DEFAULT_STREAM), event))), "<ae ");
    PrintedTag("main", MainFields(Chosen(codec, n.codec), n.aGop, n.mGop), "<main ");
  }

  lemma PrintedTag(tag: string, pairs: seq<Pair>, open: string)
    requires open == "<" + tag + " "
    ensures PrintTag(tag, pairs) == open + PrintPairs(pairs) + "/>"
  {}

  lemma PrintedMain(codec: string, aGop: int, mGop: int)
    ensures PrintPairs(MainFields(codec, aGop, mGop))
            == Quoted("enct", codec) + (if aGop == 0 then "" else " " + Quoted("aGOP", IntText(aGop)))
               + (if mGop == 0 then "" else " " + Quoted("mGOP", IntText(mGop)))
  {
    var second: seq<Pair> := if aGop != 0 then [("aGOP", IntText(aGop))] else [];
    var third: seq<Pair> := if mGop != 0 then [("mGOP", IntText(mGop))] else [];
    PrintOptional(("enct", codec), second, third);
  }

  function Spaced(pair: seq<Pair>): string {
    if pair == [] then "" else " " + Quoted(pair[0].0, pair[0].1)
  }

  lemma PrintOptional(first: Pair, second: seq<Pair>, third: seq<Pair>)
    requires |second| <= 1 && |third| <= 1
    ensures PrintPairs([first] + second + third) == Quoted(first.0, first.1) + Spaced(second) + Spaced(third)
  {
    if second != [] && third != [] {
      PrintThree(first, second[0], third[0]);
      assert [first] + second + third == [first, second[0], third[0]];
    } else if second != [] {
      PrintTwo(first, second[0]);
      Regroup(Quoted(first.0, first.1), Quoted(second[0].0, second[0].1), "");
      assert [first] + second + third == [first, second[0]];
    } else if third != [] {
      PrintTwo(first, third[0]);
      Regroup(Quoted(first.0, first.1), "", Quoted(third[0].0, third[0].1));
      assert [first] + second + third == [first, third[0]];
    } else {
      assert [first] + second + third == [first];
    }
  }

  lemma PrintTwo(x: Pair, y: Pair)
    ensures PrintPairs([x, y]) == Quoted(x.0, x.1) + " " + Quoted(y.0, y.1)
  {
    PrintMore(x, [y]);
    assert [x] + [y] == [x, y];
  }

  lemma PrintThree(x: Pair, y: Pair, z: Pair)
    ensures PrintPairs([x, y, z]) == Quoted(x.0, x.1) + (" " + Quoted(y.0, y.1)) + (" " + Quoted(z.0, z.1))
  {
    PrintTwo(y, z);
    PrintMore(x, [y, z]);
    assert [x] + [y, z] == [x, y, z];
    Regroup(Quoted(x.0, x.1), Quoted(y.0, y.1), Quoted(z.0, z.1));
  }

  lemma Regroup(x: string, y: string, z: string)
    ensures x + " " + (y + " " + z) == x + (" " + y) + (" " + z)
    ensures x + " " + y == x + (" " + y) + "" && x + " " + z == x + "" + (" " + z)
  {}

  // ---- parsing a read

  function Lookup(attrs: map<string, string>, key: string): string {
    if key in attrs then attrs[key] else ""
  }

  function ParseStream(attrs: map<string, string>): Result<Option<Stream>, ()> {
    if attrs == map[] then Ok(None)
    else
      var fps, cap := ParseInt(Lookup(attrs, "fps")), ParseInt(Lookup(attrs, "QoI"));
      if fps.None? || cap.None? then Err(())
      else Ok(Some(Stream(Lookup(attrs, "res"), fps.value, Lookup(attrs, "bitType"), Lookup(attrs, "level"), cap.value,
                          Lookup(attrs, "audio") in ["ON", "On", "oN", "on"])))
  }

  /** One channel's item; `None` for a number that does not parse. */
  function ParseNode(body: string): Option<Node> {
    var main := TagAttributes(body, "main");
    var aGop, mGop := ParseInt(Lookup(main, "aGOP")), ParseInt(Lookup(main, "mGOP"));
    var an, ae := ParseStream(TagAttributes(body, "an")), ParseStream(TagAttributes(body, "ae"));
    if aGop.None? || mGop.None? || an.Err? || ae.Err? then None
    else Some(Node(Lookup(main, "enct"), aGop.value, mGop.value, an.value, ae.value))
  }

  /** A read profile: nothing without attributes, absent texts empty, absent numbers zero, sound only for "on" in any
      capitals. */
  lemma ReadDefaults(attrs: map<string, string>)
    ensures attrs == map[] <==> ParseStream(attrs) == Ok(None)
    ensures var r := ParseStream(attrs);
            r.Ok? && r.value.Some? ==>
              && ("res" !in attrs ==> r.value.value.resolution == "") && ("fps" !in attrs ==> r.value.value.fps == 0)
              && ("bitType" !in attrs ==> r.value.value.bitrateType == "")
              && ("level" !in attrs ==> r.value.value.quality == "")
              && ("QoI" !in attrs ==> r.value.value.maxBitrate == 0)
              && (r.value.value.audio <==> "audio" in attrs && Upper(attrs["audio"]) == "ON")
  {
    if "audio" in attrs {
      UpperOn(attrs["audio"]);
    }
  }

  function Upper(s: string): (r: string)
    ensures |r| == |s|
  {
    seq(|s|, i requires 0 <= i < |s| => if 'a' <= s[i] <= 'z' then s[i] - 'a' + 'A' else s[i])
  }

  lemma UpperOn(s: string)
    ensures Upper(s) == "ON" <==> s in ["ON", "On", "oN", "on"]
  {
    if |s| == 2 {
      assert s == [s[0], s[1]];
      assert Upper(s) == [Upper(s)[0], Upper(s)[1]];
      assert Upper(s)[0] == 'O' <==> s[0] == 'O' || s[0] == 'o';
      assert Upper(s)[1] == 'N' <==> s[1] == 'N' || s[1] == 'n';
    }
  }

  // ---- the printed write means the patched pair

  ghost predicate DistinctNames(pairs: seq<Pair>) {
    forall i, j | 0 <= i < j < |pairs| :: pairs[i].0 != pairs[j].0
  }

  lemma {:induction false} NonEmptyLookup(pairs: seq<Pair>)
    requires DistinctNames(pairs)
    ensures forall i | 0 <= i < |pairs| :: Lookup(Attributes(NonEmpty(pairs)), pairs[i].0) == pairs[i].1
    decreases |pairs|
  {
    if pairs != [] {
      var n := |pairs| - 1;
      var rest, last := pairs[..n], pairs[n];
      NonEmptyLookup(rest);
      NonEmptyNames(rest);
      assert last.0 !in Attributes(NonEmpty(rest));
      NonEmptyLast(pairs);
      forall i | 0 <= i < n ensures Lookup(Attributes(NonEmpty(pairs)), pairs[i].0) == pairs[i].1 {
        assert rest[i] == pairs[i];
      }
    }
  }

  /** No attribute comes from nowhere. */
  lemma {:induction false} NonEmptyNames(pairs: seq<Pair>)
    ensures forall k | k in Attributes(NonEmpty(pairs)) :: exists i | 0 <= i < |pairs| :: pairs[i].0 == k
    decreases |pairs|
  {
    if pairs != [] {
      var n := |pairs| - 1;
      var rest := pairs[..n];
      NonEmptyNames(rest);
      NonEmptyLast(pairs);
      forall k | k in Attributes(NonEmpty(pairs)) ensures exists i | 0 <= i < |pairs| :: pairs[i].0 == k {
        if k in Attributes(NonEmpty(rest)) {
          var i :| 0 <= i < |rest| && rest[i].0 == k;
          assert pairs[i].0 == k;
        } else {
          assert pairs[n].0 == k;
        }
      }
    }
  }

  lemma NonEmptyLast(pairs: seq<Pair>)
    requires pairs != []
    ensures var rest, last := pairs[..|pairs| - 1], pairs[|pairs| - 1];
            Attributes(NonEmpty(pairs))
            == if last.1 == "" then Attributes(NonEmpty(rest)) else Attributes(NonEmpty(rest))[last.0 := last.1]
  {
    var kept := NonEmpty(pairs[..|pairs| - 1]);
    var last := pairs[|pairs| - 1];
    assert kept + [] == kept;
    assert (kept + [last])[..|kept|] == kept;
  }

  lemma {:induction false} NonEmptyPrintable(pairs: seq<Pair>)
    requires Printable(pairs)
    ensures Printable(NonEmpty(pairs))
    decreases |pairs|
  {
    if pairs != [] {
      NonEmptyPrintable(pairs[..|pairs| - 1]);
    }
  }

  predicate PlainStream(s: Stream) {
    Plain(s.resolution) && Plain(s.bitrateType) && Plain(s.quality)
  }

  lemma IntTextIsPlain(n: int)
    ensures Plain(IntText(n))
  {
    IntRoundTrip(n);
  }

  lemma FieldsArePrintable(s: Stream)
    requires PlainStream(s)
    ensures Printable(Fields(s))
  {
    IntTextIsPlain(s.fps);
    IntTextIsPlain(s.maxBitrate);
    var text := [s.resolution, IntText(s.fps), s.bitrateType, s.quality, IntText(s.maxBitrate)];
    assert forall i | 0 <= i < |text| :: Plain(text[i]);
    NumberedFieldsArePrintable(s, text[1], text[4]);
  }

  lemma NumberedFieldsArePrintable(s: Stream, fps: string, cap: string)
    requires PlainStream(s) && Plain(fps) && Plain(cap)
    ensures Printable([("res", s.resolution), ("fps", fps), ("bitType", s.bitrateType), ("level", s.quality),
                       ("QoI", cap), ("audio", if s.audio then "ON" else "OFF"), ("type", "main")])
  {
    assert Plain("ON") && Plain("OFF") && Plain("main");
    assert Name("res") && Name("fps") && Name("bitType") && Name("level");
    assert Name("QoI") && Name("audio") && Name("type");
  }

  /** Each attribute of a printed profile is found under its name, whatever was left out. */
  lemma StreamLookups(s: Stream)
    ensures var attrs, fields := Attributes(NonEmpty(Fields(s))), Fields(s);
            attrs != map[] && forall i | 0 <= i < |fields| :: Lookup(attrs, fields[i].0) == fields[i].1
  {
    var fields := Fields(s);
    assert DistinctNames(fields);
    NonEmptyLookup(fields);
    assert Lookup(Attributes(NonEmpty(fields)), fields[6].0) == "main";
  }

  lemma StreamRoundTrip(s: Stream)
    requires PlainStream(s)
    ensures Printable(NonEmpty(Fields(s)))
    ensures ParseStream(Attributes(NonEmpty(Fields(s)))) == Ok(Some(s))
  {
    FieldsArePrintable(s);
    NonEmptyPrintable(Fields(s));
    StreamLookups(s);
    var attrs, fields := Attributes(NonEmpty(Fields(s))), Fields(s);
    assert Lookup(attrs, fields[0].0) == fields[0].1 && Lookup(attrs, fields[2].0) == fields[2].1;
    assert Lookup(attrs, fields[3].0) == fields[3].1 && Lookup(attrs, fields[5].0) == fields[5].1;
    assert ParseInt(Lookup(attrs, "fps")) == Some(s.fps) by {
      IntRoundTrip(s.fps);
      assert Lookup(attrs, fields[1].0) == fields[1].1;
    }
    assert ParseInt(Lookup(attrs, "QoI")) == Some(s.maxBitrate) by {
      IntRoundTrip(s.maxBitrate);
      assert Lookup(attrs, fields[4].0) == fields[4].1;
    }
  }

  lemma AppendOptional(base: seq<Pair>, extra: seq<Pair>)
    requires |extra| <= 1
    ensures Attributes(base + extra)
            == if extra == [] then Attributes(base) else Attributes(base)[extra[0].0 := extra[0].1]
  {
    if extra == [] {
      assert base + extra == base;
    } else {
      assert (base + extra)[..|base|] == base;
    }
  }

  /** The text of a number that is left out when zero. */
  function GopText(n: int): (text: string)
    ensures ParseInt(text) == Some(n)
  {
    IntRoundTrip(n);
    if n != 0 then IntText(n) else ""
  }

  lemma MainAttributes(codec: string, aGop: int, mGop: int)
    ensures var attrs := Attributes(MainFields(codec, aGop, mGop));
            && Lookup(attrs, "enct") == codec
            && Lookup(attrs, "aGOP") == GopText(aGop) && Lookup(attrs, "mGOP") == GopText(mGop)
  {
    var first: seq<Pair> := [("enct", codec)];
    var second: seq<Pair> := if aGop != 0 then [("aGOP", IntText(aGop))] else [];
    var third: seq<Pair> := if mGop != 0 then [("mGOP", IntText(mGop))] else [];
    AppendOptional([], first);
    assert [] + first == first;
    AppendOptional(first, second);
    AppendOptional(first + second, third);
  }

  lemma MainPrintable(codec: string, aGop: int, mGop: int)
    requires Plain(codec)
    ensures Printable(MainFields(codec, aGop, mGop))
  {
    IntTextIsPlain(aGop);
    IntTextIsPlain(mGop);
    var second: seq<Pair> := if aGop != 0 then [("aGOP", IntText(aGop))] else [];
    var third: seq<Pair> := if mGop != 0 then [("mGOP", IntText(mGop))] else [];
    assert Printable([("enct", codec)]) && Printable(second) && Printable(third);
    PrintableAppend([("enct", codec)], second);
    PrintableAppend([("enct", codec)] + second, third);
  }

  lemma PrintableAppend(a: seq<Pair>, b: seq<Pair>)
    requires Printable(a) && Printable(b)
    ensures Printable(a + b)
  {}

  lemma MainRoundTrip(codec: string, aGop: int, mGop: int)
    requires Plain(codec)
    ensures Printable(MainFields(codec, aGop, mGop))
    ensures var attrs := Attributes(MainFields(codec, aGop, mGop));
            && Lookup(attrs, "enct") == codec
            && ParseInt(Lookup(attrs, "aGOP")) == Some(aGop) && ParseInt(Lookup(attrs, "mGOP")) == Some(mGop)
  {
    MainAttributes(codec, aGop, mGop);
    MainPrintable(codec, aGop, mGop);
  }

  lemma BodyTags(an: seq<Pair>, ae: seq<Pair>, main: seq<Pair>)
    requires Printable(an) && Printable(ae) && Printable(main)
    ensures var body := PrintTag("an", an) + (PrintTag("ae", ae) + PrintTag("main", main));
            && TagAttributes(body, "an") == Attributes(an)
            && TagAttributes(body, "ae") == Attributes(ae)
            && TagAttributes(body, "main") == Attributes(main)
  {
    var tail, end := PrintTag("ae", ae) + PrintTag("main", main), PrintTag("main", main);
    FindsFirst("an", an, tail);
    SkipTag("an", an, tail, "ae", 1);
    FindsFirst("ae", ae, end);
    SkipTag("an", an, tail, "main", 0);
    SkipTag("ae", ae, end, "main", 0);
    FindsFirst("main", main, "");
    assert end + "" == end;
    ScanPrinted(an);
    ScanPrinted(ae);
    ScanPrinted(main);
  }

  lemma SkipTag(other: string, pairs: seq<Pair>, after: string, tag: string, i: nat)
    requires Printable(pairs) && Name(other)
    requires i < |tag| && i < |other| && tag[i] != other[i]
    ensures FindTag(PrintTag(other, pairs) + after, tag) == FindTag(after, tag)
  {
    SkipsOther(other, pairs, after, tag);
  }

  /** Main result on the write: it parses back to the read it was made from, with only the requested fields changed,
      as long as no attribute value contains a quote, a slash or an angle bracket. */
  lemma WriteMeansPatch(n: Node, continuous: Changes, event: Changes, codec: Option<string>)
    requires PlainStream(Apply(Or(n.continuous, DEFAULT_STREAM), continuous))
    requires PlainStream(Apply(Or(n.event, DEFAULT_STREAM), event)) && Plain(Chosen(codec, n.codec))
    ensures ParseNode(WriteBody(n, continuous, event, codec))
            == Some(Node(Chosen(codec, n.codec), n.aGop, n.mGop,
                         Some(Apply(Or(n.continuous, DEFAULT_STREAM), continuous)),
                         Some(Apply(Or(n.event, DEFAULT_STREAM), event))))
  {
    var an, ae := Apply(Or(n.continuous, DEFAULT_STREAM), continuous), Apply(Or(n.event, DEFAULT_STREAM), event);
    StreamRoundTrip(an);
    StreamRoundTrip(ae);
    MainRoundTrip(Chosen(codec, n.codec), n.aGop, n.mGop);
    BodyTags(NonEmpty(Fields(an)), NonEmpty(Fields(ae)), MainFields(Chosen(codec, n.codec), n.aGop, n.mGop));
  }

  /** The restriction is needed: a value with a slash ends the attribute text early and makes the tag unreadable. */
  lemma SlashHidesTheTag(tag: string, text: string, after: string, e: nat)
    requires 0 < e && e + 1 < |text| && text[e] == '/' && text[e + 1] != '>' && !Is(text[0], Space)
    requires forall i | 0 <= i < e :: text[i] != '/' && text[i] != '>'
    ensures TagText(" " + (text + after)) == None
  {
    var rest := text + after;
    assert rest[0] == text[0] && rest[e] == '/' && rest[e + 1] == text[e + 1];
    OneSpace(rest);
    assert (" " + rest)[1..] == rest;
    assert forall i | 0 <= i < e :: rest[i] == text[i];
    RunExact(rest, e, InTag);
  }

  // ---- the update

  datatype Profile = Continuous | Event

  function ProfileOf(n: Node, profile: Profile): Option<Stream> {
    if profile.Continuous? then n.continuous else n.event
  }

  /** What a read of the channel yields in a session. */
  datatype Read = ReadFails | NoSuchChannel | Channel(node: Node)

  datatype WriteReply = Accepted | Rejected | Raised

  datatype Status = Conflict | WriteUnconfirmed | Updated | VerificationMismatch | VerificationUnavailable

  datatype UpdateError = InvalidArguments | ConnectFailed | ReadFailed | ProfileMissing

  predicate ValidArguments(channel: int, changes: Changes, expectedCodec: string, codec: Option<string>) {
    channel >= 1 && expectedCodec != "" && codec != Some("") && (changes != NO_CHANGES || codec.Some?)
  }

  /** The device state is the one the caller expected. */
  predicate Matches(n: Node, profile: Profile, expected: Stream, expectedCodec: string) {
    ProfileOf(n, profile) == Some(expected) && n.codec == expectedCodec
  }

  predicate Confirms(n: Node, profile: Profile, changes: Changes, codec: Option<string>) {
    && (changes != NO_CHANGES ==> ProfileOf(n, profile).Some? && Shows(ProfileOf(n, profile).value, changes))
    && (codec.Some? ==> n.codec == codec.value)
  }

  function PatchBody(n: Node, profile: Profile, changes: Changes, codec: Option<string>): string {
    if profile.Continuous? then WriteBody(n, changes, NO_CHANGES, codec) else WriteBody(n, NO_CHANGES, changes, codec)
  }

  /** Reads the channel again in the same session, merges and writes. `sent` is what reached the wire. */
  method SetNodeEncode(again: Read, reply: WriteReply, profile: Profile, changes: Changes, codec: Option<string>)
    returns (ok: bool, sent: seq<string>)
    ensures sent == if again.Channel? then [PatchBody(again.node, profile, changes, codec)] else []
    ensures ok <==> again.Channel? && reply.Accepted?
  {
    if !again.Channel? {
      return false, [];
    }
    sent := [PatchBody(again.node, profile, changes, codec)];
    ok := reply.Accepted?;
  }

  /** `first` and `again` are reads in the session that writes, `verification` is one in a new session. */
  method UpdateVerified(channel: int, profile: Profile, expected: Stream, changes: Changes, expectedCodec: string,
                        codec: Option<string>, connects: bool, first: Read, again: Read, reply: WriteReply,
                        reconnects: bool, verification: Read)
    returns (r: Result<(Status, Node), UpdateError>, sent: seq<string>)
    ensures r == Err(InvalidArguments) <==>
              || channel < 1 || expectedCodec == "" || codec == Some("")
              || (codec.None? && changes.resolution.None? && changes.fps.None? && changes.bitrateType.None?
                  && changes.quality.None? && changes.maxBitrate.None? && changes.audio.None?)
    ensures r == Err(ConnectFailed) <==> ValidArguments(channel, changes, expectedCodec, codec) && !connects
    ensures r == Err(ReadFailed) <==>
              ValidArguments(channel, changes, expectedCodec, codec) && connects && !first.Channel?
    ensures r.Ok? <==> ValidArguments(channel, changes, expectedCodec, codec) && connects && first.Channel?
                       && ProfileOf(first.node, profile).Some?
    ensures r.Ok? ==> (r.value.0 == Conflict <==>
                         (if profile.Continuous? then first.node.continuous else first.node.event) != Some(expected)
                         || first.node.codec != expectedCodec)
    ensures sent == if r.Ok? && r.value.0 != Conflict && again.Channel?
                    then [PatchBody(again.node, profile, changes, codec)] else []
    ensures r.Ok? ==> (r.value.0 == WriteUnconfirmed <==>
                         r.value.0 != Conflict && !(again.Channel? && reply.Accepted?))
    ensures r.Ok? && r.value.0 !in {Conflict, WriteUnconfirmed} ==>
              && sent != []
              && (r.value.0 == Updated <==>
                    reconnects && verification.Channel? && Confirms(verification.node, profile, changes, codec))
              && (r.value.0 == VerificationUnavailable <==>
                    !reconnects || !verification.Channel?
                    || (changes != NO_CHANGES && ProfileOf(verification.node, profile).None?))
    ensures r.Ok? && r.value.0 == Updated && changes != NO_CHANGES ==>
              var shown := if profile.Continuous? then r.value.1.continuous else r.value.1.event;
              shown.Some? && Apply(shown.value, changes) == shown.value
    ensures r.Ok? && r.value.0 == Updated && codec.Some? ==> r.value.1.codec == codec.value
    ensures r.Ok? && r.value.0 == VerificationMismatch ==>
              var shown := if profile.Continuous? then r.value.1.continuous else r.value.1.event;
              || (changes != NO_CHANGES && shown.Some? && Apply(shown.value, changes) != shown.value)
              || (codec.Some? && r.value.1.codec != codec.value)
    ensures r.Ok? && r.value.0 in {Updated, VerificationMismatch} ==> verification == Channel(r.value.1)
    ensures r.Ok? && r.value.0 !in {Updated, VerificationMismatch} ==> first == Channel(r.value.1)
  {
    sent := [];
    if channel < 1 || expectedCodec == "" || codec == Some("") || (changes == NO_CHANGES && codec.None?) {
      return Err(InvalidArguments), sent;
    }
    if !connects {
      return Err(ConnectFailed), sent;
    }
    if !first.Channel? {
      return Err(ReadFailed), sent;
    }
    var current := first.node;
    var state := ProfileOf(current, profile);
    if state.None? {
      return Err(ProfileMissing), sent;
    }
    if state.value != expected || current.codec != expectedCodec {
      return Ok((Conflict, current)), sent;
    }
    var ok;
    ok, sent := SetNodeEncode(again, reply, profile, changes, codec);
    if !ok {
      return Ok((WriteUnconfirmed, current)), sent;
    }
    if !reconnects || !verification.Channel? {
      return Ok((VerificationUnavailable, current)), sent;
    }
    var verified := verification.node;
    if changes != NO_CHANGES {
      var shown := ProfileOf(verified, profile);
      if shown.None? {
        return Ok((VerificationUnavailable, current)), sent;
      }
      if !Shows(shown.value, changes) {
        return Ok((VerificationMismatch, verified)), sent;
      }
    }
    if codec.Some? && verified.codec != codec.value {
      return Ok((VerificationMismatch, verified)), sent;
    }
    r := Ok((Updated, verified));
  }

  /** What the device is asked for after a passed guard. */
  function Patched(n: Node, profile: Profile, changes: Changes, codec: Option<string>): Node
    requires n.continuous.Some? && n.event.Some?
  {
    Node(Chosen(codec, n.codec), n.aGop, n.mGop,
         Some(if profile.Continuous? then Apply(n.continuous.value, changes) else n.continuous.value),
         Some(if profile.Event? then Apply(n.event.value, changes) else n.event.value))
  }

  predicate PlainNode(n: Node) {
    && (n.continuous.Some? ==> PlainStream(n.continuous.value)) && (n.event.Some? ==> PlainStream(n.event.value))
    && Plain(n.codec)
  }

  /** With reads that are stable within the session and both profiles present, the one write means the guarded
      baseline with only the requested fields changed, and a device that does what it says shows every change. */
  lemma GuardedWriteMeansPatch(n: Node, profile: Profile, expected: Stream, expectedCodec: string,
                               changes: Changes, codec: Option<string>)
    requires Matches(n, profile, expected, expectedCodec) && codec != Some("")
    requires n.continuous.Some? && n.event.Some? && PlainNode(Patched(n, profile, changes, codec))
    ensures var asked := Patched(n, profile, changes, codec);
            && ParseNode(PatchBody(n, profile, changes, codec)) == Some(asked)
            && ProfileOf(asked, profile) == Some(Apply(expected, changes))
            && ProfileOf(asked, Other(profile)) == ProfileOf(n, Other(profile))
            && Confirms(asked, profile, changes, codec)
  {
    if profile.Continuous? {
      WriteMeansPatch(n, changes, NO_CHANGES, codec);
    } else {
      WriteMeansPatch(n, NO_CHANGES, changes, codec);
    }
  }

  function Other(profile: Profile): Profile {
    if profile.Continuous? then Event else Continuous
  }

  /** The write leaves the profile it was not asked about as it was exactly when there is one:
      a missing one is written as a default. */
  lemma OtherProfileIsKeptIffPresent(n: Node, profile: Profile, changes: Changes, codec: Option<string>)
    requires ProfileOf(n, profile).Some? && PlainStream(Apply(ProfileOf(n, profile).value, changes))
    requires PlainStream(Or(ProfileOf(n, Other(profile)), DEFAULT_STREAM)) && Plain(Chosen(codec, n.codec))
    ensures var asked := ParseNode(PatchBody(n, profile, changes, codec));
            && asked.Some?
            && ProfileOf(asked.value, profile) == Some(Apply(ProfileOf(n, profile).value, changes))
            && ProfileOf(asked.value, Other(profile)) == Some(Or(ProfileOf(n, Other(profile)), DEFAULT_STREAM))
            && (ProfileOf(asked.value, Other(profile)) == ProfileOf(n, Other(profile))
                <==> ProfileOf(n, Other(profile)).Some?)
  {
    if profile.Continuous? {
      WriteMeansPatch(n, changes, NO_CHANGES, codec);
    } else {
      WriteMeansPatch(n, NO_CHANGES, changes, codec);
    }
  }
}
