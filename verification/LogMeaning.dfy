/** What the batch description of the log analysis means for concrete texts: lines, substrings, stamps and counts,
    each said without the functions that the analysis is written with. */
module LogMeaning {
  import opened Outcomes
  import opened LogAnalysis

  // ---- lines

  predicate OneLine(text: seq<Byte>) {
    forall i | 0 <= i < |text| :: text[i] != 10
  }

  function AsLine(text: seq<Byte>): Option<Line> {
    if |text| > 16384 then None else Some(text)
  }

  lemma {:induction false} LineEndShifts(front: seq<Byte>, stream: seq<Byte>, at: nat)
    requires at < |stream|
    ensures LineEnd(front + stream, |front| + at) == |front| + LineEnd(stream, at)
    decreases |stream| - at
  {
    assert (front + stream)[|front| + at] == stream[at];
    if stream[at] != NEWLINE && at + 1 < |stream| {
      LineEndShifts(front, stream, at + 1);
    }
  }

  lemma SliceShifts(front: seq<Byte>, stream: seq<Byte>, at: nat, end: nat)
    requires at <= end <= |stream|
    ensures (front + stream)[|front| + at..|front| + end] == stream[at..end]
  {}

  lemma LinesUnfold(stream: seq<Byte>, at: nat, end: nat)
    requires at < |stream| && end == LineEnd(stream, at)
    ensures LinesFrom(stream, at)
            == [if end - at > MAX_LINE then None else Some(stream[at..end])] + LinesFrom(stream, end)
  {}

  lemma {:induction false} LinesShift(front: seq<Byte>, stream: seq<Byte>, at: nat)
    requires at <= |stream|
    ensures LinesFrom(front + stream, |front| + at) == LinesFrom(stream, at)
    decreases |stream| - at
  {
    if at < |stream| {
      var end := LineEnd(stream, at);
      LineEndShifts(front, stream, at);
      LinesUnfold(front + stream, |front| + at, |front| + end);
      LinesUnfold(stream, at, end);
      SliceShifts(front, stream, at, end);
      LinesShift(front, stream, end);
    }
  }

  lemma {:induction false} LineEndsAtNewline(stream: seq<Byte>, at: nat, end: nat)
    requires at < end <= |stream| && (end == |stream| || stream[end - 1] == 10)
    requires forall i | at <= i < end - 1 :: stream[i] != 10
    ensures LineEnd(stream, at) == end
    decreases end - at
  {
    if at + 1 < end {
      LineEndsAtNewline(stream, at + 1, end);
    }
  }

  /** The lines of a stream: text up to a newline, then the lines of what follows; a last line needs no newline; and
      a line of more than 16384 bytes is dropped whole. */
  lemma LinesOfStream(text: seq<Byte>, rest: seq<Byte>)
    requires OneLine(text)
    ensures LinesFrom(text + [10] + rest, 0) == [AsLine(text + [10])] + LinesFrom(rest, 0)
    ensures LinesFrom(text, 0) == if text == [] then [] else [AsLine(text)]
  {
    var front := text + [10];
    var stream := front + rest;
    LineEndsAtNewline(stream, 0, |front|);
    LinesShift(front, rest, 0);
    assert stream[0..|front|] == front;
    if text != [] {
      LineEndsAtNewline(text, 0, |text|);
      assert text[0..|text|] == text;
    }
  }

  // ---- substrings

  predicate SplitsAs(line: Line, a: Line, needle: Line, b: Line) {
    line == a + needle + b
  }

  ghost predicate Has(line: Line, needle: Line) {
    exists a, b :: SplitsAs(line, a, needle, b)
  }

  /** The substring test: exactly the lines that are something, then the needle, then something. */
  lemma ContainsIff(line: Line, needle: Line)
    ensures Contains(line, needle) <==> Has(line, needle)
  {
    if Contains(line, needle) {
      var i :| 0 <= i <= |line| && OccursAt(line, needle, i);
      assert SplitsAs(line, line[..i], needle, line[i + |needle|..]);
    }
    if Has(line, needle) {
      var a, b :| SplitsAs(line, a, needle, b);
      ContainsMiddle(a, needle, b);
    }
  }

  lemma ContainsMiddle(a: Line, needle: Line, b: Line)
    ensures Contains(a + needle + b, needle)
  {
    var line := a + needle + b;
    assert line[|a|..|a| + |needle|] == needle;
    assert OccursAt(line, needle, |a|);
  }

  // ---- what one line adds to the counter

  /** The key of a needle: the subject of a missing authority is the user named in the line, if any; every other
      subject is the service. */
  function KeyOfNeedle(rules: Rules, service: Service, line: Line, n: nat): Key
    requires n < |rules.needles|
  {
    var code := rules.needles[n].1;
    match rules.userIn(line)
    case Some(user) => Key(service, code, if code == "device_authority" then user else service)
    case None => Key(service, code, service)
  }

  ghost function NeedlesFor(rules: Rules, service: Service, line: Line, key: Key, n: nat): set<nat>
    requires n <= |rules.needles|
  {
    set i | 0 <= i < n && Has(line, rules.needles[i].0) && KeyOfNeedle(rules, service, line, i) == key
  }

  lemma NeedleAdds(rules: Rules, service: Service, line: Line, n: nat)
    requires n < |rules.needles|
    ensures NeedleHits(rules, service, line, n + 1)
            == NeedleHits(rules, service, line, n)
               + if Has(line, rules.needles[n].0) then [KeyOfNeedle(rules, service, line, n)] else []
  {
    ContainsIff(line, rules.needles[n].0);
  }

  lemma NeedleCountsOneMore(rules: Rules, service: Service, line: Line, key: Key, n: nat)
    requires n < |rules.needles|
    requires multiset(NeedleHits(rules, service, line, n))[key] == |NeedlesFor(rules, service, line, key, n)|
    ensures multiset(NeedleHits(rules, service, line, n + 1))[key] == |NeedlesFor(rules, service, line, key, n + 1)|
  {
    NeedleSetGrows(rules, service, line, key, n);
    NeedleAdds(rules, service, line, n);
    CountAppend(NeedleHits(rules, service, line, n), KeyOfNeedle(rules, service, line, n), key);
  }

  lemma {:induction false} NeedleCounts(rules: Rules, service: Service, line: Line, key: Key, n: nat)
    requires n <= |rules.needles|
    ensures multiset(NeedleHits(rules, service, line, n))[key] == |NeedlesFor(rules, service, line, key, n)|
    decreases n
  {
    if n == 0 {
      assert NeedlesFor(rules, service, line, key, 0) == {};
    } else {
      NeedleCounts(rules, service, line, key, n - 1);
      NeedleCountsOneMore(rules, service, line, key, n - 1);
    }
  }

  lemma CountAppend(keys: seq<Key>, k: Key, key: Key)
    ensures multiset(keys + [k])[key] == multiset(keys)[key] + if k == key then 1 else 0
    ensures keys + [] == keys
  {}

  lemma NeedleSetGrows(rules: Rules, service: Service, line: Line, key: Key, n: nat)
    requires n < |rules.needles|
    ensures |NeedlesFor(rules, service, line, key, n + 1)|
            == |NeedlesFor(rules, service, line, key, n)|
               + if Has(line, rules.needles[n].0) && KeyOfNeedle(rules, service, line, n) == key then 1 else 0
  {
    var before, after := NeedlesFor(rules, service, line, key, n), NeedlesFor(rules, service, line, key, n + 1);
    var counted := Has(line, rules.needles[n].0) && KeyOfNeedle(rules, service, line, n) == key;
    assert after == if counted then before + {n} else before;
  }

  lemma {:induction false} NoNeedleIff(rules: Rules, service: Service, line: Line, n: nat)
    requires n <= |rules.needles|
    ensures NeedleHits(rules, service, line, n) == [] <==> forall i | 0 <= i < n :: !Has(line, rules.needles[i].0)
    decreases n
  {
    if n > 0 {
      NoNeedleIff(rules, service, line, n - 1);
      NeedleAdds(rules, service, line, n - 1);
    }
  }

  /** A line at a warning level or above in which no needle occurs. */
  ghost predicate Unclassified(rules: Rules, line: Line) {
    && (exists i | 0 <= i < |rules.levels| :: Has(line, rules.levels[i]))
    && forall i | 0 <= i < |rules.needles| :: !Has(line, rules.needles[i].0)
  }

  lemma LevelIff(rules: Rules, line: Line)
    ensures HasLevel(rules, line) <==> exists i | 0 <= i < |rules.levels| :: Has(line, rules.levels[i])
  {
    forall i | 0 <= i < |rules.levels| ensures Contains(line, rules.levels[i]) <==> Has(line, rules.levels[i]) {
      ContainsIff(line, rules.levels[i]);
    }
  }

  ghost function AddedBy(rules: Rules, service: Service, line: Line, key: Key): nat {
    |NeedlesFor(rules, service, line, key, |rules.needles|)|
    + if Unclassified(rules, line) && key == Key(service, "unclassified_errors", service) then 1 else 0
  }

  /** Main result on counting: a line adds to a key one for each needle of that key that occurs in it, and one to the
      unclassified errors of its service iff it has a level and no needle. */
  lemma LineAdds(rules: Rules, service: Service, line: Line, key: Key)
    ensures multiset(Hits(rules, service, line))[key] == AddedBy(rules, service, line, key)
  {
    NeedleCounts(rules, service, line, key, |rules.needles|);
    NoNeedleIff(rules, service, line, |rules.needles|);
    LevelIff(rules, line);
    if Unclassified(rules, line) {
      assert NeedlesFor(rules, service, line, key, |rules.needles|) == {};
    }
  }

  lemma RecordAdds(rules: Rules, records: seq<Record>, r: Record, key: Key)
    ensures HitsOf(rules, records + [r])[key] == HitsOf(rules, records)[key] + AddedBy(rules, r.service, r.line, key)
    ensures HitsOf(rules, []) == multiset{}
  {
    assert (records + [r])[..|records|] == records;
    LineAdds(rules, r.service, r.line, key);
  }

  // ---- times

  /** Line `j` is the last stamped one before line `n`, and none after it was dropped. */
  predicate LastStamp(rules: Rules, lines: seq<Option<Line>>, n: nat, j: nat)
    requires n <= |lines|
  {
    && j < n && lines[j].Some? && rules.stampOf(lines[j].value).Some?
    && forall i | j < i < n :: lines[i].Some? && rules.stampOf(lines[i].value).None?
  }

  lemma StampStays(rules: Rules, lines: seq<Option<Line>>, n: nat, j: nat)
    requires 0 < n <= |lines| && lines[n - 1].Some? && rules.stampOf(lines[n - 1].value).None?
    ensures LastStamp(rules, lines, n, j) <==> LastStamp(rules, lines, n - 1, j)
  {}

  /** A line has the time of the last stamp up to it, unless a line was dropped since. */
  lemma {:induction false} TimeIsOfLastStamp(rules: Rules, lines: seq<Option<Line>>, n: nat, j: nat)
    requires n <= |lines| && LastStamp(rules, lines, n, j)
    ensures TimeAt(rules, lines, n) == rules.timeOf(rules.stampOf(lines[j].value).value)
    decreases n
  {
    if j < n - 1 {
      StampStays(rules, lines, n, j);
      TimeIsOfLastStamp(rules, lines, n - 1, j);
    }
  }

  /** And without such a stamp it has none. */
  lemma {:induction false} NoStampNoTime(rules: Rules, lines: seq<Option<Line>>, n: nat)
    requires n <= |lines| && forall j: nat | j < n :: !LastStamp(rules, lines, n, j)
    ensures TimeAt(rules, lines, n) == None
    decreases n
  {
    if n > 0 && lines[n - 1].Some? {
      assert !LastStamp(rules, lines, n, n - 1);
      var m := n - 1;
      if j: nat :| j < m && LastStamp(rules, lines, m, j) {
        StampStays(rules, lines, n, j);
        assert false;
      }
      NoStampNoTime(rules, lines, n - 1);
    }
  }

  // ---- records

  /** A kept line becomes a record exactly when its time lies in the window, ends included. */
  lemma LineIsRecordedIff(rules: Rules, w: Window, service: Service, lines: seq<Option<Line>>, n: nat)
    requires n < |lines|
    ensures var time := TimeAt(rules, lines, n + 1);
            FileRecords(rules, w, service, lines, n + 1)
            == FileRecords(rules, w, service, lines, n)
               + if lines[n].Some? && time.Some? && !(time.value < w.start || w.end < time.value)
                 then [Record(service, time.value, lines[n].value)] else []
    ensures FileRecords(rules, w, service, lines, 0) == []
  {}

  function RecordsOfMember(rules: Rules, w: Window, m: Member): seq<Record> {
    if m.service.None? then []
    else FileRecords(rules, w, m.service.value, LinesFrom(m.stream, 0), |LinesFrom(m.stream, 0)|)
  }

  lemma MemberAdds(rules: Rules, w: Window, members: seq<Member>, m: Member)
    ensures Records(rules, w, members + [m]) == Records(rules, w, members) + RecordsOfMember(rules, w, m)
  {
    assert (members + [m])[..|members|] == members;
  }

  lemma RecordsAddOne(rules: Rules, w: Window, a: seq<Member>, front: seq<Member>, m: Member, b: seq<Member>)
    requires b == front + [m] && Records(rules, w, a + front) == Records(rules, w, a) + Records(rules, w, front)
    ensures Records(rules, w, a + b) == Records(rules, w, a) + Records(rules, w, b)
  {
    assert a + b == (a + front) + [m];
    MemberAdds(rules, w, front, m);
    MemberAdds(rules, w, a + front, m);
    Regroup(Records(rules, w, a), Records(rules, w, front), RecordsOfMember(rules, w, m));
  }

  lemma {:induction false} RecordsAdd(rules: Rules, w: Window, a: seq<Member>, b: seq<Member>)
    ensures Records(rules, w, a + b) == Records(rules, w, a) + Records(rules, w, b)
    decreases |b|
  {
    if b == [] {
      assert a + b == a && Records(rules, w, a) + [] == Records(rules, w, a);
    } else {
      var n := |b| - 1;
      assert b == b[..n] + [b[n]];
      RecordsAdd(rules, w, a, b[..n]);
      RecordsAddOne(rules, w, a, b[..n], b[n], b);
    }
  }

  lemma Regroup(x: seq<Record>, y: seq<Record>, z: seq<Record>)
    ensures (x + y) + z == x + (y + z)
  {}

  lemma {:induction false} MembersAdd(a: seq<Member>, b: seq<Member>)
    ensures ExpandedSize(a + b) == ExpandedSize(a) + ExpandedSize(b)
    ensures ServiceLogs(a + b) == ServiceLogs(a) + ServiceLogs(b) && DroppedOf(a + b) == DroppedOf(a) + DroppedOf(b)
    decreases |b|
  {
    if b == [] {
      assert a + b == a;
    } else {
      var front := b[..|b| - 1];
      MembersAdd(a, front);
      assert (a + b)[..|a + b| - 1] == a + front;
    }
  }

  /** One member: it counts with its size, and only a service log is read. */
  lemma OneMember(rules: Rules, w: Window, m: Member)
    ensures ExpandedSize([m]) == m.size && ServiceLogs([m]) == (if m.service.Some? then 1 else 0)
    ensures var lines := LinesFrom(m.stream, 0);
            Records(rules, w, [m])
            == (if m.service.Some? then FileRecords(rules, w, m.service.value, lines, |lines|) else [])
            && DroppedOf([m]) == if m.service.Some? then DroppedIn(lines, |lines|) else 0
  {
    assert [m][..0] == [];
  }

  function DroppedLines(lines: seq<Option<Line>>, n: nat): set<nat>
    requires n <= |lines|
  {
    set i | 0 <= i < n && lines[i] == None
  }

  lemma {:induction false} DroppedIsTheCount(lines: seq<Option<Line>>, n: nat)
    requires n <= |lines|
    ensures DroppedIn(lines, n) == |DroppedLines(lines, n)|
    decreases n
  {
    if n == 0 {
      assert DroppedLines(lines, 0) == {};
    } else {
      DroppedIsTheCount(lines, n - 1);
      var before := DroppedLines(lines, n - 1);
      assert DroppedLines(lines, n) == if lines[n - 1] == None then before + {n - 1} else before;
    }
  }

  lemma OneStampedLine(rules: Rules, w: Window, service: Service, line: Line, t: int)
    requires rules.stampOf(line).Some? && rules.timeOf(rules.stampOf(line).value) == Some(t)
    ensures FileRecords(rules, w, service, [Some(line)], 1)
            == if w.start <= t <= w.end then [Record(service, t, line)] else []
  {
    var lines := [Some(line)];
    assert LastStamp(rules, lines, 1, 0);
    TimeIsOfLastStamp(rules, lines, 1, 0);
    LineIsRecordedIff(rules, w, service, lines, 0);
  }

  lemma OneLineStream(text: seq<Byte>)
    requires OneLine(text) && |text| < 16384
    ensures LinesFrom(text + [10], 0) == [Some(text + [10])]
  {
    LinesOfStream(text, []);
    LinesOfStream([], []);
    assert text + [10] + [] == text + [10];
  }

  /** From the file to the counter: the only line of a log, stamped with time `t`, adds its keys iff `t` is in the
      window. */
  lemma OneLineLog(rules: Rules, w: Window, service: Service, size: nat, text: seq<Byte>, t: int, key: Key)
    requires OneLine(text) && |text| < 16384
    requires rules.stampOf(text + [10]).Some? && rules.timeOf(rules.stampOf(text + [10]).value) == Some(t)
    ensures HitsOf(rules, Records(rules, w, [Member(Some(service), size, text + [10])]))[key]
            == if w.start <= t <= w.end then AddedBy(rules, service, text + [10], key) else 0
  {
    var line := text + [10];
    OneLineStream(text);
    OneMember(rules, w, Member(Some(service), size, line));
    OneStampedLine(rules, w, service, line, t);
    RecordAdds(rules, [], Record(service, t, line), key);
    assert [] + [Record(service, t, line)] == [Record(service, t, line)];
  }

  // ---- the license value

  /** A value scanned after all the others becomes the reported one exactly when none of the others is later. */
  lemma ScannedLicenseWinsIff(rules: Rules, records: seq<Record>, r: Record, license: Option<(int, nat)>, v: nat)
    requires IsLicense(rules, records, license) && rules.licenseIn(r.line) == Some(v)
    ensures license.None? || license.value.0 <= r.time ==> IsLicense(rules, records + [r], Some((r.time, v)))
    ensures license.Some? && license.value.0 > r.time ==> IsLicense(rules, records + [r], license)
  {
    var all := records + [r];
    if license.None? || license.value.0 <= r.time {
      if license.Some? {
        var i :| IsLatestLicense(rules, records, i) && records[i].time == license.value.0
                 && rules.licenseIn(records[i].line) == Some(license.value.1);
      }
      assert IsLatestLicense(rules, all, |records|);
    } else {
      var i :| IsLatestLicense(rules, records, i) && records[i].time == license.value.0
               && rules.licenseIn(records[i].line) == Some(license.value.1);
      assert all[i] == records[i] && IsLatestLicense(rules, all, i);
    }
  }

  /** Without any value there is none to report, and a line without one changes nothing. */
  lemma LicenseOtherwise(rules: Rules, records: seq<Record>, r: Record, license: Option<(int, nat)>)
    requires rules.licenseIn(r.line).None?
    ensures IsLicense(rules, [], None)
    ensures IsLicense(rules, records, license) ==> IsLicense(rules, records + [r], license)
  {
    if IsLicense(rules, records, license) && license.Some? {
      var all := records + [r];
      var i :| IsLatestLicense(rules, records, i) && records[i].time == license.value.0
               && rules.licenseIn(records[i].line) == Some(license.value.1);
      assert all[i] == records[i] && IsLatestLicense(rules, all, i);
    }
  }
}
