/** The streaming analysis of exported logs against a batch description of what it reports. */
module LogAnalysis {
  import opened Outcomes

  type Byte = b: int | 0 <= b < 256
  type Line = seq<Byte>
  type Stamp = seq<Byte>
  type Service = string

  const NEWLINE: Byte := 10
  const MAX_LINE := 16384
  const MAX_MEMBERS := 512
  const MAX_EXPANDED := 8_000_000_000

  // ---- lines of a stream

  /** Where the line that starts at `at` ends: after its newline, or at the end of the stream. */
  function LineEnd(stream: seq<Byte>, at: nat): (end: nat)
    requires at < |stream|
    ensures at < end <= |stream|
    decreases |stream| - at
  {
    if stream[at] == NEWLINE || at + 1 == |stream| then at + 1 else LineEnd(stream, at + 1)
  }

  /** The lines from `at` on: each one whole, or `None` in place of a line of more than `MAX_LINE` bytes. */
  function LinesFrom(stream: seq<Byte>, at: nat): seq<Option<Line>>
    requires at <= |stream|
    decreases |stream| - at
  {
    if at == |stream| then []
    else
      var end := LineEnd(stream, at);
      [if end - at > MAX_LINE then None else Some(stream[at..end])] + LinesFrom(stream, end)
  }

  method ReadLine(stream: seq<Byte>, at: nat, limit: nat) returns (next: nat)
    requires at <= |stream| && limit > 0
    ensures at == |stream| ==> next == at
    ensures at < |stream| ==> next == if LineEnd(stream, at) <= at + limit then LineEnd(stream, at) else at + limit
  {
    next := at;
    while next < |stream| && next < at + limit
      invariant at <= next <= |stream| && next <= at + limit
      invariant next < |stream| ==> LineEnd(stream, next) == LineEnd(stream, at)
      invariant next == |stream| && at < next ==> LineEnd(stream, at) == next
      decreases |stream| - next
    {
      next := next + 1;
      if stream[next - 1] == NEWLINE {
        return;
      }
    }
  }

  lemma {:induction false} CutLine(stream: seq<Byte>, at: nat, cut: nat)
    requires at < cut < |stream|
    requires cut < LineEnd(stream, at)
    ensures LineEnd(stream, cut) == LineEnd(stream, at) && stream[cut - 1] != NEWLINE
    decreases cut - at
  {
    if at + 1 < cut {
      CutLine(stream, at + 1, cut);
    }
  }

  lemma {:induction false} LineEndsIn(stream: seq<Byte>, at: nat)
    requires at < |stream|
    ensures LineEnd(stream, at) < |stream| ==> stream[LineEnd(stream, at) - 1] == NEWLINE
    decreases |stream| - at
  {
    if stream[at] != NEWLINE && at + 1 < |stream| {
      LineEndsIn(stream, at + 1);
    }
  }

  // ---- the deadline

  /** `late(i)` says whether the i-th look at the clock finds the deadline passed. */
  predicate OnTime(late: nat -> bool, from: nat, to: nat) {
    forall i: nat | from <= i < to :: !late(i)
  }

  /** The last look, and no earlier one, found it passed. */
  predicate Expired(late: nat -> bool, from: nat, to: nat) {
    from < to && late(to - 1) && OnTime(late, from, to - 1)
  }

  lemma LooksJoin(late: nat -> bool, a: nat, b: nat, c: nat)
    requires a <= b <= c && OnTime(late, a, b)
    ensures OnTime(late, b, c) ==> OnTime(late, a, c)
    ensures Expired(late, b, c) ==> Expired(late, a, c)
  {}

  /** One look at the clock. */
  method Look(late: nat -> bool, looks: nat, looked: nat) returns (expired: bool, next: nat)
    requires looks <= looked && OnTime(late, looks, looked)
    ensures next == looked + 1 && expired == late(looked)
    ensures if expired then Expired(late, looks, next) else OnTime(late, looks, next)
  {
    expired, next := late(looked), looked + 1;
  }

  /** The next line, or `None` for one that is too long: the rest of it is read in pieces and thrown away,
      with a look at the clock before each piece. */
  method NextLine(stream: seq<Byte>, at: nat, late: nat -> bool, looks: nat)
    returns (line: Option<Line>, next: nat, expired: bool, looked: nat)
    requires at < |stream|
    ensures looks <= looked && if expired then Expired(late, looks, looked) else OnTime(late, looks, looked)
    ensures !expired ==> next == LineEnd(stream, at)
    ensures !expired ==> line == if next - at > MAX_LINE then None else Some(stream[at..next])
    ensures LineEnd(stream, at) - at <= MAX_LINE ==> looked == looks
  {
    looked, expired := looks, false;
    next := ReadLine(stream, at, MAX_LINE + 1);
    if next - at <= MAX_LINE {
      return Some(stream[at..next]), next, expired, looked;
    }
    var piece := next - at;
    line := None;
    LineEndsIn(stream, at);
    if next < LineEnd(stream, at) {
      CutLine(stream, at, next);
    }
    while piece > 0 && stream[next - 1] != NEWLINE
      invariant at < next <= LineEnd(stream, at)
      invariant next < LineEnd(stream, at) ==> LineEnd(stream, next) == LineEnd(stream, at) && piece > 0
                                               && stream[next - 1] != NEWLINE
      invariant looks <= looked && OnTime(late, looks, looked)
      decreases |stream| - next, piece
    {
      expired, looked := Look(late, looks, looked);
      if expired {
        return;
      }
      var from := next;
      next := ReadLine(stream, from, MAX_LINE + 1);
      piece := next - from;
      if next < LineEnd(stream, at) {
        CutLine(stream, from, next);
      }
    }
  }

  // ---- what one line says

  type Code = string

  const DEVICE_AUTHORITY: Code := "device_authority"
  const UNCLASSIFIED: Code := "unclassified_errors"

  datatype Key = Key(service: Service, code: Code, subject: string)

  /** The patterns of the analysis. `stampOf`, `userIn` and `licenseIn` stand for its regular expressions,
      `timeOf` for the parsing of a time stamp in the configured zone; `needles` lists byte strings and their codes. */
  datatype Rules = Rules(
    stampOf: Line -> Option<Stamp>,
    timeOf: Stamp -> Option<int>,
    needles: seq<(Line, Code)>,
    userIn: Line -> Option<string>,
    levels: seq<Line>,
    licenseIn: Line -> Option<nat>)

  predicate OccursAt(line: Line, needle: Line, i: nat) {
    i + |needle| <= |line| && line[i..i + |needle|] == needle
  }

  predicate Contains(line: Line, needle: Line) {
    exists i | 0 <= i <= |line| :: OccursAt(line, needle, i)
  }

  predicate HasLevel(rules: Rules, line: Line) {
    exists i | 0 <= i < |rules.levels| :: Contains(line, rules.levels[i])
  }

  function SubjectOf(rules: Rules, service: Service, code: Code, line: Line): string {
    if code == DEVICE_AUTHORITY && rules.userIn(line).Some? then rules.userIn(line).value else service
  }

  /** The needle hits among the first `n` needles. */
  function NeedleHits(rules: Rules, service: Service, line: Line, n: nat): seq<Key>
    requires n <= |rules.needles|
  {
    if n == 0 then []
    else
      var (needle, code) := rules.needles[n - 1];
      NeedleHits(rules, service, line, n - 1)
      + if Contains(line, needle) then [Key(service, code, SubjectOf(rules, service, code, line))] else []
  }

  function Hits(rules: Rules, service: Service, line: Line): seq<Key> {
    var hits := NeedleHits(rules, service, line, |rules.needles|);
    if hits == [] && HasLevel(rules, line) then [Key(service, UNCLASSIFIED, service)] else hits
  }

  // ---- the batch description

  /** A log line inside the time window. */
  datatype Record = Record(service: Service, time: int, line: Line)

  /** The time that line `n - 1` is attributed to: that of the last stamped line up to it, unless a line that was
      too long came in between. Every stamp is parsed again here. */
  function TimeAt(rules: Rules, lines: seq<Option<Line>>, n: nat): Option<int>
    requires n <= |lines|
  {
    if n == 0 then None else TimeAfter(rules, lines[n - 1], TimeAt(rules, lines, n - 1))
  }

  function TimeAfter(rules: Rules, line: Option<Line>, before: Option<int>): Option<int> {
    if line.None? then None
    else if rules.stampOf(line.value).Some? then rules.timeOf(rules.stampOf(line.value).value)
    else before
  }

  datatype Window = Window(start: int, end: int)

  function InWindow(w: Window, service: Service, time: Option<int>, line: Option<Line>): seq<Record> {
    if line.Some? && time.Some? && w.start <= time.value <= w.end then [Record(service, time.value, line.value)] else []
  }

  function RecordAt(rules: Rules, w: Window, service: Service, lines: seq<Option<Line>>, n: nat): seq<Record>
    requires 0 < n <= |lines|
  {
    InWindow(w, service, TimeAt(rules, lines, n), lines[n - 1])
  }

  function FileRecords(rules: Rules, w: Window, service: Service, lines: seq<Option<Line>>, n: nat): seq<Record>
    requires n <= |lines|
  {
    if n == 0 then []
    else FileRecords(rules, w, service, lines, n - 1) + RecordAt(rules, w, service, lines, n)
  }

  /** A member of the archive; `service` is `None` for one that is not a service log. */
  datatype Member = Member(service: Option<Service>, size: nat, stream: seq<Byte>)

  function Records(rules: Rules, w: Window, members: seq<Member>): seq<Record> {
    if members == [] then []
    else
      var m := members[|members| - 1];
      Records(rules, w, members[..|members| - 1])
      + if m.service.None? then []
        else FileRecords(rules, w, m.service.value, LinesFrom(m.stream, 0), |LinesFrom(m.stream, 0)|)
  }

  function HitsOf(rules: Rules, records: seq<Record>): multiset<Key> {
    if records == [] then multiset{}
    else
      var r := records[|records| - 1];
      HitsOf(rules, records[..|records| - 1]) + multiset(Hits(rules, r.service, r.line))
  }

  function DroppedIn(lines: seq<Option<Line>>, n: nat): nat
    requires n <= |lines|
  {
    if n == 0 then 0 else DroppedIn(lines, n - 1) + if lines[n - 1].None? then 1 else 0
  }

  function DroppedOf(members: seq<Member>): nat {
    if members == [] then 0
    else
      var m := members[|members| - 1];
      DroppedOf(members[..|members| - 1])
      + if m.service.None? then 0 else DroppedIn(LinesFrom(m.stream, 0), |LinesFrom(m.stream, 0)|)
  }

  /** The interval of a service: it contains every record of the service, and both ends are records of it. */
  ghost predicate CoversService(records: seq<Record>, service: Service, lo: int, hi: int) {
    && (forall i | 0 <= i < |records| && records[i].service == service :: lo <= records[i].time <= hi)
    && (exists i | 0 <= i < |records| :: records[i].service == service && records[i].time == lo)
    && (exists i | 0 <= i < |records| :: records[i].service == service && records[i].time == hi)
  }

  ghost predicate IsCoverage(records: seq<Record>, coverage: map<Service, (int, int)>) {
    && (forall i | 0 <= i < |records| :: records[i].service in coverage)
    && forall s | s in coverage :: CoversService(records, s, coverage[s].0, coverage[s].1)
  }

  /** Record `i` carries a license value, and no other one that does is later, or equally late and scanned after it. */
  ghost predicate IsLatestLicense(rules: Rules, records: seq<Record>, i: int) {
    && 0 <= i < |records| && rules.licenseIn(records[i].line).Some?
    && forall j | 0 <= j < |records| && rules.licenseIn(records[j].line).Some? ::
         records[j].time < records[i].time || (records[j].time == records[i].time && j <= i)
  }

  ghost predicate IsLicense(rules: Rules, records: seq<Record>, license: Option<(int, nat)>) {
    match license
    case None => forall i | 0 <= i < |records| :: rules.licenseIn(records[i].line).None?
    case Some((time, value)) =>
      exists i :: IsLatestLicense(rules, records, i) && records[i].time == time
                  && rules.licenseIn(records[i].line) == Some(value)
  }

  datatype Tally = Tally(counts: multiset<Key>, coverage: map<Service, (int, int)>, license: Option<(int, nat)>)

  datatype Report = Report(tally: Tally, oversized: nat, files: nat)

  /** What the tally must be, in terms of the records alone. */
  ghost predicate Reports(rules: Rules, records: seq<Record>, t: Tally) {
    t.counts == HitsOf(rules, records) && IsCoverage(records, t.coverage) && IsLicense(rules, records, t.license)
  }

  /** The records determine the tally. */
  lemma TallyIsUnique(rules: Rules, records: seq<Record>, t: Tally, u: Tally)
    requires Reports(rules, records, t) && Reports(rules, records, u)
    ensures t == u
  {
    forall s | s in t.coverage ensures s in u.coverage && u.coverage[s] == t.coverage[s] {
      CoverageIsUnique(records, s, t.coverage[s], u.coverage);
    }
    forall s | s in u.coverage ensures s in t.coverage {
      CoverageIsUnique(records, s, u.coverage[s], t.coverage);
    }
    LicenseIsUnique(rules, records, t.license, u.license);
  }

  lemma CoverageIsUnique(records: seq<Record>, s: Service, bounds: (int, int), coverage: map<Service, (int, int)>)
    requires CoversService(records, s, bounds.0, bounds.1) && IsCoverage(records, coverage)
    ensures s in coverage && coverage[s] == bounds
  {
    var i :| 0 <= i < |records| && records[i].service == s && records[i].time == bounds.0;
    assert records[i].service in coverage;
    assert CoversService(records, s, coverage[s].0, coverage[s].1);
  }

  lemma LicenseIsUnique(rules: Rules, records: seq<Record>, a: Option<(int, nat)>, b: Option<(int, nat)>)
    requires IsLicense(rules, records, a) && IsLicense(rules, records, b)
    ensures a == b
  {
    if a.Some? && b.Some? {
      var i :| IsLatestLicense(rules, records, i) && records[i].time == a.value.0
               && rules.licenseIn(records[i].line) == Some(a.value.1);
      var j :| IsLatestLicense(rules, records, j) && records[j].time == b.value.0
               && rules.licenseIn(records[j].line) == Some(b.value.1);
      assert i == j;
    }
  }

  lemma {:induction false} RecordsAreInWindow(rules: Rules, w: Window, members: seq<Member>)
    ensures forall r | r in Records(rules, w, members) :: w.start <= r.time <= w.end
    decreases |members|
  {
    if members != [] {
      RecordsAreInWindow(rules, w, members[..|members| - 1]);
      var m := members[|members| - 1];
      if m.service.Some? {
        var lines := LinesFrom(m.stream, 0);
        FileRecordsAreInWindow(rules, w, m.service.value, lines, |lines|);
      }
    }
  }

  lemma {:induction false} FileRecordsAreInWindow(rules: Rules, w: Window, service: Service, lines: seq<Option<Line>>,
                                                  n: nat)
    requires n <= |lines|
    ensures forall r | r in FileRecords(rules, w, service, lines, n) :: w.start <= r.time <= w.end
    decreases n
  {
    if n > 0 {
      FileRecordsAreInWindow(rules, w, service, lines, n - 1);
    }
  }

  lemma {:induction false} HitsAreOfService(rules: Rules, service: Service, line: Line, n: nat)
    requires n <= |rules.needles|
    ensures forall k | k in NeedleHits(rules, service, line, n) :: k.service == service
    decreases n
  {
    if n > 0 {
      HitsAreOfService(rules, service, line, n - 1);
    }
  }

  lemma {:induction false} CountedServiceHasRecord(rules: Rules, records: seq<Record>, key: Key)
    requires key in HitsOf(rules, records)
    ensures exists i | 0 <= i < |records| :: records[i].service == key.service
    decreases |records|
  {
    var last := records[|records| - 1];
    var rest := records[..|records| - 1];
    if key in HitsOf(rules, rest) {
      CountedServiceHasRecord(rules, rest, key);
      var i :| 0 <= i < |rest| && rest[i].service == key.service;
      assert records[i] == rest[i];
    } else {
      assert key in Hits(rules, last.service, last.line);
      HitsAreOfService(rules, last.service, last.line, |rules.needles|);
      assert records[|records| - 1].service == key.service;
    }
  }

  /** Every counted service has an interval inside the window, so building the observations cannot fail. */
  lemma CountedServicesAreCovered(rules: Rules, w: Window, members: seq<Member>, t: Tally, key: Key)
    requires Reports(rules, Records(rules, w, members), t) && key in t.counts
    ensures key.service in t.coverage
    ensures w.start <= t.coverage[key.service].0 <= t.coverage[key.service].1 <= w.end
  {
    var records := Records(rules, w, members);
    CountedServiceHasRecord(rules, records, key);
    RecordsAreInWindow(rules, w, members);
    var i :| 0 <= i < |records| && records[i].service == key.service;
    assert records[i].service in t.coverage;
    var bounds := t.coverage[key.service];
    assert CoversService(records, key.service, bounds.0, bounds.1);
    var lo :| 0 <= lo < |records| && records[lo].service == key.service && records[lo].time == bounds.0;
    var hi :| 0 <= hi < |records| && records[hi].service == key.service && records[hi].time == bounds.1;
    assert records[lo] in records && records[hi] in records;
  }

  // ---- the streaming loops

  lemma NeedleStep(rules: Rules, service: Service, line: Line, n: nat, counts: multiset<Key>)
    requires n < |rules.needles|
    ensures var (needle, code) := rules.needles[n];
            var before, after := NeedleHits(rules, service, line, n), NeedleHits(rules, service, line, n + 1);
            if Contains(line, needle) then
              after == before + [Key(service, code, SubjectOf(rules, service, code, line))]
              && counts + multiset(after)
                 == counts + multiset(before) + multiset{Key(service, code, SubjectOf(rules, service, code, line))}
            else after == before
  {}

  method FindSubject(rules: Rules, service: Service, code: Code, line: Line) returns (subject: string)
    ensures subject == SubjectOf(rules, service, code, line)
  {
    subject := service;
    if code == DEVICE_AUTHORITY {
      var user := rules.userIn(line);
      if user.Some? {
        subject := user.value;
      }
    }
  }

  method CountNeedles(rules: Rules, service: Service, line: Line, counts: multiset<Key>)
    returns (r: multiset<Key>, recognized: bool)
    ensures r == counts + multiset(NeedleHits(rules, service, line, |rules.needles|))
    ensures recognized <==> NeedleHits(rules, service, line, |rules.needles|) != []
  {
    r, recognized := counts, false;
    for n := 0 to |rules.needles|
      invariant r == counts + multiset(NeedleHits(rules, service, line, n))
      invariant recognized <==> NeedleHits(rules, service, line, n) != []
    {
      var (needle, code) := rules.needles[n];
      NeedleStep(rules, service, line, n, counts);
      if Contains(line, needle) {
        var subject := FindSubject(rules, service, code, line);
        r := r + multiset{Key(service, code, subject)};
        recognized := true;
      }
    }
  }

  /** The counter: every key once per hit. */
  method CountHits(rules: Rules, service: Service, line: Line, counts: multiset<Key>) returns (r: multiset<Key>)
    ensures r == counts + multiset(Hits(rules, service, line))
  {
    var recognized;
    r, recognized := CountNeedles(rules, service, line, counts);
    if HasLevel(rules, line) && !recognized {
      r := r + multiset{Key(service, UNCLASSIFIED, service)};
    }
  }

  method Widen(coverage: map<Service, (int, int)>, service: Service, time: int, ghost records: seq<Record>,
               ghost line: Line)
    returns (r: map<Service, (int, int)>)
    requires IsCoverage(records, coverage)
    ensures IsCoverage(records + [Record(service, time, line)], r)
  {
    var bounds := if service in coverage then coverage[service] else (time, time);
    var lo := if time < bounds.0 then time else bounds.0;
    var hi := if time > bounds.1 then time else bounds.1;
    r := coverage[service := (lo, hi)];
    WidenedCoverage(records, Record(service, time, line), coverage, lo, hi);
  }

  lemma OtherServices(records: seq<Record>, x: Record, s: Service, lo: int, hi: int)
    requires CoversService(records, s, lo, hi) && x.service != s
    ensures CoversService(records + [x], s, lo, hi)
  {
    var all := records + [x];
    var i :| 0 <= i < |records| && records[i].service == s && records[i].time == lo;
    var j :| 0 <= j < |records| && records[j].service == s && records[j].time == hi;
    assert all[i] == records[i] && all[j] == records[j];
  }

  lemma SameService(records: seq<Record>, x: Record, lo: int, hi: int)
    requires CoversService(records, x.service, lo, hi)
    ensures CoversService(records + [x], x.service, if x.time < lo then x.time else lo,
                          if x.time > hi then x.time else hi)
  {
    var all := records + [x];
    var i :| 0 <= i < |records| && records[i].service == x.service && records[i].time == lo;
    var j :| 0 <= j < |records| && records[j].service == x.service && records[j].time == hi;
    assert all[i] == records[i] && all[j] == records[j] && all[|records|] == x;
  }

  lemma WidenedCoverage(records: seq<Record>, x: Record, coverage: map<Service, (int, int)>, lo: int, hi: int)
    requires IsCoverage(records, coverage)
    requires x.service in coverage ==>
               && lo == (if x.time < coverage[x.service].0 then x.time else coverage[x.service].0)
               && hi == (if x.time > coverage[x.service].1 then x.time else coverage[x.service].1)
    requires x.service !in coverage ==> lo == hi == x.time
    ensures IsCoverage(records + [x], coverage[x.service := (lo, hi)])
  {
    var r := coverage[x.service := (lo, hi)];
    forall s | s in r ensures CoversService(records + [x], s, r[s].0, r[s].1) {
      if s != x.service {
        OtherServices(records, x, s, r[s].0, r[s].1);
      } else if s in coverage {
        SameService(records, x, coverage[s].0, coverage[s].1);
      } else {
        assert (records + [x])[|records|] == x;
      }
    }
  }

  method LatestOf(rules: Rules, license: Option<(int, nat)>, time: int, line: Line,
                  ghost records: seq<Record>, ghost service: Service)
    returns (r: Option<(int, nat)>)
    requires IsLicense(rules, records, license)
    ensures IsLicense(rules, records + [Record(service, time, line)], r)
  {
    r := license;
    var found := rules.licenseIn(line);
    ghost var all := records + [Record(service, time, line)];
    if found.Some? && (license.None? || time >= license.value.0) {
      r := Some((time, found.value));
      assert IsLatestLicense(rules, all, |records|);
    } else if license.Some? {
      ghost var i :| IsLatestLicense(rules, records, i) && records[i].time == license.value.0
                     && rules.licenseIn(records[i].line) == Some(license.value.1);
      assert IsLatestLicense(rules, all, i);
    }
  }

  method AddRecord(rules: Rules, tally: Tally, service: Service, time: int, line: Line, ghost records: seq<Record>)
    returns (t: Tally)
    requires Reports(rules, records, tally)
    ensures Reports(rules, records + [Record(service, time, line)], t)
  {
    var coverage := Widen(tally.coverage, service, time, records, line);
    var counts := CountHits(rules, service, line, tally.counts);
    var license := LatestOf(rules, tally.license, time, line, records, service);
    t := Tally(counts, coverage, license);
    assert (records + [Record(service, time, line)])[..|records|] == records;
  }

  /** The time a line is attributed to; a stamp equal to the last one is not parsed again. */
  method AttributeTime(rules: Rules, line: Option<Line>, lastStamp: Option<Stamp>, parsedStamp: Option<int>,
                       current: Option<int>)
    returns (last: Option<Stamp>, parsed: Option<int>, time: Option<int>)
    requires lastStamp.Some? ==> parsedStamp == rules.timeOf(lastStamp.value)
    ensures last.Some? ==> parsed == rules.timeOf(last.value)
    ensures time == TimeAfter(rules, line, current)
  {
    last, parsed, time := lastStamp, parsedStamp, current;
    if line.None? {
      time := None;
      return;
    }
    var stamp := rules.stampOf(line.value);
    if stamp.Some? {
      if stamp != lastStamp {
        last := stamp;
        parsed := rules.timeOf(stamp.value);
      }
      time := parsed;
    }
  }

  method AddIfInWindow(rules: Rules, w: Window, tally: Tally, service: Service, time: Option<int>, line: Option<Line>,
                       ghost records: seq<Record>)
    returns (t: Tally)
    requires Reports(rules, records, tally)
    ensures Reports(rules, records + InWindow(w, service, time, line), t)
  {
    if line.None? || time.None? || time.value < w.start || time.value > w.end {
      assert records + [] == records;
      return tally;
    }
    t := AddRecord(rules, tally, service, time.value, line.value, records);
  }

  lemma LinesStep(stream: seq<Byte>, at: nat, lines: seq<Option<Line>>, n: nat)
    requires at < |stream| && n <= |lines| && lines[n..] == LinesFrom(stream, at)
    ensures var end := LineEnd(stream, at);
            && n < |lines| && lines[n] == (if end - at > MAX_LINE then None else Some(stream[at..end]))
            && lines[n + 1..] == LinesFrom(stream, end)
            && DroppedIn(lines, n + 1) == DroppedIn(lines, n) + if end - at > MAX_LINE then 1 else 0
  {
    assert lines[n] == lines[n..][0];
    assert lines[n + 1..] == lines[n..][1..];
  }

  lemma RecordStep(rules: Rules, w: Window, service: Service, lines: seq<Option<Line>>, n: nat, before: seq<Record>)
    requires n < |lines|
    ensures TimeAt(rules, lines, n + 1) == TimeAfter(rules, lines[n], TimeAt(rules, lines, n))
    ensures before + FileRecords(rules, w, service, lines, n + 1)
            == (before + FileRecords(rules, w, service, lines, n))
               + InWindow(w, service, TimeAt(rules, lines, n + 1), lines[n])
  {}

  /** Where the pass over one member stands after `n` lines. */
  ghost predicate Progress(rules: Rules, w: Window, service: Service, stream: seq<Byte>, lines: seq<Option<Line>>,
                           before: seq<Record>, at: nat, n: nat, current: Option<int>, records: seq<Record>,
                           oversized: nat)
    requires at <= |stream|
  {
    && n <= |lines| && lines[n..] == LinesFrom(stream, at)
    && current == TimeAt(rules, lines, n)
    && records == before + FileRecords(rules, w, service, lines, n)
    && oversized == DroppedIn(lines, n)
  }

  lemma ProgressStep(rules: Rules, w: Window, service: Service, stream: seq<Byte>, lines: seq<Option<Line>>,
                     before: seq<Record>, at: nat, n: nat, current: Option<int>, records: seq<Record>, oversized: nat,
                     line: Option<Line>, next: nat)
    requires at < |stream|
    requires Progress(rules, w, service, stream, lines, before, at, n, current, records, oversized)
    requires next == LineEnd(stream, at) && line == if next - at > MAX_LINE then None else Some(stream[at..next])
    ensures var time := TimeAfter(rules, line, current);
            Progress(rules, w, service, stream, lines, before, next, n + 1, time,
                     records + InWindow(w, service, time, line), if line.None? then oversized + 1 else oversized)
  {
    LinesStep(stream, at, lines, n);
    RecordStep(rules, w, service, lines, n, before);
  }

  /** The variables of the pass over one member. */
  datatype Pass = Pass(at: nat, tally: Tally, oversized: nat, lastStamp: Option<Stamp>, parsedStamp: Option<int>,
                       current: Option<int>)

  /** After `n` lines the pass stands where the batch description says, and remembers a stamp with its time. */
  ghost predicate Standing(rules: Rules, w: Window, service: Service, stream: seq<Byte>, before: seq<Record>,
                           p: Pass, n: nat, records: seq<Record>) {
    && p.at <= |stream|
    && Progress(rules, w, service, stream, LinesFrom(stream, 0), before, p.at, n, p.current, records, p.oversized)
    && (p.lastStamp.Some? ==> p.parsedStamp == rules.timeOf(p.lastStamp.value))
    && Reports(rules, records, p.tally)
  }

  /** One turn of the loop: the next line and what it does to the pass. */
  method TakeLine(rules: Rules, w: Window, service: Service, stream: seq<Byte>, p: Pass, late: nat -> bool, looks: nat,
                  ghost before: seq<Record>, ghost n: nat, ghost records: seq<Record>)
    returns (q: Pass, expired: bool, looked: nat, ghost longer: seq<Record>)
    requires p.at < |stream| && Standing(rules, w, service, stream, before, p, n, records)
    ensures looks <= looked && if expired then Expired(late, looks, looked) else OnTime(late, looks, looked)
    ensures !expired ==> q.at > p.at && Standing(rules, w, service, stream, before, q, n + 1, longer)
  {
    q, longer := p, records;
    var line, next;
    line, next, expired, looked := NextLine(stream, p.at, late, looks);
    if expired {
      return;
    }
    ProgressStep(rules, w, service, stream, LinesFrom(stream, 0), before, p.at, n, p.current, records, p.oversized,
                 line, next);
    var last, parsed, time := AttributeTime(rules, line, p.lastStamp, p.parsedStamp, p.current);
    var t := AddIfInWindow(rules, w, p.tally, service, time, line, records);
    longer := records + InWindow(w, service, time, line);
    q := Pass(next, t, if line.None? then p.oversized + 1 else p.oversized, last, parsed, time);
  }

  lemma PassStarts(rules: Rules, w: Window, service: Service, stream: seq<Byte>, before: seq<Record>, tally: Tally)
    requires Reports(rules, before, tally)
    ensures Standing(rules, w, service, stream, before, Pass(0, tally, 0, None, None, None), 0, before)
  {
    assert before + [] == before;
  }

  lemma PassEnds(rules: Rules, w: Window, service: Service, stream: seq<Byte>, before: seq<Record>,
                 p: Pass, n: nat, records: seq<Record>)
    requires Standing(rules, w, service, stream, before, p, n, records) && p.at == |stream|
    ensures var lines := LinesFrom(stream, 0);
            && n == |lines| && p.oversized == DroppedIn(lines, |lines|)
            && Reports(rules, before + FileRecords(rules, w, service, lines, |lines|), p.tally)
  {
    var lines := LinesFrom(stream, 0);
    assert lines[n..] == [] && n == |lines|;
  }

  /** The loop over the lines of one member. Before each line, and once more at the end, it looks at the clock. */
  method RunPass(rules: Rules, w: Window, service: Service, stream: seq<Byte>, start: Pass, late: nat -> bool,
                 looks: nat, ghost before: seq<Record>)
    returns (pass: Pass, expired: bool, looked: nat, ghost n: nat, ghost records: seq<Record>)
    requires Standing(rules, w, service, stream, before, start, 0, before)
    ensures looks <= looked && if expired then Expired(late, looks, looked) else OnTime(late, looks, looked)
    ensures !expired ==> looked >= looks + n + 1
    ensures !expired ==> pass.at == |stream| && Standing(rules, w, service, stream, before, pass, n, records)
  {
    pass, n, records := start, 0, before;
    expired, looked := Look(late, looks, looks);
    if expired {
      return;
    }
    while pass.at < |stream|
      invariant pass.at <= |stream| && Standing(rules, w, service, stream, before, pass, n, records)
      invariant looks + n + 1 <= looked && OnTime(late, looks, looked)
    {
      ghost var since := looked;
      pass, expired, looked, records := TakeLine(rules, w, service, stream, pass, late, looked, before, n, records);
      LooksJoin(late, looks, since, looked);
      if expired {
        return;
      }
      n := n + 1;
      expired, looked := Look(late, looks, looked);
      if expired {
        return;
      }
    }
  }

  /** One member, line by line, with the last stamp's time kept instead of parsed again. */
  method AnalyzeMember(rules: Rules, w: Window, service: Service, stream: seq<Byte>, tally: Tally,
                       ghost before: seq<Record>, late: nat -> bool, looks: nat)
    returns (t: Tally, oversized: nat, expired: bool, looked: nat)
    requires Reports(rules, before, tally)
    ensures looks <= looked && if expired then Expired(late, looks, looked) else OnTime(late, looks, looked)
    ensures !expired ==> looked >= looks + |LinesFrom(stream, 0)| + 1
    ensures var lines := LinesFrom(stream, 0);
            !expired ==> Reports(rules, before + FileRecords(rules, w, service, lines, |lines|), t)
                         && oversized == DroppedIn(lines, |lines|)
  {
    PassStarts(rules, w, service, stream, before, tally);
    var pass;
    ghost var n, records;
    pass, expired, looked, n, records :=
      RunPass(rules, w, service, stream, Pass(0, tally, 0, None, None, None), late, looks, before);
    t, oversized := pass.tally, pass.oversized;
    if !expired {
      PassEnds(rules, w, service, stream, before, pass, n, records);
    }
  }

  datatype AnalysisError = BadWindow | TooLarge | DeadlineExceeded

  function ExpandedSize(members: seq<Member>): nat {
    if members == [] then 0 else ExpandedSize(members[..|members| - 1]) + members[|members| - 1].size
  }

  function ServiceLogs(members: seq<Member>): nat {
    if members == [] then 0
    else ServiceLogs(members[..|members| - 1]) + if members[|members| - 1].service.Some? then 1 else 0
  }

  /** The lines of the service logs, and one more for the end of each. */
  function LinesRead(members: seq<Member>): nat {
    if members == [] then 0
    else
      var m := members[|members| - 1];
      LinesRead(members[..|members| - 1]) + if m.service.Some? then |LinesFrom(m.stream, 0)| + 1 else 0
  }

  method SumSizes(members: seq<Member>) returns (size: nat)
    ensures size == ExpandedSize(members)
  {
    size := 0;
    for i := 0 to |members|
      invariant size == ExpandedSize(members[..i])
    {
      assert members[..i + 1][..i] == members[..i];
      size := size + members[i].size;
    }
    assert members[..|members|] == members;
  }

  lemma MemberStep(rules: Rules, w: Window, members: seq<Member>, i: nat)
    requires i < |members|
    ensures var m, before := members[i], members[..i];
            var lines := LinesFrom(m.stream, 0);
            && Records(rules, w, members[..i + 1])
               == Records(rules, w, before)
                  + (if m.service.None? then [] else FileRecords(rules, w, m.service.value, lines, |lines|))
            && (m.service.None? ==> Records(rules, w, members[..i + 1]) == Records(rules, w, before))
            && DroppedOf(members[..i + 1])
               == DroppedOf(before) + (if m.service.None? then 0 else DroppedIn(lines, |lines|))
            && ServiceLogs(members[..i + 1]) == ServiceLogs(before) + (if m.service.Some? then 1 else 0)
            && LinesRead(members[..i + 1]) == LinesRead(before) + (if m.service.Some? then |lines| + 1 else 0)
  {
    assert members[..i + 1][..i] == members[..i];
  }

  predicate Acceptable(w: Window, members: seq<Member>) {
    w.start <= w.end && |members| <= MAX_MEMBERS && ExpandedSize(members) <= MAX_EXPANDED
  }

  /** Main result on the log analysis: unless a look at the clock finds the deadline passed, of which there is at
      least one a line, the streaming pass reports exactly what the batch description says. */
  method AnalyzeArchive(rules: Rules, w: Window, members: seq<Member>, late: nat -> bool)
    returns (r: Result<Report, AnalysisError>, looked: nat)
    ensures r == Err(BadWindow) <==> w.end < w.start
    ensures r == Err(TooLarge) <==>
              w.start <= w.end && (|members| > MAX_MEMBERS || ExpandedSize(members) > MAX_EXPANDED)
    ensures r == Err(DeadlineExceeded) <==> Acceptable(w, members) && Expired(late, 0, looked)
    ensures r.Ok? ==> OnTime(late, 0, looked) && looked >= LinesRead(members)
    ensures r.Ok? ==> Reports(rules, Records(rules, w, members), r.value.tally)
    ensures r.Ok? ==> r.value.oversized == DroppedOf(members) && r.value.files == ServiceLogs(members)
  {
    looked := 0;
    if w.end < w.start {
      return Err(BadWindow), looked;
    }
    var size := SumSizes(members);
    if |members| > MAX_MEMBERS || size > MAX_EXPANDED {
      return Err(TooLarge), looked;
    }
    var tally := Tally(multiset{}, map[], None);
    var oversized, files := 0, 0;
    ghost var records: seq<Record> := [];
    for i := 0 to |members|
      invariant records == Records(rules, w, members[..i]) && Reports(rules, records, tally)
      invariant oversized == DroppedOf(members[..i]) && files == ServiceLogs(members[..i])
      invariant OnTime(late, 0, looked) && looked >= LinesRead(members[..i])
    {
      MemberStep(rules, w, members, i);
      var m := members[i];
      if m.service.Some? {
        var dropped, expired;
        ghost var since := looked;
        tally, dropped, expired, looked :=
          AnalyzeMember(rules, w, m.service.value, m.stream, tally, records, late, looked);
        LooksJoin(late, 0, since, looked);
        if expired {
          return Err(DeadlineExceeded), looked;
        }
        oversized, files := oversized + dropped, files + 1;
      }
      records := Records(rules, w, members[..i + 1]);
    }
    assert members[..|members|] == members;
    r := Ok(Report(tally, oversized, files));
  }
}
