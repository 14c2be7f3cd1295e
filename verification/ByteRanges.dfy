/** Byte-range differences of two exports, and the merging of ranges that lie close together. */
module ByteRanges {
  import opened Outcomes

  type Byte = bv8

  datatype ByteRange = ByteRange(start: int, end: int)

  ghost predicate Covers(ranges: seq<ByteRange>, o: int) {
    exists i | 0 <= i < |ranges| :: ranges[i].start <= o < ranges[i].end
  }

  ghost predicate SortedDisjoint(ranges: seq<ByteRange>) {
    && (forall i | 0 <= i < |ranges| :: ranges[i].start < ranges[i].end)
    && forall i, j | 0 <= i < j < |ranges| :: ranges[i].end <= ranges[j].start
  }

  function TotalLength(ranges: seq<ByteRange>): int {
    if ranges == [] then 0
    else TotalLength(ranges[..|ranges| - 1]) + ranges[|ranges| - 1].end - ranges[|ranges| - 1].start
  }

  // ---- differences

  function Min(a: int, b: int): int { if a < b then a else b }

  function Max(a: int, b: int): int { if a < b then b else a }

  /** The two files disagree at this offset, or only one of them reaches it. */
  predicate Differs(left: seq<Byte>, right: seq<Byte>, o: int) {
    0 <= o < Max(|left|, |right|) && (o < Min(|left|, |right|) ==> left[o] != right[o])
  }

  /** How many of the first `n` common bytes differ. */
  function DifferentBefore(left: seq<Byte>, right: seq<Byte>, n: nat): nat
    requires n <= Min(|left|, |right|)
  {
    if n == 0 then 0
    else DifferentBefore(left, right, n - 1) + if left[n - 1] != right[n - 1] then 1 else 0
  }

  /** The `different_byte_count` of the report. */
  function DifferentByteCount(left: seq<Byte>, right: seq<Byte>): nat {
    DifferentBefore(left, right, Min(|left|, |right|)) + (Max(|left|, |right|) - Min(|left|, |right|))
  }

  /** Ranges that never touch and end before `bound`. */
  ghost predicate ApartBefore(ranges: seq<ByteRange>, bound: int) {
    && SortedDisjoint(ranges)
    && (forall i, j | 0 <= i < j < |ranges| :: ranges[i].end < ranges[j].start)
    && (forall i | 0 <= i < |ranges| :: 0 <= ranges[i].start && ranges[i].end < bound)
  }

  lemma CoversAppend(ranges: seq<ByteRange>, r: ByteRange)
    ensures forall o :: Covers(ranges + [r], o) <==> Covers(ranges, o) || r.start <= o < r.end
    ensures TotalLength(ranges + [r]) == TotalLength(ranges) + r.end - r.start
  {
    TotalWithTail(ranges, r);
    forall o ensures Covers(ranges + [r], o) <==> Covers(ranges, o) || r.start <= o < r.end {
      if Covers(ranges, o) {
        var i :| 0 <= i < |ranges| && ranges[i].start <= o < ranges[i].end;
        assert (ranges + [r])[i].start <= o;
      }
      if r.start <= o < r.end {
        assert (ranges + [r])[|ranges|].start <= o;
      }
    }
  }

  lemma ApartAppend(ranges: seq<ByteRange>, r: ByteRange, bound: int)
    requires 0 <= r.start < r.end < bound && ApartBefore(ranges, r.start)
    ensures ApartBefore(ranges + [r], bound)
  {}

  /** What one pass up to `offset` knows: the closed ranges and the open one cover exactly the differing offsets. */
  ghost predicate Scanned(left: seq<Byte>, right: seq<Byte>, ranges: seq<ByteRange>, start: Option<int>, offset: nat) {
    && offset <= Min(|left|, |right|)
    && (start.Some? ==> 0 <= start.value < offset)
    && ApartBefore(ranges, if start.Some? then start.value else offset)
    && (forall o :: Covers(ranges, o) || (start.Some? && start.value <= o < offset)
                    <==> 0 <= o < offset && left[o] != right[o])
    && DifferentBefore(left, right, offset)
       == TotalLength(ranges) + if start.Some? then offset - start.value else 0
  }

  lemma ScanOpens(left: seq<Byte>, right: seq<Byte>, ranges: seq<ByteRange>, offset: nat)
    requires Scanned(left, right, ranges, None, offset)
    requires offset < Min(|left|, |right|) && left[offset] != right[offset]
    ensures Scanned(left, right, ranges, Some(offset), offset + 1)
  {}

  lemma ScanContinues(left: seq<Byte>, right: seq<Byte>, ranges: seq<ByteRange>, start: Option<int>, offset: nat)
    requires Scanned(left, right, ranges, start, offset) && offset < Min(|left|, |right|)
    requires start.Some? <==> left[offset] != right[offset]
    ensures Scanned(left, right, ranges, start, offset + 1)
  {}

  lemma ScanResumes(left: seq<Byte>, right: seq<Byte>, ranges: seq<ByteRange>, start: int, offset: nat)
    requires Scanned(left, right, ranges, Some(start), offset) && offset < Min(|left|, |right|)
    requires left[offset] == right[offset]
    ensures Scanned(left, right, ranges + [ByteRange(start, offset)], None, offset + 1)
  {
    ScanCloses(left, right, ranges, start, offset);
  }

  lemma ScanCloses(left: seq<Byte>, right: seq<Byte>, ranges: seq<ByteRange>, start: int, offset: nat)
    requires Scanned(left, right, ranges, Some(start), offset)
    ensures SortedDisjoint(ranges + [ByteRange(start, offset)])
    ensures ApartBefore(ranges + [ByteRange(start, offset)], offset + 1)
    ensures forall o :: Covers(ranges + [ByteRange(start, offset)], o) <==> 0 <= o < offset && left[o] != right[o]
    ensures TotalLength(ranges + [ByteRange(start, offset)]) == DifferentBefore(left, right, offset)
  {
    CoversAppend(ranges, ByteRange(start, offset));
    ApartAppend(ranges, ByteRange(start, offset), offset + 1);
  }

  /** The closed ranges and, past the shorter file, the rest of the longer one. */
  lemma TailFollows(ranges: seq<ByteRange>, limit: int, end: int)
    requires 0 <= limit < end && ApartBefore(ranges, limit + 1)
    ensures SortedDisjoint(ranges + [ByteRange(limit, end)])
    ensures OnlyTouchAt(ranges + [ByteRange(limit, end)], limit)
  {}

  ghost predicate OnlyTouchAt(ranges: seq<ByteRange>, o: int) {
    forall i, j | 0 <= i < j < |ranges| && ranges[i].end == ranges[j].start :: ranges[i].end == o
  }

  /** The ranges are the differences of the two files: sorted, disjoint and non-empty, covering exactly the offsets
      that differ, as long as possible except for a cut at the end of the shorter file, and of as many bytes as
      reported. */
  ghost predicate IsDifference(left: seq<Byte>, right: seq<Byte>, ranges: seq<ByteRange>) {
    && SortedDisjoint(ranges)
    && (forall o :: Covers(ranges, o) <==> Differs(left, right, o))
    && OnlyTouchAt(ranges, Min(|left|, |right|))
    && TotalLength(ranges) == DifferentByteCount(left, right)
  }

  function Closed(ranges: seq<ByteRange>, start: Option<int>, limit: int): seq<ByteRange> {
    if start.Some? then ranges + [ByteRange(start.value, limit)] else ranges
  }

  lemma DifferencesWithTail(left: seq<Byte>, right: seq<Byte>, closed: seq<ByteRange>, tail: ByteRange, o: int)
    requires |left| != |right| && tail == ByteRange(Min(|left|, |right|), Max(|left|, |right|))
    requires Covers(closed, o) <==> 0 <= o < tail.start && left[o] != right[o]
    ensures Covers(closed + [tail], o) <==> Differs(left, right, o)
  {
    CoversAppend(closed, tail);
  }

  lemma WithTail(left: seq<Byte>, right: seq<Byte>, closed: seq<ByteRange>, tail: ByteRange)
    requires |left| != |right| && tail == ByteRange(Min(|left|, |right|), Max(|left|, |right|))
    requires ApartBefore(closed, tail.start + 1)
    requires forall o :: Covers(closed, o) <==> 0 <= o < tail.start && left[o] != right[o]
    requires TotalLength(closed) == DifferentBefore(left, right, tail.start)
    ensures IsDifference(left, right, closed + [tail])
  {
    CoveredWithTail(left, right, closed, tail);
    CountedWithTail(left, right, closed, tail);
    TailFollows(closed, tail.start, tail.end);
  }

  lemma CoveredWithTail(left: seq<Byte>, right: seq<Byte>, closed: seq<ByteRange>, tail: ByteRange)
    requires |left| != |right| && tail == ByteRange(Min(|left|, |right|), Max(|left|, |right|))
    requires forall o :: Covers(closed, o) <==> 0 <= o < tail.start && left[o] != right[o]
    ensures forall o :: Covers(closed + [tail], o) <==> Differs(left, right, o)
  {
    forall o ensures Covers(closed + [tail], o) <==> Differs(left, right, o) {
      DifferencesWithTail(left, right, closed, tail, o);
    }
  }

  lemma CountedWithTail(left: seq<Byte>, right: seq<Byte>, closed: seq<ByteRange>, tail: ByteRange)
    requires |left| != |right| && tail == ByteRange(Min(|left|, |right|), Max(|left|, |right|))
    requires TotalLength(closed) == DifferentBefore(left, right, tail.start)
    ensures TotalLength(closed + [tail]) == DifferentByteCount(left, right)
  {
    TotalWithTail(closed, tail);
  }

  lemma TotalWithTail(ranges: seq<ByteRange>, r: ByteRange)
    ensures TotalLength(ranges + [r]) == TotalLength(ranges) + r.end - r.start
  {
    assert (ranges + [r])[..|ranges|] == ranges;
  }

  lemma WithoutTail(left: seq<Byte>, right: seq<Byte>, closed: seq<ByteRange>)
    requires |left| == |right| && ApartBefore(closed, |left| + 1)
    requires forall o :: Covers(closed, o) <==> 0 <= o < |left| && left[o] != right[o]
    requires TotalLength(closed) == DifferentBefore(left, right, |left|)
    ensures IsDifference(left, right, closed)
  {
    forall o ensures Covers(closed, o) <==> Differs(left, right, o) {}
  }

  lemma ClosedIsExact(left: seq<Byte>, right: seq<Byte>, ranges: seq<ByteRange>, start: Option<int>, limit: nat)
    requires Scanned(left, right, ranges, start, limit)
    ensures ApartBefore(Closed(ranges, start, limit), limit + 1)
    ensures forall o :: Covers(Closed(ranges, start, limit), o) <==> 0 <= o < limit && left[o] != right[o]
    ensures TotalLength(Closed(ranges, start, limit)) == DifferentBefore(left, right, limit)
  {
    if start.Some? {
      ScanCloses(left, right, ranges, start.value, limit);
    }
  }

  lemma ScanEnds(left: seq<Byte>, right: seq<Byte>, ranges: seq<ByteRange>, start: Option<int>)
    requires Scanned(left, right, ranges, start, Min(|left|, |right|))
    ensures IsDifference(left, right, WithRest(Closed(ranges, start, Min(|left|, |right|)), left, right))
  {
    var limit := Min(|left|, |right|);
    var closed := Closed(ranges, start, limit);
    ClosedIsExact(left, right, ranges, start, limit);
    if |left| == |right| {
      WithoutTail(left, right, closed);
    } else {
      WithTail(left, right, closed, ByteRange(limit, Max(|left|, |right|)));
    }
  }

  function WithRest(closed: seq<ByteRange>, left: seq<Byte>, right: seq<Byte>): seq<ByteRange> {
    if |left| == |right| then closed else closed + [ByteRange(Min(|left|, |right|), Max(|left|, |right|))]
  }

  /** The pass over the common bytes. */
  method ScanCommon(left: seq<Byte>, right: seq<Byte>) returns (ranges: seq<ByteRange>, start: Option<int>)
    ensures Scanned(left, right, ranges, start, Min(|left|, |right|))
  {
    ranges, start := [], None;
    for offset := 0 to Min(|left|, |right|)
      invariant Scanned(left, right, ranges, start, offset)
    {
      var different := left[offset] != right[offset];
      if different && start.None? {
        ScanOpens(left, right, ranges, offset);
        start := Some(offset);
      } else if !different && start.Some? {
        ScanResumes(left, right, ranges, start.value, offset);
        ranges := ranges + [ByteRange(start.value, offset)];
        start := None;
      } else {
        ScanContinues(left, right, ranges, start, offset);
      }
    }
  }

  method DifferingRanges(left: seq<Byte>, right: seq<Byte>) returns (ranges: seq<ByteRange>)
    ensures IsDifference(left, right, ranges)
  {
    var start;
    ranges, start := ScanCommon(left, right);
    ScanEnds(left, right, ranges, start);
    ghost var result := WithRest(Closed(ranges, start, Min(|left|, |right|)), left, right);
    if start.Some? {
      ranges := ranges + [ByteRange(start.value, Min(|left|, |right|))];
    }
    if |left| != |right| {
      ranges := ranges + [ByteRange(Min(|left|, |right|), Max(|left|, |right|))];
    }
    assert ranges == result;
  }

  // ---- merging

  /** The merge from a range under construction on: it absorbs what is near. */
  function MergeFrom(current: ByteRange, rest: seq<ByteRange>, gap: int): (r: seq<ByteRange>)
    ensures r != [] && r[0].start == current.start
    decreases |rest|
  {
    if rest == [] then [current]
    else if rest[0].start - current.end <= gap then MergeFrom(ByteRange(current.start, rest[0].end), rest[1..], gap)
    else [current] + MergeFrom(rest[0], rest[1..], gap)
  }

  function Merged(ranges: seq<ByteRange>, gap: int): seq<ByteRange> {
    if ranges == [] then [] else MergeFrom(ranges[0], ranges[1..], gap)
  }

  /** The merge once `merged` was made of what came before: its last range is still under construction. */
  function MergeOn(merged: seq<ByteRange>, rest: seq<ByteRange>, gap: int): seq<ByteRange> {
    if merged == [] then Merged(rest, gap)
    else merged[..|merged| - 1] + MergeFrom(merged[|merged| - 1], rest, gap)
  }

  lemma Absorbs(merged: seq<ByteRange>, item: ByteRange, rest: seq<ByteRange>, gap: int)
    requires merged != [] && item.start - merged[|merged| - 1].end <= gap
    ensures var last := merged[|merged| - 1];
            MergeOn(merged[..|merged| - 1] + [ByteRange(last.start, item.end)], rest, gap)
            == MergeOn(merged, [item] + rest, gap)
  {
    var front, wide := merged[..|merged| - 1], ByteRange(merged[|merged| - 1].start, item.end);
    assert (front + [wide])[..|front|] == front;
    assert ([item] + rest)[1..] == rest;
  }

  lemma Appends(merged: seq<ByteRange>, item: ByteRange, rest: seq<ByteRange>, gap: int)
    requires merged != [] ==> item.start - merged[|merged| - 1].end > gap
    ensures MergeOn(merged + [item], rest, gap) == MergeOn(merged, [item] + rest, gap)
  {
    assert (merged + [item])[..|merged|] == merged;
    assert ([item] + rest)[1..] == rest;
    if merged != [] {
      var n := |merged| - 1;
      assert merged[..n] + ([merged[n]] + MergeFrom(item, rest, gap)) == merged + MergeFrom(item, rest, gap);
    }
  }

  method MergeRanges(ranges: seq<ByteRange>, maximumGap: int) returns (merged: seq<ByteRange>)
    ensures merged == Merged(ranges, maximumGap)
  {
    merged := [];
    assert ranges[0..] == ranges;
    for i := 0 to |ranges|
      invariant MergeOn(merged, ranges[i..], maximumGap) == Merged(ranges, maximumGap)
    {
      var item := ranges[i];
      var n := |merged|;
      assert ranges[i..] == [item] + ranges[i + 1..];
      if n > 0 && item.start - merged[n - 1].end <= maximumGap {
        Absorbs(merged, item, ranges[i + 1..], maximumGap);
        merged := merged[..n - 1] + [ByteRange(merged[n - 1].start, item.end)];
      } else {
        Appends(merged, item, ranges[i + 1..], maximumGap);
        merged := merged + [item];
      }
    }
    assert ranges[|ranges|..] == [];
  }

  ghost predicate GapsOver(ranges: seq<ByteRange>, gap: int) {
    forall i | 0 < i < |ranges| :: ranges[i].start - ranges[i - 1].end > gap
  }

  /** Between two neighbours of the result there is always more than the gap. */
  lemma {:induction false} MergedGaps(current: ByteRange, rest: seq<ByteRange>, gap: int)
    ensures GapsOver(MergeFrom(current, rest, gap), gap)
    decreases |rest|
  {
    if rest != [] {
      if rest[0].start - current.end <= gap {
        MergedGaps(ByteRange(current.start, rest[0].end), rest[1..], gap);
      } else {
        MergedGaps(rest[0], rest[1..], gap);
        var tail := MergeFrom(rest[0], rest[1..], gap);
        forall i | 0 < i < |tail| + 1 ensures ([current] + tail)[i].start - ([current] + tail)[i - 1].end > gap {
          assert i > 1 ==> tail[i - 1].start - tail[i - 2].end > gap;
        }
      }
    }
  }

  /** Offset `o` lies in a hole of at most `gap` bytes between two neighbours. */
  ghost predicate InSmallHole(ranges: seq<ByteRange>, gap: int, o: int) {
    exists i | 0 < i < |ranges| ::
      ranges[i - 1].end <= o < ranges[i].start && ranges[i].start - ranges[i - 1].end <= gap
  }

  lemma CoversCons(x: ByteRange, ys: seq<ByteRange>, o: int)
    ensures Covers([x] + ys, o) <==> x.start <= o < x.end || Covers(ys, o)
  {
    if Covers(ys, o) {
      var i :| 0 <= i < |ys| && ys[i].start <= o < ys[i].end;
      assert ([x] + ys)[i + 1].start <= o;
    }
    if x.start <= o < x.end {
      assert ([x] + ys)[0].start <= o;
    }
  }

  lemma HoleCons(x: ByteRange, ys: seq<ByteRange>, gap: int, o: int)
    ensures InSmallHole([x] + ys, gap, o) <==>
              (ys != [] && x.end <= o < ys[0].start && ys[0].start - x.end <= gap) || InSmallHole(ys, gap, o)
  {
    var all := [x] + ys;
    if InSmallHole(all, gap, o) {
      var i :| 0 < i < |all| && all[i - 1].end <= o < all[i].start && all[i].start - all[i - 1].end <= gap;
      assert i > 1 ==> ys[i - 2] == all[i - 1] && ys[i - 1] == all[i];
    }
    if InSmallHole(ys, gap, o) {
      var i :| 0 < i < |ys| && ys[i - 1].end <= o < ys[i].start && ys[i].start - ys[i - 1].end <= gap;
      assert all[i + 1] == ys[i] && all[i] == ys[i - 1];
    }
    if ys != [] && x.end <= o < ys[0].start && ys[0].start - x.end <= gap {
      assert all[1] == ys[0] && all[0] == x;
    }
  }

  /** On sorted disjoint ranges, merging adds exactly the holes of at most `gap` bytes. */
  lemma {:induction false} MergedCoverage(current: ByteRange, rest: seq<ByteRange>, gap: int, o: int)
    requires SortedDisjoint([current] + rest)
    ensures Covers(MergeFrom(current, rest, gap), o) <==>
              Covers([current] + rest, o) || InSmallHole([current] + rest, gap, o)
    decreases |rest|
  {
    CoversCons(current, rest, o);
    HoleCons(current, rest, gap, o);
    if rest != [] {
      var head, tail := rest[0], rest[1..];
      assert rest == [head] + tail;
      SortedTail(current, head, tail);
      CoversCons(head, tail, o);
      HoleCons(head, tail, gap, o);
      if head.start - current.end <= gap {
        var wide := ByteRange(current.start, head.end);
        MergedCoverage(wide, tail, gap, o);
        CoversCons(wide, tail, o);
        HoleCons(wide, tail, gap, o);
      } else {
        MergedCoverage(head, tail, gap, o);
        CoversCons(current, MergeFrom(head, tail, gap), o);
      }
    }
  }

  lemma SortedTail(x: ByteRange, y: ByteRange, tail: seq<ByteRange>)
    requires SortedDisjoint([x] + ([y] + tail))
    ensures SortedDisjoint([y] + tail) && SortedDisjoint([ByteRange(x.start, y.end)] + tail)
    ensures x.start < x.end <= y.start < y.end
  {
    var all, rest, wide := [x] + ([y] + tail), [y] + tail, [ByteRange(x.start, y.end)] + tail;
    assert all[0] == x && all[1] == y;
    assert x.start < x.end <= y.start < y.end;
    assert rest == all[1..];
    forall i | 0 <= i < |wide| ensures wide[i].end == all[i + 1].end && wide[i].start < wide[i].end {
      assert i > 0 ==> wide[i] == all[i + 1];
    }
    forall i, j | 0 <= i < j < |wide| ensures wide[i].end <= wide[j].start {
      assert wide[j] == all[j + 1];
    }
  }

  lemma MergedKeepsCoverage(ranges: seq<ByteRange>, gap: int)
    requires SortedDisjoint(ranges)
    ensures forall o :: Covers(Merged(ranges, gap), o) <==> Covers(ranges, o) || InSmallHole(ranges, gap, o)
    ensures GapsOver(Merged(ranges, gap), gap)
  {
    if ranges != [] {
      assert ranges == [ranges[0]] + ranges[1..];
      MergedGaps(ranges[0], ranges[1..], gap);
      forall o ensures Covers(Merged(ranges, gap), o) <==> Covers(ranges, o) || InSmallHole(ranges, gap, o) {
        MergedCoverage(ranges[0], ranges[1..], gap, o);
      }
    }
  }

  /** Moving the start of the first range back changes the result only there. */
  lemma {:induction false} MergeFromEarlier(start: int, current: ByteRange, rest: seq<ByteRange>, gap: int)
    ensures MergeFrom(ByteRange(start, current.end), rest, gap)
            == [ByteRange(start, MergeFrom(current, rest, gap)[0].end)] + MergeFrom(current, rest, gap)[1..]
    decreases |rest|
  {
    if rest != [] && rest[0].start - current.end <= gap {
      MergeFromEarlier(start, ByteRange(current.start, rest[0].end), rest[1..], gap);
    }
  }

  /** Merging twice is merging once by the larger gap. */
  lemma {:induction false} MergeTwice(current: ByteRange, rest: seq<ByteRange>, g1: int, g2: int)
    ensures Merged(MergeFrom(current, rest, g1), g2) == MergeFrom(current, rest, Max(g1, g2))
    decreases |rest|
  {
    if rest == [] {
    } else if rest[0].start - current.end <= g1 {
      MergeTwice(ByteRange(current.start, rest[0].end), rest[1..], g1, g2);
    } else {
      var tail := MergeFrom(rest[0], rest[1..], g1);
      MergeTwice(rest[0], rest[1..], g1, g2);
      assert ([current] + tail)[1..] == tail;
      if rest[0].start - current.end <= g2 {
        MergeFromEarlier(current.start, tail[0], tail[1..], g2);
        MergeFromEarlier(current.start, rest[0], rest[1..], Max(g1, g2));
      }
    }
  }

  /** Main result on merging: the gaps compose, for every list of ranges; so merging again changes nothing. */
  lemma MergesCompose(ranges: seq<ByteRange>, g1: int, g2: int)
    ensures Merged(Merged(ranges, g1), g2) == Merged(ranges, Max(g1, g2))
    ensures Merged(Merged(ranges, g1), g1) == Merged(ranges, g1)
  {
    if ranges != [] {
      MergeTwice(ranges[0], ranges[1..], g1, g2);
      MergeTwice(ranges[0], ranges[1..], g1, g1);
    }
  }
}
