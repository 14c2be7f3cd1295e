/** What the scan report means for concrete values: which texts, numbers and truth values agree, which changes a report
    must list, what counts as an address, and how texts are ordered. */
module ScanMeaning {
  import opened Counting
  import opened SortKeys
  import opened ScanDiff
  import XmlAttributes

  // ---- which values agree

  lemma IntTextIsInjective(m: int, n: int)
    ensures XmlAttributes.IntText(m) == XmlAttributes.IntText(n) <==> m == n
  {
    XmlAttributes.IntRoundTrip(m);
    XmlAttributes.IntRoundTrip(n);
  }

  /** Values of one kind agree in both modes exactly when they are equal. */
  lemma LikeValuesAgreeIffEqual(a: string, b: string, m: int, n: int, p: bool, q: bool, printed: bool)
    ensures Same(Text(a), Text(b), printed) <==> a == b
    ensures Same(Number(m), Number(n), printed) <==> m == n
    ensures Same(Flag(p), Flag(q), printed) <==> p == q
    ensures Same(Nothing, Nothing, printed)
  {
    IntTextIsInjective(m, n);
    assert "True" != "False" by {
      assert |"True"| != |"False"|;
    }
  }

  /** Values of different kinds: as printed, anything agrees with the text it prints as; unprinted, only a truth value
      agrees with anything else, namely with the number one or zero. */
  lemma ModesDiffer(a: string, n: int, b: bool)
    ensures Same(Number(n), Text(a), true) <==> a == XmlAttributes.IntText(n)
    ensures Same(Flag(b), Text(a), true) <==> a == if b then "True" else "False"
    ensures Same(Nothing, Text(a), true) <==> a == "None"
    ensures !Same(Number(n), Text(a), false) && !Same(Flag(b), Text(a), false) && !Same(Nothing, Text(a), false)
    ensures Same(Flag(b), Number(n), false) <==> n == if b then 1 else 0
    ensures !Same(Nothing, Number(n), false) && !Same(Nothing, Flag(b), false)
  {}

  lemma Eighty()
    ensures Same(Number(80), Text("80"), true) && !Same(Number(80), Text("80"), false)
    ensures Same(Flag(true), Number(1), false) && !Same(Flag(true), Number(1), true)
  {
    assert XmlAttributes.IntText(80) == "80" by {
      assert XmlAttributes.NatText(80) == "80";
    }
    assert XmlAttributes.IntText(1) == "1";
    assert |"True"| != |"1"|;
  }

  // ---- what a report must list

  /** A change of field `j` is listed, with both values, exactly when they do not agree. */
  lemma {:induction false} FieldListedIff(was: seq<Value>, now: seq<Value>, n: nat, printed: bool, c: FieldChange)
    requires n <= |was| == |now|
    ensures c in Changes(was, now, n, printed) <==>
              c.index < n && c.was == was[c.index] && c.now == now[c.index] && !Same(c.was, c.now, printed)
    decreases n
  {
    if n > 0 {
      FieldListedIff(was, now, n - 1, printed, c);
    }
  }

  /** The report says that field `j` of the camera on channel `k` of the device at `ip` went from `x` to `y`. */
  ghost predicate SaysOfCamera(d: Diff, ip: string, k: Channel, j: nat, x: Value, y: Value) {
    exists i, m | 0 <= i < |d.changed| && 0 <= m < |d.changed[i].camerasChanged| ::
      && d.changed[i].ip == ip && d.changed[i].camerasChanged[m].0 == k
      && FieldChange(j, x, y) in d.changed[i].camerasChanged[m].1
  }

  ghost predicate SaysOfDevice(d: Diff, ip: string, j: nat, x: Value, y: Value) {
    exists i | 0 <= i < |d.changed| :: d.changed[i].ip == ip && FieldChange(j, x, y) in d.changed[i].fieldChanges
  }

  lemma ReportedDevice(was: map<string, Device>, now: map<string, Device>, d: Diff, ip: string) returns (i: nat)
    requires AllWellFormed(was) && AllWellFormed(now) && IsScanDiff(was, now, d)
    requires ip in was && ip in now && !Agree(was[ip], now[ip])
    ensures i < |d.changed| && d.changed[i].ip == ip && IsDeviceDiff(was[ip], now[ip], d.changed[i])
  {
    assert ip in ChangedAddresses(was, now);
    assert ip in Addresses(d.changed);
    i :| 0 <= i < |d.changed| && Addresses(d.changed)[i] == ip;
  }

  /** A camera field whose text changed is always reported, with both texts. */
  lemma CameraTextIsReported(was: map<string, Device>, now: map<string, Device>, d: Diff, ip: string, k: Channel,
                             j: nat, a: string, b: string)
    requires AllWellFormed(was) && AllWellFormed(now) && IsScanDiff(was, now, d) && ip in was && ip in now
    requires k in ByChannel(was[ip].cameras) && k in ByChannel(now[ip].cameras) && j < CAMERA_FIELDS
    requires ByChannel(was[ip].cameras)[k].fields[j] == Text(a) && ByChannel(now[ip].cameras)[k].fields[j] == Text(b)
    requires a != b
    ensures SaysOfCamera(d, ip, k, j, Text(a), Text(b))
  {
    var cams, later := ByChannel(was[ip].cameras), ByChannel(now[ip].cameras);
    assert !Same(cams[k].fields[j], later[k].fields[j], true);
    var i := ReportedDevice(was, now, d, ip);
    FieldListedIff(cams[k].fields, later[k].fields, CAMERA_FIELDS, true, FieldChange(j, Text(a), Text(b)));
    assert k in ChangedKeys(cams, later);
    assert k in Firsts(d.changed[i].camerasChanged);
    var m :| 0 <= m < |d.changed[i].camerasChanged| && Firsts(d.changed[i].camerasChanged)[m] == k;
    assert d.changed[i].camerasChanged[m].1 == CameraChanges(cams, later, k);
  }

  /** And so is a device field. */
  lemma DeviceTextIsReported(was: map<string, Device>, now: map<string, Device>, d: Diff, ip: string, j: nat,
                             a: string, b: string)
    requires AllWellFormed(was) && AllWellFormed(now) && IsScanDiff(was, now, d) && ip in was && ip in now
    requires j < DEVICE_FIELDS && was[ip].fields[j] == Text(a) && now[ip].fields[j] == Text(b) && a != b
    ensures SaysOfDevice(d, ip, j, Text(a), Text(b))
  {
    assert !Same(was[ip].fields[j], now[ip].fields[j], false);
    var i := ReportedDevice(was, now, d, ip);
    FieldListedIff(was[ip].fields, now[ip].fields, DEVICE_FIELDS, false, FieldChange(j, Text(a), Text(b)));
  }

  /** Nothing is reported of two texts that are equal. */
  lemma EqualTextsAreNotReported(was: map<string, Device>, now: map<string, Device>, d: Diff, ip: string, k: Channel,
                                 j: nat, a: string)
    requires AllWellFormed(was) && AllWellFormed(now) && IsScanDiff(was, now, d)
    ensures !SaysOfCamera(d, ip, k, j, Text(a), Text(a)) && !SaysOfDevice(d, ip, j, Text(a), Text(a))
  {
    var c := FieldChange(j, Text(a), Text(a));
    forall i | 0 <= i < |d.changed| ensures c !in d.changed[i].fieldChanges {
      var x := d.changed[i];
      FieldListedIff(was[x.ip].fields, now[x.ip].fields, DEVICE_FIELDS, false, c);
    }
    forall i, m | 0 <= i < |d.changed| && 0 <= m < |d.changed[i].camerasChanged|
      ensures c !in d.changed[i].camerasChanged[m].1
    {
      var x := d.changed[i];
      var cams, later := ByChannel(was[x.ip].cameras), ByChannel(now[x.ip].cameras);
      var key := x.camerasChanged[m].0;
      FieldListedIff(cams[key].fields, later[key].fields, CAMERA_FIELDS, true, c);
    }
  }

  // ---- addresses

  /** The characters that Python strips from ASCII text. */
  lemma BlankIs(c: char)
    ensures Blank(c) <==> c in {' ', '\t', '\n', '\U{0B}', '\U{0C}', '\r', '\U{1C}', '\U{1D}', '\U{1E}', '\U{1F}'}
  {}

  /** A camera is addressed exactly when its address prints with a character that is not blank. */
  lemma AddressedIff(cam: Camera, address: string)
    requires |cam.fields| == CAMERA_FIELDS && cam.fields[1] == Text(address)
    ensures (forall i | 0 <= i < |address| :: Blank(address[i])) ==> !HasAddress(cam)
    ensures forall i | 0 <= i < |address| :: !Blank(address[i]) ==> HasAddress(cam)
  {
    assert Str(cam.fields[1]) == address;
    forall i | 0 <= i < |address| && !Blank(address[i]) ensures HasAddress(cam) {
      assert !Blank(Str(cam.fields[1])[i]);
    }
  }

  // ---- order

  /** `a` comes before `b` at position `n`: they agree up to there, and then `a` ends or has the smaller character. */
  predicate BeforeAt(a: string, b: string, n: nat) {
    n <= |a| && n < |b| && a[..n] == b[..n] && (n == |a| || a[n] < b[n])
  }

  lemma {:induction false} BeforeFrom(a: string, b: string, n: nat)
    requires BeforeAt(a, b, n)
    ensures Before(a, b)
    decreases n
  {
    if n > 0 {
      assert a[0] == a[..n][0] && b[0] == b[..n][0];
      assert a[1..][..n - 1] == a[..n][1..] && b[1..][..n - 1] == b[..n][1..];
      BeforeFrom(a[1..], b[1..], n - 1);
    }
  }

  lemma {:induction false} BeforeHasPosition(a: string, b: string) returns (n: nat)
    requires Before(a, b)
    ensures BeforeAt(a, b, n)
    decreases |a|
  {
    if a == "" || a[0] != b[0] {
      n := 0;
    } else {
      n := BeforeHasPosition(a[1..], b[1..]);
      assert a == [a[0]] + a[1..] && b == [b[0]] + b[1..];
      assert a[..n + 1] == [a[0]] + a[1..][..n] && b[..n + 1] == [b[0]] + b[1..][..n];
      n := n + 1;
    }
  }

  /** The order of texts is that of a dictionary. */
  lemma BeforeIff(a: string, b: string)
    ensures Before(a, b) <==> exists n: nat :: BeforeAt(a, b, n)
  {
    if Before(a, b) {
      var n := BeforeHasPosition(a, b);
    }
    if n: nat :| BeforeAt(a, b, n) {
      BeforeFrom(a, b, n);
    }
  }

  /** Integer channels are listed before text channels, and these as their texts. */
  lemma TextChannelsComeLast(n: int, s: string, t: string)
    ensures NotAfter(ChannelKey(IntChannel(n)), ChannelKey(TextChannel(s)))
    ensures !NotAfter(ChannelKey(TextChannel(s)), ChannelKey(IntChannel(n)))
    ensures NotAfter(ChannelKey(TextChannel(s)), ChannelKey(TextChannel(t))) <==> !Before(t, s)
    ensures NotAfter(AddressKey(s), AddressKey(t)) <==> !Before(t, s)
  {}
}
