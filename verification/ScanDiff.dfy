/** The comparison of two device scans: devices matched by address, cameras by channel. */
module ScanDiff {
  import opened Counting
  import opened SortKeys
  import opened Decimals
  import XmlAttributes

  datatype Value = Text(text: string) | Number(n: int) | Flag(b: bool) | Nothing

  const DEVICE_FIELDS := 8
  const CAMERA_FIELDS := 6

  /** Python's `str`. */
  function Str(v: Value): string {
    match v
    case Text(s) => s
    case Number(n) => XmlAttributes.IntText(n)
    case Flag(b) => if b then "True" else "False"
    case Nothing => "None"
  }

  datatype Channel = IntChannel(n: int) | TextChannel(s: string)

  /** `id` is the identity of the camera object; the fields are name, address, port, status, protocol, model. */
  datatype Camera = Camera(id: int, channel: Channel, fields: seq<Value>)

  datatype Device = Device(ip: string, fields: seq<Value>, cameras: seq<Camera>)

  predicate WellFormed(d: Device) {
    |d.fields| == DEVICE_FIELDS && CamerasWellFormed(d.cameras)
  }

  predicate CamerasWellFormed(cameras: seq<Camera>) {
    forall i | 0 <= i < |cameras| :: |cameras[i].fields| == CAMERA_FIELDS
  }

  predicate Blank(c: char) {
    c == ' ' || '\t' <= c <= '\r' || '\U{1C}' <= c <= '\U{1F}'
  }

  predicate HasAddress(cam: Camera)
    requires |cam.fields| == CAMERA_FIELDS
  {
    var address := Str(cam.fields[1]);
    exists i | 0 <= i < |address| :: !Blank(address[i])
  }

  /** The compared fields by position; `index` counts in display order. */
  datatype FieldChange = FieldChange(index: nat, was: Value, now: Value)

  datatype DeviceDiff = DeviceDiff(ip: string, changed: bool, fieldChanges: seq<FieldChange>,
                                   camerasAdded: seq<Channel>, camerasRemoved: seq<Channel>,
                                   camerasChanged: seq<(Channel, seq<FieldChange>)>)

  datatype Diff = Diff(added: seq<string>, removed: seq<string>, changed: seq<DeviceDiff>, same: nat)

  // ---- field by field

  /** Python's equality: a truth value equals the number zero or one. */
  function Canonical(v: Value): Value {
    match v
    case Flag(b) => Number(if b then 1 else 0)
    case _ => v
  }

  /** Device fields are compared as values, camera fields by their printed form. */
  predicate Same(x: Value, y: Value, printed: bool) {
    if printed then Str(x) == Str(y) else Canonical(x) == Canonical(y)
  }

  function Changes(was: seq<Value>, now: seq<Value>, n: nat, printed: bool): seq<FieldChange>
    requires n <= |was| && n <= |now|
  {
    if n == 0 then []
    else
      var before := Changes(was, now, n - 1, printed);
      if Same(was[n - 1], now[n - 1], printed) then before
      else before + [FieldChange(n - 1, was[n - 1], now[n - 1])]
  }

  method CompareFields(was: seq<Value>, now: seq<Value>, printed: bool) returns (changes: seq<FieldChange>)
    requires |was| == |now|
    ensures changes == Changes(was, now, |was|, printed)
  {
    changes := [];
    for i := 0 to |was|
      invariant changes == Changes(was, now, i, printed)
    {
      if !Same(was[i], now[i], printed) {
        changes := changes + [FieldChange(i, was[i], now[i])];
      }
    }
  }

  predicate Within(changes: seq<FieldChange>, bound: int) {
    forall i | 0 <= i < |changes| :: changes[i].index < bound
  }

  /** Every changed field replaced by its new value. */
  function Patch(fields: seq<Value>, changes: seq<FieldChange>): (r: seq<Value>)
    requires Within(changes, |fields|)
    ensures |r| == |fields|
  {
    if changes == [] then fields
    else
      var last := changes[|changes| - 1];
      Patch(fields, changes[..|changes| - 1])[last.index := last.now]
  }

  function Flipped(changes: seq<FieldChange>): (r: seq<FieldChange>)
    ensures |r| == |changes|
    ensures forall i | 0 <= i < |r| :: r[i] == FieldChange(changes[i].index, changes[i].now, changes[i].was)
  {
    seq(|changes|, i requires 0 <= i < |changes| => FieldChange(changes[i].index, changes[i].now, changes[i].was))
  }

  lemma {:induction false} ChangesIndices(was: seq<Value>, now: seq<Value>, n: nat, printed: bool)
    requires n <= |was| == |now|
    ensures Within(Changes(was, now, n, printed), n)
    ensures Changes(was, now, n, printed) == [] <==> forall i | 0 <= i < n :: Same(was[i], now[i], printed)
    decreases n
  {
    if n > 0 {
      ChangesIndices(was, now, n - 1, printed);
    }
  }

  lemma PatchOneMore(fields: seq<Value>, changes: seq<FieldChange>, last: FieldChange)
    requires Within(changes, |fields|)
    requires last.index < |fields|
    ensures Patch(fields, changes + [last]) == Patch(fields, changes)[last.index := last.now]
  {
    assert (changes + [last])[..|changes|] == changes;
  }

  ghost predicate PatchedTo(r: seq<Value>, was: seq<Value>, now: seq<Value>, n: nat, printed: bool)
    requires n <= |was| == |now| == |r|
  {
    && (forall i | 0 <= i < n :: Same(r[i], now[i], printed))
    && (forall i | n <= i < |was| :: r[i] == was[i])
  }

  lemma PatchAdds(was: seq<Value>, now: seq<Value>, n: nat, printed: bool, before: seq<FieldChange>)
    requires 0 < n <= |was| == |now| && Within(before, |was|)
    requires PatchedTo(Patch(was, before), was, now, n - 1, printed)
    ensures var after := before + [FieldChange(n - 1, was[n - 1], now[n - 1])];
            Within(after, |was|) && PatchedTo(Patch(was, after), was, now, n, printed)
  {
    PatchOneMore(was, before, FieldChange(n - 1, was[n - 1], now[n - 1]));
    PatchedOneMore(Patch(was, before), was, now, n, printed);
  }

  lemma {:induction false} ChangesPatch(was: seq<Value>, now: seq<Value>, n: nat, printed: bool)
    requires n <= |was| == |now|
    ensures var changes := Changes(was, now, n, printed);
            Within(changes, |was|) && PatchedTo(Patch(was, changes), was, now, n, printed)
    decreases n
  {
    if n > 0 {
      ChangesPatch(was, now, n - 1, printed);
      var before := Changes(was, now, n - 1, printed);
      if Same(was[n - 1], now[n - 1], printed) {
        PatchedUnchanged(Patch(was, before), was, now, n, printed);
      } else {
        PatchAdds(was, now, n, printed, before);
      }
    }
  }

  lemma PatchedUnchanged(r: seq<Value>, was: seq<Value>, now: seq<Value>, n: nat, printed: bool)
    requires 0 < n <= |was| == |now| == |r| && PatchedTo(r, was, now, n - 1, printed)
    requires Same(was[n - 1], now[n - 1], printed)
    ensures PatchedTo(r, was, now, n, printed)
  {
    assert r[n - 1] == was[n - 1];
  }

  lemma PatchedOneMore(r: seq<Value>, was: seq<Value>, now: seq<Value>, n: nat, printed: bool)
    requires 0 < n <= |was| == |now| == |r| && PatchedTo(r, was, now, n - 1, printed)
    ensures PatchedTo(r[n - 1 := now[n - 1]], was, now, n, printed)
  {}

  lemma {:induction false} ChangesFlip(was: seq<Value>, now: seq<Value>, n: nat, printed: bool)
    requires n <= |was| == |now|
    ensures Changes(now, was, n, printed) == Flipped(Changes(was, now, n, printed))
    decreases n
  {
    if n > 0 {
      ChangesFlip(was, now, n - 1, printed);
      assert Same(now[n - 1], was[n - 1], printed) == Same(was[n - 1], now[n - 1], printed);
    }
  }

  /** Applying the reported changes to the old fields gives the new ones; there are none iff the fields agree;
      and comparing the other way round flips each of them. */
  lemma ChangesLaws(was: seq<Value>, now: seq<Value>, n: nat, printed: bool)
    requires n == |was| == |now|
    ensures Within(Changes(was, now, n, printed), n)
    ensures forall i | 0 <= i < n :: Same(Patch(was, Changes(was, now, n, printed))[i], now[i], printed)
    ensures Changes(was, now, n, printed) == [] <==> forall i | 0 <= i < n :: Same(was[i], now[i], printed)
    ensures Changes(now, was, n, printed) == Flipped(Changes(was, now, n, printed))
  {
    ChangesIndices(was, now, n, printed);
    ChangesPatch(was, now, n, printed);
    ChangesFlip(was, now, n, printed);
  }

  // ---- cameras

  function KeyOf(cam: Camera): Channel {
    if cam.channel == TextChannel("") then IntChannel(cam.id) else cam.channel
  }

  /** Addressed cameras by channel; the last one wins. */
  function ByChannel(cameras: seq<Camera>): (r: map<Channel, Camera>)
    requires CamerasWellFormed(cameras)
    ensures AllFields(r)
  {
    if cameras == [] then map[]
    else
      var last := cameras[|cameras| - 1];
      var rest := ByChannel(cameras[..|cameras| - 1]);
      if HasAddress(last) then rest[KeyOf(last) := last] else rest
  }

  predicate AllFields(cams: map<Channel, Camera>) {
    forall k | k in cams :: |cams[k].fields| == CAMERA_FIELDS
  }

  /** Of several addressed cameras with one channel, the last one listed is compared. */
  lemma {:induction false} LastCameraWins(cameras: seq<Camera>, i: nat)
    requires i < |cameras| && CamerasWellFormed(cameras) && HasAddress(cameras[i])
    requires forall j | i < j < |cameras| && HasAddress(cameras[j]) :: KeyOf(cameras[j]) != KeyOf(cameras[i])
    ensures KeyOf(cameras[i]) in ByChannel(cameras) && ByChannel(cameras)[KeyOf(cameras[i])] == cameras[i]
    decreases |cameras|
  {
    if i < |cameras| - 1 {
      LastCameraWins(cameras[..|cameras| - 1], i);
    }
  }

  method CamerasByChannel(cameras: seq<Camera>) returns (r: map<Channel, Camera>)
    requires CamerasWellFormed(cameras)
    ensures r == ByChannel(cameras)
  {
    r := map[];
    for i := 0 to |cameras|
      invariant r == ByChannel(cameras[..i])
    {
      assert cameras[..i + 1][..i] == cameras[..i];
      if HasAddress(cameras[i]) {
        r := r[KeyOf(cameras[i]) := cameras[i]];
      }
    }
    assert cameras[..|cameras|] == cameras;
  }

  function ChannelKey(ch: Channel): SortKey {
    match ch
    case IntChannel(n) => SortKey(0, ZeroFill(XmlAttributes.IntText(n)))
    case TextChannel(s) => SortKey(1, s)
  }

  function CameraChanges(was: map<Channel, Camera>, now: map<Channel, Camera>, k: Channel): seq<FieldChange>
    requires k in was && k in now && |was[k].fields| == |now[k].fields| == CAMERA_FIELDS
  {
    Changes(was[k].fields, now[k].fields, CAMERA_FIELDS, true)
  }

  /** The channels present on both sides whose fields changed. */
  ghost function ChangedKeys(was: map<Channel, Camera>, now: map<Channel, Camera>): set<Channel>
    requires AllFields(was) && AllFields(now)
  {
    set k | k in was && k in now && CameraChanges(was, now, k) != []
  }

  function Firsts(items: seq<(Channel, seq<FieldChange>)>): (r: seq<Channel>)
    ensures |r| == |items| && forall i | 0 <= i < |r| :: r[i] == items[i].0
  {
    seq(|items|, i requires 0 <= i < |items| => items[i].0)
  }

  ghost predicate ReportsChanges(was: map<Channel, Camera>, now: map<Channel, Camera>,
                                 items: seq<(Channel, seq<FieldChange>)>)
    requires AllFields(was) && AllFields(now)
  {
    forall i | 0 <= i < |items| ::
      items[i].0 in was && items[i].0 in now && items[i].1 == CameraChanges(was, now, items[i].0)
  }

  /** The camera lists of a diff say exactly which channels came, went and changed, in report order. */
  ghost predicate IsCameraDiff(was: map<Channel, Camera>, now: map<Channel, Camera>, added: seq<Channel>,
                               removed: seq<Channel>, changed: seq<(Channel, seq<FieldChange>)>)
    requires AllFields(was) && AllFields(now)
  {
    && Lists(added, now.Keys - was.Keys) && Ascending(added, ChannelKey)
    && Lists(removed, was.Keys - now.Keys) && Ascending(removed, ChannelKey)
    && Lists(Firsts(changed), ChangedKeys(was, now)) && Ascending(Firsts(changed), ChannelKey)
    && ReportsChanges(was, now, changed)
  }

  /** The changed cameras among the sorted common channels. */
  method ChangedCameras(was: map<Channel, Camera>, now: map<Channel, Camera>, common: seq<Channel>)
    returns (r: seq<(Channel, seq<FieldChange>)>)
    requires AllFields(was) && AllFields(now)
    requires Lists(common, was.Keys * now.Keys) && Ascending(common, ChannelKey)
    ensures Lists(Firsts(r), ChangedKeys(was, now)) && Ascending(Firsts(r), ChannelKey)
    ensures ReportsChanges(was, now, r)
  {
    r := [];
    ghost var from: seq<nat> := [];
    for i := 0 to |common|
      invariant Picks(Firsts(r), common, from, i, ChangedKeys(was, now))
      invariant ReportsChanges(was, now, r)
    {
      var k := common[i];
      assert k in was.Keys * now.Keys;
      var changes := CompareFields(was[k].fields, now[k].fields, true);
      PicksGrow(Firsts(r), common, from, i, ChangedKeys(was, now));
      if changes != [] {
        assert Firsts(r + [(k, changes)]) == Firsts(r) + [k];
        r := r + [(k, changes)];
        from := from + [i];
      }
    }
    PicksAreListed(Firsts(r), common, from, ChangedKeys(was, now), ChannelKey);
  }

  method DiffCameras(was: seq<Camera>, now: seq<Camera>)
    returns (added: seq<Channel>, removed: seq<Channel>, changed: seq<(Channel, seq<FieldChange>)>)
    requires CamerasWellFormed(was) && CamerasWellFormed(now)
    ensures IsCameraDiff(ByChannel(was), ByChannel(now), added, removed, changed)
  {
    var wasBy := CamerasByChannel(was);
    var nowBy := CamerasByChannel(now);
    added := SortBy(nowBy.Keys - wasBy.Keys, ChannelKey);
    removed := SortBy(wasBy.Keys - nowBy.Keys, ChannelKey);
    var common := SortBy(wasBy.Keys * nowBy.Keys, ChannelKey);
    changed := ChangedCameras(wasBy, nowBy, common);
  }

  // ---- devices

  /** The channels agree, and every common camera's fields print alike. */
  ghost predicate CamerasAgree(was: map<Channel, Camera>, now: map<Channel, Camera>)
    requires AllFields(was) && AllFields(now)
  {
    && was.Keys == now.Keys
    && forall k, j | k in was && k in now && 0 <= j < CAMERA_FIELDS ::
         Same(was[k].fields[j], now[k].fields[j], true)
  }

  ghost predicate FieldsAgree(was: seq<Value>, now: seq<Value>)
    requires |was| == |now|
  {
    forall i | 0 <= i < |was| :: Same(was[i], now[i], false)
  }

  ghost predicate Agree(was: Device, now: Device)
    requires WellFormed(was) && WellFormed(now)
  {
    FieldsAgree(was.fields, now.fields) && CamerasAgree(ByChannel(was.cameras), ByChannel(now.cameras))
  }

  ghost predicate IsDeviceDiff(was: Device, now: Device, d: DeviceDiff)
    requires WellFormed(was) && WellFormed(now)
  {
    && d.ip == was.ip
    && d.fieldChanges == Changes(was.fields, now.fields, DEVICE_FIELDS, false)
    && IsCameraDiff(ByChannel(was.cameras), ByChannel(now.cameras), d.camerasAdded, d.camerasRemoved, d.camerasChanged)
    && (d.changed <==> !Agree(was, now))
  }

  method DiffDevice(was: Device, now: Device) returns (d: DeviceDiff)
    requires WellFormed(was) && WellFormed(now)
    ensures IsDeviceDiff(was, now, d)
  {
    var fieldChanges := CompareFields(was.fields, now.fields, false);
    var added, removed, changed := DiffCameras(was.cameras, now.cameras);
    d := DeviceDiff(was.ip, fieldChanges != [] || added != [] || removed != [] || changed != [],
                    fieldChanges, added, removed, changed);
    ChangesLaws(was.fields, now.fields, DEVICE_FIELDS, false);
    EmptyDiffIffAgree(ByChannel(was.cameras), ByChannel(now.cameras), added, removed, changed);
  }

  /** Nothing is reported about the cameras exactly when they agree. */
  lemma EmptyDiffIffAgree(was: map<Channel, Camera>, now: map<Channel, Camera>, added: seq<Channel>,
                          removed: seq<Channel>, changed: seq<(Channel, seq<FieldChange>)>)
    requires AllFields(was) && AllFields(now) && IsCameraDiff(was, now, added, removed, changed)
    ensures added == [] && removed == [] && changed == [] <==> CamerasAgree(was, now)
  {
    ListsSize(added, now.Keys - was.Keys);
    ListsSize(removed, was.Keys - now.Keys);
    ListsSize(Firsts(changed), ChangedKeys(was, now));
    assert added == [] && removed == [] ==> was.Keys == now.Keys;
    forall k | k in was && k in now
      ensures k in ChangedKeys(was, now) <==>
              !forall j | 0 <= j < CAMERA_FIELDS :: Same(was[k].fields[j], now[k].fields[j], true)
    {
      ChangesLaws(was[k].fields, now[k].fields, CAMERA_FIELDS, true);
    }
  }

  function ReportedFor(items: seq<(Channel, seq<FieldChange>)>, k: Channel): seq<FieldChange> {
    if items == [] then [] else if items[0].0 == k then items[0].1 else ReportedFor(items[1..], k)
  }

  lemma {:induction false} ReportIsComplete(was: map<Channel, Camera>, now: map<Channel, Camera>,
                                            items: seq<(Channel, seq<FieldChange>)>, k: Channel)
    requires AllFields(was) && AllFields(now) && ReportsChanges(was, now, items) && k in was && k in now
    ensures ReportedFor(items, k) == if k in Firsts(items) then CameraChanges(was, now, k) else []
    decreases |items|
  {
    if items != [] {
      assert Firsts(items) == [items[0].0] + Firsts(items[1..]);
      ReportIsComplete(was, now, items[1..], k);
    }
  }

  /** Patching a camera's fields by what is reported for its channel gives the later fields as printed. */
  ghost predicate Rebuilds(was: Camera, now: Camera, changes: seq<FieldChange>)
    requires |was.fields| == |now.fields| == CAMERA_FIELDS
  {
    && Within(changes, CAMERA_FIELDS)
    && var patched := Patch(was.fields, changes);
       forall j | 0 <= j < CAMERA_FIELDS :: Same(patched[j], now.fields[j], true)
  }

  lemma ChangesRebuildTheCameras(was: map<Channel, Camera>, now: map<Channel, Camera>,
                                 items: seq<(Channel, seq<FieldChange>)>)
    requires AllFields(was) && AllFields(now) && ReportsChanges(was, now, items)
    requires Lists(Firsts(items), ChangedKeys(was, now))
    ensures forall k | k in was && k in now :: Rebuilds(was[k], now[k], ReportedFor(items, k))
  {
    forall k | k in was && k in now ensures Rebuilds(was[k], now[k], ReportedFor(items, k)) {
      ReportIsComplete(was, now, items, k);
      assert ReportedFor(items, k) == CameraChanges(was, now, k);
      ChangesLaws(was[k].fields, now[k].fields, CAMERA_FIELDS, true);
    }
  }

  /** Applying a device's changes to the old scan gives the new one on every compared field. */
  lemma ChangesRebuildTheDevice(was: Device, now: Device, d: DeviceDiff)
    requires WellFormed(was) && WellFormed(now) && IsDeviceDiff(was, now, d)
    ensures Within(d.fieldChanges, DEVICE_FIELDS)
    ensures FieldsAgree(Patch(was.fields, d.fieldChanges), now.fields)
    ensures var cams, later := ByChannel(was.cameras), ByChannel(now.cameras);
            (cams.Keys - set k | k in d.camerasRemoved) + (set k | k in d.camerasAdded) == later.Keys
    ensures forall k | k in ByChannel(was.cameras) && k in ByChannel(now.cameras) ::
              Rebuilds(ByChannel(was.cameras)[k], ByChannel(now.cameras)[k], ReportedFor(d.camerasChanged, k))
  {
    ChangesLaws(was.fields, now.fields, DEVICE_FIELDS, false);
    var cams, later := ByChannel(was.cameras), ByChannel(now.cameras);
    ChangesRebuildTheCameras(cams, later, d.camerasChanged);
  }

  // ---- scans

  function ByIp(devices: seq<Device>): (r: map<string, Device>)
    requires forall i | 0 <= i < |devices| :: WellFormed(devices[i])
    ensures AllWellFormed(r)
    ensures forall ip :: ip in r <==> exists i | 0 <= i < |devices| :: devices[i].ip == ip
  {
    if devices == [] then map[]
    else
      var last := devices[|devices| - 1];
      ByIp(devices[..|devices| - 1])[last.ip := last]
  }

  predicate AllWellFormed(devices: map<string, Device>) {
    forall ip | ip in devices :: devices[ip].ip == ip && WellFormed(devices[ip])
  }

  /** Of several devices with one address, the last one listed is compared. */
  lemma {:induction false} LastDeviceWins(devices: seq<Device>, i: nat)
    requires i < |devices| && forall j | 0 <= j < |devices| :: WellFormed(devices[j])
    requires forall j | i < j < |devices| :: devices[j].ip != devices[i].ip
    ensures devices[i].ip in ByIp(devices) && ByIp(devices)[devices[i].ip] == devices[i]
    decreases |devices|
  {
    if i < |devices| - 1 {
      LastDeviceWins(devices[..|devices| - 1], i);
    }
  }

  method DevicesByIp(devices: seq<Device>) returns (r: map<string, Device>)
    requires forall i | 0 <= i < |devices| :: WellFormed(devices[i])
    ensures r == ByIp(devices)
  {
    r := map[];
    for i := 0 to |devices|
      invariant r == ByIp(devices[..i])
    {
      assert devices[..i + 1][..i] == devices[..i];
      r := r[devices[i].ip := devices[i]];
    }
    assert devices[..|devices|] == devices;
  }

  function AddressKey(ip: string): SortKey { SortKey(0, ip) }

  function Addresses(items: seq<DeviceDiff>): (r: seq<string>)
    ensures |r| == |items| && forall i | 0 <= i < |r| :: r[i] == items[i].ip
  {
    seq(|items|, i requires 0 <= i < |items| => items[i].ip)
  }

  /** The addresses in both scans whose devices differ. */
  ghost function ChangedAddresses(was: map<string, Device>, now: map<string, Device>): set<string>
    requires AllWellFormed(was) && AllWellFormed(now)
  {
    set ip | ip in was && ip in now && !Agree(was[ip], now[ip])
  }

  ghost predicate ReportsDevices(was: map<string, Device>, now: map<string, Device>, items: seq<DeviceDiff>)
    requires AllWellFormed(was) && AllWellFormed(now)
  {
    forall i | 0 <= i < |items| ::
      items[i].ip in was && items[i].ip in now && IsDeviceDiff(was[items[i].ip], now[items[i].ip], items[i])
  }

  ghost predicate IsScanDiff(was: map<string, Device>, now: map<string, Device>, d: Diff)
    requires AllWellFormed(was) && AllWellFormed(now)
  {
    && Lists(d.added, now.Keys - was.Keys) && Ascending(d.added, AddressKey)
    && Lists(d.removed, was.Keys - now.Keys) && Ascending(d.removed, AddressKey)
    && Lists(Addresses(d.changed), ChangedAddresses(was, now)) && Ascending(Addresses(d.changed), AddressKey)
    && ReportsDevices(was, now, d.changed)
    && d.same == |was.Keys * now.Keys - ChangedAddresses(was, now)|
  }

  /** The changed devices among the sorted common addresses, and how many did not change. */
  method ChangedDevices(was: map<string, Device>, now: map<string, Device>, common: seq<string>)
    returns (r: seq<DeviceDiff>, same: nat)
    requires AllWellFormed(was) && AllWellFormed(now)
    requires Lists(common, was.Keys * now.Keys) && Ascending(common, AddressKey)
    ensures Lists(Addresses(r), ChangedAddresses(was, now)) && Ascending(Addresses(r), AddressKey)
    ensures ReportsDevices(was, now, r)
    ensures same == |was.Keys * now.Keys - ChangedAddresses(was, now)|
  {
    r, same := [], 0;
    ghost var from: seq<nat> := [];
    for i := 0 to |common|
      invariant ChangedUpTo(was, now, common, i, r, from)
      invariant same + |r| == i
    {
      var ip := common[i];
      assert ip in was.Keys * now.Keys;
      var d := DiffDevice(was[ip], now[ip]);
      ChangedUpToStep(was, now, common, i, r, from, d);
      if d.changed {
        r := r + [d];
        from := from + [i];
      } else {
        same := same + 1;
      }
    }
    PicksAreListed(Addresses(r), common, from, ChangedAddresses(was, now), AddressKey);
    RestIsCounted(was.Keys, now.Keys, common, Addresses(r), ChangedAddresses(was, now));
  }

  lemma RestIsCounted(was: set<string>, now: set<string>, common: seq<string>, picked: seq<string>,
                      changed: set<string>)
    requires Lists(common, was * now) && Lists(picked, changed) && changed <= was * now
    ensures |common| - |picked| == |was * now - changed|
  {
    ListsSize(common, was * now);
    ListsSize(picked, changed);
    ThreeParts(was, now, changed);
  }

  /** The changed devices among the first `n` common addresses; `from` says where each was. */
  ghost predicate ChangedUpTo(was: map<string, Device>, now: map<string, Device>, common: seq<string>, n: nat,
                              r: seq<DeviceDiff>, from: seq<nat>)
    requires AllWellFormed(was) && AllWellFormed(now)
  {
    Picks(Addresses(r), common, from, n, ChangedAddresses(was, now)) && ReportsDevices(was, now, r)
  }

  lemma ChangedUpToStep(was: map<string, Device>, now: map<string, Device>, common: seq<string>, n: nat,
                        r: seq<DeviceDiff>, from: seq<nat>, d: DeviceDiff)
    requires AllWellFormed(was) && AllWellFormed(now) && ChangedUpTo(was, now, common, n, r, from) && n < |common|
    requires forall i, j | 0 <= i < j < |common| :: common[i] != common[j]
    requires d.ip == common[n] && d.ip in was && d.ip in now && IsDeviceDiff(was[d.ip], now[d.ip], d)
    ensures if d.changed then ChangedUpTo(was, now, common, n + 1, r + [d], from + [n])
            else ChangedUpTo(was, now, common, n + 1, r, from)
  {
    PicksGrow(Addresses(r), common, from, n, ChangedAddresses(was, now));
    ReportsOneMore(was, now, r, d);
  }

  lemma ReportsOneMore(was: map<string, Device>, now: map<string, Device>, r: seq<DeviceDiff>, d: DeviceDiff)
    requires AllWellFormed(was) && AllWellFormed(now) && ReportsDevices(was, now, r)
    requires d.ip in was && d.ip in now && IsDeviceDiff(was[d.ip], now[d.ip], d)
    ensures ReportsDevices(was, now, r + [d]) && Addresses(r + [d]) == Addresses(r) + [d.ip]
  {}

  lemma ThreeParts(was: set<string>, now: set<string>, changed: set<string>)
    requires changed <= was * now
    ensures |was * now - changed| == |was * now| - |changed|
    ensures |now - was| + |changed| + |was * now - changed| == |now|
    ensures |was - now| + |changed| + |was * now - changed| == |was|
  {
    var common := was * now;
    assert common == changed + (common - changed);
    assert now == (now - was) + common && was == (was - now) + common;
  }

  method DiffScans(was: seq<Device>, now: seq<Device>) returns (d: Diff)
    requires forall i | 0 <= i < |was| :: WellFormed(was[i])
    requires forall i | 0 <= i < |now| :: WellFormed(now[i])
    ensures IsScanDiff(ByIp(was), ByIp(now), d)
  {
    var wasBy := DevicesByIp(was);
    var nowBy := DevicesByIp(now);
    var added := SortBy(nowBy.Keys - wasBy.Keys, AddressKey);
    var removed := SortBy(wasBy.Keys - nowBy.Keys, AddressKey);
    var common := SortBy(wasBy.Keys * nowBy.Keys, AddressKey);
    var changed, same := ChangedDevices(wasBy, nowBy, common);
    d := Diff(added, removed, changed, same);
  }

  /** Every distinct address of either scan is counted once. */
  lemma AddressesAreCounted(was: map<string, Device>, now: map<string, Device>, d: Diff)
    requires AllWellFormed(was) && AllWellFormed(now) && IsScanDiff(was, now, d)
    ensures |d.added| + |d.changed| + d.same == |now.Keys|
    ensures |d.removed| + |d.changed| + d.same == |was.Keys|
  {
    ListsSize(d.added, now.Keys - was.Keys);
    ListsSize(d.removed, was.Keys - now.Keys);
    ListsSize(Addresses(d.changed), ChangedAddresses(was, now));
    ThreeParts(was.Keys, now.Keys, ChangedAddresses(was, now));
  }

  // ---- the other way round

  function FlippedItems(items: seq<(Channel, seq<FieldChange>)>): (r: seq<(Channel, seq<FieldChange>)>)
    ensures |r| == |items| && forall i | 0 <= i < |r| :: r[i] == (items[i].0, Flipped(items[i].1))
  {
    seq(|items|, i requires 0 <= i < |items| => (items[i].0, Flipped(items[i].1)))
  }

  function FlippedDevice(d: DeviceDiff): DeviceDiff {
    DeviceDiff(d.ip, d.changed, Flipped(d.fieldChanges), d.camerasRemoved, d.camerasAdded,
               FlippedItems(d.camerasChanged))
  }

  function FlippedDevices(items: seq<DeviceDiff>): (r: seq<DeviceDiff>)
    ensures |r| == |items| && forall i | 0 <= i < |r| :: r[i] == FlippedDevice(items[i])
  {
    seq(|items|, i requires 0 <= i < |items| => FlippedDevice(items[i]))
  }

  lemma ChangedKeysFlip(was: map<Channel, Camera>, now: map<Channel, Camera>)
    requires AllFields(was) && AllFields(now)
    ensures ChangedKeys(was, now) == ChangedKeys(now, was)
    ensures forall k | k in was && k in now :: CameraChanges(now, was, k) == Flipped(CameraChanges(was, now, k))
  {
    forall k | k in was && k in now
      ensures CameraChanges(now, was, k) == Flipped(CameraChanges(was, now, k))
    {
      ChangesLaws(was[k].fields, now[k].fields, CAMERA_FIELDS, true);
    }
  }

  lemma ChannelKeyIsInjective(a: Channel, b: Channel)
    ensures ChannelKey(a) == ChannelKey(b) ==> a == b
  {
    if ChannelKey(a) == ChannelKey(b) && a.IntChannel? {
      ZeroFillIsInjective(a.n, b.n);
    }
  }

  /** Comparing the other way round gives the same report with each entry turned round. */
  lemma DeviceDiffFlips(was: Device, now: Device, d: DeviceDiff, e: DeviceDiff)
    requires WellFormed(was) && WellFormed(now) && was.ip == now.ip
    requires IsDeviceDiff(was, now, d) && IsDeviceDiff(now, was, e)
    ensures e == FlippedDevice(d)
  {
    var cams, later := ByChannel(was.cameras), ByChannel(now.cameras);
    forall a, b | ChannelKey(a) == ChannelKey(b) ensures a == b { ChannelKeyIsInjective(a, b); }
    ChangesLaws(was.fields, now.fields, DEVICE_FIELDS, false);
    ChangedKeysFlip(cams, later);
    SortedListIsUnique(d.camerasAdded, e.camerasRemoved, later.Keys - cams.Keys, ChannelKey);
    SortedListIsUnique(d.camerasRemoved, e.camerasAdded, cams.Keys - later.Keys, ChannelKey);
    SortedListIsUnique(Firsts(d.camerasChanged), Firsts(e.camerasChanged), ChangedKeys(cams, later), ChannelKey);
    forall i | 0 <= i < |e.camerasChanged|
      ensures e.camerasChanged[i] == FlippedItems(d.camerasChanged)[i]
    {
      assert Firsts(e.camerasChanged)[i] == Firsts(d.camerasChanged)[i];
    }
    assert e.camerasChanged == FlippedItems(d.camerasChanged);
  }

  lemma ChangedDevicesFlip(was: map<string, Device>, now: map<string, Device>, d: seq<DeviceDiff>, e: seq<DeviceDiff>)
    requires AllWellFormed(was) && AllWellFormed(now) && ReportsDevices(was, now, d) && ReportsDevices(now, was, e)
    requires Addresses(d) == Addresses(e)
    ensures e == FlippedDevices(d)
  {
    forall i | 0 <= i < |e| ensures e[i] == FlippedDevices(d)[i] {
      assert Addresses(e)[i] == Addresses(d)[i];
      DeviceDiffFlips(was[d[i].ip], now[d[i].ip], d[i], e[i]);
    }
  }

  lemma SameAddressOrder(a: seq<string>, b: seq<string>, items: set<string>)
    requires Lists(a, items) && Lists(b, items) && Ascending(a, AddressKey) && Ascending(b, AddressKey)
    ensures a == b
  {
    SortedListIsUnique(a, b, items, AddressKey);
  }

  /** Swapping the scans swaps added with removed, flips each change, and keeps the count of the others. */
  lemma ScanDiffFlips(was: map<string, Device>, now: map<string, Device>, d: Diff, e: Diff)
    requires AllWellFormed(was) && AllWellFormed(now) && IsScanDiff(was, now, d) && IsScanDiff(now, was, e)
    ensures e == Diff(d.removed, d.added, FlippedDevices(d.changed), d.same)
  {
    var changed := ChangedAddresses(was, now);
    ChangedAddressesFlip(was, now);
    assert was.Keys * now.Keys == now.Keys * was.Keys;
    SameAddressOrder(d.added, e.removed, now.Keys - was.Keys);
    SameAddressOrder(d.removed, e.added, was.Keys - now.Keys);
    SameAddressOrder(Addresses(d.changed), Addresses(e.changed), changed);
    ChangedDevicesFlip(was, now, d.changed, e.changed);
  }

  lemma ChangedAddressesFlip(was: map<string, Device>, now: map<string, Device>)
    requires AllWellFormed(was) && AllWellFormed(now)
    ensures ChangedAddresses(was, now) == ChangedAddresses(now, was)
  {
    forall ip | ip in was && ip in now ensures Agree(was[ip], now[ip]) <==> Agree(now[ip], was[ip]) {}
  }

  // ---- equal copies

  /** The same cameras read twice: equal but for the identities of the objects. */
  predicate Copy(a: Camera, b: Camera) {
    a.channel == b.channel && a.fields == b.fields
  }

  predicate Copies(a: seq<Camera>, b: seq<Camera>) {
    |a| == |b| && forall i | 0 <= i < |a| :: Copy(a[i], b[i])
  }

  predicate Placed(cameras: seq<Camera>)
    requires CamerasWellFormed(cameras)
  {
    forall i | 0 <= i < |cameras| && HasAddress(cameras[i]) :: cameras[i].channel != TextChannel("")
  }

  lemma {:induction false} KeysOfCameras(cameras: seq<Camera>, k: Channel)
    requires CamerasWellFormed(cameras)
    ensures k in ByChannel(cameras) <==>
            exists i | 0 <= i < |cameras| :: HasAddress(cameras[i]) && KeyOf(cameras[i]) == k
    decreases |cameras|
  {
    if cameras != [] {
      KeysOfCameras(cameras[..|cameras| - 1], k);
      assert cameras == cameras[..|cameras| - 1] + [cameras[|cameras| - 1]];
    }
  }

  lemma {:induction false} PlacedCopiesIndexAlike(a: seq<Camera>, b: seq<Camera>)
    requires CamerasWellFormed(a) && CamerasWellFormed(b) && Copies(a, b) && Placed(a)
    ensures ByChannel(a).Keys == ByChannel(b).Keys
    ensures forall k | k in ByChannel(a) && k in ByChannel(b) :: ByChannel(a)[k].fields == ByChannel(b)[k].fields
    decreases |a|
  {
    if a != [] {
      var n := |a| - 1;
      PlacedCopiesIndexAlike(a[..n], b[..n]);
      assert Copy(a[n], b[n]) && HasAddress(a[n]) == HasAddress(b[n]);
      if HasAddress(a[n]) {
        assert KeyOf(a[n]) == KeyOf(b[n]);
      } else {
        assert ByChannel(a) == ByChannel(a[..n]) && ByChannel(b) == ByChannel(b[..n]);
      }
    }
  }

  /** Two readings of the same device agree exactly when every addressed camera has a channel,
      provided the identities that stand in for missing channels occur on one side only. */
  lemma CopiesAgreeIffPlaced(a: Device, b: Device)
    requires WellFormed(a) && WellFormed(b) && a.fields == b.fields && Copies(a.cameras, b.cameras)
    requires forall i, j | 0 <= i < |b.cameras| && 0 <= j < |a.cameras| ::
               b.cameras[i].channel == TextChannel("") ==> KeyOf(a.cameras[j]) != IntChannel(b.cameras[i].id)
    ensures Agree(a, b) <==> Placed(a.cameras)
  {
    if Placed(a.cameras) {
      PlacedCopiesIndexAlike(a.cameras, b.cameras);
    } else {
      var i :| 0 <= i < |a.cameras| && HasAddress(a.cameras[i]) && a.cameras[i].channel == TextChannel("");
      var k := KeyOf(b.cameras[i]);
      KeysOfCameras(a.cameras, k);
      KeysOfCameras(b.cameras, k);
      assert HasAddress(b.cameras[i]);
      assert k in ByChannel(b.cameras).Keys && k !in ByChannel(a.cameras).Keys;
    }
  }

  /** A scan and its copy: nothing is reported exactly when every addressed camera of every device has a channel. */
  lemma CopyReportsNothingIffPlaced(was: map<string, Device>, now: map<string, Device>, d: Diff)
    requires AllWellFormed(was) && AllWellFormed(now) && IsScanDiff(was, now, d) && was.Keys == now.Keys
    requires forall ip | ip in was && ip in now ::
               was[ip].fields == now[ip].fields && Copies(was[ip].cameras, now[ip].cameras)
    requires forall ip, i, j | ip in was && ip in now && 0 <= i < |now[ip].cameras| && 0 <= j < |was[ip].cameras| ::
               now[ip].cameras[i].channel == TextChannel("")
               ==> KeyOf(was[ip].cameras[j]) != IntChannel(now[ip].cameras[i].id)
    ensures d.added == [] && d.removed == [] && d.changed == [] <==> forall ip | ip in was :: Placed(was[ip].cameras)
  {
    ListsSize(d.added, now.Keys - was.Keys);
    ListsSize(d.removed, was.Keys - now.Keys);
    ListsSize(Addresses(d.changed), ChangedAddresses(was, now));
    forall ip | ip in was ensures ip in ChangedAddresses(was, now) <==> !Placed(was[ip].cameras) {
      CopiesAgreeIffPlaced(was[ip], now[ip]);
    }
  }

  /** Integer channels from -1 to 10^10 - 1 come out in numeric order. */
  lemma CameraListsAscend(channels: seq<Channel>, i: nat, j: nat)
    requires Ascending(channels, ChannelKey) && i < j < |channels|
    requires channels[i].IntChannel? && channels[j].IntChannel?
    requires -1 <= channels[i].n < Pow10(CHANNEL_WIDTH) && -1 <= channels[j].n < Pow10(CHANNEL_WIDTH)
    ensures channels[i].n <= channels[j].n
  {
    NumericIff(-1, Pow10(CHANNEL_WIDTH));
    PairAscends(channels[i].n, channels[j].n, -1, Pow10(CHANNEL_WIDTH));
  }

  lemma PairAscends(a: int, b: int, lo: int, hi: int)
    requires NumericFrom(lo, hi) && lo <= a < hi && lo <= b < hi
    requires NotAfter(ChannelKey(IntChannel(a)), ChannelKey(IntChannel(b)))
    ensures a <= b
  {
    if b < a {
      BeforeIsTotal(ChannelKey(IntChannel(a)).text, ChannelKey(IntChannel(b)).text);
    }
  }

  /** Every report over channels of a range that includes zero is in numeric order, exactly for these ranges. */
  lemma RangeAscendsIff(lo: int, hi: int)
    requires lo <= 0 < hi
    ensures AllListsAscend(lo, hi) <==> -1 <= lo && hi <= Pow10(CHANNEL_WIDTH)
  {
    NumericIff(lo, hi);
    if !NumericFrom(lo, hi) {
      var m, n :| lo <= m < n < hi && !Before(ZeroFill(XmlAttributes.IntText(m)), ZeroFill(XmlAttributes.IntText(n)));
      MisorderedList(lo, hi, m, n);
    } else {
      forall list | Ascending(list, ChannelKey) && InRange(list, lo, hi) ensures Numeric(list) {
        AscendsInRange(list, lo, hi);
      }
    }
  }

  lemma MisorderedList(lo: int, hi: int, m: int, n: int)
    requires lo <= m < n < hi && !Before(ZeroFill(XmlAttributes.IntText(m)), ZeroFill(XmlAttributes.IntText(n)))
    ensures !AllListsAscend(lo, hi)
  {
    var list := [IntChannel(n), IntChannel(m)];
    assert NotAfter(ChannelKey(list[0]), ChannelKey(list[1]));
    assert Ascending(list, ChannelKey) && InRange(list, lo, hi);
    assert list[0].n > list[1].n;
  }

  ghost predicate InRange(channels: seq<Channel>, lo: int, hi: int) {
    forall i | 0 <= i < |channels| :: channels[i].IntChannel? && lo <= channels[i].n < hi
  }

  ghost predicate Numeric(channels: seq<Channel>)
    requires forall i | 0 <= i < |channels| :: channels[i].IntChannel?
  {
    forall i, j | 0 <= i < j < |channels| :: channels[i].n <= channels[j].n
  }

  ghost predicate AllListsAscend(lo: int, hi: int) {
    forall list | InRange(list, lo, hi) && Ascending(list, ChannelKey) :: Numeric(list)
  }

  lemma AscendsInRange(channels: seq<Channel>, lo: int, hi: int)
    requires NumericFrom(lo, hi) && InRange(channels, lo, hi) && Ascending(channels, ChannelKey)
    ensures Numeric(channels)
  {
    forall i, j | 0 <= i < j < |channels| ensures channels[i].n <= channels[j].n {
      assert NotAfter(ChannelKey(channels[i]), ChannelKey(channels[j]));
      PairAscends(channels[i].n, channels[j].n, lo, hi);
    }
  }
}
