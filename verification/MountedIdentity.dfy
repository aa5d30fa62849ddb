/** Mounted filesystems as identities: grouping by UUID and device, and the join of mounted anchors with a
    block inventory and its MD bindings. */
module MountedIdentities {
  import opened Basics
  import opened Sorting
  import opened BlockInventory
  import opened SourceSets
  import opened MdIdentity
  import opened MdBindings

  const MAX_ANCHORS: nat := 64
  const MAX_PATH_BYTES: nat := 4096

  datatype MountedFilesystem = MountedFilesystem(anchor: string, uuid: string, mountId: Uint64, device: DeviceNumber)

  datatype MountedInventory = MountedInventory(mounts: seq<MountedFilesystem>, conflicting: seq<string>)

  datatype PhysicalDisk = PhysicalDisk(
    diskName: string,
    device: DeviceNumber,
    diskSequence: Uint64,
    serialStatus: IdentityStatus,
    wwnStatus: IdentityStatus,
    serialEvidence: nat,
    wwnEvidence: nat)

  datatype MountedIdentity = MountedIdentity(
    anchor: string,
    uuid: string,
    mountId: Uint64,
    device: DeviceNumber,
    sourceName: string,
    uuidConflict: bool,
    arrays: seq<Binding>,
    disks: seq<PhysicalDisk>)

  // -- Paths -----------------------------------------------------------------------------------------

  function Components(text: string): (parts: seq<string>)
    ensures parts != []
  {
    if text == "" then [""]
    else if text[0] == '/' then [""] + Components(text[1..])
    else
      var rest := Components(text[1..]);
      [[text[0]] + rest[0]] + rest[1..]
  }

  /** An absolute path that lexical cleaning leaves as it is. */
  predicate CleanPath(path: string) {
    && 0 < |path| <= MAX_PATH_BYTES && path[0] == '/' && '\0' !in path
    && (path == "/" || forall i :: 0 <= i < |Components(path[1..])| ==> ValidComponent(Components(path[1..])[i]))
  }

  // -- Grouping --------------------------------------------------------------------------------------

  predicate OneUuidPerDevice(mounts: seq<MountedFilesystem>, n: nat)
    requires n <= |mounts|
  {
    forall i, j :: 0 <= i < j < n && mounts[i].device == mounts[j].device ==> mounts[i].uuid == mounts[j].uuid
  }

  /** The kernel devices mounted under the UUID. */
  function DevicesWith(mounts: seq<MountedFilesystem>, n: nat, uuid: string): set<DeviceNumber>
    requires n <= |mounts|
  {
    set i | 0 <= i < n && mounts[i].uuid == uuid :: mounts[i].device
  }

  /** The UUID is mounted from two different devices. */
  predicate Conflicted(mounts: seq<MountedFilesystem>, uuid: string) {
    exists i, j ::
      0 <= i < |mounts| && 0 <= j < |mounts| && mounts[i].uuid == uuid && mounts[j].uuid == uuid
      && mounts[i].device != mounts[j].device
  }

  function ConflictSet(mounts: seq<MountedFilesystem>): set<string> {
    set i | 0 <= i < |mounts| && Conflicted(mounts, mounts[i].uuid) :: mounts[i].uuid
  }

  datatype DeviceGroups = DeviceGroups(devices: map<string, set<DeviceNumber>>, uuids: map<DeviceNumber, string>)

  ghost predicate DevicesHold(devices: map<string, set<DeviceNumber>>, mounts: seq<MountedFilesystem>, n: nat)
    requires n <= |mounts|
  {
    && (forall u :: u in devices <==> exists i :: 0 <= i < n && mounts[i].uuid == u)
    && (forall u :: u in devices ==> devices[u] == DevicesWith(mounts, n, u))
  }

  ghost predicate UuidsKnown(uuids: map<DeviceNumber, string>, mounts: seq<MountedFilesystem>, n: nat)
    requires n <= |mounts|
  {
    && (forall d :: d in uuids <==> exists i :: 0 <= i < n && mounts[i].device == d)
    && (forall i :: 0 <= i < n ==> uuids[mounts[i].device] == mounts[i].uuid)
  }

  ghost predicate GroupsHold(g: DeviceGroups, mounts: seq<MountedFilesystem>, n: nat)
    requires n <= |mounts|
  {
    DevicesHold(g.devices, mounts, n) && UuidsKnown(g.uuids, mounts, n)
  }

  function AddDevice(devices: map<string, set<DeviceNumber>>, m: MountedFilesystem): map<string, set<DeviceNumber>> {
    devices[m.uuid := (if m.uuid in devices then devices[m.uuid] else {}) + {m.device}]
  }

  function AddMount(g: DeviceGroups, m: MountedFilesystem): DeviceGroups {
    DeviceGroups(AddDevice(g.devices, m), g.uuids[m.device := m.uuid])
  }

  lemma DevicesStep(mounts: seq<MountedFilesystem>, n: nat, uuid: string)
    requires n < |mounts|
    ensures DevicesWith(mounts, n + 1, uuid) == DevicesWith(mounts, n, uuid) +
              if mounts[n].uuid == uuid then {mounts[n].device} else {}
  {
  }

  lemma DevicesHoldStep(devices: map<string, set<DeviceNumber>>, mounts: seq<MountedFilesystem>, n: nat)
    requires n < |mounts| && DevicesHold(devices, mounts, n)
    ensures DevicesHold(AddDevice(devices, mounts[n]), mounts, n + 1)
  {
    var more := AddDevice(devices, mounts[n]);
    forall u ensures u in more <==> exists i :: 0 <= i < n + 1 && mounts[i].uuid == u {
      assert u in more <==> u in devices || u == mounts[n].uuid;
    }
    forall u | u in more ensures more[u] == DevicesWith(mounts, n + 1, u) {
      DevicesStep(mounts, n, u);
      assert u in devices || DevicesWith(mounts, n, u) == {};
    }
  }

  lemma UuidsKnownStep(uuids: map<DeviceNumber, string>, mounts: seq<MountedFilesystem>, n: nat)
    requires n < |mounts| && UuidsKnown(uuids, mounts, n) && OneUuidPerDevice(mounts, n)
    ensures var m := mounts[n];
            if m.device in uuids && uuids[m.device] != m.uuid then !OneUuidPerDevice(mounts, n + 1)
            else OneUuidPerDevice(mounts, n + 1) && UuidsKnown(uuids[m.device := m.uuid], mounts, n + 1)
  {
    var m := mounts[n];
    if m.device in uuids && uuids[m.device] != m.uuid {
      var i :| 0 <= i < n && mounts[i].device == m.device;
      assert mounts[i].uuid != mounts[n].uuid;
    } else {
      var more := uuids[m.device := m.uuid];
      forall d ensures d in more <==> exists i :: 0 <= i < n + 1 && mounts[i].device == d {
        assert d in more <==> d in uuids || d == m.device;
      }
    }
  }

  /** One more mount: it clashes with the groups, or extends them. */
  lemma GroupsStep(g: DeviceGroups, mounts: seq<MountedFilesystem>, n: nat)
    requires n < |mounts| && OneUuidPerDevice(mounts, n) && GroupsHold(g, mounts, n)
    ensures if Clashes(g, mounts[n]) then !OneUuidPerDevice(mounts, |mounts|)
            else OneUuidPerDevice(mounts, n + 1) && GroupsHold(AddMount(g, mounts[n]), mounts, n + 1)
  {
    DevicesHoldStep(g.devices, mounts, n);
    UuidsKnownStep(g.uuids, mounts, n);
  }

  predicate Clashes(g: DeviceGroups, m: MountedFilesystem) {
    m.device in g.uuids && g.uuids[m.device] != m.uuid
  }

  method GroupMounts(mounts: seq<MountedFilesystem>) returns (r: Option<DeviceGroups>)
    ensures r.Some? <==> OneUuidPerDevice(mounts, |mounts|)
    ensures r.Some? ==> GroupsHold(r.value, mounts, |mounts|)
  {
    var g := DeviceGroups(map[], map[]);
    for i := 0 to |mounts|
      invariant OneUuidPerDevice(mounts, i) && GroupsHold(g, mounts, i)
    {
      GroupsStep(g, mounts, i);
      if Clashes(g, mounts[i]) {
        return None;
      }
      g := AddMount(g, mounts[i]);
    }
    r := Some(g);
  }

  lemma SetOfTwo<T>(s: set<T>, a: T, b: T)
    requires a in s && b in s && a != b
    ensures |s| > 1
  {
    assert |s - {a}| == |s| - 1;
    assert b in s - {a};
  }

  lemma TwoOf<T>(s: set<T>) returns (a: T, b: T)
    requires |s| > 1
    ensures a in s && b in s && a != b
  {
    a :| a in s;
    assert |s - {a}| == |s| - 1;
    b :| b in s - {a};
  }

  lemma ConflictCounts(mounts: seq<MountedFilesystem>, uuid: string)
    ensures Conflicted(mounts, uuid) <==> |DevicesWith(mounts, |mounts|, uuid)| > 1
  {
    var s := DevicesWith(mounts, |mounts|, uuid);
    if Conflicted(mounts, uuid) {
      var i, j :| 0 <= i < |mounts| && 0 <= j < |mounts| && mounts[i].uuid == uuid && mounts[j].uuid == uuid
          && mounts[i].device != mounts[j].device;
      SetOfTwo(s, mounts[i].device, mounts[j].device);
    }
    if |s| > 1 {
      var a, b := TwoOf(s);
    }
  }

  /** The conflicting UUIDs of the groups, sorted. */
  method ConflictsOf(g: DeviceGroups, ghost mounts: seq<MountedFilesystem>)
    returns (conflicts: set<string>, list: seq<string>)
    requires GroupsHold(g, mounts, |mounts|)
    ensures conflicts == ConflictSet(mounts) && ListsSet(list, conflicts)
  {
    conflicts := set u | u in g.devices && |g.devices[u]| > 1;
    forall u ensures u in conflicts <==> u in ConflictSet(mounts) {
      ConflictCounts(mounts, u);
    }
    list := SortSet(conflicts);
  }

  predicate AnchorsDistinct(mounts: seq<MountedFilesystem>, n: nat)
    requires n <= |mounts|
  {
    forall i, j :: 0 <= i < j < n ==> mounts[i].anchor != mounts[j].anchor
  }

  predicate MountUsable(m: MountedFilesystem) {
    CleanPath(m.anchor) && m.anchor != "/" && CanonicalUuid(m.uuid) && m.mountId != 0 && m.device.major != 0
  }

  /** Usable anchors, each once, one UUID per device, and exactly the conflicting UUIDs announced in order. */
  ghost predicate InventoryHolds(inv: MountedInventory) {
    && 0 < |inv.mounts| <= MAX_ANCHORS
    && (forall i {:trigger MountUsable(inv.mounts[i])} :: 0 <= i < |inv.mounts| ==> MountUsable(inv.mounts[i]))
    && AnchorsDistinct(inv.mounts, |inv.mounts|) && OneUuidPerDevice(inv.mounts, |inv.mounts|)
    && ListsSet(inv.conflicting, ConflictSet(inv.mounts))
  }

  method CheckMounts(mounts: seq<MountedFilesystem>) returns (ok: bool)
    ensures ok <==>
              (forall i {:trigger MountUsable(mounts[i])} :: 0 <= i < |mounts| ==> MountUsable(mounts[i]))
              && AnchorsDistinct(mounts, |mounts|)
  {
    var anchors: set<string> := {};
    for i := 0 to |mounts|
      invariant forall j {:trigger MountUsable(mounts[j])} :: 0 <= j < i ==> MountUsable(mounts[j])
      invariant AnchorsDistinct(mounts, i) && anchors == set j | 0 <= j < i :: mounts[j].anchor
    {
      var m := mounts[i];
      var canonical := Canonicalise(m.uuid);
      if CanonicalUuid(m.uuid) {
        CanonicalIsFixed(m.uuid);
      }
      var usable := CleanPath(m.anchor) && m.anchor != "/" && canonical == Some(m.uuid) && m.mountId != 0
          && m.device.major != 0;
      assert usable == MountUsable(mounts[i]);
      if !usable || m.anchor in anchors {
        return false;
      }
      anchors := anchors + {m.anchor};
    }
    ok := true;
  }

  method ValidateInventory(inv: MountedInventory) returns (r: Option<set<string>>)
    ensures r.Some? <==> InventoryHolds(inv)
    ensures r.Some? ==> r.value == ConflictSet(inv.mounts)
  {
    if inv.mounts == [] || |inv.mounts| > MAX_ANCHORS {
      return None;
    }
    var usable := CheckMounts(inv.mounts);
    var groups := GroupMounts(inv.mounts);
    if !usable || groups.None? {
      return None;
    }
    var conflicts, list := ConflictsOf(groups.value, inv.mounts);
    if ListsSet(inv.conflicting, conflicts) {
      AscendingListUnique(list, inv.conflicting, conflicts);
    }
    r := if list == inv.conflicting then Some(conflicts) else None;
  }

  // -- Observing mounted roots -----------------------------------------------------------------------

  predicate ByAnchor(a: MountedFilesystem, b: MountedFilesystem) {
    TextAtMost(a.anchor, b.anchor)
  }

  /** What the mount guard reports for the roots it observed. */
  method GroupMounted(mounts: seq<MountedFilesystem>) returns (r: Option<MountedInventory>)
    ensures r.Some? <==> OneUuidPerDevice(mounts, |mounts|)
    ensures r.Some? ==>
              multiset(r.value.mounts) == multiset(mounts) && AnchorsInOrder(r.value.mounts)
    ensures r.Some? ==> r.value.mounts == Sort(ByAnchor, mounts) && ListsSet(r.value.conflicting, ConflictSet(mounts))
  {
    var groups := GroupMounts(mounts);
    if groups.None? {
      return None;
    }
    var conflicts, list := ConflictsOf(groups.value, mounts);
    AnchorsAscend(mounts);
    r := Some(MountedInventory(Sort(ByAnchor, mounts), list));
  }

  predicate AnchorsInOrder(mounts: seq<MountedFilesystem>) {
    forall i, j :: 0 <= i < j < |mounts| ==> TextAtMost(mounts[i].anchor, mounts[j].anchor)
  }

  lemma {:induction false} AnchorsAscend(mounts: seq<MountedFilesystem>)
    ensures AnchorsInOrder(Sort(ByAnchor, mounts))
  {
    TextOrderIsTotal();
    SortSorts(ByAnchor, mounts);
    var list := Sort(ByAnchor, mounts);
    forall i, j | 0 <= i < j < |list| ensures TextAtMost(list[i].anchor, list[j].anchor) {
      assert ByAnchor(list[i], list[j]);
    }
  }

  /** What an accepted inventory tells: usable anchors below the root, each once, one UUID on every device, and as
      conflicting exactly the UUIDs of two devices, in order. */
  lemma InventoryMeans(inv: MountedInventory)
    requires InventoryHolds(inv)
    ensures 1 <= |inv.mounts| <= 64
    ensures forall m :: m in inv.mounts ==>
              && m.anchor != "" && m.anchor != "/" && m.anchor[0] == '/' && |m.anchor| <= 4096 && m.mountId != 0
              && m.device.major != 0 && CanonicalUuid(m.uuid)
    ensures forall i, j :: 0 <= i < j < |inv.mounts| ==>
              && inv.mounts[i].anchor != inv.mounts[j].anchor
              && (inv.mounts[i].device == inv.mounts[j].device ==> inv.mounts[i].uuid == inv.mounts[j].uuid)
    ensures forall u :: u in inv.conflicting <==> Conflicted(inv.mounts, u)
    ensures forall i, j :: 0 <= i < j < |inv.conflicting| ==> TextLess(inv.conflicting[i], inv.conflicting[j])
  {
    forall m | m in inv.mounts
      ensures m.anchor != "" && m.anchor != "/" && m.anchor[0] == '/' && |m.anchor| <= 4096 && m.mountId != 0
      ensures m.device.major != 0 && CanonicalUuid(m.uuid)
    {
      var i :| 0 <= i < |inv.mounts| && inv.mounts[i] == m;
      assert MountUsable(inv.mounts[i]);
    }
    forall u ensures u in inv.conflicting <==> Conflicted(inv.mounts, u) {
      assert u in inv.conflicting <==> u in ConflictSet(inv.mounts);
    }
  }

  lemma ConflictSetPermutes(a: seq<MountedFilesystem>, b: seq<MountedFilesystem>)
    requires multiset(a) == multiset(b)
    ensures ConflictSet(a) <= ConflictSet(b)
  {
    forall u | u in ConflictSet(a) ensures u in ConflictSet(b) {
      var i, j :| 0 <= i < |a| && 0 <= j < |a| && a[i].uuid == u && a[j].uuid == u && a[i].device != a[j].device;
      assert a[i] in multiset(b) && a[j] in multiset(b);
      var k :| 0 <= k < |b| && b[k] == a[i];
      var l :| 0 <= l < |b| && b[l] == a[j];
      assert Conflicted(b, b[k].uuid);
    }
  }

  lemma DevicesPermute(a: seq<MountedFilesystem>, b: seq<MountedFilesystem>)
    requires multiset(a) == multiset(b) && OneUuidPerDevice(a, |a|)
    ensures OneUuidPerDevice(b, |b|)
  {
    forall i, j | 0 <= i < j < |b| && b[i].device == b[j].device ensures b[i].uuid == b[j].uuid {
      assert b[i] in multiset(a) && b[j] in multiset(a);
      var k :| 0 <= k < |a| && a[k] == b[i];
      var l :| 0 <= l < |a| && a[l] == b[j];
    }
  }

  lemma AnchorsPermute(a: seq<MountedFilesystem>, b: seq<MountedFilesystem>)
    requires multiset(a) == multiset(b) && AnchorsDistinct(a, |a|)
    ensures AnchorsDistinct(b, |b|)
  {
    DistinctCounts(a);
    forall i, j | 0 <= i < j < |b| ensures b[i].anchor != b[j].anchor {
      assert b[i] in multiset(a) && b[j] in multiset(a);
      if b[i] == b[j] {
        TwiceCounts(b, i, j);
      }
    }
  }

  /** What the guard reports about usable, distinct roots is what the correlation accepts. */
  lemma {:induction false} ReportIsAccepted(mounts: seq<MountedFilesystem>, inv: MountedInventory)
    requires 0 < |mounts| <= MAX_ANCHORS && AnchorsDistinct(mounts, |mounts|) && OneUuidPerDevice(mounts, |mounts|)
    requires forall m :: m in mounts ==> MountUsable(m)
    requires inv.mounts == Sort(ByAnchor, mounts) && ListsSet(inv.conflicting, ConflictSet(mounts))
    ensures InventoryHolds(inv)
  {
    DevicesPermute(mounts, inv.mounts);
    AnchorsPermute(mounts, inv.mounts);
    ConflictSetPermutes(mounts, inv.mounts);
    ConflictSetPermutes(inv.mounts, mounts);
    forall i | 0 <= i < |inv.mounts| ensures MountUsable(inv.mounts[i]) {
      assert inv.mounts[i] in multiset(mounts);
    }
  }
}
