/** Binding MD arrays to the physical disks behind their members, and the independent check of such
    bindings against a block inventory. */
module MdBindings {
  import opened Basics
  import opened Graphs
  import opened Sorting
  import opened BlockInventory
  import opened SourceSets
  import opened LeafSearches
  import opened MdIdentity
  import W = ArraySearches
  import A = Agreement

  datatype MemberDisk = MemberDisk(
    memberName: string,
    diskName: string,
    device: DeviceNumber,
    diskSequence: Uint64,
    serialStatus: IdentityStatus,
    wwnStatus: IdentityStatus,
    serialEvidence: nat,
    wwnEvidence: nat)

  datatype Binding = Binding(
    arrayName: string,
    uuid: string,
    device: DeviceNumber,
    diskSequence: Uint64,
    level: Level,
    memberDisks: seq<MemberDisk>)

  predicate Named(nodes: Nodes) {
    forall n :: n in nodes ==> nodes[n].name == n
  }

  /** Serial or WWN evidence is held, and neither is ambiguous. */
  predicate EvidenceUnique(serialStatus: IdentityStatus, wwnStatus: IdentityStatus, serialEvidence: nat,
                           wwnEvidence: nat)
  {
    && !serialStatus.Ambiguous? && !wwnStatus.Ambiguous?
    && ((serialStatus.Present? && serialEvidence != 0) || (wwnStatus.Present? && wwnEvidence != 0))
  }

  function MemberDiskOf(member: string, disk: BlockNode): MemberDisk {
    MemberDisk(member, disk.name, disk.device, disk.diskSequence, disk.serialStatus, disk.wwnStatus,
               disk.serialEvidence, disk.wwnEvidence)
  }

  // -- Disks behind a list of members ----------------------------------------------------------------

  function MemberDisks(member: string, disks: seq<BlockNode>): (r: seq<MemberDisk>)
    ensures |r| == |disks| && forall i :: 0 <= i < |r| ==> r[i] == MemberDiskOf(member, disks[i])
  {
    seq(|disks|, i requires 0 <= i < |disks| => MemberDiskOf(member, disks[i]))
  }

  /** The disks of one member; nothing when it is not observed, fails the search or has none. */
  function DisksOf(nodes: Nodes, member: string): Option<seq<MemberDisk>>
    requires Named(nodes)
  {
    if member !in nodes then None
    else
      var disks := DisksBehind(nodes[member], nodes, {});
      if disks.None? || disks.value == [] then None else Some(MemberDisks(member, disks.value))
  }

  function Joined(a: Option<seq<MemberDisk>>, b: Option<seq<MemberDisk>>): Option<seq<MemberDisk>> {
    if a.None? || b.None? then None else Some(a.value + b.value)
  }

  /** The disks of all members, in member order. */
  function Gathered(nodes: Nodes, members: seq<string>): Option<seq<MemberDisk>>
    requires Named(nodes)
  {
    if members == [] then Some([])
    else Joined(Gathered(nodes, members[..|members| - 1]), DisksOf(nodes, members[|members| - 1]))
  }

  predicate Distinguished(disks: seq<MemberDisk>) {
    forall i, j :: 0 <= i < j < |disks| ==> disks[i].device != disks[j].device
  }

  predicate Evident(d: MemberDisk) {
    EvidenceUnique(d.serialStatus, d.wwnStatus, d.serialEvidence, d.wwnEvidence)
  }

  /** No disk twice, and all of them identified. */
  predicate Sound(disks: seq<MemberDisk>) {
    Distinguished(disks) && forall d :: d in disks ==> Evident(d)
  }

  predicate ByDevice(a: MemberDisk, b: MemberDisk) {
    a.device.major < b.device.major || (a.device.major == b.device.major && a.device.minor <= b.device.minor)
  }

  lemma ByDeviceIsTotal()
    ensures TotalOrder(ByDevice)
    ensures forall a, b :: ByDevice(a, b) && ByDevice(b, a) ==> a.device == b.device
  {
  }

  lemma JoinedAssociates(a: Option<seq<MemberDisk>>, b: Option<seq<MemberDisk>>, c: Option<seq<MemberDisk>>)
    ensures Joined(a, Joined(b, c)) == Joined(Joined(a, b), c)
    ensures Joined(a, Some([])) == a && Joined(Some([]), a) == a
  {
    if a.Some? {
      assert a.value + [] == a.value && [] + a.value == a.value;
      if b.Some? && c.Some? {
        assert a.value + (b.value + c.value) == (a.value + b.value) + c.value;
      }
    }
  }

  lemma {:induction false} GatheredJoin(nodes: Nodes, a: seq<string>, b: seq<string>)
    requires Named(nodes)
    ensures Gathered(nodes, a + b) == Joined(Gathered(nodes, a), Gathered(nodes, b))
    decreases |b|
  {
    if b == [] {
      assert a + b == a;
      JoinedAssociates(Gathered(nodes, a), None, None);
    } else {
      var rest := b[..|b| - 1];
      GatheredJoin(nodes, a, rest);
      assert (a + b)[..|a + b| - 1] == a + rest;
      JoinedAssociates(Gathered(nodes, a), Gathered(nodes, rest), DisksOf(nodes, b[|b| - 1]));
    }
  }

  ghost predicate SameDisks(a: Option<seq<MemberDisk>>, b: Option<seq<MemberDisk>>) {
    if a.None? then b.None? else b.Some? && multiset(a.value) == multiset(b.value)
  }

  /** Moving one member to another place reorders the disks. */
  lemma {:induction false} GatheredMoves(nodes: Nodes, fore: seq<string>, x: string, aft: seq<string>)
    requires Named(nodes)
    ensures SameDisks(Gathered(nodes, (fore + aft) + [x]), Gathered(nodes, fore + ([x] + aft)))
  {
    GatheredJoin(nodes, fore + aft, [x]);
    GatheredJoin(nodes, fore, aft);
    GatheredJoin(nodes, fore, [x] + aft);
    GatheredJoin(nodes, [x], aft);
  }

  lemma JoinedSame(a: Option<seq<MemberDisk>>, b: Option<seq<MemberDisk>>, c: Option<seq<MemberDisk>>)
    requires SameDisks(a, b)
    ensures SameDisks(Joined(a, c), Joined(b, c))
  {
  }

  /** Reordering the members reorders the disks and changes nothing else. */
  lemma {:induction false} GatheredPermutes(nodes: Nodes, a: seq<string>, b: seq<string>)
    requires Named(nodes) && multiset(a) == multiset(b)
    ensures SameDisks(Gathered(nodes, a), Gathered(nodes, b))
    decreases |a|
  {
    if a == [] {
      assert |multiset(b)| == 0;
    } else {
      var x, rest := a[|a| - 1], a[..|a| - 1];
      assert a == rest + [x];
      var fore, aft := CutOut(a, b);
      GatheredPermutes(nodes, rest, fore + aft);
      JoinedSame(Gathered(nodes, rest), Gathered(nodes, fore + aft), Gathered(nodes, [x]));
      GatheredJoin(nodes, rest, [x]);
      GatheredJoin(nodes, fore + aft, [x]);
      GatheredMoves(nodes, fore, x, aft);
    }
  }

  lemma SoundPermutes(a: seq<MemberDisk>, b: seq<MemberDisk>)
    requires Sound(a) && multiset(a) == multiset(b)
    ensures Sound(b)
  {
    DistinctCounts(a);
    forall i, j | 0 <= i < j < |b| ensures b[i].device != b[j].device {
      assert b[i] in multiset(a) && b[j] in multiset(a);
      if b[i] == b[j] {
        TwiceCounts(b, i, j);
      }
    }
    forall d | d in b ensures Evident(d) {
      assert d in multiset(a);
    }
  }

  function Devices(disks: seq<MemberDisk>): set<DeviceNumber> {
    set i | 0 <= i < |disks| :: disks[i].device
  }

  lemma SoundStep(disks: seq<MemberDisk>, d: MemberDisk)
    ensures Sound(disks + [d]) <==> Sound(disks) && d.device !in Devices(disks) && Evident(d)
    ensures Devices(disks + [d]) == Devices(disks) + {d.device}
  {
    var more := disks + [d];
    assert forall i :: 0 <= i < |disks| ==> more[i] == disks[i];
    assert more[|disks|] == d;
    if Sound(more) {
      forall x | x in disks ensures Evident(x) {
        assert x in more;
      }
      assert forall i :: 0 <= i < |disks| ==> more[i].device != more[|disks|].device;
    }
  }

  lemma SoundPrefix(disks: seq<MemberDisk>, more: seq<MemberDisk>)
    requires Sound(disks + more)
    ensures Sound(disks)
  {
    var all := disks + more;
    assert forall i :: 0 <= i < |disks| ==> all[i] == disks[i];
    forall x | x in disks ensures Evident(x) {
      assert x in all;
    }
  }

  /** Adds the disks of one member unless one is already held or lacks unique evidence. */
  method AddDisks(found: seq<MemberDisk>, member: string, disks: seq<BlockNode>) returns (r: Option<seq<MemberDisk>>)
    requires Sound(found)
    ensures r == if Sound(found + MemberDisks(member, disks)) then Some(found + MemberDisks(member, disks)) else None
  {
    var list := found;
    var seen := Devices(found);
    ghost var more := MemberDisks(member, disks);
    for i := 0 to |disks|
      invariant list == found + more[..i] && Sound(list) && seen == Devices(list)
    {
      var d := MemberDiskOf(member, disks[i]);
      SoundStep(list, d);
      assert found + more == (list + [d]) + more[i + 1..];
      if d.device in seen || !Evident(d) {
        if Sound(found + more) {
          SoundPrefix(list + [d], more[i + 1..]);
        }
        return None;
      }
      list, seen := list + [d], seen + {d.device};
    }
    assert more[..|disks|] == more;
    r := Some(list);
  }

  ghost predicate GatheredSound(nodes: Nodes, members: seq<string>)
    requires Named(nodes)
  {
    Gathered(nodes, members).Some? && Sound(Gathered(nodes, members).value)
  }

  lemma GatheredPrefix(nodes: Nodes, members: seq<string>, i: nat)
    requires Named(nodes) && i <= |members| && GatheredSound(nodes, members)
    ensures GatheredSound(nodes, members[..i])
  {
    assert members == members[..i] + members[i..];
    GatheredJoin(nodes, members[..i], members[i..]);
    SoundPrefix(Gathered(nodes, members[..i]).value, Gathered(nodes, members[i..]).value);
  }

  /** Succeeds exactly when every member resolves and no disk repeats or lacks unique evidence. */
  method GatherMembers(nodes: Nodes, members: seq<string>) returns (r: Option<seq<MemberDisk>>)
    requires Named(nodes)
    ensures r.Some? <==> GatheredSound(nodes, members)
    ensures r.Some? ==> r == Gathered(nodes, members)
  {
    var found: seq<MemberDisk> := [];
    for i := 0 to |members|
      invariant Gathered(nodes, members[..i]) == Some(found) && Sound(found)
    {
      var next := GatherMember(nodes, members[i], found);
      assert members[..i + 1][..i] == members[..i];
      if next.None? {
        if GatheredSound(nodes, members) {
          GatheredPrefix(nodes, members, i + 1);
        }
        return None;
      }
      found := next.value;
    }
    assert members[..|members|] == members;
    r := Some(found);
  }

  method GatherMember(nodes: Nodes, member: string, found: seq<MemberDisk>) returns (r: Option<seq<MemberDisk>>)
    requires Named(nodes) && Sound(found)
    ensures var all := Joined(Some(found), DisksOf(nodes, member));
            r == if all.Some? && Sound(all.value) then all else None
  {
    if member !in nodes {
      return None;
    }
    var disks := PhysicalDisksBehind(nodes[member], nodes, {});
    if disks.None? || disks.value == [] {
      return None;
    }
    r := AddDisks(found, member, disks.value);
  }

  // -- Correlating an inventory ----------------------------------------------------------------------

  function ArrayBlocks(nodes: Nodes): set<string> {
    set n | n in nodes && W.IsArray(nodes[n])
  }

  predicate MemberNamesOk(members: seq<string>) {
    && (forall i :: 0 <= i < |members| ==> ValidBlockName(members[i]))
    && (forall i, j :: 0 <= i < j < |members| ==> members[i] != members[j])
  }

  predicate BlockFound(nodes: Nodes, a: MdArray) {
    && a.name in nodes && W.IsArray(nodes[a.name]) && nodes[a.name].device == a.device
    && nodes[a.name].diskSequence != 0
    && nodes[a.name].lower != []
  }

  /** The block node agrees with the array it is claimed for, members included. */
  ghost predicate BlockAgrees(nodes: Nodes, a: MdArray) {
    BlockFound(nodes, a) && multiset(a.members) == multiset(LowerNames(nodes[a.name]))
  }

  ghost predicate Bindable(nodes: Nodes, a: MdArray)
    requires Named(nodes)
  {
    && BlockAgrees(nodes, a) && MemberNamesOk(a.members)
    && Gathered(nodes, a.members).Some? && Sound(Gathered(nodes, a.members).value)
  }

  /** The gathered disks in device order. */
  ghost predicate Ordered(list: seq<MemberDisk>, disks: seq<MemberDisk>) {
    multiset(list) == multiset(disks)
    && forall i, j {:trigger ByDevice(list[i], list[j])} :: 0 <= i < j < |list| ==> ByDevice(list[i], list[j])
  }

  /** Everything but the order of the disks is copied from the inventories. */
  ghost predicate BindingOf(nodes: Nodes, a: MdArray, b: Binding)
    requires Named(nodes) && Bindable(nodes, a)
  {
    && b == Binding(a.name, a.uuid, a.device, nodes[a.name].diskSequence, a.level, b.memberDisks)
    && Ordered(b.memberDisks, Gathered(nodes, a.members).value)
  }

  lemma {:induction false} SortOrders(disks: seq<MemberDisk>)
    ensures Ordered(Sort(ByDevice, disks), disks)
  {
    ByDeviceIsTotal();
    SortSorts(ByDevice, disks);
    var list := Sort(ByDevice, disks);
    forall i, j | 0 <= i < j < |list| ensures ByDevice(list[i], list[j]) {
    }
  }

  lemma {:induction false} OrderedIsSort(list: seq<MemberDisk>, disks: seq<MemberDisk>)
    requires Sound(disks) && Ordered(list, disks)
    ensures list == Sort(ByDevice, disks)
  {
    ByDeviceIsTotal();
    SoundPermutes(disks, list);
    SortSorts(ByDevice, disks);
    assert SortedBy(ByDevice, list);
    SortedUnique(ByDevice, list, Sort(ByDevice, disks));
  }

  /** The array's UUID stands in one place only. */
  predicate Singular(arrays: seq<MdArray>, a: MdArray) {
    |Places(arrays, |arrays|, a.uuid)| == 1 && a.uuidStatus.Present? && ValidLevel(a.level)
  }

  lemma {:induction false} OnePlaceOneObject(arrays: seq<MdArray>, uuid: string)
    requires |Places(arrays, |arrays|, uuid)| == 1
    ensures StateOf(Objects(arrays, |arrays|, uuid)) == OneObject
  {
    var places := Places(arrays, |arrays|, uuid);
    PlacesMembers(arrays, |arrays|, uuid);
    assert places[0] in places;
    assert forall i :: i in places ==> i == places[0];
    assert Objects(arrays, |arrays|, uuid) == {arrays[places[0]].device};
  }

  ghost predicate Ready(nodes: Nodes, arrays: seq<MdArray>, a: MdArray)
    requires Named(nodes)
  {
    Singular(arrays, a) && Bindable(nodes, a)
  }

  /** Both inventories are complete, they list the same arrays, and every array can be bound. */
  ghost predicate Correlatable(storage: StorageSnapshot, md: MdSnapshot) {
    && Complete(storage) && Announced(md) && md.status.Available?
    && |ArrayBlocks(Index(storage.observations))| == |md.arrays|
    && (md.arrays != [] ==> Searchable(md.arrays, |md.arrays|))
    && Every(|md.arrays|, ReadyAt(Index(storage.observations), md.arrays))
  }

  ghost function ReadyAt(nodes: Nodes, arrays: seq<MdArray>): nat -> bool
    requires Named(nodes)
  {
    (k: nat) => k < |arrays| && Ready(nodes, arrays, arrays[k])
  }

  /** The binding is the one the inventories determine. */
  ghost predicate Bound(nodes: Nodes, arrays: seq<MdArray>, a: MdArray, b: Binding)
    requires Named(nodes)
  {
    Ready(nodes, arrays, a) && BindingOf(nodes, a, b)
  }

  ghost function BoundAt(nodes: Nodes, arrays: seq<MdArray>): (nat, Binding) -> bool
    requires Named(nodes)
  {
    (k: nat, b: Binding) => k < |arrays| && Bound(nodes, arrays, arrays[k], b)
  }

  /** The binding of an array is unique, and so is the list of all of them. */
  lemma OneBinding(nodes: Nodes, arrays: seq<MdArray>, a: MdArray, b: Binding, c: Binding)
    requires Named(nodes) && Bound(nodes, arrays, a, b) && Bound(nodes, arrays, a, c)
    ensures b == c
  {
    OrderedIsSort(b.memberDisks, Gathered(nodes, a.members).value);
    OrderedIsSort(c.memberDisks, Gathered(nodes, a.members).value);
  }

  lemma {:induction false} OneBindingList(nodes: Nodes, arrays: seq<MdArray>, a: seq<Binding>, b: seq<Binding>)
    requires Named(nodes) && |a| == |b| && Each(a, BoundAt(nodes, arrays)) && Each(b, BoundAt(nodes, arrays))
    ensures a == b
  {
    forall k | 0 <= k < |a| ensures a[k] == b[k] {
      EachAt(a, BoundAt(nodes, arrays), k);
      EachAt(b, BoundAt(nodes, arrays), k);
      OneBinding(nodes, arrays, arrays[k], a[k], b[k]);
    }
  }

  method BindArray(nodes: Nodes, md: MdSnapshot, a: MdArray) returns (r: Option<Binding>)
    requires Named(nodes) && Announced(md) && a in md.arrays
    ensures r.Some? <==> Searchable(md.arrays, |md.arrays|) && Ready(nodes, md.arrays, a)
    ensures r.Some? ==> Bound(nodes, md.arrays, a, r.value)
  {
    var found := MatchUuid(md, a.uuid);
    if Searchable(md.arrays, |md.arrays|) {
      OwnUuid(md, a);
      if |Places(md.arrays, |md.arrays|, a.uuid)| == 1 {
        OnePlaceOneObject(md.arrays, a.uuid);
      }
    }
    if found.None? || found.value.state != OneObject || |found.value.indices| != 1 || !a.uuidStatus.Present?
       || !ValidLevel(a.level) {
      return None;
    }
    if !BlockFound(nodes, a) || !MemberNamesOk(a.members) {
      return None;
    }
    var same := SameNames(a.members, LowerNames(nodes[a.name]));
    if !same {
      return None;
    }
    var disks := GatherMembers(nodes, a.members);
    if disks.None? {
      return None;
    }
    SortOrders(disks.value);
    r := Some(Binding(a.name, a.uuid, a.device, nodes[a.name].diskSequence, a.level, Sort(ByDevice, disks.value)));
  }

  lemma OwnUuid(md: MdSnapshot, a: MdArray)
    requires a in md.arrays && Searchable(md.arrays, |md.arrays|)
    ensures CanonicalUuid(a.uuid) && Lowered(WithoutNewline(a.uuid)) == a.uuid
  {
    var i :| 0 <= i < |md.arrays| && md.arrays[i] == a;
    assert ArrayUsable(md.arrays[i]);
    CanonicalIsFixed(a.uuid);
  }

  method Correlate(storage: StorageSnapshot, md: MdSnapshot) returns (r: Option<seq<Binding>>)
    ensures r.Some? <==> Correlatable(storage, md)
    ensures r.Some? ==> |r.value| == |md.arrays| && Each(r.value, BoundAt(Index(storage.observations), md.arrays))
  {
    var devices := CompleteDeviceSet(storage);
    if devices.None? || !Announced(md) || !md.status.Available? {
      return None;
    }
    var nodes := Index(storage.observations);
    if |ArrayBlocks(nodes)| != |md.arrays| {
      return None;
    }
    r := BindAll(nodes, md);
  }

  method BindAll(nodes: Nodes, md: MdSnapshot) returns (r: Option<seq<Binding>>)
    requires Named(nodes) && Announced(md)
    ensures r.Some? <==>
              (md.arrays != [] ==> Searchable(md.arrays, |md.arrays|)) && Every(|md.arrays|, ReadyAt(nodes, md.arrays))
    ensures r.Some? ==> |r.value| == |md.arrays| && Each(r.value, BoundAt(nodes, md.arrays))
  {
    var bindings: seq<Binding> := [];
    for k := 0 to |md.arrays|
      invariant |bindings| == k && Each(bindings, BoundAt(nodes, md.arrays)) && Every(k, ReadyAt(nodes, md.arrays))
      invariant k > 0 ==> Searchable(md.arrays, |md.arrays|)
    {
      var b := BindArray(nodes, md, md.arrays[k]);
      if b.None? {
        EveryReady(nodes, md.arrays, k);
        return None;
      }
      OneMoreBound(nodes, md.arrays, bindings, b.value);
      bindings := bindings + [b.value];
    }
    r := Some(bindings);
  }

  lemma {:induction false} EveryReady(nodes: Nodes, arrays: seq<MdArray>, k: nat)
    requires Named(nodes) && k < |arrays|
    ensures Every(|arrays|, ReadyAt(nodes, arrays)) ==> Ready(nodes, arrays, arrays[k])
  {
    if Every(|arrays|, ReadyAt(nodes, arrays)) {
      EveryAt(|arrays|, ReadyAt(nodes, arrays), k);
    }
  }

  lemma {:induction false} OneMoreBound(nodes: Nodes, arrays: seq<MdArray>, bindings: seq<Binding>, b: Binding)
    requires Named(nodes) && |bindings| < |arrays| && Each(bindings, BoundAt(nodes, arrays))
    requires Every(|bindings|, ReadyAt(nodes, arrays)) && Bound(nodes, arrays, arrays[|bindings|], b)
    ensures Each(bindings + [b], BoundAt(nodes, arrays)) && Every(|bindings| + 1, ReadyAt(nodes, arrays))
  {
    EachMore(bindings, BoundAt(nodes, arrays), b);
  }

  // -- Checking bindings -----------------------------------------------------------------------------

  predicate ReferencesHold(nodes: Nodes, block: BlockNode) {
    forall i :: 0 <= i < |block.lower| ==> RefMatches(nodes, block.lower[i])
  }

  /** The binding restates what the inventory says about its array. */
  ghost predicate BindingHolds(nodes: Nodes, b: Binding)
    requires Named(nodes)
  {
    && b.arrayName in nodes && W.IsArray(nodes[b.arrayName])
    && var block := nodes[b.arrayName];
       && block.device == b.device && block.diskSequence != 0 && block.diskSequence == b.diskSequence
       && CanonicalUuid(b.uuid) && ValidLevel(b.level) && block.lower != [] && b.memberDisks != []
       && ReferencesHold(nodes, block)
       && GatheredSound(nodes, LowerNames(block)) && Ordered(b.memberDisks, Gathered(nodes, LowerNames(block)).value)
  }

  predicate BindingsDistinct(bindings: seq<Binding>, n: nat)
    requires n <= |bindings|
  {
    forall i, j ::
      0 <= i < j < n ==> bindings[i].arrayName != bindings[j].arrayName && bindings[i].uuid != bindings[j].uuid
  }

  /** Exactly the observed arrays, each bound once, under UUIDs of their own. */
  ghost predicate BindingsHold(nodes: Nodes, bindings: seq<Binding>)
    requires Named(nodes)
  {
    && |bindings| <= MAX_ARRAYS && |bindings| == |ArrayBlocks(nodes)| && BindingsDistinct(bindings, |bindings|)
    && forall k {:trigger BindingHolds(nodes, bindings[k])} :: 0 <= k < |bindings| ==> BindingHolds(nodes, bindings[k])
  }

  method CheckBinding(nodes: Nodes, b: Binding) returns (ok: bool)
    requires Named(nodes)
    ensures ok <==> BindingHolds(nodes, b)
  {
    if b.arrayName !in nodes || !W.IsArray(nodes[b.arrayName]) {
      return false;
    }
    var block := nodes[b.arrayName];
    var canonical := Canonicalise(b.uuid);
    if CanonicalUuid(b.uuid) {
      CanonicalIsFixed(b.uuid);
    }
    if block.device != b.device || block.diskSequence == 0 || block.diskSequence != b.diskSequence
        || canonical != Some(b.uuid)
       || !ValidLevel(b.level) || block.lower == [] || b.memberDisks == [] || !ReferencesHold(nodes, block) {
      return false;
    }
    var expected := GatherMembers(nodes, LowerNames(block));
    if expected.None? {
      return false;
    }
    ok := Sort(ByDevice, expected.value) == b.memberDisks;
    SortOrders(expected.value);
    if Ordered(b.memberDisks, expected.value) {
      OrderedIsSort(b.memberDisks, expected.value);
    }
  }

  ghost predicate Recorded(names: set<string>, uuids: set<string>, bindings: seq<Binding>, k: nat)
    requires k <= |bindings|
  {
    && (forall x :: x in names <==> exists j :: 0 <= j < k && bindings[j].arrayName == x)
    && (forall x :: x in uuids <==> exists j :: 0 <= j < k && bindings[j].uuid == x)
  }

  lemma RecordedStep(names: set<string>, uuids: set<string>, bindings: seq<Binding>, k: nat)
    requires k < |bindings| && Recorded(names, uuids, bindings, k)
    ensures Recorded(names + {bindings[k].arrayName}, uuids + {bindings[k].uuid}, bindings, k + 1)
  {
  }

  /** The first bindings hold, each under a name and a UUID of its own. */
  ghost predicate Accepted(nodes: Nodes, bindings: seq<Binding>, k: nat)
    requires Named(nodes) && k <= |bindings|
  {
    && BindingsDistinct(bindings, k)
    && forall j {:trigger BindingHolds(nodes, bindings[j])} :: 0 <= j < k ==> BindingHolds(nodes, bindings[j])
  }

  lemma AcceptedStep(nodes: Nodes, bindings: seq<Binding>, names: set<string>, uuids: set<string>, k: nat, holds: bool)
    requires Named(nodes) && k < |bindings| && Accepted(nodes, bindings, k) && Recorded(names, uuids, bindings, k)
    requires holds <==> BindingHolds(nodes, bindings[k])
    ensures if holds && bindings[k].arrayName !in names && bindings[k].uuid !in uuids then
              && Accepted(nodes, bindings, k + 1)
              && Recorded(names + {bindings[k].arrayName}, uuids + {bindings[k].uuid}, bindings, k + 1)
            else !Accepted(nodes, bindings, |bindings|)
  {
    RecordedStep(names, uuids, bindings, k);
    if bindings[k].arrayName in names {
      var j :| 0 <= j < k && bindings[j].arrayName == bindings[k].arrayName;
    } else if bindings[k].uuid in uuids {
      var j :| 0 <= j < k && bindings[j].uuid == bindings[k].uuid;
    }
  }

  method ValidateBindings(nodes: Nodes, bindings: seq<Binding>) returns (ok: bool)
    requires Named(nodes)
    ensures ok <==> BindingsHold(nodes, bindings)
  {
    if |bindings| > MAX_ARRAYS || |bindings| != |ArrayBlocks(nodes)| {
      return false;
    }
    var names: set<string>, uuids: set<string> := {}, {};
    for k := 0 to |bindings|
      invariant Accepted(nodes, bindings, k) && Recorded(names, uuids, bindings, k)
    {
      var b := bindings[k];
      var holds := CheckBinding(nodes, b);
      AcceptedStep(nodes, bindings, names, uuids, k, holds);
      if !holds || b.arrayName in names || b.uuid in uuids {
        return false;
      }
      names, uuids := names + {b.arrayName}, uuids + {b.uuid};
    }
    ok := true;
  }

  function ArrayNameSet(arrays: seq<MdArray>, n: nat): set<string>
    requires n <= |arrays|
  {
    if n == 0 then {} else ArrayNameSet(arrays, n - 1) + {arrays[n - 1].name}
  }

  lemma {:induction false} ArrayNameSetMembers(arrays: seq<MdArray>, n: nat, x: string)
    requires n <= |arrays|
    ensures x in ArrayNameSet(arrays, n) <==> exists i :: 0 <= i < n && arrays[i].name == x
  {
    if n > 0 {
      ArrayNameSetMembers(arrays, n - 1, x);
    }
  }

  lemma {:induction false} ArrayNameSetSize(arrays: seq<MdArray>, n: nat)
    requires n <= |arrays| && NamesDistinct(arrays, n)
    ensures |ArrayNameSet(arrays, n)| == n
  {
    if n > 0 {
      ArrayNameSetSize(arrays, n - 1);
      ArrayNameSetMembers(arrays, n - 1, arrays[n - 1].name);
    }
  }

  /** A correlation covers the inventory: the arrays are exactly the whole blocks with the name of an MD array. */
  lemma {:induction false} EveryArrayIsBound(storage: StorageSnapshot, md: MdSnapshot, name: string)
    requires Correlatable(storage, md)
    ensures (exists a :: a in md.arrays && a.name == name) <==>
              && name in Index(storage.observations) && Index(storage.observations)[name].kind.Block?
              && ValidMdName(name)
  {
    var nodes, n := Index(storage.observations), |md.arrays|;
    var names := ArrayNameSet(md.arrays, n);
    ArrayNameSetSize(md.arrays, n);
    ArrayNameSetMembers(md.arrays, n, name);
    forall x | x in names ensures x in ArrayBlocks(nodes) {
      ArrayNameSetMembers(md.arrays, n, x);
      var i :| 0 <= i < n && md.arrays[i].name == x;
      EveryReady(nodes, md.arrays, i);
    }
    SubsetFills(names, ArrayBlocks(nodes));
    if name in names {
      var i :| 0 <= i < n && md.arrays[i].name == name;
      assert md.arrays[i] in md.arrays;
    }
    if a :| a in md.arrays && a.name == name {
      var i :| 0 <= i < n && md.arrays[i] == a;
    }
  }

  // -- Whatever is correlated is accepted ------------------------------------------------------------

  lemma BoundHolds(storage: StorageSnapshot, arrays: seq<MdArray>, a: MdArray, b: Binding)
    requires Complete(storage) && a in arrays && Searchable(arrays, |arrays|)
    requires Bound(Index(storage.observations), arrays, a, b)
    ensures BindingHolds(Index(storage.observations), b)
  {
    var nodes := Index(storage.observations);
    var block := nodes[a.name];
    var i := A.CompleteNode(storage.observations, a.name);
    assert LowerLinked(nodes, block, |block.lower|);
    GatheredPermutes(nodes, a.members, LowerNames(block));
    SoundPermutes(Gathered(nodes, a.members).value, Gathered(nodes, LowerNames(block)).value);
    OwnUuidIn(arrays, a);
    GatheredNonempty(nodes, a.members);
    assert |multiset(a.members)| == |a.members| && |multiset(LowerNames(block))| == |LowerNames(block)|;
  }

  lemma OwnUuidIn(arrays: seq<MdArray>, a: MdArray)
    requires a in arrays && Searchable(arrays, |arrays|)
    ensures CanonicalUuid(a.uuid)
  {
    var i :| 0 <= i < |arrays| && arrays[i] == a;
    assert ArrayUsable(arrays[i]);
  }

  lemma {:induction false} GatheredNonempty(nodes: Nodes, members: seq<string>)
    requires Named(nodes) && Gathered(nodes, members).Some? && members != []
    ensures Gathered(nodes, members).value != []
  {
  }

  lemma SingularPlace(arrays: seq<MdArray>, i: nat, j: nat)
    requires i < |arrays| && j < |arrays| && Searchable(arrays, |arrays|) && Singular(arrays, arrays[i])
    requires arrays[i].uuid == arrays[j].uuid
    ensures i == j
  {
    var places := Places(arrays, |arrays|, arrays[i].uuid);
    PlacesMembers(arrays, |arrays|, arrays[i].uuid);
    assert ArrayUsable(arrays[i]) && ArrayUsable(arrays[j]);
    assert i in places && j in places;
    assert places == [places[0]];
  }

  lemma {:induction false} CorrelatedHolds(storage: StorageSnapshot, arrays: seq<MdArray>, bindings: seq<Binding>,
                                           k: nat)
    requires Complete(storage) && k < |bindings| == |arrays| && Searchable(arrays, |arrays|)
    requires Each(bindings, BoundAt(Index(storage.observations), arrays))
    ensures BindingHolds(Index(storage.observations), bindings[k])
  {
    EachAt(bindings, BoundAt(Index(storage.observations), arrays), k);
    BoundHolds(storage, arrays, arrays[k], bindings[k]);
  }

  lemma {:induction false} CorrelatedApart(nodes: Nodes, arrays: seq<MdArray>, bindings: seq<Binding>, i: nat, j: nat)
    requires Named(nodes) && i < j < |bindings| == |arrays| && Searchable(arrays, |arrays|)
    requires Each(bindings, BoundAt(nodes, arrays))
    ensures bindings[i].arrayName != bindings[j].arrayName && bindings[i].uuid != bindings[j].uuid
  {
    EachAt(bindings, BoundAt(nodes, arrays), i);
    EachAt(bindings, BoundAt(nodes, arrays), j);
    if arrays[i].uuid == arrays[j].uuid {
      SingularPlace(arrays, i, j);
    }
    assert NamesDistinct(arrays, |arrays|);
  }

  /** Bindings in member order, sorted by device number, are those re-derived in lower-block order. */
  lemma {:induction false} CorrelatedIsValid(storage: StorageSnapshot, md: MdSnapshot, bindings: seq<Binding>)
    requires Correlatable(storage, md) && |bindings| == |md.arrays|
    requires Each(bindings, BoundAt(Index(storage.observations), md.arrays))
    ensures BindingsHold(Index(storage.observations), bindings)
  {
    var nodes := Index(storage.observations);
    forall k | 0 <= k < |bindings| ensures BindingHolds(nodes, bindings[k]) {
      CorrelatedHolds(storage, md.arrays, bindings, k);
    }
    forall i, j | 0 <= i < j < |bindings|
      ensures bindings[i].arrayName != bindings[j].arrayName && bindings[i].uuid != bindings[j].uuid
    {
      CorrelatedApart(nodes, md.arrays, bindings, i, j);
    }
  }

  // -- One way down to every disk --------------------------------------------------------------------

  predicate SameListed(list: seq<MemberDisk>, disks: seq<BlockNode>) {
    |list| == |disks| && forall k :: 0 <= k < |list| ==> list[k].device == disks[k].device
  }

  function Members(members: seq<string>): set<string> {
    if members == [] then {} else Members(members[..|members| - 1]) + {members[|members| - 1]}
  }

  lemma {:induction false} MembersMeans(members: seq<string>)
    ensures forall x :: x in Members(members) <==> x in members
  {
    if members != [] {
      MembersMeans(members[..|members| - 1]);
      assert members == members[..|members| - 1] + [members[|members| - 1]];
    }
  }

  lemma SameListedJoin(member: string, list: seq<MemberDisk>, disks: seq<BlockNode>, here: seq<BlockNode>)
    requires SameListed(list, disks)
    ensures SameListed(list + MemberDisks(member, here), disks + here)
  {
  }

  lemma {:induction false} GatheredLists(nodes: Nodes, members: seq<string>)
    returns (disks: seq<BlockNode>, paths: seq<seq<string>>)
    requires Named(nodes) && Gathered(nodes, members).Some?
    requires forall i, j :: 0 <= i < j < |members| ==> members[i] != members[j]
    ensures SameListed(Gathered(nodes, members).value, disks) && Lists(nodes, Members(members), disks, paths)
  {
    if members == [] {
      ListsNothing(nodes);
      disks, paths := [], [];
    } else {
      var rest, last := members[..|members| - 1], members[|members| - 1];
      var ds, ps := GatheredLists(nodes, rest);
      var here := DisksBehind(nodes[last], nodes, {}).value;
      var qs := DisksBehindLists(nodes[last], nodes, {});
      MembersMeans(rest);
      ListsUnion(nodes, Members(rest), {last}, ds, ps, here, qs);
      SameListedJoin(last, Gathered(nodes, rest).value, ds, here);
      disks, paths := ds + here, ps + qs;
    }
  }

  /** An accepted binding means that there is exactly one way down from the array to each physical disk. */
  lemma OneWayDown(obs: seq<BlockNode>, b: Binding, p: seq<string>, q: seq<string>, disk: BlockNode)
    requires CompleteInventory(obs) && BindingHolds(Index(obs), b)
    requires Descent(Index(obs), {b.arrayName}, p, disk) && Descent(Index(obs), {b.arrayName}, q, disk)
    ensures p == q
  {
    var nodes := Index(obs);
    var n := b.arrayName;
    var i := A.CompleteNode(obs, n);
    var names := LowerNames(nodes[n]);
    assert LowerDistinct(nodes[n], |nodes[n].lower|);
    var disks, paths := GatheredLists(nodes, names);
    MembersMeans(names);
    ListsUnder(nodes, n, Members(names), disks, paths);
    var all := Under(n, paths);
    var j :| 0 <= j < |all| && all[j] == p;
    var k :| 0 <= k < |all| && all[k] == q;
    assert Descent(nodes, {n}, all[j], disks[j]) && Descent(nodes, {n}, all[k], disks[k]);
    assert disks[j].device == disks[k].device;
  }

  /** No two members of an accepted binding share a disk. */
  lemma MembersShareNoDisk(obs: seq<BlockNode>, b: Binding, i: nat, j: nat, disk: BlockNode)
    requires CompleteInventory(obs) && BindingHolds(Index(obs), b)
    requires i < j < |Index(obs)[b.arrayName].lower| && disk.name in Index(obs) && Index(obs)[disk.name] == disk
    requires IsLeaf(disk)
    ensures !(Reaches(LeafGraph(Index(obs)), Index(obs)[b.arrayName].lower[i].name, disk.name) &&
              Reaches(LeafGraph(Index(obs)), Index(obs)[b.arrayName].lower[j].name, disk.name))
  {
    var nodes, n := Index(obs), b.arrayName;
    var g, block := LeafGraph(nodes), nodes[n];
    var at := A.CompleteNode(obs, n);
    assert LowerDistinct(block, |block.lower|);
    if Reaches(g, block.lower[i].name, disk.name) && Reaches(g, block.lower[j].name, disk.name) {
      var p :| Joins(g, p, block.lower[i].name, disk.name);
      var q :| Joins(g, q, block.lower[j].name, disk.name);
      LowerLeafEdges(nodes, n);
      PathPrepend(g, n, p);
      PathPrepend(g, n, q);
      assert ([n] + p)[1] == p[0] && ([n] + q)[1] == q[0];
      OneWayDown(obs, b, [n] + p, [n] + q, disk);
    }
  }

  /** The disk is a physical leaf below the node. */
  ghost predicate DiskBelow(nodes: Nodes, n: string, disk: BlockNode) {
    disk.name in nodes && nodes[disk.name] == disk && IsLeaf(disk) && Reaches(LeafGraph(nodes), n, disk.name)
  }

  lemma DisksOfMembers(nodes: Nodes, member: string, m: MemberDisk)
    requires Named(nodes) && DisksOf(nodes, member).Some?
    ensures m in DisksOf(nodes, member).value <==>
              exists disk :: DiskBelow(nodes, member, disk) && m == MemberDiskOf(member, disk)
  {
    var disks := DisksBehind(nodes[member], nodes, {}).value;
    forall disk ensures disk in disks <==> DiskBelow(nodes, member, disk) {
      DisksBehindMembers(nodes[member], nodes, disk);
    }
    var list := MemberDisks(member, disks);
    if m in list {
      var k :| 0 <= k < |list| && list[k] == m;
      assert disks[k] in disks;
    }
    forall disk | disk in disks ensures MemberDiskOf(member, disk) in list {
      var k :| 0 <= k < |disks| && disks[k] == disk;
      assert list[k] == MemberDiskOf(member, disk);
    }
  }

  lemma {:induction false} GatheredMembers(nodes: Nodes, members: seq<string>, m: MemberDisk)
    requires Named(nodes) && Gathered(nodes, members).Some?
    ensures m in Gathered(nodes, members).value <==>
            exists x, disk :: x in members && DiskBelow(nodes, x, disk) && m == MemberDiskOf(x, disk)
  {
    if members != [] {
      var rest, last := members[..|members| - 1], members[|members| - 1];
      assert members == rest + [last];
      GatheredMembers(nodes, rest, m);
      DisksOfMembers(nodes, last, m);
    }
  }

  /** The entry names the member and describes the disk, whose identity no other disk shares. */
  predicate Describes(m: MemberDisk, member: string, disk: BlockNode) {
    && m.memberName == member && m.diskName == disk.name && m.device == disk.device
    && m.diskSequence == disk.diskSequence && m.serialStatus == disk.serialStatus && m.wwnStatus == disk.wwnStatus
    && m.serialEvidence == disk.serialEvidence && m.wwnEvidence == disk.wwnEvidence
  }

  /** An accepted binding lists exactly the physical disks below each lower block of its array, as they are, and all
      of them are identified. */
  lemma BindingListsDisks(nodes: Nodes, b: Binding, m: MemberDisk)
    requires Named(nodes) && BindingHolds(nodes, b)
    ensures m in b.memberDisks <==>
            exists x, disk ::
              x in LowerNames(nodes[b.arrayName]) && DiskBelow(nodes, x, disk) && Describes(m, x, disk)
    ensures m in b.memberDisks ==>
              && m.serialStatus != Ambiguous && m.wwnStatus != Ambiguous
              && ((m.serialStatus == Present && m.serialEvidence != 0)
                  || (m.wwnStatus == Present && m.wwnEvidence != 0))
    ensures nodes[b.arrayName].device == b.device && nodes[b.arrayName].diskSequence == b.diskSequence
    ensures forall i, j :: 0 <= i < j < |b.memberDisks| ==>
              var x, y := b.memberDisks[i].device, b.memberDisks[j].device;
              x.major < y.major || (x.major == y.major && x.minor < y.minor)
  {
    OrderedStrictly(b.memberDisks, Gathered(nodes, LowerNames(nodes[b.arrayName])).value);
    if m in b.memberDisks {
      OrderedIsIdentified(b.memberDisks, Gathered(nodes, LowerNames(nodes[b.arrayName])).value, m);
    }
    ListsDisks(nodes, b, m);
    DescribesAll(m);
  }

  lemma OrderedStrictly(list: seq<MemberDisk>, disks: seq<MemberDisk>)
    requires Sound(disks) && Ordered(list, disks)
    ensures forall i, j :: 0 <= i < j < |list| ==>
              var x, y := list[i].device, list[j].device;
              x.major < y.major || (x.major == y.major && x.minor < y.minor)
  {
    SoundPermutes(disks, list);
    forall i, j | 0 <= i < j < |list|
      ensures list[i].device.major < list[j].device.major
              || (list[i].device.major == list[j].device.major && list[i].device.minor < list[j].device.minor)
    {
      assert ByDevice(list[i], list[j]) && list[i].device != list[j].device;
    }
  }

  lemma OrderedIsIdentified(list: seq<MemberDisk>, disks: seq<MemberDisk>, m: MemberDisk)
    requires Sound(disks) && Ordered(list, disks) && m in list
    ensures m.serialStatus != Ambiguous && m.wwnStatus != Ambiguous
    ensures (m.serialStatus == Present && m.serialEvidence != 0) || (m.wwnStatus == Present && m.wwnEvidence != 0)
  {
    assert m in multiset(list);
    assert m in multiset(disks);
    assert Evident(m);
  }

  lemma DescribesAll(m: MemberDisk)
    ensures forall x, disk :: m == MemberDiskOf(x, disk) <==> Describes(m, x, disk)
  {
  }

  lemma ListsDisks(nodes: Nodes, b: Binding, m: MemberDisk)
    requires Named(nodes) && BindingHolds(nodes, b)
    ensures m in b.memberDisks <==>
            exists x, disk ::
              x in LowerNames(nodes[b.arrayName]) && DiskBelow(nodes, x, disk) && m == MemberDiskOf(x, disk)
  {
    var gathered := Gathered(nodes, LowerNames(nodes[b.arrayName])).value;
    GatheredMembers(nodes, LowerNames(nodes[b.arrayName]), m);
    assert m in multiset(b.memberDisks) <==> m in multiset(gathered);
  }
}
