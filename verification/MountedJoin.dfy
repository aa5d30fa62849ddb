/** The join of mounted anchors with one block inventory and the MD bindings made from it. */
module MountedJoins {
  import opened Basics
  import opened Graphs
  import opened Sorting
  import opened BlockInventory
  import opened SourceSets
  import opened LeafSearches
  import opened MdBindings
  import opened MountedIdentities
  import W = ArraySearches
  import A = Agreement

  // -- Physical disks --------------------------------------------------------------------------------

  function DiskIdentity(disk: BlockNode): PhysicalDisk {
    PhysicalDisk(disk.name, disk.device, disk.diskSequence, disk.serialStatus, disk.wwnStatus, disk.serialEvidence,
                 disk.wwnEvidence)
  }

  function DiskIdentities(disks: seq<BlockNode>): (r: seq<PhysicalDisk>)
    ensures |r| == |disks| && forall i :: 0 <= i < |r| ==> r[i] == DiskIdentity(disks[i])
  {
    seq(|disks|, i requires 0 <= i < |disks| => DiskIdentity(disks[i]))
  }

  predicate DevicesDiffer(disks: seq<BlockNode>, n: nat)
    requires n <= |disks|
  {
    forall i, j :: 0 <= i < j < n ==> disks[i].device != disks[j].device
  }

  predicate ByNumber(a: PhysicalDisk, b: PhysicalDisk) {
    a.device.major < b.device.major || (a.device.major == b.device.major && a.device.minor <= b.device.minor)
  }

  /** The identities of the disks, in device order. */
  ghost predicate InOrder(list: seq<PhysicalDisk>, disks: seq<BlockNode>) {
    multiset(list) == multiset(DiskIdentities(disks)) && SortedBy(ByNumber, list)
  }

  lemma ByNumberIsTotal()
    ensures TotalOrder(ByNumber)
    ensures forall a, b :: ByNumber(a, b) && ByNumber(b, a) ==> a.device == b.device
  {
  }

  /** Distinct device numbers leave only one order. */
  lemma OneOrder(a: seq<PhysicalDisk>, b: seq<PhysicalDisk>, disks: seq<BlockNode>)
    requires DevicesDiffer(disks, |disks|) && InOrder(a, disks) && InOrder(b, disks)
    ensures a == b
  {
    ByNumberIsTotal();
    var raw := DiskIdentities(disks);
    forall i, j | 0 <= i < |a| && 0 <= j < |a| && a[i].device == a[j].device ensures a[i] == a[j] {
      assert a[i] in multiset(raw) && a[j] in multiset(raw);
      var k :| 0 <= k < |raw| && raw[k] == a[i];
      var l :| 0 <= l < |raw| && raw[l] == a[j];
    }
    SortedUnique(ByNumber, a, b);
  }

  method OrderDisks(disks: seq<BlockNode>) returns (r: Option<seq<PhysicalDisk>>)
    ensures r.Some? <==> DevicesDiffer(disks, |disks|)
    ensures r.Some? ==> InOrder(r.value, disks)
  {
    var list := ListDisks(disks);
    if list.None? {
      return None;
    }
    SortIsInOrder(disks);
    r := Some(Sort(ByNumber, list.value));
  }

  method ListDisks(disks: seq<BlockNode>) returns (r: Option<seq<PhysicalDisk>>)
    ensures r.Some? <==> DevicesDiffer(disks, |disks|)
    ensures r.Some? ==> r.value == DiskIdentities(disks)
  {
    var seen: set<DeviceNumber> := {};
    var list: seq<PhysicalDisk> := [];
    for i := 0 to |disks|
      invariant DevicesDiffer(disks, i) && seen == set j | 0 <= j < i :: disks[j].device
      invariant |list| == i && forall j :: 0 <= j < i ==> list[j] == DiskIdentity(disks[j])
    {
      if disks[i].device in seen {
        return None;
      }
      seen, list := seen + {disks[i].device}, list + [DiskIdentity(disks[i])];
    }
    r := Some(list);
  }

  lemma SortIsInOrder(disks: seq<BlockNode>)
    ensures InOrder(Sort(ByNumber, DiskIdentities(disks)), disks)
  {
    ByNumberIsTotal();
    SortSorts(ByNumber, DiskIdentities(disks));
  }

  // -- The bindings by name --------------------------------------------------------------------------

  function BindingIndex(bindings: seq<Binding>, n: nat): (m: map<string, Binding>)
    requires n <= |bindings|
    ensures forall k :: 0 <= k < n ==> bindings[k].arrayName in m
    ensures forall x :: x in m ==> m[x].arrayName == x
  {
    if n == 0 then map[] else BindingIndex(bindings, n - 1)[bindings[n - 1].arrayName := bindings[n - 1]]
  }

  lemma {:induction false} BindingIndexSource(bindings: seq<Binding>, n: nat, x: string) returns (k: nat)
    requires n <= |bindings| && x in BindingIndex(bindings, n)
    ensures k < n && bindings[k] == BindingIndex(bindings, n)[x] && bindings[k].arrayName == x
  {
    k := n - 1;
    if bindings[n - 1].arrayName != x {
      k := BindingIndexSource(bindings, n - 1, x);
    }
  }

  lemma {:induction false} BindingIndexSize(bindings: seq<Binding>, n: nat)
    requires n <= |bindings| && BindingsDistinct(bindings, n)
    ensures |BindingIndex(bindings, n).Keys| == n
  {
    if n > 0 {
      BindingIndexSize(bindings, n - 1);
      var before, name := BindingIndex(bindings, n - 1), bindings[n - 1].arrayName;
      if name in before {
        var k := BindingIndexSource(bindings, n - 1, name);
        assert false;
      }
      assert BindingIndex(bindings, n).Keys == before.Keys + {name};
    }
  }

  /** Accepted bindings cover every array of the inventory, so the lookup of an array never fails. */
  lemma {:induction false} BindingsCover(nodes: Nodes, bindings: seq<Binding>, name: string)
    requires Named(nodes) && BindingsHold(nodes, bindings) && name in ArrayBlocks(nodes)
    ensures name in BindingIndex(bindings, |bindings|)
  {
    var bound := BindingIndex(bindings, |bindings|).Keys;
    BindingIndexSize(bindings, |bindings|);
    forall x | x in bound ensures x in ArrayBlocks(nodes) {
      var k := BindingIndexSource(bindings, |bindings|, x);
      assert BindingHolds(nodes, bindings[k]);
    }
    SubsetFills(bound, ArrayBlocks(nodes));
  }

  // -- The join --------------------------------------------------------------------------------------

  function DeviceIndex(obs: seq<BlockNode>, n: nat): (m: map<DeviceNumber, BlockNode>)
    requires n <= |obs|
    ensures forall d :: d in m <==> exists i :: 0 <= i < n && obs[i].device == d
    ensures forall d :: d in m ==> m[d] in obs && m[d].device == d
  {
    if n == 0 then map[] else DeviceIndex(obs, n - 1)[obs[n - 1].device := obs[n - 1]]
  }

  /** The filesystem's device leads to physical disks, each by one way, through a clean stack. */
  ghost predicate Resolvable(obs: seq<BlockNode>, m: MountedFilesystem) {
    && m.device in DeviceIndex(obs, |obs|)
    && var source := DeviceIndex(obs, |obs|)[m.device];
       && source.name in Index(obs) && Index(obs)[source.name] == source
       && var disks := DisksBehind(source, Index(obs), {});
          disks.Some? && disks.value != [] && DevicesDiffer(disks.value, |disks.value|)
          && W.WalkClean(Index(obs), source.name)
  }

  function NamesBound(arrays: seq<Binding>): (names: seq<string>)
    ensures |names| == |arrays| && forall k :: 0 <= k < |names| ==> names[k] == arrays[k].arrayName
  {
    seq(|arrays|, k requires 0 <= k < |arrays| => arrays[k].arrayName)
  }

  /** The bindings of exactly the arrays in the stack, in name order. */
  ghost predicate ArraysBound(obs: seq<BlockNode>, bindings: seq<Binding>, source: string, arrays: seq<Binding>) {
    && ListsSet(NamesBound(arrays), W.ArraysBehind(Index(obs), source))
    && forall k :: 0 <= k < |arrays| ==>
         arrays[k].arrayName in BindingIndex(bindings, |bindings|)
         && arrays[k] == BindingIndex(bindings, |bindings|)[arrays[k].arrayName]
  }

  /** The identity is the one the inventories determine for the mounted filesystem. */
  ghost predicate IdentityFor(obs: seq<BlockNode>, bindings: seq<Binding>, conflicts: set<string>,
                              m: MountedFilesystem, id: MountedIdentity)
  {
    && Resolvable(obs, m)
    && var source := DeviceIndex(obs, |obs|)[m.device];
       && id ==
            MountedIdentity(m.anchor, m.uuid, m.mountId, m.device, source.name, m.uuid in conflicts, id.arrays,
                            id.disks)
       && ArraysBound(obs, bindings, source.name, id.arrays)
       && InOrder(id.disks, DisksBehind(source, Index(obs), {}).value)
  }

  lemma OneArrayList(obs: seq<BlockNode>, bindings: seq<Binding>, source: string, a: seq<Binding>, b: seq<Binding>)
    requires ArraysBound(obs, bindings, source, a) && ArraysBound(obs, bindings, source, b)
    ensures a == b
  {
    AscendingListUnique(NamesBound(a), NamesBound(b), W.ArraysBehind(Index(obs), source));
    assert |NamesBound(a)| == |a| && |NamesBound(b)| == |b|;
    forall k | 0 <= k < |a| ensures a[k] == b[k] {
      assert NamesBound(a)[k] == NamesBound(b)[k];
    }
  }

  /** Rebuilding the identity of one filesystem gives the same identity. */
  lemma OneIdentity(obs: seq<BlockNode>, bindings: seq<Binding>, conflicts: set<string>, m: MountedFilesystem,
                    a: MountedIdentity, b: MountedIdentity)
    requires IdentityFor(obs, bindings, conflicts, m, a) && IdentityFor(obs, bindings, conflicts, m, b)
    ensures a == b
  {
    var source := DeviceIndex(obs, |obs|)[m.device];
    OneOrder(a.disks, b.disks, DisksBehind(source, Index(obs), {}).value);
    OneArrayList(obs, bindings, source.name, a.arrays, b.arrays);
  }

  method BoundArrays(obs: seq<BlockNode>, bindings: seq<Binding>, source: string, names: seq<string>)
    returns (arrays: seq<Binding>)
    requires BindingsHold(Index(obs), bindings) && ListsSet(names, W.ArraysBehind(Index(obs), source))
    ensures ArraysBound(obs, bindings, source, arrays)
  {
    var bound := BindingIndex(bindings, |bindings|);
    arrays := [];
    for k := 0 to |names|
      invariant NamesBound(arrays) == names[..k]
      invariant forall j ::
                  0 <= j < |arrays| ==> arrays[j].arrayName in bound && arrays[j] == bound[arrays[j].arrayName]
    {
      assert names[k] in W.ArraysBehind(Index(obs), source);
      BindingsCover(Index(obs), bindings, names[k]);
      arrays := arrays + [bound[names[k]]];
    }
    assert names[..|names|] == names;
  }

  method Identify(obs: seq<BlockNode>, bindings: seq<Binding>, conflicts: set<string>, m: MountedFilesystem)
    returns (r: Option<MountedIdentity>)
    requires CompleteInventory(obs) && BindingsHold(Index(obs), bindings)
    ensures r.Some? <==> Resolvable(obs, m)
    ensures r.Some? ==> IdentityFor(obs, bindings, conflicts, m, r.value)
  {
    var devices, nodes := DeviceIndex(obs, |obs|), Index(obs);
    if m.device !in devices {
      return None;
    }
    var source := devices[m.device];
    A.Located(obs, source);
    var disks := PhysicalDisksBehind(source, nodes, {});
    if disks.None? || disks.value == [] {
      return None;
    }
    var names := W.MdArraysBehind(source, nodes);
    if names.None? {
      return None;
    }
    var arrays := BoundArrays(obs, bindings, source.name, names.value);
    var ordered := OrderDisks(disks.value);
    if ordered.None? {
      return None;
    }
    r := Some(MountedIdentity(m.anchor, m.uuid, m.mountId, m.device, source.name, m.uuid in conflicts, arrays,
                              ordered.value));
  }

  ghost function ResolvableAt(obs: seq<BlockNode>, mounts: seq<MountedFilesystem>): nat -> bool {
    (k: nat) => k < |mounts| && Resolvable(obs, mounts[k])
  }

  ghost function IdentityAt(obs: seq<BlockNode>, bindings: seq<Binding>, mounts: seq<MountedFilesystem>)
    : (nat, MountedIdentity) -> bool
  {
    (k: nat, id: MountedIdentity) => k < |mounts| && IdentityFor(obs, bindings, ConflictSet(mounts), mounts[k], id)
  }

  /** A complete inventory, valid mounts, valid bindings, and every mount resolvable. */
  ghost predicate Joinable(storage: StorageSnapshot, bindings: seq<Binding>, inv: MountedInventory) {
    && Complete(storage) && InventoryHolds(inv) && BindingsHold(Index(storage.observations), bindings)
    && Every(|inv.mounts|, ResolvableAt(storage.observations, inv.mounts))
  }

  method CorrelateMounted(storage: StorageSnapshot, bindings: seq<Binding>, inv: MountedInventory)
    returns (r: Option<seq<MountedIdentity>>)
    ensures r.Some? <==> Joinable(storage, bindings, inv)
    ensures r.Some? ==>
              |r.value| == |inv.mounts| && Each(r.value, IdentityAt(storage.observations, bindings, inv.mounts))
    ensures r.Some? ==>
              forall k :: 0 <= k < |r.value| ==>
                IdentityMeans(Index(storage.observations), bindings, inv.mounts, inv.mounts[k], r.value[k])
  {
    var devices := CompleteDeviceSet(storage);
    if devices.None? {
      return None;
    }
    var conflicts := ValidateInventory(inv);
    if conflicts.None? {
      return None;
    }
    var held := ValidateBindings(Index(storage.observations), bindings);
    if !held {
      return None;
    }
    r := IdentifyAll(storage.observations, bindings, inv.mounts, conflicts.value);
    if r.Some? {
      IdentitiesAreMeant(storage.observations, bindings, inv.mounts, r.value);
    }
  }

  lemma {:induction false} IdentitiesAreMeant(obs: seq<BlockNode>, bindings: seq<Binding>,
                                              mounts: seq<MountedFilesystem>, ids: seq<MountedIdentity>)
    requires CompleteInventory(obs) && |ids| == |mounts| && Each(ids, IdentityAt(obs, bindings, mounts))
    ensures forall k :: 0 <= k < |ids| ==> IdentityMeans(Index(obs), bindings, mounts, mounts[k], ids[k])
  {
    forall k | 0 <= k < |ids| ensures IdentityMeans(Index(obs), bindings, mounts, mounts[k], ids[k]) {
      EachAt(ids, IdentityAt(obs, bindings, mounts), k);
      IdentityIsMeant(obs, bindings, mounts, mounts[k], ids[k]);
    }
  }

  method IdentifyAll(obs: seq<BlockNode>, bindings: seq<Binding>, mounts: seq<MountedFilesystem>,
                     conflicts: set<string>)
    returns (r: Option<seq<MountedIdentity>>)
    requires CompleteInventory(obs) && BindingsHold(Index(obs), bindings) && conflicts == ConflictSet(mounts)
    ensures r.Some? <==> Every(|mounts|, ResolvableAt(obs, mounts))
    ensures r.Some? ==> |r.value| == |mounts| && Each(r.value, IdentityAt(obs, bindings, mounts))
  {
    var ids: seq<MountedIdentity> := [];
    ghost var p, q := ResolvableAt(obs, mounts), IdentityAt(obs, bindings, mounts);
    for k := 0 to |mounts|
      invariant |ids| == k && Every(k, p) && Each(ids, q)
    {
      var id := Identify(obs, bindings, conflicts, mounts[k]);
      if id.None? {
        if Every(|mounts|, p) {
          EveryAt(|mounts|, p, k);
        }
        return None;
      }
      EachMore(ids, q, id.value);
      ids := ids + [id.value];
    }
    r := Some(ids);
  }

  // -- What an identity means ------------------------------------------------------------------------

  /** The physical disks below the node. */
  ghost function Leaves(nodes: Nodes, a: string): set<string> {
    set n | n in nodes && nodes[n].kind.Block? && nodes[n].lower == [] && Reaches(LeafGraph(nodes), a, n)
  }

  /** The MD arrays in the node's stack. */
  ghost function MdBlocks(nodes: Nodes, a: string): set<string> {
    set n | n in nodes && nodes[n].kind.Block? && ValidMdName(n) && Reaches(LeafGraph(nodes), a, n)
  }

  predicate DiskDescribes(d: PhysicalDisk, node: BlockNode) {
    && d.diskName == node.name && d.device == node.device && d.diskSequence == node.diskSequence
    && d.serialStatus == node.serialStatus && d.wwnStatus == node.wwnStatus
    && d.serialEvidence == node.serialEvidence && d.wwnEvidence == node.wwnEvidence
  }

  predicate Precedes(a: DeviceNumber, b: DeviceNumber) {
    a.major < b.major || (a.major == b.major && a.minor <= b.minor)
  }

  ghost predicate ListsLeaves(nodes: Nodes, a: string, disks: seq<PhysicalDisk>) {
    && |disks| == |Leaves(nodes, a)|
    && (forall i, j :: 0 <= i < j < |disks| ==> Precedes(disks[i].device, disks[j].device))
    && (forall d :: d in disks ==> d.diskName in Leaves(nodes, a) && DiskDescribes(d, nodes[d.diskName]))
    && (forall n :: n in Leaves(nodes, a) ==> exists d :: d in disks && d.diskName == n)
  }

  ghost predicate ListsArrays(nodes: Nodes, a: string, bindings: seq<Binding>, arrays: seq<Binding>) {
    && |arrays| == |MdBlocks(nodes, a)|
    && (forall b :: b in arrays ==> b in bindings && b.arrayName in MdBlocks(nodes, a))
    && (forall n :: n in MdBlocks(nodes, a) ==> exists b :: b in arrays && b.arrayName == n)
  }

  /** The identity names the one node with the device of the mount, every physical disk below it and every MD array
      in its stack. */
  ghost predicate IdentityMeans(nodes: Nodes, bindings: seq<Binding>, mounts: seq<MountedFilesystem>,
                                m: MountedFilesystem, id: MountedIdentity)
  {
    && id.sourceName in nodes && nodes[id.sourceName].device == m.device
    && (forall n :: n in nodes && nodes[n].device == m.device ==> n == id.sourceName)
    && id.anchor == m.anchor && id.uuid == m.uuid && id.mountId == m.mountId && id.device == m.device
    && (id.uuidConflict <==> m.uuid in ConflictSet(mounts))
    && ListsLeaves(nodes, id.sourceName, id.disks) && ListsArrays(nodes, id.sourceName, bindings, id.arrays)
  }

  lemma {:induction false} NamesCount(disks: seq<BlockNode>, names: set<string>)
    requires forall i, j :: 0 <= i < j < |disks| ==> disks[i].name != disks[j].name
    requires forall x :: x in names <==> exists i :: 0 <= i < |disks| && disks[i].name == x
    ensures |disks| == |names|
  {
    if disks == [] {
      assert names == {};
    } else {
      var n := |disks| - 1;
      var last := disks[n].name;
      assert last in names;
      forall x ensures x in names - {last} <==> exists i :: 0 <= i < n && disks[..n][i].name == x {
        if x in names - {last} {
          var i :| 0 <= i < |disks| && disks[i].name == x;
          assert disks[..n][i].name == x;
        }
      }
      NamesCount(disks[..n], names - {last});
    }
  }

  lemma {:induction false} ListCounts(list: seq<string>, s: set<string>)
    requires ListsSet(list, s)
    ensures |list| == |s|
  {
    if list == [] {
      assert s == {};
    } else {
      AscendingTail(list, s);
      ListCounts(list[1..], s - {list[0]});
      assert list[0] in s;
    }
  }

  lemma {:induction false} DisksAreLeaves(nodes: Nodes, source: BlockNode, disks: seq<BlockNode>)
    requires Named(nodes) && source.name in nodes && nodes[source.name] == source
    requires DisksBehind(source, nodes, {}) == Some(disks) && DevicesDiffer(disks, |disks|)
    ensures |disks| == |Leaves(nodes, source.name)|
    ensures forall disk :: disk in disks <==> disk.name in Leaves(nodes, source.name) && nodes[disk.name] == disk
  {
    forall disk ensures disk in disks <==> disk.name in Leaves(nodes, source.name) && nodes[disk.name] == disk {
      DisksBehindMembers(source, nodes, disk);
    }
    forall i, j | 0 <= i < j < |disks| ensures disks[i].name != disks[j].name {
      assert disks[i] in disks && disks[j] in disks;
    }
    forall x ensures x in Leaves(nodes, source.name) <==> exists i :: 0 <= i < |disks| && disks[i].name == x {
      if x in Leaves(nodes, source.name) {
        assert nodes[x] in disks;
      }
    }
    NamesCount(disks, Leaves(nodes, source.name));
  }

  lemma {:induction false} DisksAreListed(nodes: Nodes, source: BlockNode, disks: seq<BlockNode>,
                                          list: seq<PhysicalDisk>)
    requires Named(nodes) && source.name in nodes && nodes[source.name] == source
    requires DisksBehind(source, nodes, {}) == Some(disks) && DevicesDiffer(disks, |disks|) && InOrder(list, disks)
    ensures ListsLeaves(nodes, source.name, list)
  {
    DisksAreLeaves(nodes, source, disks);
    forall i, j | 0 <= i < j < |list| ensures Precedes(list[i].device, list[j].device) {
      assert ByNumber(list[i], list[j]);
    }
    var raw := DiskIdentities(disks);
    assert |list| == |multiset(list)| == |raw|;
    forall d | d in list ensures d.diskName in Leaves(nodes, source.name) && DiskDescribes(d, nodes[d.diskName]) {
      assert d in multiset(raw);
      var k :| 0 <= k < |raw| && raw[k] == d;
      assert disks[k] in disks;
    }
    forall n | n in Leaves(nodes, source.name) ensures exists d :: d in list && d.diskName == n {
      assert nodes[n] in disks;
      var k :| 0 <= k < |disks| && disks[k] == nodes[n];
      assert raw[k] in multiset(list);
    }
  }

  lemma ArraysAreListed(obs: seq<BlockNode>, bindings: seq<Binding>, source: string, arrays: seq<Binding>)
    requires ArraysBound(obs, bindings, source, arrays)
    ensures ListsArrays(Index(obs), source, bindings, arrays)
  {
    var names := NamesBound(arrays);
    assert W.ArraysBehind(Index(obs), source) == MdBlocks(Index(obs), source);
    ListCounts(names, MdBlocks(Index(obs), source));
    forall b | b in arrays ensures b in bindings && b.arrayName in MdBlocks(Index(obs), source) {
      var k :| 0 <= k < |arrays| && arrays[k] == b;
      assert names[k] in names;
      var i := BindingIndexSource(bindings, |bindings|, b.arrayName);
    }
    forall n | n in MdBlocks(Index(obs), source) ensures exists b :: b in arrays && b.arrayName == n {
      assert n in names;
      var k :| 0 <= k < |names| && names[k] == n;
      assert arrays[k] in arrays;
    }
  }

  lemma OneNode(obs: seq<BlockNode>, a: string, b: string)
    requires CompleteInventory(obs) && a in Index(obs) && b in Index(obs)
    requires Index(obs)[a].device == Index(obs)[b].device
    ensures a == b
  {
    var i := A.CompleteNode(obs, a);
    var j := A.CompleteNode(obs, b);
    assert i < j ==> Apart(obs[i], obs[j]);
    assert j < i ==> Apart(obs[j], obs[i]);
  }

  lemma IdentityIsMeant(obs: seq<BlockNode>, bindings: seq<Binding>, mounts: seq<MountedFilesystem>,
                        m: MountedFilesystem, id: MountedIdentity)
    requires CompleteInventory(obs) && IdentityFor(obs, bindings, ConflictSet(mounts), m, id)
    ensures IdentityMeans(Index(obs), bindings, mounts, m, id)
  {
    var nodes, source := Index(obs), DeviceIndex(obs, |obs|)[m.device];
    DisksAreListed(nodes, source, DisksBehind(source, nodes, {}).value, id.disks);
    ArraysAreListed(obs, bindings, source.name, id.arrays);
    forall n | n in nodes && nodes[n].device == m.device ensures n == id.sourceName {
      OneNode(obs, n, source.name);
    }
  }

  lemma {:induction false} SameIdentities(obs: seq<BlockNode>, bindings: seq<Binding>, mounts: seq<MountedFilesystem>,
                                          a: seq<MountedIdentity>, b: seq<MountedIdentity>)
    requires |a| == |b| && Each(a, IdentityAt(obs, bindings, mounts)) && Each(b, IdentityAt(obs, bindings, mounts))
    ensures a == b
  {
    var p := IdentityAt(obs, bindings, mounts);
    forall k | 0 <= k < |a| ensures a[k] == b[k] {
      EachAt(a, p, k);
      EachAt(b, p, k);
      OneIdentity(obs, bindings, ConflictSet(mounts), mounts[k], a[k], b[k]);
    }
  }
}
