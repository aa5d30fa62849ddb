/** Complete storage snapshots: the validator that turns a collector snapshot into generation-bound
    whole-disk names, and its depth-first check that the topology is closed and acyclic. */
module SourceSets {
  import opened Basics
  import opened Graphs
  import opened Sorting
  import opened BlockInventory

  datatype TopologyFault = Cyclic | MissingDependency

  datatype Colour = Open | Done

  /** Every reference leads to an observed node, and no node depends on itself. */
  ghost predicate TopologySound(nodes: Nodes) {
    forall n {:trigger SoundAt(nodes, n)} :: n in nodes ==> SoundAt(nodes, n)
  }

  ghost predicate SoundAt(nodes: Nodes, n: string)
    requires n in nodes
  {
    (forall c {:trigger Edge(TopologyGraph(nodes), n, c)} :: Edge(TopologyGraph(nodes), n, c) ==> c in nodes) &&
    !OnCycle(TopologyGraph(nodes), n)
  }

  /** Reachable, and either unobserved or on a cycle. */
  ghost predicate Flaw(nodes: Nodes, a: string, n: string) {
    Reaches(TopologyGraph(nodes), a, n) && (n !in nodes || OnCycle(TopologyGraph(nodes), n))
  }

  lemma FlawAbove(nodes: Nodes, a: string, b: string, n: string)
    requires Edge(TopologyGraph(nodes), a, b) && Flaw(nodes, b, n)
    ensures Flaw(nodes, a, n)
  {
    EdgeThenReaches(TopologyGraph(nodes), a, b, n);
  }

  lemma {:induction false} ClosedPath(nodes: Nodes, p: seq<string>)
    requires TopologySound(nodes)
    requires IsPath(TopologyGraph(nodes), p) && p[0] in nodes
    ensures p[|p| - 1] in nodes
    decreases |p|
  {
    if |p| > 1 {
      PathTail(TopologyGraph(nodes), p, p[0], p[|p| - 1]);
      assert SoundAt(nodes, p[0]);
      ClosedPath(nodes, p[1..]);
    }
  }

  lemma FlawedIsUnsound(nodes: Nodes, a: string, n: string)
    requires a in nodes && Flaw(nodes, a, n)
    ensures !TopologySound(nodes)
  {
    if n in nodes {
      assert !SoundAt(nodes, n);
    } else if TopologySound(nodes) {
      var p :| Joins(TopologyGraph(nodes), p, a, n);
      ClosedPath(nodes, p);
    }
  }

  /** A node whose dependencies are all finished takes the next rank. */
  lemma RankNext(nodes: Nodes, rank: map<string, nat>, name: string)
    requires name in nodes && name !in rank && Ranked(TopologyGraph(nodes), rank) && RanksBounded(rank)
    requires RestsOn(nodes[name], rank.Keys)
    ensures var next := rank[name := |rank|];
            Ranked(TopologyGraph(nodes), next) && RanksBounded(next) && next.Keys == rank.Keys + {name}
  {
    UpdateKeys(rank, name);
    RestsOnEdges(nodes, name, rank.Keys);
    RankExtends(TopologyGraph(nodes), rank, name);
  }

  class TopologyCheck {
    const byName: Nodes
    var state: map<string, Colour>
    ghost var rank: map<string, nat>

    ghost predicate Valid()
      reads this
    {
      && (forall n :: n in state ==> n in byName)
      && (forall n :: n in rank <==> n in state && state[n].Done?)
      && Ranked(TopologyGraph(byName), rank) && RanksBounded(rank)
    }

    // Exactly the nodes of the stack `trail` are open.
    ghost predicate OpenAre(trail: set<string>)
      reads this
    {
      forall n :: n in trail <==> n in state && state[n].Open?
    }

    ghost predicate Static() {
      forall n :: n in byName ==> byName[n].name == n
    }

    constructor (byName: Nodes)
      requires forall n :: n in byName ==> byName[n].name == n
      ensures Static()
      ensures this.byName == byName && Valid() && state == map[]
    {
      this.byName := byName;
      state, rank := map[], map[];
    }

    method VisitRoot(name: string) returns (fault: Option<TopologyFault>)
      requires Static() && Valid() && OpenAre({}) && name in byName
      modifies this`state, this`rank
      ensures fault.None? ==> Valid() && OpenAre({}) && name in rank && old(rank).Keys <= rank.Keys
      ensures fault.Some? ==> !TopologySound(byName)
    {
      assert Elements([]) == {};
      SinglePath(TopologyGraph(byName), name);
      fault := Visit(name, []);
      if fault.Some? {
        ghost var n :| Flaw(byName, name, n);
        FlawedIsUnsound(byName, name, n);
      }
    }

    method VisitAll(names: seq<string>) returns (fault: Option<TopologyFault>)
      requires Static() && Valid() && OpenAre({}) && forall j :: 0 <= j < |names| ==> names[j] in byName
      modifies this`state, this`rank
      ensures fault.None? ==> Valid() && forall j :: 0 <= j < |names| ==> names[j] in rank
      ensures fault.Some? ==> !TopologySound(byName)
    {
      for i := 0 to |names|
        invariant Valid() && OpenAre({})
        invariant AllIn(names, i, rank.Keys)
      {
        ghost var before := rank.Keys;
        fault := VisitRoot(names[i]);
        if fault.Some? {
          return;
        }
        AllInGrows(names, i, before, rank.Keys);
      }
      AllInMembers(names, |names|, rank.Keys);
      fault := None;
    }

    method Visit(name: string, ghost trail: seq<string>) returns (fault: Option<TopologyFault>)
      requires Static() && Valid() && OpenAre(Elements(trail)) && IsPath(TopologyGraph(byName), trail + [name])
      modifies this`state, this`rank
      ensures Valid()
      ensures fault.None? ==> OpenAre(Elements(trail)) && old(rank).Keys <= rank.Keys && name in rank
      ensures fault.Some? ==> exists n :: Flaw(byName, name, n)
      decreases byName.Keys - Elements(trail), 1
    {
      ReachesSelf(TopologyGraph(byName), name);
      if name in state && state[name].Open? {
        TrailClosesCycle(TopologyGraph(byName), trail, name);
        assert Flaw(byName, name, name);
        return Some(Cyclic);
      }
      if name in state && state[name].Done? {
        return None;
      }
      if name !in byName {
        assert Flaw(byName, name, name);
        return Some(MissingDependency);
      }
      state := state[name := Open];
      fault := VisitBelow(byName[name], trail);
      if fault.None? {
        Finish(name, trail);
      }
    }

    method VisitBelow(node: BlockNode, ghost trail: seq<string>) returns (fault: Option<TopologyFault>)
      requires node.name in byName && node == byName[node.name]
      requires Static() && Valid() && OpenAre(Elements(trail) + {node.name})
      requires IsPath(TopologyGraph(byName), trail + [node.name])
      modifies this`state, this`rank
      ensures Valid()
      ensures fault.None? ==>
                && OpenAre(Elements(trail) + {node.name}) && old(rank).Keys <= rank.Keys
                && RestsOn(node, rank.Keys)
      ensures fault.Some? ==> exists n :: Flaw(byName, node.name, n)
      decreases byName.Keys - (Elements(trail) + {node.name}), 5
    {
      if node.kind.Partition? {
        assert Below(node)[0] == node.parentName;
        fault := Follow(node.name, node.parentName, trail);
        if fault.Some? {
          return;
        }
      }
      fault := VisitLower(node, trail);
    }

    method VisitLower(node: BlockNode, ghost trail: seq<string>) returns (fault: Option<TopologyFault>)
      requires node.name in byName && node == byName[node.name]
      requires Static() && Valid() && OpenAre(Elements(trail) + {node.name})
      requires IsPath(TopologyGraph(byName), trail + [node.name])
      modifies this`state, this`rank
      ensures Valid()
      ensures fault.None? ==>
                && OpenAre(Elements(trail) + {node.name}) && old(rank).Keys <= rank.Keys
                && forall i :: 0 <= i < |node.lower| ==> node.lower[i].name in rank
      ensures fault.Some? ==> exists n :: Flaw(byName, node.name, n)
      decreases byName.Keys - (Elements(trail) + {node.name}), 4
    {
      ghost var names := LowerNames(node);
      for i := 0 to |node.lower|
        invariant Valid() && OpenAre(Elements(trail) + {node.name}) && old(rank).Keys <= rank.Keys
        invariant AllIn(names, i, rank.Keys)
      {
        fault := FollowLower(node, i, trail);
        if fault.Some? {
          return;
        }
      }
      AllInMembers(names, |names|, rank.Keys);
      fault := None;
    }

    method FollowLower(node: BlockNode, i: nat, ghost trail: seq<string>) returns (fault: Option<TopologyFault>)
      requires node.name in byName && node == byName[node.name] && i < |node.lower|
      requires AllIn(LowerNames(node), i, rank.Keys)
      requires Static() && Valid() && OpenAre(Elements(trail) + {node.name})
      requires IsPath(TopologyGraph(byName), trail + [node.name])
      modifies this`state, this`rank
      ensures Valid()
      ensures fault.None? ==>
                OpenAre(Elements(trail) + {node.name}) && old(rank).Keys <= rank.Keys
                && AllIn(LowerNames(node), i + 1, rank.Keys)
      ensures fault.Some? ==> exists n :: Flaw(byName, node.name, n)
      decreases byName.Keys - (Elements(trail) + {node.name}), 3
    {
      LowerEdges(byName, node.name);
      fault := Follow(node.name, node.lower[i].name, trail);
      if fault.None? {
        AllInGrows(LowerNames(node), i, old(rank).Keys, rank.Keys);
      }
    }

    method Follow(name: string, next: string, ghost trail: seq<string>) returns (fault: Option<TopologyFault>)
      requires Static() && Valid() && OpenAre(Elements(trail) + {name}) && IsPath(TopologyGraph(byName), trail + [name])
      requires Edge(TopologyGraph(byName), name, next)
      modifies this`state, this`rank
      ensures Valid()
      ensures fault.None? ==> OpenAre(Elements(trail) + {name}) && old(rank).Keys <= rank.Keys && next in rank
      ensures fault.Some? ==> exists n :: Flaw(byName, name, n)
      decreases byName.Keys - (Elements(trail) + {name}), 2
    {
      TrailExtends(TopologyGraph(byName), trail, name, next);
      ElementsAppend(trail, name);
      fault := Visit(next, trail + [name]);
      if fault.Some? {
        ghost var n :| Flaw(byName, next, n);
        FlawAbove(byName, name, next, n);
      }
    }

    method Finish(name: string, ghost trail: seq<string>)
      requires Static() && Valid() && name in byName && OpenAre(Elements(trail) + {name}) && name !in trail
      requires RestsOn(byName[name], rank.Keys)
      modifies this`state, this`rank
      ensures Valid() && OpenAre(Elements(trail)) && rank.Keys == old(rank).Keys + {name}
    {
      RankNext(byName, rank, name);
      state := state[name := Done];
      rank := rank[name := |rank|];
    }
  }

  method BuildIndex(inventory: seq<BlockNode>) returns (byName: Nodes)
    ensures byName == Index(inventory)
  {
    byName := map[];
    for i := 0 to |inventory|
      invariant byName == IndexUpTo(inventory, i)
    {
      byName := byName[inventory[i].name := inventory[i]];
    }
  }

  method ValidateTopology(inventory: seq<BlockNode>) returns (fault: Option<TopologyFault>)
    ensures fault.None? <==> TopologySound(Index(inventory))
  {
    var byName := BuildIndex(inventory);
    var check := new TopologyCheck(byName);
    var names := NamesOf(inventory);
    fault := check.VisitAll(names);
    if fault.None? {
      AllRankedIsSound(inventory, check.rank);
    }
  }

  lemma AllRankedIsSound(inventory: seq<BlockNode>, rank: map<string, nat>)
    requires Ranked(TopologyGraph(Index(inventory)), rank)
    requires forall j :: 0 <= j < |inventory| ==> NamesOf(inventory)[j] in rank
    ensures TopologySound(Index(inventory))
  {
    forall n | n in Index(inventory) ensures n in rank {
      var j := IndexUpToSource(inventory, |inventory|, n);
      assert NamesOf(inventory)[j] == n;
    }
    RankedIsSound(Index(inventory), rank);
  }

  lemma RankedIsSound(nodes: Nodes, rank: map<string, nat>)
    requires Ranked(TopologyGraph(nodes), rank) && nodes.Keys <= rank.Keys
    ensures TopologySound(nodes)
  {
    forall n | n in nodes ensures SoundAt(nodes, n) {
      RankedIsClosed(TopologyGraph(nodes), rank, n);
    }
  }

  // -- Complete snapshots ---------------------------------------------------------------------------

  const MAX_BLOCK_ENTRIES: nat := 32
  const MAX_LINK_BYTES: nat := 4096
  const STORAGE_SCOPE: string := "kernel-sysfs-only"

  datatype StorageSnapshot = StorageSnapshot(
    schemaVersion: int,
    scope: string,
    inventoryReadOnly: bool,
    blockDevicesOpened: bool,
    contentRead: bool,
    mutationsPerformed: bool,
    stableIdentityAvailable: bool,
    deviceCount: int,
    observations: seq<BlockNode>,
    limitations: seq<string>,
    collectionComplete: bool)

  datatype Generation = Generation(device: DeviceNumber, diskSequence: Uint64)

  datatype ObservedDevice = ObservedDevice(name: string, generation: Generation)

  function TextLength(path: SysfsPath): nat {
    if path == [] then 0
    else |path[0]| + (if |path| > 1 then 1 else 0) + TextLength(path[1..])
  }

  predicate ValidComponent(c: string) {
    c != "" && c != "." && c != ".." && '/' !in c
  }

  predicate ValidTarget(path: SysfsPath, name: string) {
    && |path| > 1 && TextLength(path) <= MAX_LINK_BYTES
    && path[0] == "devices" && path[|path| - 1] == name
    && forall i :: 0 <= i < |path| ==> ValidComponent(path[i])
  }

  predicate Marked(s: StorageSnapshot) {
    && s.schemaVersion == 2 && s.scope == STORAGE_SCOPE && s.inventoryReadOnly
    && !s.blockDevicesOpened && !s.contentRead && !s.mutationsPerformed && !s.stableIdentityAvailable
    && s.collectionComplete
    && |s.observations| <= MAX_BLOCK_ENTRIES && s.deviceCount == |s.observations|
  }

  /** The checks on one record alone. */
  predicate SelfValid(o: BlockNode) {
    && ValidBlockName(o.name) && o.device != DeviceNumber(0, 0) && ValidTarget(o.target, o.name)
    && match o.kind
       case Block =>
         && o.partitionNumber == 0 && o.parentName == "" && o.parentMajor.None? && o.parentMinor.None?
         && o.parentDiskSequence == 0 && o.diskSequence != 0
         && !o.serialStatus.NoStatus? && !o.wwnStatus.NoStatus?
       case Partition =>
         && o.partitionNumber != 0 && o.parentName != "" && o.parentMajor.Some? && o.parentMinor.Some?
         && o.parentDiskSequence != 0 && o.diskSequence == 0
       case UnknownKind(_) => false
  }

  /** Two records of one inventory, the first before the second, do not collide. */
  predicate Apart(a: BlockNode, b: BlockNode) {
    && a.device != b.device && a.target != b.target
    && (a.kind.Block? && b.kind.Block? ==> a.diskSequence != b.diskSequence)
  }

  predicate RecordsValid(obs: seq<BlockNode>, i: nat)
    requires i <= |obs|
  {
    && (forall j {:trigger SelfValid(obs[j])} :: 0 <= j < i ==> SelfValid(obs[j]))
    && (forall j {:trigger Follows(obs, j)} :: 0 < j < i ==> Follows(obs, j))
    && (forall j, k {:trigger Apart(obs[j], obs[k])} :: 0 <= j < k < i ==> Apart(obs[j], obs[k]))
  }

  predicate Follows(obs: seq<BlockNode>, j: nat)
    requires 0 < j < |obs|
  {
    TextLess(obs[j - 1].name, obs[j].name)
  }

  predicate LowerDistinct(o: BlockNode, i: nat)
    requires i <= |o.lower|
  {
    forall j, k :: 0 <= j < k < i ==> o.lower[j].name != o.lower[k].name
  }

  predicate LowerLinked(nodes: Nodes, o: BlockNode, i: nat)
    requires i <= |o.lower|
  {
    && LowerDistinct(o, i)
    && forall j :: 0 <= j < i ==> o.lower[j].name != o.name && RefMatches(nodes, o.lower[j])
  }

  predicate ParentLinked(nodes: Nodes, o: BlockNode) {
    o.kind.Partition? ==> ParentMatches(nodes, o) && Dir(o.target) == nodes[o.parentName].target
  }

  predicate Linked(nodes: Nodes, o: BlockNode) {
    ParentLinked(nodes, o) && LowerLinked(nodes, o, |o.lower|)
  }

  /** Valid records, linked to observed nodes only, over a closed and acyclic topology. */
  ghost predicate CompleteInventory(obs: seq<BlockNode>) {
    && RecordsValid(obs, |obs|)
    && (forall i {:trigger Linked(Index(obs), obs[i])} :: 0 <= i < |obs| ==> Linked(Index(obs), obs[i]))
    && TopologySound(Index(obs))
  }

  /** What the validator accepts. */
  ghost predicate Complete(s: StorageSnapshot) {
    Marked(s) && CompleteInventory(s.observations)
  }

  function DeviceOf(disk: BlockNode): ObservedDevice {
    ObservedDevice(disk.name, Generation(disk.device, disk.diskSequence))
  }

  function WholeDevices(obs: seq<BlockNode>, i: nat): seq<ObservedDevice>
    requires i <= |obs|
  {
    if i == 0 then []
    else WholeDevices(obs, i - 1) + if obs[i - 1].kind.Block? then [DeviceOf(obs[i - 1])] else []
  }

  lemma {:induction false} DeviceSource(obs: seq<BlockNode>, n: nat, d: ObservedDevice) returns (i: nat)
    requires n <= |obs| && d in WholeDevices(obs, n)
    ensures i < n && obs[i].kind.Block? && d == DeviceOf(obs[i])
  {
    i := n - 1;
    if d in WholeDevices(obs, n - 1) {
      i := DeviceSource(obs, n - 1, d);
    }
  }

  lemma {:induction false} DeviceListed(obs: seq<BlockNode>, n: nat, i: nat)
    requires i < n <= |obs| && obs[i].kind.Block?
    ensures DeviceOf(obs[i]) in WholeDevices(obs, n)
  {
    if i < n - 1 {
      DeviceListed(obs, n - 1, i);
    }
  }

  method CompleteDeviceSet(s: StorageSnapshot) returns (r: Option<seq<ObservedDevice>>)
    ensures r.Some? <==> Complete(s)
    ensures r.Some? ==> r.value == WholeDevices(s.observations, |s.observations|)
  {
    if !Marked(s) {
      return None;
    }
    var obs := s.observations;
    var records := CheckRecords(obs);
    if records.None? {
      return None;
    }
    var byName := Index(obs);
    for i := 0 to |obs|
      invariant forall j {:trigger Linked(byName, obs[j])} :: 0 <= j < i ==> Linked(byName, obs[j])
    {
      var linked := CheckLinks(byName, obs[i]);
      if !linked {
        return None;
      }
    }
    var fault := ValidateTopology(obs);
    if fault.Some? {
      return None;
    }
    r := records;
  }

  lemma RecordsStep(obs: seq<BlockNode>, i: nat)
    requires i < |obs|
    ensures RecordsValid(obs, i + 1) <==>
            && RecordsValid(obs, i) && SelfValid(obs[i])
            && (i > 0 ==> Follows(obs, i))
            && forall j {:trigger Apart(obs[j], obs[i])} :: 0 <= j < i ==> Apart(obs[j], obs[i])
    ensures RecordsValid(obs, |obs|) ==> RecordsValid(obs, i + 1)
  {
  }

  // What the loop remembers of the first `i` records.
  datatype Seen = Seen(numbers: set<DeviceNumber>, targets: set<SysfsPath>, sequences: set<Uint64>)

  function SeenUpTo(obs: seq<BlockNode>, i: nat): Seen
    requires i <= |obs|
  {
    if i == 0 then Seen({}, {}, {})
    else
      var o, s := obs[i - 1], SeenUpTo(obs, i - 1);
      Seen(s.numbers + {o.device}, s.targets + {o.target},
           if o.kind.Block? then s.sequences + {o.diskSequence} else s.sequences)
  }

  predicate Collides(s: Seen, o: BlockNode) {
    o.target in s.targets || o.device in s.numbers || (o.kind.Block? && o.diskSequence in s.sequences)
  }

  lemma {:induction false} SeenDecides(obs: seq<BlockNode>, i: nat, o: BlockNode)
    requires i <= |obs|
    ensures !Collides(SeenUpTo(obs, i), o) <==> forall j {:trigger Apart(obs[j], o)} :: 0 <= j < i ==> Apart(obs[j], o)
  {
    if i > 0 {
      SeenDecides(obs, i - 1, o);
      var before := SeenUpTo(obs, i - 1);
      assert Collides(SeenUpTo(obs, i), o) <==> Collides(before, o) || !Apart(obs[i - 1], o);
    }
  }

  method CheckRecords(obs: seq<BlockNode>) returns (r: Option<seq<ObservedDevice>>)
    ensures r.Some? <==> RecordsValid(obs, |obs|)
    ensures r.Some? ==> r.value == WholeDevices(obs, |obs|)
  {
    var seen := Seen({}, {}, {});
    var devices: seq<ObservedDevice> := [];
    for i := 0 to |obs|
      invariant RecordsValid(obs, i)
      invariant seen == SeenUpTo(obs, i)
      invariant devices == WholeDevices(obs, i)
    {
      var o := obs[i];
      RecordsStep(obs, i);
      SeenDecides(obs, i, o);
      if !SelfValid(o) || (i > 0 && !Follows(obs, i)) || Collides(seen, o) {
        return None;
      }
      seen := seen.(targets := seen.targets + {o.target}, numbers := seen.numbers + {o.device});
      if o.kind.Block? {
        seen := seen.(sequences := seen.sequences + {o.diskSequence});
        devices := devices + [DeviceOf(o)];
      }
    }
    r := Some(devices);
  }

  method CheckLinks(byName: Nodes, o: BlockNode) returns (ok: bool)
    ensures ok == Linked(byName, o)
  {
    if !ParentLinked(byName, o) {
      return false;
    }
    var seen: set<string> := {};
    for i := 0 to |o.lower|
      invariant LowerLinked(byName, o, i)
      invariant forall n :: n in seen <==> exists j :: 0 <= j < i && o.lower[j].name == n
    {
      if o.lower[i].name == o.name || o.lower[i].name in seen || !RefMatches(byName, o.lower[i]) {
        return false;
      }
      seen := seen + {o.lower[i].name};
    }
    ok := true;
  }

  // -- What completeness gives -----------------------------------------------------------------------

  predicate CollectorFlags(s: StorageSnapshot) {
    && s.schemaVersion == 2 && s.scope == "kernel-sysfs-only" && s.inventoryReadOnly && s.collectionComplete
    && !s.blockDevicesOpened && !s.contentRead && !s.mutationsPerformed && !s.stableIdentityAvailable
    && s.deviceCount == |s.observations| <= 32
  }

  /** No component of the path is empty, leads up or stays, or hides another one. */
  predicate PlainPath(path: SysfsPath) {
    forall i :: 0 <= i < |path| ==> path[i] != "" && path[i] != "." && path[i] != ".." && '/' !in path[i]
  }

  predicate SoundRecord(o: BlockNode) {
    && 1 <= |o.name| <= 64 && o.name != "." && o.name != ".." && (o.device.major != 0 || o.device.minor != 0)
    && |o.target| > 1 && o.target[0] == "devices" && o.target[|o.target| - 1] == o.name
    && TextLength(o.target) <= 4096 && PlainPath(o.target)
    && if o.kind.Block? then
         && o.diskSequence != 0 && o.partitionNumber == 0 && o.parentName == "" && o.parentDiskSequence == 0
         && o.parentMajor.None? && o.parentMinor.None? && o.serialStatus != NoStatus && o.wwnStatus != NoStatus
       else
         && o.kind.Partition? && o.diskSequence == 0 && o.partitionNumber != 0 && o.parentName != ""
         && o.parentDiskSequence != 0 && o.parentMajor.Some? && o.parentMinor.Some?
  }

  /** The parent of a partition is a whole disk with the recorded identity, at the directory of the partition. */
  predicate ParentIs(o: BlockNode, parent: BlockNode) {
    && parent.kind.Block? && parent.name == o.parentName && o.parentMajor == Some(parent.device.major)
    && o.parentMinor == Some(parent.device.minor) && o.parentDiskSequence == parent.diskSequence
    && |o.target| > 0 && o.target[..|o.target| - 1] == parent.target
  }

  predicate RefIs(ref: Ref, node: BlockNode) {
    ref.name == node.name && ref.kind == node.kind && ref.device == node.device && ref.diskSequence == node.diskSequence
  }

  predicate HasParentRecord(obs: seq<BlockNode>, o: BlockNode) {
    exists parent :: parent in obs && ParentIs(o, parent)
  }

  predicate HasRecord(obs: seq<BlockNode>, ref: Ref) {
    exists node :: node in obs && RefIs(ref, node)
  }

  lemma RefHasRecord(obs: seq<BlockNode>, o: BlockNode, ref: Ref)
    requires Linked(Index(obs), o) && ref in o.lower
    ensures HasRecord(obs, ref) && ref.name != o.name
  {
    var k :| 0 <= k < |o.lower| && o.lower[k] == ref;
    var j := IndexUpToSource(obs, |obs|, ref.name);
    assert obs[j] in obs && RefIs(ref, obs[j]);
  }

  lemma PartitionHasParent(obs: seq<BlockNode>, o: BlockNode)
    requires Linked(Index(obs), o) && SelfValid(o) && o.kind.Partition?
    ensures HasParentRecord(obs, o)
  {
    var j := IndexUpToSource(obs, |obs|, o.parentName);
    assert obs[j] in obs && ParentIs(o, obs[j]);
  }

  predicate AllSound(obs: seq<BlockNode>) {
    forall o :: o in obs ==> SoundRecord(o)
  }

  /** No device number, path or generation twice, and the names in order. */
  predicate AllApart(obs: seq<BlockNode>) {
    && (forall i, j :: 0 <= i < j < |obs| ==>
          && obs[i].device != obs[j].device && obs[i].target != obs[j].target
          && (obs[i].kind.Block? && obs[j].kind.Block? ==> obs[i].diskSequence != obs[j].diskSequence))
    && forall i :: 0 < i < |obs| ==> TextLess(obs[i - 1].name, obs[i].name)
  }

  predicate AllReferred(obs: seq<BlockNode>) {
    && (forall o :: o in obs && o.kind.Partition? ==> HasParentRecord(obs, o))
    && forall o, ref :: o in obs && ref in o.lower ==> HasRecord(obs, ref) && ref.name != o.name
  }

  lemma ValidIsSound(obs: seq<BlockNode>)
    requires RecordsValid(obs, |obs|)
    ensures AllSound(obs)
  {
    forall o | o in obs ensures SoundRecord(o) {
      var i :| 0 <= i < |obs| && obs[i] == o;
      assert SelfValid(obs[i]);
    }
  }

  lemma ValidIsApart(obs: seq<BlockNode>)
    requires RecordsValid(obs, |obs|)
    ensures AllApart(obs)
  {
    forall i, j | 0 <= i < j < |obs|
      ensures obs[i].device != obs[j].device && obs[i].target != obs[j].target
      ensures obs[i].kind.Block? && obs[j].kind.Block? ==> obs[i].diskSequence != obs[j].diskSequence
    {
      assert Apart(obs[i], obs[j]);
    }
    forall i | 0 < i < |obs| ensures TextLess(obs[i - 1].name, obs[i].name) {
      assert Follows(obs, i);
    }
  }

  lemma CompleteIsReferred(obs: seq<BlockNode>)
    requires CompleteInventory(obs)
    ensures AllReferred(obs)
  {
    forall o | o in obs && o.kind.Partition? ensures HasParentRecord(obs, o) {
      var i :| 0 <= i < |obs| && obs[i] == o;
      assert SelfValid(obs[i]) && Linked(Index(obs), obs[i]);
      PartitionHasParent(obs, o);
    }
    forall o, ref | o in obs && ref in o.lower ensures HasRecord(obs, ref) && ref.name != o.name {
      var i :| 0 <= i < |obs| && obs[i] == o;
      assert Linked(Index(obs), obs[i]);
      RefHasRecord(obs, o, ref);
    }
  }

  /** Names ascend, records are sound, device numbers, paths and generations are never shared, and every reference
      leads to a record that it describes. */
  lemma CompleteMeans(s: StorageSnapshot)
    requires Complete(s)
    ensures CollectorFlags(s) && AllSound(s.observations) && AllApart(s.observations) && AllReferred(s.observations)
  {
    ValidIsSound(s.observations);
    ValidIsApart(s.observations);
    CompleteIsReferred(s.observations);
  }
}
