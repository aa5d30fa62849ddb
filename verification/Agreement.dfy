/** The searches over one inventory, side by side: that they give one answer on whatever the collector builds,
    and what a complete inventory adds. */
module Agreement {
  import opened Basics
  import opened Graphs
  import opened Sorting
  import opened BlockInventory
  import opened SourceSets
  import opened LeafSearches
  import D = DependencySearches
  import W = ArraySearches

  lemma {:induction false} OrderedIsDistinct(obs: seq<BlockNode>, i: nat, j: nat)
    requires RecordsValid(obs, |obs|)
    requires i < j < |obs|
    ensures TextLess(obs[i].name, obs[j].name)
  {
    assert Follows(obs, j);
    if i + 1 < j {
      OrderedIsDistinct(obs, i, j - 1);
      TextLessTransitive(obs[i].name, obs[j - 1].name, obs[j].name);
    }
  }

  lemma CompleteIsUnique(obs: seq<BlockNode>)
    requires CompleteInventory(obs)
    ensures D.UniquelyNamed(obs)
  {
    forall i, j | 0 <= i < j < |obs| ensures obs[i].name != obs[j].name {
      OrderedIsDistinct(obs, i, j);
      TextLessIrreflexive(obs[i].name);
    }
    forall i | 0 <= i < |obs| ensures obs[i].name != "" {
      assert SelfValid(obs[i]);
    }
  }

  /** Every indexed record is one of the validated ones. */
  lemma CompleteNode(obs: seq<BlockNode>, n: string) returns (i: nat)
    requires CompleteInventory(obs) && n in Index(obs)
    ensures i < |obs| && Index(obs)[n] == obs[i] && obs[i].name == n
    ensures SelfValid(obs[i]) && Linked(Index(obs), obs[i])
  {
    i := IndexUpToSource(obs, |obs|, n);
    assert SelfValid(obs[i]);
    assert Linked(Index(obs), obs[i]);
  }

  lemma CompleteNodeOk(obs: seq<BlockNode>, n: string)
    requires CompleteInventory(obs) && n in Index(obs)
    ensures D.NodeOk(Index(obs), Index(obs)[n])
  {
    var nodes := Index(obs);
    var i := CompleteNode(obs, n);
    var node := obs[i];
    forall j | 0 <= j < |node.lower| ensures node.lower[j].name != "" && RefMatches(nodes, node.lower[j]) {
      assert RefMatches(nodes, node.lower[j]);
      var k := CompleteNode(obs, node.lower[j].name);
    }
    assert LowerDistinct(node, |node.lower|);
  }

  /** In a complete inventory nothing below any node is defective, so the dependency search never fails. */
  lemma CompleteIsClean(obs: seq<BlockNode>, a: string)
    requires CompleteInventory(obs) && a in Index(obs)
    ensures D.Clean(Index(obs), a)
  {
    var nodes := Index(obs);
    var g := TopologyGraph(nodes);
    forall n | Reaches(g, a, n) ensures n in nodes && D.NodeOk(nodes, nodes[n]) && !OnCycle(g, n) {
      var p :| Joins(g, p, a, n);
      ClosedPath(nodes, p);
      assert SoundAt(nodes, n);
      CompleteNodeOk(obs, n);
    }
  }

  // -- Any inventory of the collector ----------------------------------------------------------------

  /** What every inventory of the collector has: names of their own, slaves on whole disks only, and a sequence
      for every whole disk. Cycles and repeated device numbers are not ruled out. */
  predicate CollectorShaped(obs: seq<BlockNode>) {
    D.UniquelyNamed(obs) && forall i :: 0 <= i < |obs| ==> NodeShaped(obs[i])
  }

  predicate NodeShaped(node: BlockNode) {
    (node.kind.Partition? ==> node.lower == []) && (node.kind.Block? ==> node.diskSequence != 0)
  }

  lemma ShapedNode(obs: seq<BlockNode>, n: string)
    requires CollectorShaped(obs) && n in Index(obs)
    ensures n != "" && Index(obs)[n].name == n && NodeShaped(Index(obs)[n])
  {
    var i := IndexUpToSource(obs, |obs|, n);
  }

  lemma GraphsCoincide(nodes: Nodes)
    requires forall n :: n in nodes && nodes[n].kind.Partition? ==> nodes[n].lower == []
    ensures LeafGraph(nodes) == TopologyGraph(nodes)
  {
    forall n | n in nodes ensures Beneath(nodes[n]) == Below(nodes[n]) {
      assert nodes[n].lower == [] ==> LowerNames(nodes[n]) == [];
    }
  }

  lemma ShapedGraphsCoincide(obs: seq<BlockNode>)
    requires CollectorShaped(obs)
    ensures LeafGraph(Index(obs)) == TopologyGraph(Index(obs))
  {
    forall n | n in Index(obs) ensures NodeShaped(Index(obs)[n]) {
      ShapedNode(obs, n);
    }
    GraphsCoincide(Index(obs));
  }

  /** What passes the checks of the disk search passes those of the dependency search. */
  lemma LeafOkIsNodeOk(obs: seq<BlockNode>, n: string)
    requires CollectorShaped(obs) && n in Index(obs) && LeafOk(Index(obs), Index(obs)[n])
    ensures D.NodeOk(Index(obs), Index(obs)[n])
  {
    var nodes := Index(obs);
    var node := nodes[n];
    ShapedNode(obs, n);
    if node.kind.Partition? {
      ShapedNode(obs, node.parentName);
    }
    forall j | 0 <= j < |node.lower| ensures node.lower[j].name != "" && RefMatches(nodes, node.lower[j]) {
      ShapedNode(obs, node.lower[j].name);
    }
    forall j, k | 0 <= j < k < |node.lower| ensures node.lower[j].name != node.lower[k].name {
      assert Fresh(node, k);
    }
  }

  /** Without any assumption on the inventory but that partitions carry no slaves: where the disk search
      succeeds, the array search does too. */
  lemma {:induction false} DiskSearchImpliesArraySearch(nodes: Nodes, a: string)
    requires forall n :: n in nodes ==> nodes[n].name == n
    requires forall n :: n in nodes && nodes[n].kind.Partition? ==> nodes[n].lower == []
    requires a in nodes && DisksBehind(nodes[a], nodes, {}).Some?
    ensures W.WalkClean(nodes, a)
  {
    DisksBehindDecides(nodes[a], nodes, {});
    forall n | Reaches(LeafGraph(nodes), a, n)
      ensures n in nodes && W.WalkOk(nodes, nodes[n]) && !OnCycle(LeafGraph(nodes), n)
    {
      assert GoodBelow(nodes, {}, n);
    }
  }

  lemma {:induction false} DiskSearchImpliesDependencySearch(obs: seq<BlockNode>, a: string)
    requires CollectorShaped(obs) && a in Index(obs) && DisksBehind(Index(obs)[a], Index(obs), {}).Some?
    ensures D.Clean(Index(obs), a)
  {
    var nodes := Index(obs);
    ShapedGraphsCoincide(obs);
    DisksBehindDecides(nodes[a], nodes, {});
    forall n | Reaches(TopologyGraph(nodes), a, n)
      ensures n in nodes && D.NodeOk(nodes, nodes[n]) && !OnCycle(TopologyGraph(nodes), n)
    {
      assert GoodBelow(nodes, {}, n);
      LeafOkIsNodeOk(obs, n);
    }
  }

  /** Where the disk search succeeds the other two searches succeed, and its disks are exactly the physical
      leaves that the dependency search reaches. */
  lemma {:induction false} TraversalsAgree(obs: seq<BlockNode>, a: string)
    requires CollectorShaped(obs) && a in Index(obs) && DisksBehind(Index(obs)[a], Index(obs), {}).Some?
    ensures var nodes := Index(obs);
            && W.WalkClean(nodes, a) && D.Clean(nodes, a)
            && forall n :: n in nodes && IsLeaf(nodes[n]) ==>
                 (nodes[n] in DisksBehind(nodes[a], nodes, {}).value <==> Reaches(TopologyGraph(nodes), a, n))
  {
    var nodes := Index(obs);
    ShapedGraphsCoincide(obs);
    DiskSearchImpliesDependencySearch(obs, a);
    forall n | n in nodes ensures NodeShaped(nodes[n]) {
      ShapedNode(obs, n);
    }
    DiskSearchImpliesArraySearch(nodes, a);
    forall n | n in nodes && IsLeaf(nodes[n])
      ensures nodes[n] in DisksBehind(nodes[a], nodes, {}).value <==> Reaches(TopologyGraph(nodes), a, n)
    {
      DisksBehindMembers(nodes[a], nodes, nodes[n]);
    }
  }

  /** The three searches run on one node and one physical leaf of an inventory, cyclic ones included. */
  method CompareSearches(obs: seq<BlockNode>, node: BlockNode, disk: BlockNode)
    returns (disks: Option<seq<BlockNode>>, arrays: Option<seq<string>>, depends: Result<bool, D.TopologyError>)
    requires CollectorShaped(obs) && node in obs && disk in obs && IsLeaf(disk)
    ensures arrays.Some? ==> ListsSet(arrays.value, W.ArraysBehind(Index(obs), node.name))
    ensures depends.Ok? ==> depends.value == Reaches(TopologyGraph(Index(obs)), node.name, disk.name)
    ensures disks.Some? ==> arrays.Some? && depends.Ok? && depends.value == (disk in disks.value)
  {
    UniqueRecord(obs, node);
    UniqueRecord(obs, disk);
    var nodes := BuildIndex(obs);
    assert D.Searchable(node, obs) == nodes;
    disks := PhysicalDisksBehind(node, nodes, {});
    arrays := W.MdArraysBehind(node, nodes);
    depends := D.NodeDependsOnWholeDisk(node, disk, obs);
    if disks.Some? {
      TraversalsAgree(obs, node.name);
    }
  }

  lemma UniqueRecord(obs: seq<BlockNode>, node: BlockNode)
    requires D.UniquelyNamed(obs) && node in obs
    ensures node.name in Index(obs) && Index(obs)[node.name] == node
  {
    var i :| 0 <= i < |obs| && obs[i] == node;
    IndexFinds(obs, i);
  }

  // -- Linked inventories ----------------------------------------------------------------------------

  /** Every reference of the node matches what it names. */
  predicate LinksHold(nodes: Nodes, n: string)
    requires n in nodes
  {
    nodes[n].name == n && D.NodeOk(nodes, nodes[n]) && W.WalkOk(nodes, nodes[n])
  }

  ghost predicate WellLinked(nodes: Nodes) {
    forall n {:trigger LinksHold(nodes, n)} :: n in nodes ==> LinksHold(nodes, n)
  }

  ghost predicate AcyclicBelow(nodes: Nodes, a: string) {
    forall n :: Reaches(TopologyGraph(nodes), a, n) ==> !OnCycle(TopologyGraph(nodes), n)
  }

  predicate VirtualLeaf(nodes: Nodes, n: string) {
    n in nodes && IsLeaf(nodes[n]) && IsVirtual(nodes[n].target)
  }

  lemma LinkedEdge(nodes: Nodes, a: string, b: string)
    requires WellLinked(nodes) && Edge(TopologyGraph(nodes), a, b)
    ensures b in nodes
  {
    assert LinksHold(nodes, a);
    RestsOnEdges(nodes, a, nodes.Keys);
  }

  lemma {:induction false} LinkedPath(nodes: Nodes, p: seq<string>)
    requires WellLinked(nodes) && IsPath(TopologyGraph(nodes), p) && p[0] in nodes
    ensures p[|p| - 1] in nodes
    decreases |p|
  {
    if |p| > 1 {
      PathTail(TopologyGraph(nodes), p, p[0], p[|p| - 1]);
      LinkedEdge(nodes, p[0], p[1]);
      LinkedPath(nodes, p[1..]);
    }
  }

  lemma LinkedBelow(nodes: Nodes, a: string, n: string)
    requires WellLinked(nodes) && a in nodes && Reaches(TopologyGraph(nodes), a, n)
    ensures n in nodes && LinksHold(nodes, n)
  {
    var p :| Joins(TopologyGraph(nodes), p, a, n);
    LinkedPath(nodes, p);
  }

  lemma LinkedLeafOk(nodes: Nodes, n: string)
    requires n in nodes && LinksHold(nodes, n)
    ensures LeafOk(nodes, nodes[n]) <==> !VirtualLeaf(nodes, n)
  {
  }

  /** Over matching references the array search and the dependency search fail exactly over a cycle, and the disk
      search exactly over a cycle or a virtual leaf. */
  lemma {:induction false} LinkedTraversals(nodes: Nodes, a: string)
    requires WellLinked(nodes) && a in nodes
    ensures forall n :: n in nodes ==> nodes[n].name == n
    ensures W.WalkClean(nodes, a) <==> AcyclicBelow(nodes, a)
    ensures D.Clean(nodes, a) <==> AcyclicBelow(nodes, a)
    ensures DisksBehind(nodes[a], nodes, {}).Some? <==>
              AcyclicBelow(nodes, a) && forall n :: Reaches(TopologyGraph(nodes), a, n) ==> !VirtualLeaf(nodes, n)
  {
    forall n | n in nodes ensures nodes[n].name == n && (nodes[n].kind.Partition? ==> nodes[n].lower == []) {
      assert LinksHold(nodes, n);
    }
    GraphsCoincide(nodes);
    forall n | Reaches(TopologyGraph(nodes), a, n)
      ensures n in nodes && LinksHold(nodes, n) && (LeafOk(nodes, nodes[n]) <==> !VirtualLeaf(nodes, n))
    {
      LinkedBelow(nodes, a, n);
      LinkedLeafOk(nodes, n);
    }
    DisksBehindDecides(nodes[a], nodes, {});
    assert LeafClean(nodes, {}, a) <==>
           AcyclicBelow(nodes, a) && forall n :: Reaches(TopologyGraph(nodes), a, n) ==> !VirtualLeaf(nodes, n);
  }

  // -- Complete inventories --------------------------------------------------------------------------

  /** Complete, and with slaves on whole disks only. */
  ghost predicate CompleteShaped(obs: seq<BlockNode>) {
    CompleteInventory(obs) && forall n :: n in Index(obs) && Index(obs)[n].kind.Partition? ==> Index(obs)[n].lower == []
  }

  lemma CompleteIsLinked(obs: seq<BlockNode>)
    requires CompleteShaped(obs)
    ensures WellLinked(Index(obs))
  {
    forall n | n in Index(obs) ensures LinksHold(Index(obs), n) {
      var i := CompleteNode(obs, n);
      CompleteNodeOk(obs, n);
    }
  }

  /** On a complete inventory the array search and the dependency search always succeed, and the disk search fails
      only over a virtual leaf. */
  lemma CompleteTraversals(obs: seq<BlockNode>, a: string)
    requires CompleteShaped(obs) && a in Index(obs)
    ensures var nodes := Index(obs);
            && (forall n :: n in nodes ==> nodes[n].name == n)
            && W.WalkClean(nodes, a) && D.Clean(nodes, a)
            && (DisksBehind(nodes[a], nodes, {}).Some? <==>
                  forall n :: Reaches(TopologyGraph(nodes), a, n) ==> !VirtualLeaf(nodes, n))
  {
    CompleteIsLinked(obs);
    CompleteIsClean(obs, a);
    LinkedTraversals(Index(obs), a);
  }

  lemma Located(obs: seq<BlockNode>, node: BlockNode)
    requires CompleteInventory(obs) && node in obs
    ensures node.name in Index(obs) && Index(obs)[node.name] == node
  {
    CompleteIsUnique(obs);
    UniqueRecord(obs, node);
  }
}
