/** The un-memoised search for the physical disks behind a block node. */
module LeafSearches {
  import opened Basics
  import opened Graphs
  import opened BlockInventory

  /** A partition rests on its parent alone, every other node on its lower blocks. */
  function Beneath(node: BlockNode): seq<string> {
    if node.kind.Partition? then [node.parentName] else LowerNames(node)
  }

  function LeafGraph(nodes: Nodes): Graph {
    map n | n in nodes :: Beneath(nodes[n])
  }

  predicate IsLeaf(node: BlockNode) {
    node.kind.Block? && node.lower == []
  }

  predicate ParentSound(nodes: Nodes, node: BlockNode) {
    ParentMatches(nodes, node) && Dir(node.target) == nodes[node.parentName].target
  }

  predicate Fresh(node: BlockNode, i: nat)
    requires i < |node.lower|
  {
    forall j :: 0 <= j < i ==> node.lower[j].name != node.lower[i].name
  }

  /** The local checks the search makes of one node. */
  predicate LeafOk(nodes: Nodes, node: BlockNode) {
    if node.kind.Partition? then ParentSound(nodes, node)
    else
      && node.kind.Block?
      && (node.lower == [] ==> !IsVirtual(node.target) && node.diskSequence != 0)
      && forall i :: 0 <= i < |node.lower| ==> RefMatches(nodes, node.lower[i]) && Fresh(node, i)
  }

  /** The disks in the order found, one entry for every way down; nothing when a check fails. */
  function DisksBehind(node: BlockNode, nodes: Nodes, visiting: set<string>): (r: Option<seq<BlockNode>>)
    requires node.name in nodes && nodes[node.name] == node
    requires forall n :: n in nodes ==> nodes[n].name == n
    decreases nodes.Keys - visiting, 0, 0
  {
    if node.name in visiting then None
    else if node.kind.Partition? then
      if !ParentSound(nodes, node) then None
      else DisksBehind(nodes[node.parentName], nodes, visiting + {node.name})
    else if !node.kind.Block? then None
    else if node.lower == [] then
      if IsVirtual(node.target) || node.diskSequence == 0 then None else Some([node])
    else LowerDisks(node, nodes, visiting + {node.name}, 0)
  }

  function LowerDisks(node: BlockNode, nodes: Nodes, visiting: set<string>, i: nat): (r: Option<seq<BlockNode>>)
    requires i <= |node.lower|
    requires forall n :: n in nodes ==> nodes[n].name == n
    decreases nodes.Keys - visiting, 1, |node.lower| - i
  {
    if i == |node.lower| then Some([])
    else if !RefMatches(nodes, node.lower[i]) || !Fresh(node, i) then None
    else
      var here := DisksBehind(nodes[node.lower[i].name], nodes, visiting);
      if here.None? then None else After(here.value, LowerDisks(node, nodes, visiting, i + 1))
  }

  function After(found: seq<BlockNode>, rest: Option<seq<BlockNode>>): Option<seq<BlockNode>> {
    if rest.None? then None else Some(found + rest.value)
  }

  lemma AfterBoth(a: seq<BlockNode>, b: seq<BlockNode>, rest: Option<seq<BlockNode>>)
    ensures After(a, After(b, rest)) == After(a + b, rest)
  {
    if rest.Some? {
      assert a + (b + rest.value) == (a + b) + rest.value;
    }
  }

  method PhysicalDisksBehind(node: BlockNode, nodes: Nodes, visiting: set<string>) returns (r: Option<seq<BlockNode>>)
    requires node.name in nodes && nodes[node.name] == node
    requires forall n :: n in nodes ==> nodes[n].name == n
    ensures r == DisksBehind(node, nodes, visiting)
    decreases nodes.Keys - visiting
  {
    if node.name in visiting {
      return None;
    }
    if node.kind.Partition? {
      if !ParentSound(nodes, node) {
        return None;
      }
      r := PhysicalDisksBehind(nodes[node.parentName], nodes, visiting + {node.name});
      return;
    }
    if !node.kind.Block? {
      return None;
    }
    if node.lower == [] {
      if IsVirtual(node.target) || node.diskSequence == 0 {
        return None;
      }
      return Some([node]);
    }
    var disks: seq<BlockNode> := [];
    var seen: set<string> := {};
    ghost var open := visiting + {node.name};
    ghost var whole := LowerDisks(node, nodes, open, 0);
    assert whole == After(disks, whole) by {
      if whole.Some? {
        assert [] + whole.value == whole.value;
      }
    }
    for i := 0 to |node.lower|
      invariant forall n :: n in seen <==> exists j :: 0 <= j < i && node.lower[j].name == n
      invariant whole == After(disks, LowerDisks(node, nodes, open, i))
    {
      ghost var rest := LowerDisks(node, nodes, open, i + 1);
      var ref := node.lower[i];
      assert ref.name in seen <==> !Fresh(node, i);
      if !RefMatches(nodes, ref) || ref.name in seen {
        return None;
      }
      seen := seen + {ref.name};
      var resolved := PhysicalDisksBehind(nodes[ref.name], nodes, visiting + {node.name});
      if resolved.None? {
        return None;
      }
      AfterBoth(disks, resolved.value, rest);
      disks := disks + resolved.value;
    }
    assert disks + [] == disks;
    r := Some(disks);
  }

  // -- When the search succeeds ---------------------------------------------------------------------

  ghost predicate GoodBelow(nodes: Nodes, visiting: set<string>, m: string) {
    m in nodes && m !in visiting && LeafOk(nodes, nodes[m]) && !OnCycle(LeafGraph(nodes), m)
  }

  /** Everything reachable passes its checks, off every cycle and outside `visiting`. */
  ghost predicate LeafClean(nodes: Nodes, visiting: set<string>, a: string) {
    forall m :: Reaches(LeafGraph(nodes), a, m) ==> GoodBelow(nodes, visiting, m)
  }

  lemma CleanStep(nodes: Nodes, visiting: set<string>, n: string)
    requires n in nodes && n !in visiting && LeafOk(nodes, nodes[n])
    ensures LeafClean(nodes, visiting, n) <==>
            forall c {:trigger Edge(LeafGraph(nodes), n, c)} ::
              Edge(LeafGraph(nodes), n, c) ==> LeafClean(nodes, visiting + {n}, c)
  {
    if LeafClean(nodes, visiting, n) {
      forall c | Edge(LeafGraph(nodes), n, c) ensures LeafClean(nodes, visiting + {n}, c) {
        CleanDown(nodes, visiting, n, c);
      }
    }
    if forall c {:trigger Edge(LeafGraph(nodes), n, c)} ::
         Edge(LeafGraph(nodes), n, c) ==> LeafClean(nodes, visiting + {n}, c) {
      CleanUp(nodes, visiting, n);
    }
  }

  lemma CleanDown(nodes: Nodes, visiting: set<string>, n: string, c: string)
    requires LeafClean(nodes, visiting, n) && Edge(LeafGraph(nodes), n, c)
    ensures LeafClean(nodes, visiting + {n}, c)
  {
    var g := LeafGraph(nodes);
    forall m | Reaches(g, c, m) ensures GoodBelow(nodes, visiting + {n}, m) {
      EdgeThenReaches(g, n, c, m);
      assert GoodBelow(nodes, visiting, m);
      if m == n {
        var p :| Joins(g, p, c, n);
        PathPrepend(g, n, p);
        assert Joins(g, [n] + p, n, n);
      }
    }
  }

  lemma CleanUp(nodes: Nodes, visiting: set<string>, n: string)
    requires n in nodes && n !in visiting && LeafOk(nodes, nodes[n])
    requires forall c {:trigger Edge(LeafGraph(nodes), n, c)} ::
               Edge(LeafGraph(nodes), n, c) ==> LeafClean(nodes, visiting + {n}, c)
    ensures LeafClean(nodes, visiting, n)
  {
    var g := LeafGraph(nodes);
    forall p | Joins(g, p, n, n) ensures |p| <= 1 {
      if |p| > 1 {
        PathTail(g, p, n, n);
        assert LeafClean(nodes, visiting + {n}, p[1]);
        assert Reaches(g, p[1], n);
      }
    }
    forall m | Reaches(g, n, m) ensures GoodBelow(nodes, visiting, m) {
      if m != n {
        var c := ReachesStep(g, n, m);
        assert LeafClean(nodes, visiting + {n}, c);
        assert GoodBelow(nodes, visiting + {n}, m);
      }
    }
  }

  lemma LeafEdges(nodes: Nodes, n: string)
    requires n in nodes
    ensures nodes[n].kind.Partition? ==>
              forall c {:trigger Edge(LeafGraph(nodes), n, c)} ::
                Edge(LeafGraph(nodes), n, c) <==> c == nodes[n].parentName
    ensures !nodes[n].kind.Partition? ==> forall c {:trigger Edge(LeafGraph(nodes), n, c)} ::
              Edge(LeafGraph(nodes), n, c) ==> exists i :: 0 <= i < |nodes[n].lower| && nodes[n].lower[i].name == c
  {
  }

  lemma LowerLeafEdges(nodes: Nodes, n: string)
    requires n in nodes && !nodes[n].kind.Partition?
    ensures forall i :: 0 <= i < |nodes[n].lower| ==> Edge(LeafGraph(nodes), n, nodes[n].lower[i].name)
  {
    var names := LowerNames(nodes[n]);
    forall i | 0 <= i < |nodes[n].lower| ensures nodes[n].lower[i].name in names {
      assert names[i] == nodes[n].lower[i].name;
    }
  }

  /** The search succeeds exactly when nothing reachable fails a check or closes a cycle. */
  lemma {:induction false} DisksBehindDecides(node: BlockNode, nodes: Nodes, visiting: set<string>)
    requires node.name in nodes && nodes[node.name] == node
    requires forall n :: n in nodes ==> nodes[n].name == n
    ensures DisksBehind(node, nodes, visiting).Some? <==> LeafClean(nodes, visiting, node.name)
    decreases nodes.Keys - visiting, 0, 0
  {
    ReachesSelf(LeafGraph(nodes), node.name);
    if node.name !in visiting && LeafOk(nodes, node) {
      CleanStep(nodes, visiting, node.name);
      LeafEdges(nodes, node.name);
      if node.kind.Partition? {
        assert Edge(LeafGraph(nodes), node.name, node.parentName);
        DisksBehindDecides(nodes[node.parentName], nodes, visiting + {node.name});
      } else if node.lower != [] {
        LowerLeafEdges(nodes, node.name);
        LowerDisksDecides(node, nodes, visiting + {node.name}, 0);
      }
    } else {
      assert !GoodBelow(nodes, visiting, node.name);
      if node.kind.Block? && node.lower != [] && node.name !in visiting {
        LowerDisksDecides(node, nodes, visiting + {node.name}, 0);
      }
    }
  }

  lemma {:induction false} LowerDisksDecides(node: BlockNode, nodes: Nodes, visiting: set<string>, i: nat)
    requires i <= |node.lower|
    requires forall n :: n in nodes ==> nodes[n].name == n
    ensures LowerDisks(node, nodes, visiting, i).Some? <==>
            forall j :: i <= j < |node.lower| ==>
              RefMatches(nodes, node.lower[j]) && Fresh(node, j) && LeafClean(nodes, visiting, node.lower[j].name)
    decreases nodes.Keys - visiting, 1, |node.lower| - i
  {
    if i < |node.lower| {
      if RefMatches(nodes, node.lower[i]) {
        DisksBehindDecides(nodes[node.lower[i].name], nodes, visiting);
      }
      LowerDisksDecides(node, nodes, visiting, i + 1);
    }
  }

  // -- What it returns: one entry per way down -------------------------------------------------------

  /** A path from one of `starts` down to the leaf `disk`. */
  predicate Descent(nodes: Nodes, starts: set<string>, p: seq<string>, disk: BlockNode) {
    && IsPath(LeafGraph(nodes), p) && p[0] in starts && p[|p| - 1] == disk.name
    && disk.name in nodes && nodes[disk.name] == disk && IsLeaf(disk)
  }

  /** `paths` are all the descents from `starts`, each once, and `disks` the leaves they end in. */
  ghost predicate Lists(nodes: Nodes, starts: set<string>, disks: seq<BlockNode>, paths: seq<seq<string>>) {
    && |disks| == |paths|
    && (forall k :: 0 <= k < |paths| ==> Descent(nodes, starts, paths[k], disks[k]))
    && (forall j, k :: 0 <= j < k < |paths| ==> paths[j] != paths[k])
    && (forall p, disk :: Descent(nodes, starts, p, disk) ==> p in paths)
  }

  lemma ListsNothing(nodes: Nodes)
    ensures Lists(nodes, {}, [], [])
  {
  }

  lemma ListsLeaf(nodes: Nodes, n: string)
    requires n in nodes && IsLeaf(nodes[n]) && nodes[n].name == n
    ensures Lists(nodes, {n}, [nodes[n]], [[n]])
  {
    assert LowerNames(nodes[n]) == [];
    forall p, disk | Descent(nodes, {n}, p, disk) ensures p in [[n]] {
      if |p| > 1 {
        PathTail(LeafGraph(nodes), p, n, p[|p| - 1]);
      }
      assert p == [n];
    }
  }

  lemma ListsUnion(nodes: Nodes, s: set<string>, t: set<string>, ds: seq<BlockNode>, ps: seq<seq<string>>,
                   es: seq<BlockNode>, qs: seq<seq<string>>)
    requires s !! t && Lists(nodes, s, ds, ps) && Lists(nodes, t, es, qs)
    ensures Lists(nodes, s + t, ds + es, ps + qs)
  {
    forall k | 0 <= k < |ps + qs| ensures Descent(nodes, s + t, (ps + qs)[k], (ds + es)[k]) {
      if k < |ps| {
        assert Descent(nodes, s, ps[k], ds[k]);
      } else {
        assert Descent(nodes, t, qs[k - |ps|], es[k - |ps|]);
      }
    }
    forall j, k | 0 <= j < k < |ps + qs| ensures (ps + qs)[j] != (ps + qs)[k] {
      if j < |ps| <= k {
        assert Descent(nodes, s, ps[j], ds[j]) && Descent(nodes, t, qs[k - |ps|], es[k - |ps|]);
      }
    }
    forall p, disk | Descent(nodes, s + t, p, disk) ensures p in ps + qs {
      if p[0] in s {
        assert Descent(nodes, s, p, disk);
      } else {
        assert Descent(nodes, t, p, disk);
      }
    }
  }

  function Under(n: string, paths: seq<seq<string>>): (r: seq<seq<string>>)
    ensures |r| == |paths| && forall k :: 0 <= k < |r| ==> r[k] == [n] + paths[k]
  {
    seq(|paths|, k requires 0 <= k < |paths| => [n] + paths[k])
  }

  lemma ListsUnder(nodes: Nodes, n: string, starts: set<string>, disks: seq<BlockNode>, paths: seq<seq<string>>)
    requires n in nodes && !IsLeaf(nodes[n]) && nodes[n].name == n
    requires forall c {:trigger Edge(LeafGraph(nodes), n, c)} :: Edge(LeafGraph(nodes), n, c) <==> c in starts
    requires Lists(nodes, starts, disks, paths)
    ensures Lists(nodes, {n}, disks, Under(n, paths))
  {
    var g := LeafGraph(nodes);
    forall k | 0 <= k < |paths| ensures Descent(nodes, {n}, Under(n, paths)[k], disks[k]) {
      assert Descent(nodes, starts, paths[k], disks[k]);
      PathPrepend(g, n, paths[k]);
    }
    forall j, k | 0 <= j < k < |paths| ensures Under(n, paths)[j] != Under(n, paths)[k] {
      assert ([n] + paths[j])[1..] == paths[j] && ([n] + paths[k])[1..] == paths[k];
    }
    forall p, disk | Descent(nodes, {n}, p, disk) ensures p in Under(n, paths) {
      assert |p| > 1;
      PathTail(g, p, n, disk.name);
      assert Descent(nodes, starts, p[1..], disk);
      var k :| 0 <= k < |paths| && paths[k] == p[1..];
      assert p == [n] + p[1..];
      assert Under(n, paths)[k] == p;
    }
  }

  function NamesFrom(node: BlockNode, i: nat): set<string>
    requires i <= |node.lower|
    decreases |node.lower| - i
  {
    if i == |node.lower| then {} else {node.lower[i].name} + NamesFrom(node, i + 1)
  }

  lemma {:induction false} NamesFromMembers(node: BlockNode, i: nat, n: string)
    requires i <= |node.lower|
    ensures n in NamesFrom(node, i) <==> exists j :: i <= j < |node.lower| && node.lower[j].name == n
    decreases |node.lower| - i
  {
    if i < |node.lower| {
      NamesFromMembers(node, i + 1, n);
    }
  }

  /** Every physical disk is returned once for each way down to it, and no way down is missed. */
  lemma {:induction false} DisksBehindLists(node: BlockNode, nodes: Nodes, visiting: set<string>)
    returns (paths: seq<seq<string>>)
    requires node.name in nodes && nodes[node.name] == node
    requires forall n :: n in nodes ==> nodes[n].name == n
    requires DisksBehind(node, nodes, visiting).Some?
    ensures Lists(nodes, {node.name}, DisksBehind(node, nodes, visiting).value, paths)
    decreases nodes.Keys - visiting, 0, 0
  {
    LeafEdges(nodes, node.name);
    if node.kind.Partition? {
      var parent := nodes[node.parentName];
      var below := DisksBehindLists(parent, nodes, visiting + {node.name});
      ListsUnder(nodes, node.name, {parent.name}, DisksBehind(parent, nodes, visiting + {node.name}).value, below);
      paths := Under(node.name, below);
    } else if node.lower == [] {
      ListsLeaf(nodes, node.name);
      paths := [[node.name]];
    } else {
      var below := LowerDisksList(node, nodes, visiting + {node.name}, 0);
      LowerLeafEdges(nodes, node.name);
      forall c ensures Edge(LeafGraph(nodes), node.name, c) <==> c in NamesFrom(node, 0) {
        NamesFromMembers(node, 0, c);
      }
      ListsUnder(nodes, node.name, NamesFrom(node, 0), LowerDisks(node, nodes, visiting + {node.name}, 0).value, below);
      paths := Under(node.name, below);
    }
  }

  lemma {:induction false} LowerDisksList(node: BlockNode, nodes: Nodes, visiting: set<string>, i: nat)
    returns (paths: seq<seq<string>>)
    requires i <= |node.lower|
    requires forall n :: n in nodes ==> nodes[n].name == n
    requires LowerDisks(node, nodes, visiting, i).Some?
    ensures Lists(nodes, NamesFrom(node, i), LowerDisks(node, nodes, visiting, i).value, paths)
    decreases nodes.Keys - visiting, 1, |node.lower| - i
  {
    if i == |node.lower| {
      ListsNothing(nodes);
      paths := [];
    } else {
      var lower := nodes[node.lower[i].name];
      var here := DisksBehindLists(lower, nodes, visiting);
      var rest := LowerDisksList(node, nodes, visiting, i + 1);
      LaterAreFresh(node, nodes, visiting, i);
      ListsUnion(nodes, {lower.name}, NamesFrom(node, i + 1), DisksBehind(lower, nodes, visiting).value, here,
                 LowerDisks(node, nodes, visiting, i + 1).value, rest);
      paths := here + rest;
    }
  }

  lemma {:induction false} LaterAreFresh(node: BlockNode, nodes: Nodes, visiting: set<string>, i: nat)
    requires i < |node.lower|
    requires forall n :: n in nodes ==> nodes[n].name == n
    requires LowerDisks(node, nodes, visiting, i).Some?
    ensures node.lower[i].name !in NamesFrom(node, i + 1)
  {
    NamesFromMembers(node, i + 1, node.lower[i].name);
    LowerDisksDecides(node, nodes, visiting, i);
    assert forall j :: i < j < |node.lower| ==> Fresh(node, j);
  }

  /** If no disk is returned twice, there is exactly one way down to each. */
  lemma {:induction false} SingleDescents(node: BlockNode, nodes: Nodes, disks: seq<BlockNode>, p: seq<string>,
                                          q: seq<string>, disk: BlockNode)
    requires node.name in nodes && nodes[node.name] == node
    requires forall n :: n in nodes ==> nodes[n].name == n
    requires DisksBehind(node, nodes, {}) == Some(disks)
    requires forall i, j :: 0 <= i < j < |disks| ==> disks[i].name != disks[j].name
    requires Descent(nodes, {node.name}, p, disk) && Descent(nodes, {node.name}, q, disk)
    ensures p == q && disk in disks
  {
    var paths := DisksBehindLists(node, nodes, {});
    var i :| 0 <= i < |paths| && paths[i] == p;
    var j :| 0 <= j < |paths| && paths[j] == q;
    assert Descent(nodes, {node.name}, paths[i], disks[i]) && Descent(nodes, {node.name}, paths[j], disks[j]);
  }

  /** The disks returned are exactly the reachable leaves. */
  lemma {:induction false} DisksBehindMembers(node: BlockNode, nodes: Nodes, disk: BlockNode)
    requires node.name in nodes && nodes[node.name] == node
    requires forall n :: n in nodes ==> nodes[n].name == n
    requires DisksBehind(node, nodes, {}).Some?
    ensures disk in DisksBehind(node, nodes, {}).value <==>
            && disk.name in nodes && nodes[disk.name] == disk && IsLeaf(disk)
            && Reaches(LeafGraph(nodes), node.name, disk.name)
  {
    var disks := DisksBehind(node, nodes, {}).value;
    var paths := DisksBehindLists(node, nodes, {});
    if disk in disks {
      var k :| 0 <= k < |disks| && disks[k] == disk;
      assert Descent(nodes, {node.name}, paths[k], disk);
      assert Joins(LeafGraph(nodes), paths[k], node.name, disk.name);
    }
    if disk.name in nodes && nodes[disk.name] == disk && IsLeaf(disk)
       && Reaches(LeafGraph(nodes), node.name, disk.name) {
      var p :| Joins(LeafGraph(nodes), p, node.name, disk.name);
      assert Descent(nodes, {node.name}, p, disk);
      var k :| 0 <= k < |paths| && paths[k] == p;
      assert Descent(nodes, {node.name}, paths[k], disks[k]);
    }
  }

  /** Below a node that the search accepts: every partition stands in the directory of the whole disk it records as
      its parent, every lower block is the record it names, and every leaf is a physical disk. */
  lemma {:induction false} SearchedMeans(node: BlockNode, nodes: Nodes, n: string)
    requires node.name in nodes && nodes[node.name] == node
    requires forall m :: m in nodes ==> nodes[m].name == m
    requires DisksBehind(node, nodes, {}).Some? && Reaches(LeafGraph(nodes), node.name, n)
    ensures n in nodes
    ensures var o := nodes[n];
            && (o.kind.Partition? ==>
                  && o.parentName in nodes
                  && var parent := nodes[o.parentName];
                     && parent.kind.Block? && o.parentMajor == Some(parent.device.major)
                     && o.parentMinor == Some(parent.device.minor) && o.parentDiskSequence == parent.diskSequence
                     && |parent.target| <= |o.target| && o.target[..|parent.target|] == parent.target)
            && (!o.kind.Partition? ==>
                  && o.kind.Block?
                  && (o.lower == [] ==> !(["devices", "virtual", "block"] < o.target) && o.diskSequence != 0)
                  && forall ref :: ref in o.lower ==>
                       && ref.name in nodes && nodes[ref.name].kind == ref.kind && nodes[ref.name].device == ref.device
                       && nodes[ref.name].diskSequence == ref.diskSequence)
  {
    DisksBehindDecides(node, nodes, {});
    assert GoodBelow(nodes, {}, n);
    assert LeafOk(nodes, nodes[n]);
  }
}
