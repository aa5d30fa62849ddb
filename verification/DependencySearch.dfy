/** The memoised depth-first search that decides whether a block node rests on a whole disk. */
module DependencySearches {
  import opened Basics
  import opened Graphs
  import opened BlockInventory

  datatype TopologyError =
    | UnnamedNode | DuplicateName | NotInventoryObject | NotSelectedDisk | GenerationChanged | Cycle
    | IncompleteParent | ParentMismatch | InvalidNode | InvalidSlave | SlaveMismatch

  /** The local checks the search makes of one node. */
  predicate NodeOk(nodes: Nodes, node: BlockNode) {
    && (if node.kind.Partition? then node.parentName != "" && node.parentDiskSequence != 0 && ParentMatches(nodes, node)
        else node.kind.Block? && node.diskSequence != 0)
    && SlavesOk(nodes, node, |node.lower|)
  }

  /** The first `i` lower blocks are named, pairwise distinct, and match what they refer to. */
  predicate SlavesOk(nodes: Nodes, node: BlockNode, i: nat)
    requires i <= |node.lower|
  {
    && (forall j :: 0 <= j < i ==> node.lower[j].name != "" && RefMatches(nodes, node.lower[j]))
    && (forall j, k :: 0 <= j < k < i ==> node.lower[j].name != node.lower[k].name)
  }

  lemma SlavesStep(nodes: Nodes, node: BlockNode, i: nat, seen: set<string>)
    requires i < |node.lower|
    requires forall n :: n in seen <==> exists j :: 0 <= j < i && node.lower[j].name == n
    ensures SlavesOk(nodes, node, i + 1) <==>
            && SlavesOk(nodes, node, i)
            && node.lower[i].name != "" && node.lower[i].name !in seen && RefMatches(nodes, node.lower[i])
    ensures !SlavesOk(nodes, node, i + 1) ==> !NodeOk(nodes, node)
    ensures forall n :: n in seen + {node.lower[i].name} <==> exists j :: 0 <= j < i + 1 && node.lower[j].name == n
  {
  }

  /** Reachable from `a` and failing a local check, or on a cycle. */
  ghost predicate Defect(nodes: Nodes, a: string, n: string) {
    && Reaches(TopologyGraph(nodes), a, n)
    && ((n in nodes && !NodeOk(nodes, nodes[n])) || OnCycle(TopologyGraph(nodes), n))
  }

  ghost predicate Clean(nodes: Nodes, a: string) {
    forall n :: Reaches(TopologyGraph(nodes), a, n) ==>
      n in nodes && NodeOk(nodes, nodes[n]) && !OnCycle(TopologyGraph(nodes), n)
  }

  lemma DefectAbove(nodes: Nodes, a: string, b: string, n: string)
    requires Edge(TopologyGraph(nodes), a, b) && Defect(nodes, b, n)
    ensures Defect(nodes, a, n)
  {
    EdgeThenReaches(TopologyGraph(nodes), a, b, n);
  }

  /** What the search has finished: sound nodes off the disk, each ranked above everything it rests on. */
  ghost predicate Settled(nodes: Nodes, rank: map<string, nat>, disk: string) {
    && Ranked(TopologyGraph(nodes), rank) && RanksBounded(rank)
    && forall n :: n in rank ==> n in nodes && n != disk && NodeOk(nodes, nodes[n])
  }

  lemma FinishNode(nodes: Nodes, rank: map<string, nat>, disk: string, n: string)
    requires Settled(nodes, rank, disk) && n in nodes && n != disk && n !in rank
    requires NodeOk(nodes, nodes[n]) && RestsOn(nodes[n], rank.Keys)
    ensures Settled(nodes, rank[n := |rank|], disk)
  {
    RestsOnEdges(nodes, n, rank.Keys);
    RankExtends(TopologyGraph(nodes), rank, n);
  }

  class DependencySearch {
    const byName: Nodes
    const disk: BlockNode
    // The searched graph: the inventory with the starting record in place of its own.
    ghost const nodes: Nodes
    ghost const start: string
    var visiting: set<string>
    var visited: set<string>
    ghost var rank: map<string, nat>

    ghost predicate Static() {
      && start in nodes && start in byName
      && nodes == byName[start := nodes[start]]
      && (forall n :: n in nodes ==> nodes[n].name == n)
      && (forall n :: n in byName ==> n in nodes && SameIdentity(byName[n], nodes[n]))
      && disk.name in nodes && SameIdentity(nodes[disk.name], disk)
    }

    ghost predicate Searched()
      reads this
    {
      && visited == rank.Keys
      && visiting !! visited
      && visiting <= nodes.Keys
      && disk.name !in visiting
      && Settled(nodes, rank, disk.name)
    }

    /** `trail` is the stack of open nodes from the start to just above `current`. */
    ghost predicate OnTrail(trail: seq<string>, current: string)
      reads this
    {
      && IsPath(TopologyGraph(nodes), trail + [current])
      && (trail + [current])[0] == start
      && visiting == Elements(trail)
    }

    ghost predicate Open(trail: seq<string>, n: string)
      reads this
    {
      && IsPath(TopologyGraph(nodes), trail + [n])
      && (trail + [n])[0] == start
      && visiting == Elements(trail) + {n}
    }

    constructor (byName: Nodes, node: BlockNode, disk: BlockNode)
      requires forall n :: n in byName ==> byName[n].name == n
      requires node.name in byName && SameIdentity(byName[node.name], node)
      requires disk.name in byName && SameIdentity(byName[disk.name], disk)
      ensures Static() && Searched() && visiting == {} && rank == map[]
      ensures nodes == byName[node.name := node] && start == node.name && this.disk == disk
    {
      this.byName, this.disk, this.start := byName, disk, node.name;
      this.nodes := byName[node.name := node];
      visiting, visited, rank := {}, {}, map[];
    }

    method Depends(current: BlockNode, ghost trail: seq<string>) returns (r: Result<bool, TopologyError>)
      requires Static() && Searched() && OnTrail(trail, current.name)
      requires current.name in nodes && SameIdentity(current, nodes[current.name])
      requires current == nodes[current.name] || current.name in visiting
      modifies this`visiting, this`visited, this`rank
      ensures Searched() && visiting == old(visiting)
      ensures old(rank).Keys <= rank.Keys
      ensures r == Ok(true) ==> Reaches(TopologyGraph(nodes), current.name, disk.name)
      ensures r == Ok(false) ==> current.name in visited
      ensures r.Err? ==> exists n :: Defect(nodes, current.name, n)
      decreases nodes.Keys - visiting, 1
    {
      if current.name == disk.name {
        if !SameIdentity(current, disk) {
          return Err(GenerationChanged);
        }
        ReachesSelf(TopologyGraph(nodes), current.name);
        return Ok(true);
      }
      if current.name in visiting {
        TrailClosesCycle(TopologyGraph(nodes), trail, current.name);
        ReachesSelf(TopologyGraph(nodes), current.name);
        assert Defect(nodes, current.name, current.name);
        return Err(Cycle);
      }
      if current.name in visited {
        return Ok(false);
      }
      r := Visit(current, trail);
    }

    /** Open the node, explore below it, close it again whatever the outcome. */
    method Visit(current: BlockNode, ghost trail: seq<string>) returns (r: Result<bool, TopologyError>)
      requires Static() && Searched() && OnTrail(trail, current.name)
      requires current.name in nodes && current == nodes[current.name]
      requires current.name != disk.name && current.name !in visiting && current.name !in visited
      modifies this`visiting, this`visited, this`rank
      ensures Searched() && visiting == old(visiting)
      ensures old(rank).Keys <= rank.Keys
      ensures r == Ok(true) ==> Reaches(TopologyGraph(nodes), current.name, disk.name)
      ensures r == Ok(false) ==> current.name in visited
      ensures r.Err? ==> exists n :: Defect(nodes, current.name, n)
      decreases nodes.Keys - visiting, 0
    {
      visiting := visiting + {current.name};
      r := Explore(current, trail);
      Leave(current.name, r == Ok(false));
    }

    /** Close an open node, remembering it when nothing below it led to the disk. */
    method Leave(n: string, finished: bool)
      requires Searched() && n in visiting
      requires finished ==> NodeOk(nodes, nodes[n]) && RestsOn(nodes[n], visited)
      modifies this`visiting, this`visited, this`rank
      ensures Searched() && visiting == old(visiting) - {n}
      ensures rank.Keys == if finished then old(rank).Keys + {n} else old(rank).Keys
    {
      if finished {
        UpdateKeys(rank, n);
        FinishNode(nodes, rank, disk.name, n);
        visited := visited + {n};
        rank := rank[n := |rank|];
      }
      visiting := visiting - {n};
    }

    /** What `current` rests on, parent first, then the lower blocks in order. */
    method Explore(current: BlockNode, ghost trail: seq<string>) returns (r: Result<bool, TopologyError>)
      requires Static() && Searched() && Open(trail, current.name)
      requires current.name in nodes && current == nodes[current.name]
      modifies this`visiting, this`visited, this`rank
      ensures Searched() && visiting == old(visiting)
      ensures old(rank).Keys <= rank.Keys
      ensures r == Ok(true) ==> Reaches(TopologyGraph(nodes), current.name, disk.name)
      ensures r == Ok(false) ==> NodeOk(nodes, current) && RestsOn(current, visited)
      ensures r.Err? ==> exists n :: Defect(nodes, current.name, n)
      decreases nodes.Keys - visiting, 4
    {
      LocalDefect(current);
      LookupsAgree(current);
      if current.kind.Partition? {
        if current.parentName == "" || current.parentMajor.None? || current.parentMinor.None?
           || current.parentDiskSequence == 0 {
          return Err(IncompleteParent);
        }
        if !ParentMatches(byName, current) {
          return Err(ParentMismatch);
        }
        assert Below(current)[0] == current.parentName;
        r := Follow(current, byName[current.parentName], trail);
        if r != Ok(false) {
          return;
        }
      } else if !current.kind.Block? || current.diskSequence == 0 {
        return Err(InvalidNode);
      }
      r := ExploreLower(current, trail);
    }

    method ExploreLower(current: BlockNode, ghost trail: seq<string>) returns (r: Result<bool, TopologyError>)
      requires Static() && Searched() && Open(trail, current.name)
      requires current.name in nodes && current == nodes[current.name]
      modifies this`visiting, this`visited, this`rank
      ensures Searched() && visiting == old(visiting)
      ensures old(rank).Keys <= rank.Keys
      ensures r == Ok(true) ==> Reaches(TopologyGraph(nodes), current.name, disk.name)
      ensures r == Ok(false) ==> SlavesOk(nodes, current, |current.lower|)
      ensures r == Ok(false) ==> forall i :: 0 <= i < |current.lower| ==> current.lower[i].name in visited
      ensures r.Err? ==> exists n :: Defect(nodes, current.name, n)
      decreases nodes.Keys - visiting, 3
    {
      LocalDefect(current);
      LookupsAgree(current);
      var seenLower: set<string> := {};
      for i := 0 to |current.lower|
        invariant Searched() && visiting == old(visiting) && old(rank).Keys <= rank.Keys
        invariant forall n :: n in seenLower <==> exists j :: 0 <= j < i && current.lower[j].name == n
        invariant seenLower <= visited
        invariant SlavesOk(nodes, current, i)
      {
        var ref := current.lower[i];
        SlavesStep(nodes, current, i, seenLower);
        if ref.name == "" || ref.name in seenLower {
          return Err(InvalidSlave);
        }
        seenLower := seenLower + {ref.name};
        if !RefMatches(byName, ref) {
          return Err(SlaveMismatch);
        }
        r := Follow(current, byName[ref.name], trail);
        if r != Ok(false) {
          return;
        }
      }
      r := Ok(false);
    }

    lemma LocalDefect(current: BlockNode)
      requires current.name in nodes && current == nodes[current.name]
      ensures !NodeOk(nodes, current) ==> Defect(nodes, current.name, current.name)
    {
      ReachesSelf(TopologyGraph(nodes), current.name);
    }

    /** The starting record has the identity of the inventory's own, so lookups see no difference. */
    lemma LookupsAgree(current: BlockNode)
      requires Static() && current.name in nodes && current == nodes[current.name]
      ensures ParentMatches(byName, current) <==> ParentMatches(nodes, current)
      ensures forall i :: 0 <= i < |current.lower| ==>
                && (RefMatches(byName, current.lower[i]) <==> RefMatches(nodes, current.lower[i]))
                && Edge(TopologyGraph(nodes), current.name, current.lower[i].name)
    {
      LowerEdges(nodes, current.name);
    }

    method Follow(current: BlockNode, next: BlockNode, ghost trail: seq<string>)
      returns (r: Result<bool, TopologyError>)
      requires Static() && Searched() && Open(trail, current.name)
      requires Edge(TopologyGraph(nodes), current.name, next.name) && next.name in byName && next == byName[next.name]
      modifies this`visiting, this`visited, this`rank
      ensures Searched() && visiting == old(visiting)
      ensures old(rank).Keys <= rank.Keys
      ensures r == Ok(true) ==> Reaches(TopologyGraph(nodes), current.name, disk.name)
      ensures r == Ok(false) ==> next.name in visited
      ensures r.Err? ==> exists n :: Defect(nodes, current.name, n)
      decreases nodes.Keys - visiting, 2
    {
      ghost var g := TopologyGraph(nodes);
      TrailExtends(g, trail, current.name, next.name);
      ElementsAppend(trail, current.name);
      r := Depends(next, trail + [current.name]);
      if r.Err? {
        ghost var n :| Defect(nodes, next.name, n);
        DefectAbove(nodes, current.name, next.name, n);
      } else if r.value {
        EdgeThenReaches(g, current.name, next.name, disk.name);
      }
    }
  }

  lemma SettledIsClean(nodes: Nodes, rank: map<string, nat>, disk: string, a: string)
    requires Settled(nodes, rank, disk) && a in rank
    ensures Clean(nodes, a) && !Reaches(TopologyGraph(nodes), a, disk)
  {
    var g := TopologyGraph(nodes);
    RankedIsClosed(g, rank, a);
    forall n | Reaches(g, a, n) ensures n in nodes && NodeOk(nodes, nodes[n]) && !OnCycle(g, n) {
      RankedIsClosed(g, rank, n);
    }
  }

  /** The inventory names every node once, and holds both the node and the disk with the identity asked about. */
  predicate Admissible(node: BlockNode, disk: BlockNode, inventory: seq<BlockNode>) {
    && UniquelyNamed(inventory)
    && var byName := Index(inventory);
       && node.name in byName && SameIdentity(byName[node.name], node)
       && disk.name in byName && byName[disk.name].kind.Block? && SameIdentity(byName[disk.name], disk)
  }

  /** The topology the search walks: the inventory, with the asked node's own record. */
  function Searchable(node: BlockNode, inventory: seq<BlockNode>): Nodes {
    Index(inventory)[node.name := node]
  }

  predicate UniquelyNamed(inventory: seq<BlockNode>) {
    (forall i :: 0 <= i < |inventory| ==> inventory[i].name != "") && DistinctNames(inventory)
  }

  /** The first records have names, each its own. */
  predicate UniqueUpTo(inventory: seq<BlockNode>, n: nat)
    requires n <= |inventory|
  {
    n == 0 || (UniqueUpTo(inventory, n - 1) && inventory[n - 1].name != ""
               && inventory[n - 1].name !in IndexUpTo(inventory, n - 1))
  }

  lemma {:induction false} UniqueUpToMeans(inventory: seq<BlockNode>, n: nat)
    requires n <= |inventory|
    ensures UniqueUpTo(inventory, n) <==>
            (forall i :: 0 <= i < n ==> inventory[i].name != "")
            && forall i, j :: 0 <= i < j < n ==> inventory[i].name != inventory[j].name
  {
    if n > 0 {
      UniqueUpToMeans(inventory, n - 1);
      if inventory[n - 1].name in IndexUpTo(inventory, n - 1) {
        var j := IndexUpToSource(inventory, n - 1, inventory[n - 1].name);
      }
    }
  }

  lemma {:induction false} UniqueStart(inventory: seq<BlockNode>, k: nat, n: nat)
    requires k <= n <= |inventory| && UniqueUpTo(inventory, n)
    ensures UniqueUpTo(inventory, k)
  {
    if k < n {
      UniqueStart(inventory, k, n - 1);
    }
  }

  lemma {:induction false} WholeIsUnique(inventory: seq<BlockNode>)
    ensures UniqueUpTo(inventory, |inventory|) <==> UniquelyNamed(inventory)
  {
    UniqueUpToMeans(inventory, |inventory|);
  }

  lemma {:induction false} RepeatedName(inventory: seq<BlockNode>, i: nat)
    requires i < |inventory| && (inventory[i].name == "" || inventory[i].name in IndexUpTo(inventory, i))
    ensures !UniquelyNamed(inventory)
  {
    WholeIsUnique(inventory);
    if UniqueUpTo(inventory, |inventory|) {
      UniqueStart(inventory, i + 1, |inventory|);
    }
  }

  method IndexUnique(inventory: seq<BlockNode>) returns (r: Result<Nodes, TopologyError>)
    ensures r.Ok? <==> UniquelyNamed(inventory)
    ensures r.Ok? ==> r.value == Index(inventory)
  {
    var byName: Nodes := map[];
    for i := 0 to |inventory|
      invariant byName == IndexUpTo(inventory, i) && UniqueUpTo(inventory, i)
    {
      if inventory[i].name == "" || inventory[i].name in byName {
        RepeatedName(inventory, i);
        return Err(if inventory[i].name == "" then UnnamedNode else DuplicateName);
      }
      byName := byName[inventory[i].name := inventory[i]];
    }
    WholeIsUnique(inventory);
    r := Ok(byName);
  }

  method NodeDependsOnWholeDisk(node: BlockNode, disk: BlockNode, inventory: seq<BlockNode>)
    returns (r: Result<bool, TopologyError>)
    ensures !Admissible(node, disk, inventory) ==> r.Err?
    ensures r == Ok(true) ==> Reaches(TopologyGraph(Searchable(node, inventory)), node.name, disk.name)
    ensures r == Ok(false) ==>
              && !Reaches(TopologyGraph(Searchable(node, inventory)), node.name, disk.name)
              && Clean(Searchable(node, inventory), node.name)
    ensures Admissible(node, disk, inventory) && r.Err? ==> !Clean(Searchable(node, inventory), node.name)
  {
    var indexed := IndexUnique(inventory);
    if indexed.Err? {
      return Err(indexed.error);
    }
    var byName := indexed.value;
    if node.name !in byName || !SameIdentity(byName[node.name], node) {
      return Err(NotInventoryObject);
    }
    if disk.name !in byName || !byName[disk.name].kind.Block? || !SameIdentity(byName[disk.name], disk) {
      return Err(NotSelectedDisk);
    }
    var search := new DependencySearch(byName, node, disk);
    r := search.Depends(node, []);
    if r == Ok(false) {
      SettledIsClean(search.nodes, search.rank, disk.name, node.name);
    }
  }
}
