/** The memoised search for the MD arrays in a block node's stack. */
module ArraySearches {
  import opened Basics
  import opened Graphs
  import opened Sorting
  import opened BlockInventory
  import opened LeafSearches

  /** The local checks of this search. */
  predicate WalkOk(nodes: Nodes, node: BlockNode) {
    if node.kind.Partition? then ParentSound(nodes, node) && node.lower == []
    else node.kind.Block? && forall i :: 0 <= i < |node.lower| ==> RefMatches(nodes, node.lower[i])
  }

  ghost predicate WalkFlaw(nodes: Nodes, a: string, n: string) {
    && Reaches(LeafGraph(nodes), a, n)
    && ((n in nodes && !WalkOk(nodes, nodes[n])) || OnCycle(LeafGraph(nodes), n))
  }

  ghost predicate WalkClean(nodes: Nodes, a: string) {
    forall n :: Reaches(LeafGraph(nodes), a, n) ==>
      n in nodes && WalkOk(nodes, nodes[n]) && !OnCycle(LeafGraph(nodes), n)
  }

  predicate IsArray(node: BlockNode) {
    node.kind.Block? && ValidMdName(node.name)
  }

  /** What is finished is ranked and sound, and its arrays, and only met arrays, are collected. */
  ghost predicate Walked(nodes: Nodes, rank: map<string, nat>, start: string, arrays: set<string>) {
    && Ranked(LeafGraph(nodes), rank) && RanksBounded(rank)
    && (forall n :: n in rank ==> n in nodes && WalkOk(nodes, nodes[n]) && (IsArray(nodes[n]) ==> n in arrays))
    && (forall n :: n in arrays ==> n in nodes && IsArray(nodes[n]) && Reaches(LeafGraph(nodes), start, n))
  }

  lemma FinishWalk(nodes: Nodes, rank: map<string, nat>, start: string, arrays: set<string>, n: string)
    requires Walked(nodes, rank, start, arrays) && n in nodes && n !in rank
    requires WalkOk(nodes, nodes[n]) && (IsArray(nodes[n]) ==> n in arrays)
    requires forall c {:trigger Edge(LeafGraph(nodes), n, c)} :: Edge(LeafGraph(nodes), n, c) ==> c in rank
    ensures Walked(nodes, rank[n := |rank|], start, arrays)
  {
    RankExtends(LeafGraph(nodes), rank, n);
  }

  /** The first `i` lower blocks match their references and are finished. */
  predicate LowerWalked(nodes: Nodes, node: BlockNode, i: nat, done: set<string>)
    requires i <= |node.lower|
  {
    i == 0 || (LowerWalked(nodes, node, i - 1, done) && RefMatches(nodes, node.lower[i - 1])
               && node.lower[i - 1].name in done)
  }

  lemma {:induction false} LowerWalkedGrows(nodes: Nodes, node: BlockNode, i: nat, done: set<string>, more: set<string>)
    requires i <= |node.lower| && LowerWalked(nodes, node, i, done) && done <= more
    ensures LowerWalked(nodes, node, i, more)
  {
    if i > 0 {
      LowerWalkedGrows(nodes, node, i - 1, done, more);
    }
  }

  lemma {:induction false} LowerWalkedAll(nodes: Nodes, node: BlockNode, i: nat, done: set<string>)
    requires i <= |node.lower| && LowerWalked(nodes, node, i, done)
    ensures forall j :: 0 <= j < i ==> RefMatches(nodes, node.lower[j]) && node.lower[j].name in done
  {
    if i > 0 {
      LowerWalkedAll(nodes, node, i - 1, done);
    }
  }

  class ArrayWalk {
    const nodes: Nodes
    ghost const start: string
    var visiting: set<string>
    var visited: set<string>
    var arrays: set<string>
    ghost var rank: map<string, nat>

    ghost predicate Static() {
      forall n :: n in nodes ==> nodes[n].name == n
    }

    ghost predicate Valid()
      reads this
    {
      && visited == rank.Keys && visiting !! visited && visiting <= nodes.Keys
      && Walked(nodes, rank, start, arrays)
    }

    constructor (nodes: Nodes, start: string)
      requires forall n :: n in nodes ==> nodes[n].name == n
      ensures Static() && Valid() && this.nodes == nodes && this.start == start && visiting == {} && arrays == {}
    {
      this.nodes, this.start := nodes, start;
      visiting, visited, arrays, rank := {}, {}, {}, map[];
    }

    // `trail` is the stack of open nodes above `n`.
    ghost predicate OnTrail(trail: seq<string>, n: string)
      reads this
    {
      IsPath(LeafGraph(nodes), trail + [n]) && (trail + [n])[0] == start && visiting == Elements(trail)
    }

    ghost predicate Open(trail: seq<string>, n: string)
      reads this
    {
      IsPath(LeafGraph(nodes), trail + [n]) && (trail + [n])[0] == start && visiting == Elements(trail) + {n}
    }

    method Walk(node: BlockNode, ghost trail: seq<string>) returns (ok: bool)
      requires Static() && Valid() && OnTrail(trail, node.name) && node.name in nodes && nodes[node.name] == node
      modifies this`visiting, this`visited, this`arrays, this`rank
      ensures Valid() && visiting == old(visiting) && old(rank).Keys <= rank.Keys && old(arrays) <= arrays
      ensures ok ==> node.name in visited
      ensures !ok ==> exists n :: WalkFlaw(nodes, node.name, n)
      decreases nodes.Keys - visiting, 0
    {
      if node.name in visiting {
        TrailClosesCycle(LeafGraph(nodes), trail, node.name);
        ReachesSelf(LeafGraph(nodes), node.name);
        assert WalkFlaw(nodes, node.name, node.name);
        return false;
      }
      if node.name in visited {
        return true;
      }
      visiting := visiting + {node.name};
      ok := Explore(node, trail);
      Leave(node.name, ok);
    }

    method Leave(n: string, finished: bool)
      requires Valid() && n in visiting
      requires finished ==> WalkOk(nodes, nodes[n]) && (IsArray(nodes[n]) ==> n in arrays)
      requires finished ==>
                 forall c {:trigger Edge(LeafGraph(nodes), n, c)} :: Edge(LeafGraph(nodes), n, c) ==> c in rank
      modifies this`visiting, this`visited, this`rank
      ensures Valid() && visiting == old(visiting) - {n}
      ensures rank.Keys == if finished then old(rank).Keys + {n} else old(rank).Keys
    {
      if finished {
        UpdateKeys(rank, n);
        FinishWalk(nodes, rank, start, arrays, n);
        visited := visited + {n};
        rank := rank[n := |rank|];
      }
      visiting := visiting - {n};
    }

    method Explore(node: BlockNode, ghost trail: seq<string>) returns (ok: bool)
      requires Static() && Valid() && Open(trail, node.name) && node.name in nodes && nodes[node.name] == node
      modifies this`visiting, this`visited, this`arrays, this`rank
      ensures Valid() && visiting == old(visiting) && old(rank).Keys <= rank.Keys && old(arrays) <= arrays
      ensures ok ==> WalkOk(nodes, node) && (IsArray(node) ==> node.name in arrays)
      ensures ok ==>
                forall c {:trigger Edge(LeafGraph(nodes), node.name, c)} ::
                  Edge(LeafGraph(nodes), node.name, c) ==> c in rank
      ensures !ok ==> exists n :: WalkFlaw(nodes, node.name, n)
      decreases nodes.Keys - visiting, 4
    {
      ReachesSelf(LeafGraph(nodes), node.name);
      assert !WalkOk(nodes, node) ==> WalkFlaw(nodes, node.name, node.name);
      LeafEdges(nodes, node.name);
      if node.kind.Partition? {
        if !ParentSound(nodes, node) || node.lower != [] {
          return false;
        }
        assert Edge(LeafGraph(nodes), node.name, node.parentName);
        ok := Follow(node, nodes[node.parentName], trail);
      } else if node.kind.Block? {
        if ValidMdName(node.name) {
          TrailReaches(trail, node.name);
          arrays := arrays + {node.name};
        }
        ok := ExploreLower(node, trail);
      } else {
        ok := false;
      }
    }

    lemma TrailReaches(trail: seq<string>, n: string)
      requires IsPath(LeafGraph(nodes), trail + [n]) && (trail + [n])[0] == start
      ensures Reaches(LeafGraph(nodes), start, n)
    {
      assert Joins(LeafGraph(nodes), trail + [n], start, n);
    }

    method ExploreLower(node: BlockNode, ghost trail: seq<string>) returns (ok: bool)
      requires Static() && Valid() && Open(trail, node.name) && node.name in nodes && nodes[node.name] == node
      requires node.kind.Block? && (IsArray(node) ==> node.name in arrays)
      modifies this`visiting, this`visited, this`arrays, this`rank
      ensures Valid() && visiting == old(visiting) && old(rank).Keys <= rank.Keys && old(arrays) <= arrays
      ensures ok ==>
                forall i :: 0 <= i < |node.lower| ==> RefMatches(nodes, node.lower[i]) && node.lower[i].name in visited
      ensures !ok ==> exists n :: WalkFlaw(nodes, node.name, n)
      decreases nodes.Keys - visiting, 3
    {
      for i := 0 to |node.lower|
        invariant Valid() && visiting == old(visiting) && old(rank).Keys <= rank.Keys && old(arrays) <= arrays
        invariant LowerWalked(nodes, node, i, visited)
      {
        ghost var before := visited;
        ok := FollowLower(node, i, trail);
        if !ok {
          return;
        }
        LowerWalkedGrows(nodes, node, i, before, visited);
      }
      ok := true;
      LowerWalkedAll(nodes, node, |node.lower|, visited);
    }

    method FollowLower(node: BlockNode, i: nat, ghost trail: seq<string>) returns (ok: bool)
      requires Static() && Valid() && Open(trail, node.name) && node.name in nodes && nodes[node.name] == node
      requires node.kind.Block? && i < |node.lower|
      modifies this`visiting, this`visited, this`arrays, this`rank
      ensures Valid() && visiting == old(visiting) && old(rank).Keys <= rank.Keys && old(arrays) <= arrays
      ensures ok ==> RefMatches(nodes, node.lower[i]) && node.lower[i].name in visited
      ensures !ok ==> exists n :: WalkFlaw(nodes, node.name, n)
      decreases nodes.Keys - visiting, 2
    {
      if !RefMatches(nodes, node.lower[i]) {
        ReachesSelf(LeafGraph(nodes), node.name);
        assert WalkFlaw(nodes, node.name, node.name);
        return false;
      }
      LowerLeafEdges(nodes, node.name);
      ok := Follow(node, nodes[node.lower[i].name], trail);
    }

    method Follow(node: BlockNode, next: BlockNode, ghost trail: seq<string>) returns (ok: bool)
      requires Static() && Valid() && Open(trail, node.name)
      requires Edge(LeafGraph(nodes), node.name, next.name) && next.name in nodes && nodes[next.name] == next
      modifies this`visiting, this`visited, this`arrays, this`rank
      ensures Valid() && visiting == old(visiting) && old(rank).Keys <= rank.Keys && old(arrays) <= arrays
      ensures ok ==> next.name in visited
      ensures !ok ==> exists n :: WalkFlaw(nodes, node.name, n)
      decreases nodes.Keys - visiting, 1
    {
      TrailExtends(LeafGraph(nodes), trail, node.name, next.name);
      ElementsAppend(trail, node.name);
      ok := Walk(next, trail + [node.name]);
      if !ok {
        ghost var n :| WalkFlaw(nodes, next.name, n);
        EdgeThenReaches(LeafGraph(nodes), node.name, next.name, n);
        assert WalkFlaw(nodes, node.name, n);
      }
    }
  }

  ghost function ArraysBehind(nodes: Nodes, a: string): set<string> {
    set n | n in nodes && IsArray(nodes[n]) && Reaches(LeafGraph(nodes), a, n)
  }

  /** The search succeeds exactly on a clean stack, and then lists the reachable arrays by name. */
  method MdArraysBehind(source: BlockNode, nodes: Nodes) returns (r: Option<seq<string>>)
    requires source.name in nodes && nodes[source.name] == source
    requires forall n :: n in nodes ==> nodes[n].name == n
    ensures r.Some? <==> WalkClean(nodes, source.name)
    ensures r.Some? ==> ListsSet(r.value, ArraysBehind(nodes, source.name))
  {
    var walk := new ArrayWalk(nodes, source.name);
    SinglePath(LeafGraph(nodes), source.name);
    assert Elements([]) == {};
    var ok := walk.Walk(source, []);
    if !ok {
      return None;
    }
    WalkedIsClean(nodes, walk.rank, source.name, walk.arrays);
    var names := SortSet(walk.arrays);
    r := Some(names);
  }

  lemma WalkedIsClean(nodes: Nodes, rank: map<string, nat>, start: string, arrays: set<string>)
    requires Walked(nodes, rank, start, arrays) && start in rank
    ensures WalkClean(nodes, start) && arrays == ArraysBehind(nodes, start)
  {
    var g := LeafGraph(nodes);
    RankedIsClosed(g, rank, start);
    forall n | Reaches(g, start, n) ensures n in nodes && WalkOk(nodes, nodes[n]) && !OnCycle(g, n) {
      RankedIsClosed(g, rank, n);
    }
  }
}
