/** Paths, reachability and rankings in finite directed graphs given by adjacency lists. */
module Graphs {

  type Graph = map<string, seq<string>>

  predicate Edge(g: Graph, a: string, b: string) {
    a in g && b in g[a]
  }

  predicate IsPath(g: Graph, p: seq<string>) {
    |p| > 0 && forall i :: 0 <= i < |p| - 1 ==> Edge(g, p[i], p[i + 1])
  }

  predicate Joins(g: Graph, p: seq<string>, a: string, b: string) {
    IsPath(g, p) && p[0] == a && p[|p| - 1] == b
  }

  ghost predicate Reaches(g: Graph, a: string, b: string) {
    exists p :: Joins(g, p, a, b)
  }

  ghost predicate OnCycle(g: Graph, n: string) {
    exists p :: Joins(g, p, n, n) && |p| > 1
  }

  lemma ReachesSelf(g: Graph, a: string)
    ensures Reaches(g, a, a)
  {
    assert Joins(g, [a], a, a);
  }

  lemma SinglePath(g: Graph, a: string)
    ensures IsPath(g, [] + [a])
  {
  }

  lemma PathPrepend(g: Graph, a: string, p: seq<string>)
    requires IsPath(g, p) && Edge(g, a, p[0])
    ensures IsPath(g, [a] + p)
  {
    forall i | 0 <= i < |p| ensures Edge(g, ([a] + p)[i], ([a] + p)[i + 1]) {
    }
  }

  lemma EdgeThenReaches(g: Graph, a: string, b: string, c: string)
    requires Edge(g, a, b) && Reaches(g, b, c)
    ensures Reaches(g, a, c)
  {
    var p :| Joins(g, p, b, c);
    PathPrepend(g, a, p);
    assert Joins(g, [a] + p, a, c);
  }

  lemma PathTail(g: Graph, p: seq<string>, a: string, b: string)
    requires Joins(g, p, a, b) && |p| > 1
    ensures Joins(g, p[1..], p[1], b) && Edge(g, a, p[1])
  {
    assert Edge(g, p[0], p[1]);
    forall i | 0 <= i < |p| - 2 ensures Edge(g, p[1..][i], p[1..][i + 1]) {
      assert Edge(g, p[i + 1], p[i + 2]);
    }
  }

  /** Whoever reaches something else does so through a successor. */
  lemma ReachesStep(g: Graph, a: string, b: string) returns (c: string)
    requires Reaches(g, a, b) && a != b
    ensures Edge(g, a, c) && Reaches(g, c, b)
  {
    var p :| Joins(g, p, a, b);
    PathTail(g, p, a, b);
    c := p[1];
  }

  lemma NoEdgeNoCycle(g: Graph, n: string)
    requires forall b :: !Edge(g, n, b)
    ensures !OnCycle(g, n)
  {
    if OnCycle(g, n) {
      var p :| Joins(g, p, n, n) && |p| > 1;
      PathTail(g, p, n, n);
    }
  }

  /** Every ranked node's successors are ranked lower: what a depth-first search has finished. */
  ghost predicate Ranked(g: Graph, rank: map<string, nat>) {
    && (forall n :: n in rank ==> n in g)
    && (forall a, b {:trigger Edge(g, a, b)} :: a in rank && Edge(g, a, b) ==> b in rank && rank[b] < rank[a])
  }

  ghost predicate RanksBounded(rank: map<string, nat>) {
    forall m :: m in rank ==> rank[m] < |rank|
  }

  lemma {:induction false} RankedPath(g: Graph, rank: map<string, nat>, p: seq<string>)
    requires Ranked(g, rank) && IsPath(g, p) && p[0] in rank
    ensures p[|p| - 1] in rank && rank[p[|p| - 1]] <= rank[p[0]]
    ensures |p| > 1 ==> rank[p[|p| - 1]] < rank[p[0]]
    decreases |p|
  {
    if |p| > 1 {
      PathTail(g, p, p[0], p[|p| - 1]);
      RankedPath(g, rank, p[1..]);
    }
  }

  /** A ranked node reaches only ranked nodes, and lies on no cycle. */
  lemma RankedIsClosed(g: Graph, rank: map<string, nat>, a: string)
    requires Ranked(g, rank) && a in rank
    ensures !OnCycle(g, a)
    ensures forall b :: Reaches(g, a, b) ==> b in rank
  {
    forall p | Joins(g, p, a, a) ensures |p| <= 1 {
      RankedPath(g, rank, p);
    }
    forall b | Reaches(g, a, b) ensures b in rank {
      var p :| Joins(g, p, a, b);
      RankedPath(g, rank, p);
    }
  }

  /** Finishing a node whose successors are all finished. */
  lemma RankExtends(g: Graph, rank: map<string, nat>, n: string)
    requires Ranked(g, rank) && n in g && n !in rank
    requires RanksBounded(rank)
    requires forall b {:trigger Edge(g, n, b)} :: Edge(g, n, b) ==> b in rank
    ensures Ranked(g, rank[n := |rank|])
    ensures RanksBounded(rank[n := |rank|])
  {
    var next := rank[n := |rank|];
    assert next.Keys == rank.Keys + {n};
  }

  lemma UpdateKeys(rank: map<string, nat>, n: string)
    ensures rank[n := |rank|].Keys == rank.Keys + {n}
  {
  }

  function Elements(s: seq<string>): (e: set<string>)
    ensures forall n :: n in e <==> n in s
  {
    set n | n in s
  }

  lemma ElementsAppend(s: seq<string>, n: string)
    ensures Elements(s + [n]) == Elements(s) + {n}
  {
  }

  /** The stack of open nodes closes a cycle when its end is met again. */
  lemma TrailClosesCycle(g: Graph, trail: seq<string>, n: string)
    requires IsPath(g, trail + [n]) && n in trail
    ensures OnCycle(g, n)
  {
    var i :| 0 <= i < |trail| && trail[i] == n;
    var p := (trail + [n])[i..];
    forall j | 0 <= j < |p| - 1 ensures Edge(g, p[j], p[j + 1]) {
      assert Edge(g, (trail + [n])[i + j], (trail + [n])[i + j + 1]);
    }
    assert Joins(g, p, n, n);
  }

  lemma TrailExtends(g: Graph, trail: seq<string>, n: string, m: string)
    requires IsPath(g, trail + [n]) && Edge(g, n, m)
    ensures IsPath(g, trail + [n] + [m])
  {
    var p := trail + [n] + [m];
    forall j | 0 <= j < |p| - 1 ensures Edge(g, p[j], p[j + 1]) {
      if j < |trail| {
        assert Edge(g, (trail + [n])[j], (trail + [n])[j + 1]);
      }
    }
  }

  /** The first `i` names are all in `done`. */
  predicate AllIn(names: seq<string>, i: nat, done: set<string>)
    requires i <= |names|
  {
    i == 0 || (AllIn(names, i - 1, done) && names[i - 1] in done)
  }

  lemma {:induction false} AllInGrows(names: seq<string>, i: nat, done: set<string>, more: set<string>)
    requires i <= |names| && AllIn(names, i, done) && done <= more
    ensures AllIn(names, i, more)
  {
    if i > 0 {
      AllInGrows(names, i - 1, done, more);
    }
  }

  lemma {:induction false} AllInMembers(names: seq<string>, i: nat, done: set<string>)
    requires i <= |names| && AllIn(names, i, done)
    ensures forall j :: 0 <= j < i ==> names[j] in done
  {
    if i > 0 {
      AllInMembers(names, i - 1, done);
    }
  }
}
