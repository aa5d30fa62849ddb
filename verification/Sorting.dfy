/** Orders and the sorted arrangement of a finite sequence. */
module Sorting {

  /** Byte-wise text order. */
  predicate TextLess(a: string, b: string) {
    b != "" && (a == "" || a[0] < b[0] || (a[0] == b[0] && TextLess(a[1..], b[1..])))
  }

  lemma {:induction false} TextLessIrreflexive(a: string)
    ensures !TextLess(a, a)
  {
    if a != "" {
      TextLessIrreflexive(a[1..]);
    }
  }

  lemma {:induction false} TextLessTransitive(a: string, b: string, c: string)
    requires TextLess(a, b) && TextLess(b, c)
    ensures TextLess(a, c)
    decreases |a|
  {
    if a != "" && a[0] == b[0] == c[0] {
      TextLessTransitive(a[1..], b[1..], c[1..]);
    }
  }

  lemma {:induction false} TextLessTotal(a: string, b: string)
    ensures TextLess(a, b) || a == b || TextLess(b, a)
    decreases |a|
  {
    if a != "" && b != "" && a[0] == b[0] {
      TextLessTotal(a[1..], b[1..]);
      assert a == [a[0]] + a[1..] && b == [b[0]] + b[1..];
    }
  }

  predicate TextAtMost(a: string, b: string) {
    !TextLess(b, a)
  }

  ghost predicate TotalOrder<T(!new)>(le: (T, T) -> bool) {
    && (forall x, y :: le(x, y) || le(y, x))
    && (forall x, y, z :: le(x, y) && le(y, z) ==> le(x, z))
  }

  lemma TextOrderIsTotal()
    ensures TotalOrder(TextAtMost)
    ensures forall a, b :: TextAtMost(a, b) && TextAtMost(b, a) ==> a == b
  {
    forall x, y ensures TextAtMost(x, y) || TextAtMost(y, x) {
      if TextLess(y, x) && TextLess(x, y) {
        TextLessTransitive(x, y, x);
        TextLessIrreflexive(x);
      }
    }
    forall x, y, z | TextAtMost(x, y) && TextAtMost(y, z) ensures TextAtMost(x, z) {
      TextLessTotal(x, y);
      TextLessTotal(y, z);
      if TextLess(x, y) && TextLess(y, z) {
        TextLessTransitive(x, y, z);
        TextLessTotal(x, z);
        if TextLess(z, x) {
          TextLessTransitive(x, z, x);
          TextLessIrreflexive(x);
        }
      }
    }
    forall a, b | TextAtMost(a, b) && TextAtMost(b, a) ensures a == b {
      TextLessTotal(a, b);
    }
  }

  predicate SortedBy<T>(le: (T, T) -> bool, s: seq<T>) {
    forall i, j :: 0 <= i < j < |s| ==> le(s[i], s[j])
  }

  function Insert<T>(le: (T, T) -> bool, x: T, s: seq<T>): (r: seq<T>)
    ensures multiset(r) == multiset(s) + multiset{x}
  {
    if s == [] then [x]
    else if le(x, s[0]) then [x] + s
    else
      assert s == [s[0]] + s[1..];
      [s[0]] + Insert(le, x, s[1..])
  }

  /** The arrangement a sort by `le` leaves; the elements are kept with their multiplicity. */
  function Sort<T>(le: (T, T) -> bool, s: seq<T>): (r: seq<T>)
    ensures multiset(r) == multiset(s)
    ensures |r| == |s|
  {
    if s == [] then []
    else
      assert s == [s[0]] + s[1..];
      var r := Insert(le, s[0], Sort(le, s[1..]));
      assert |multiset(r)| == |multiset(s)|;
      r
  }

  lemma {:induction false} InsertSorts<T(!new)>(le: (T, T) -> bool, x: T, s: seq<T>)
    requires TotalOrder(le) && SortedBy(le, s)
    ensures SortedBy(le, Insert(le, x, s))
  {
    if s != [] && !le(x, s[0]) {
      var rest := Insert(le, x, s[1..]);
      InsertSorts(le, x, s[1..]);
      forall y | y in rest ensures le(s[0], y) {
        assert y in multiset(rest);
        assert y in multiset(s[1..]) + multiset{x};
        if y != x {
          assert y in s[1..];
        }
      }
    }
  }

  lemma {:induction false} SortSorts<T(!new)>(le: (T, T) -> bool, s: seq<T>)
    requires TotalOrder(le)
    ensures SortedBy(le, Sort(le, s))
  {
    if s != [] {
      SortSorts(le, s[1..]);
      InsertSorts(le, s[0], Sort(le, s[1..]));
    }
  }

  ghost predicate NoTies<T(!new)>(le: (T, T) -> bool, s: seq<T>) {
    forall i, j :: 0 <= i < |s| && 0 <= j < |s| && le(s[i], s[j]) && le(s[j], s[i]) ==> s[i] == s[j]
  }

  lemma SortedHeads<T(!new)>(le: (T, T) -> bool, a: seq<T>, b: seq<T>)
    requires a != [] && b != [] && SortedBy(le, a) && SortedBy(le, b) && multiset(a) == multiset(b)
    requires NoTies(le, a)
    ensures a[0] == b[0]
  {
    assert a[0] in multiset(b) && b[0] in multiset(a);
    var i :| 0 <= i < |b| && b[i] == a[0];
    var j :| 0 <= j < |a| && a[j] == b[0];
    if i != 0 && j != 0 {
      assert le(a[0], a[j]) && le(b[0], b[i]);
    }
  }

  lemma TailSorted<T(!new)>(le: (T, T) -> bool, a: seq<T>)
    requires a != [] && SortedBy(le, a)
    ensures SortedBy(le, a[1..]) && (NoTies(le, a) ==> NoTies(le, a[1..]))
    ensures multiset(a[1..]) == multiset(a) - multiset{a[0]}
    ensures a == [a[0]] + a[1..]
  {
    assert a == [a[0]] + a[1..];
    if NoTies(le, a) {
      forall i, j | 0 <= i < |a| - 1 && 0 <= j < |a| - 1 && le(a[1..][i], a[1..][j]) && le(a[1..][j], a[1..][i])
        ensures a[1..][i] == a[1..][j]
      {
        assert a[1..][i] == a[i + 1] && a[1..][j] == a[j + 1];
      }
    }
  }

  /** Two sorted arrangements of the same elements agree when no two distinct elements tie. */
  lemma {:induction false} SortedUnique<T(!new)>(le: (T, T) -> bool, a: seq<T>, b: seq<T>)
    requires SortedBy(le, a) && SortedBy(le, b) && multiset(a) == multiset(b)
    requires NoTies(le, a)
    ensures a == b
  {
    assert |multiset(a)| == |multiset(b)|;
    if a != [] {
      SortedHeads(le, a, b);
      TailSorted(le, a);
      TailSorted(le, b);
      SortedUnique(le, a[1..], b[1..]);
    }
  }

  /** So sorting depends only on the elements, not on the order they came in. */
  lemma {:induction false} SortPermutation<T(!new)>(le: (T, T) -> bool, a: seq<T>, b: seq<T>)
    requires TotalOrder(le) && multiset(a) == multiset(b)
    requires NoTies(le, a)
    ensures Sort(le, a) == Sort(le, b)
  {
    SortSorts(le, a);
    SortSorts(le, b);
    var r := Sort(le, a);
    forall i, j | 0 <= i < |r| && 0 <= j < |r| && le(r[i], r[j]) && le(r[j], r[i]) ensures r[i] == r[j] {
      assert r[i] in multiset(a) && r[j] in multiset(a);
    }
    SortedUnique(le, Sort(le, a), Sort(le, b));
  }

  // -- A set of texts in ascending order ------------------------------------------------------------

  predicate Ascends(list: seq<string>) {
    forall i, j :: 0 <= i < j < |list| ==> TextLess(list[i], list[j])
  }

  ghost predicate ListsSet(list: seq<string>, s: set<string>) {
    Ascends(list) && forall x :: x in s <==> x in list
  }

  lemma {:induction false} AscendingListUnique(a: seq<string>, b: seq<string>, s: set<string>)
    requires ListsSet(a, s) && ListsSet(b, s)
    ensures a == b
    decreases |a|
  {
    if b != [] {
      assert b[0] in s;
    }
    if a != [] {
      assert a[0] in s;
      assert b != [];
      FirstIsLeast(a, b, s);
      FirstIsLeast(b, a, s);
      TextLessTotal(a[0], b[0]);
      AscendingTail(a, s);
      AscendingTail(b, s);
      AscendingListUnique(a[1..], b[1..], s - {a[0]});
      assert a == [a[0]] + a[1..] && b == [b[0]] + b[1..];
    }
  }

  lemma FirstIsLeast(a: seq<string>, b: seq<string>, s: set<string>)
    requires ListsSet(a, s) && ListsSet(b, s) && a != [] && b != []
    ensures !TextLess(b[0], a[0])
  {
    assert b[0] in s;
    var i :| 0 <= i < |a| && a[i] == b[0];
    if TextLess(b[0], a[0]) {
      if i > 0 {
        TextLessTransitive(a[0], a[i], a[0]);
      }
      TextLessIrreflexive(a[0]);
    }
  }

  lemma AscendingTail(a: seq<string>, s: set<string>)
    requires ListsSet(a, s) && a != []
    ensures ListsSet(a[1..], s - {a[0]})
  {
    forall x ensures x in s - {a[0]} <==> x in a[1..] {
      if x in s - {a[0]} {
        var i :| 0 <= i < |a| && a[i] == x;
        assert a[1..][i - 1] == x;
      }
      if x in a[1..] {
        var i :| 0 <= i < |a| - 1 && a[1..][i] == x;
        assert a[i + 1] == x;
        TextLessIrreflexive(x);
      }
    }
  }

  /** Listing a set element by element and sorting what was listed. */
  method SortSet(s: set<string>) returns (list: seq<string>)
    ensures ListsSet(list, s)
  {
    var rest := s;
    var raw: seq<string> := [];
    while rest != {}
      invariant rest <= s
      invariant forall x :: x in raw <==> x in s - rest
      invariant forall i, j :: 0 <= i < j < |raw| ==> raw[i] != raw[j]
      decreases rest
    {
      var x :| x in rest;
      assert x !in raw;
      raw, rest := raw + [x], rest - {x};
    }
    list := Sort(TextAtMost, raw);
    SortedDistinct(raw);
    forall x ensures x in s <==> x in list {
      assert x in raw <==> x in multiset(raw);
      assert x in list <==> x in multiset(list);
    }
  }

  lemma {:induction false} SortedDistinct(raw: seq<string>)
    requires forall i, j :: 0 <= i < j < |raw| ==> raw[i] != raw[j]
    ensures Ascends(Sort(TextAtMost, raw))
  {
    var list := Sort(TextAtMost, raw);
    TextOrderIsTotal();
    SortSorts(TextAtMost, raw);
    DistinctCounts(raw);
    forall i, j | 0 <= i < j < |list| ensures TextLess(list[i], list[j]) {
      TextLessTotal(list[i], list[j]);
      if list[i] == list[j] {
        TwiceCounts(list, i, j);
      }
    }
  }

  lemma {:induction false} DistinctCounts<T>(s: seq<T>)
    requires forall i, j :: 0 <= i < j < |s| ==> s[i] != s[j]
    ensures forall x :: multiset(s)[x] <= 1
  {
    if s != [] {
      DistinctCounts(s[1..]);
      assert s == [s[0]] + s[1..];
      assert s[0] !in s[1..];
    }
  }

  lemma TwiceCounts<T>(s: seq<T>, i: nat, j: nat)
    requires i < j < |s| && s[i] == s[j]
    ensures multiset(s)[s[i]] >= 2
  {
    assert s == s[..i] + [s[i]] + s[i + 1..j] + [s[j]] + s[j + 1..];
  }

  lemma CountsAround<T>(fore: seq<T>, x: T, aft: seq<T>)
    ensures multiset(fore + ([x] + aft)) == multiset(fore + aft) + multiset{x}
  {
  }

  /** The last element of one list, cut out of a permutation of it. */
  lemma CutOut<T>(a: seq<T>, b: seq<T>) returns (fore: seq<T>, aft: seq<T>)
    requires a != [] && multiset(a) == multiset(b)
    ensures b == fore + ([a[|a| - 1]] + aft)
    ensures multiset(a[..|a| - 1]) == multiset(fore + aft)
  {
    var x, rest := a[|a| - 1], a[..|a| - 1];
    assert a == rest + ([x] + []);
    CountsAround(rest, x, []);
    assert rest + [] == rest;
    assert x in multiset(b);
    var i :| 0 <= i < |b| && b[i] == x;
    fore, aft := b[..i], b[i + 1..];
    assert b == fore + ([x] + aft);
    CountsAround(fore, x, aft);
    assert multiset(rest) + multiset{x} == multiset(fore + aft) + multiset{x};
    SameRest(multiset(rest), multiset(fore + aft), multiset{x});
  }

  lemma SameRest<T>(a: multiset<T>, b: multiset<T>, c: multiset<T>)
    requires a + c == b + c
    ensures a == b
  {
    assert a == (a + c) - c && b == (b + c) - c;
  }

  /** Sorting both lists compares them as multisets. */
  method SameNames(a: seq<string>, b: seq<string>) returns (same: bool)
    ensures same <==> multiset(a) == multiset(b)
  {
    var x, y := Sort(TextAtMost, a), Sort(TextAtMost, b);
    same := x == y;
    assert multiset(x) == multiset(a) && multiset(y) == multiset(b);
    if multiset(a) == multiset(b) {
      TextOrderIsTotal();
      SortPermutation(TextAtMost, a, b);
    }
  }
}
