/** Directory listings of block names: sorted, valid, and without repetition. */
module Listings {
  import opened Basics
  import opened Sorting
  import opened BlockInventory

  /** The names of a directory listing, in order. */
  ghost predicate Listing(entries: seq<string>, names: seq<string>) {
    Ascends(names) && multiset(names) == multiset(entries) && forall n :: n in names ==> ValidBlockName(n)
  }

  predicate NamesFit(names: seq<string>, n: nat)
    requires n <= |names|
  {
    (forall i :: 0 <= i < n ==> ValidBlockName(names[i])) && forall i, j :: 0 <= i < j < n ==> names[i] != names[j]
  }

  method SortNames(entries: seq<string>) returns (r: Option<seq<string>>)
    ensures r.Some? ==> Listing(entries, r.value)
    ensures r.None? ==> forall names :: !Listing(entries, names)
  {
    var names := Sort(TextAtMost, entries);
    var seen: set<string> := {};
    for i := 0 to |names|
      invariant NamesFit(names, i) && seen == set j | 0 <= j < i :: names[j]
    {
      if !ValidBlockName(names[i]) || names[i] in seen {
        forall other ensures !Listing(entries, other) {
          if Listing(entries, other) {
            UnfitIsNoListing(names, i, other);
          }
        }
        return None;
      }
      seen := seen + {names[i]};
    }
    TextOrderIsTotal();
    SortSorts(TextAtMost, entries);
    AscendsWhenFit(entries, names);
    r := Some(names);
  }

  lemma AscendsWhenFit(entries: seq<string>, names: seq<string>)
    requires NamesFit(names, |names|) && SortedBy(TextAtMost, names) && multiset(names) == multiset(entries)
    ensures Listing(entries, names)
  {
    forall i, j | 0 <= i < j < |names| ensures TextLess(names[i], names[j]) {
      assert TextAtMost(names[i], names[j]);
      TextLessTotal(names[i], names[j]);
    }
  }

  lemma UnfitIsNoListing(names: seq<string>, i: nat, other: seq<string>)
    requires i < |names| && multiset(other) == multiset(names) && Ascends(other)
    requires !ValidBlockName(names[i]) || exists j :: 0 <= j < i && names[j] == names[i]
    ensures exists n :: n in other && !ValidBlockName(n)
  {
    assert names[i] in multiset(other);
    if ValidBlockName(names[i]) {
      var j :| 0 <= j < i && names[j] == names[i];
      TwiceCounts(names, j, i);
      forall a, b | 0 <= a < b < |other| ensures other[a] != other[b] {
        TextLessIrreflexive(other[a]);
      }
      DistinctCounts(other);
    }
  }

  lemma OneListing(entries: seq<string>, a: seq<string>, b: seq<string>)
    requires Listing(entries, a) && Listing(entries, b)
    ensures a == b
  {
    var s := set x | x in a;
    forall x ensures x in s <==> x in b {
      assert x in multiset(a) <==> x in multiset(b);
    }
    AscendingListUnique(a, b, s);
  }
}
