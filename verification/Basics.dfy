/** Shared value types: optional values, results, and the integer widths of the service. */
module Basics {

  datatype Option<+T> = None | Some(value: T)

  datatype Result<+T, +E> = Ok(value: T) | Err(error: E)

  const MAX_UINT64: int := 0xFFFF_FFFF_FFFF_FFFF

  type Uint8 = x: int | 0 <= x < 0x100

  type Uint32 = x: int | 0 <= x < 0x1_0000_0000

  type Uint64 = x: int | 0 <= x < 0x1_0000_0000_0000_0000

  /** The property holds below `n`; recursive, so that nothing is unfolded before it is asked for. */
  ghost predicate Every(n: nat, p: nat -> bool) {
    n == 0 || (Every(n - 1, p) && p(n - 1))
  }

  lemma {:induction false} EveryAt(n: nat, p: nat -> bool, k: nat)
    requires Every(n, p) && k < n
    ensures p(k)
  {
    if k < n - 1 {
      EveryAt(n - 1, p, k);
    }
  }

  lemma {:induction false} EveryFrom(n: nat, p: nat -> bool)
    requires forall k: nat {:trigger p(k)} :: k < n ==> p(k)
    ensures Every(n, p)
  {
    if n > 0 {
      EveryFrom(n - 1, p);
    }
  }

  /** Every element of the list satisfies the property at its place. */
  ghost predicate Each<T>(list: seq<T>, p: (nat, T) -> bool) {
    list == [] || (Each(list[..|list| - 1], p) && p(|list| - 1, list[|list| - 1]))
  }

  lemma {:induction false} EachAt<T>(list: seq<T>, p: (nat, T) -> bool, k: nat)
    requires Each(list, p) && k < |list|
    ensures p(k, list[k])
  {
    if k < |list| - 1 {
      EachAt(list[..|list| - 1], p, k);
    }
  }

  lemma {:induction false} EachFrom<T>(list: seq<T>, p: (nat, T) -> bool)
    requires forall k {:trigger list[k]} :: 0 <= k < |list| ==> p(k, list[k])
    ensures Each(list, p)
  {
    if list != [] {
      var n := |list| - 1;
      assert forall k {:trigger list[..n][k]} :: 0 <= k < n ==> p(k, list[..n][k]);
      EachFrom(list[..n], p);
    }
  }

  lemma {:induction false} EachMore<T>(list: seq<T>, p: (nat, T) -> bool, x: T)
    requires Each(list, p) && p(|list|, x)
    ensures Each(list + [x], p)
  {
    assert (list + [x])[..|list|] == list;
  }

  lemma SubsetFills<T>(a: set<T>, b: set<T>)
    requires a <= b && |a| == |b|
    ensures a == b
  {
    assert |b - a| == |b| - |a|;
  }
}
