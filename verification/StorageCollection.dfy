/** The storage collector: names, two passes, partition parents, holder and slave relations, duplicate
    identities, and what the published inventory is worth. */
module StorageCollection {
  import opened Basics
  import opened Graphs
  import opened Sorting
  import opened BlockInventory
  import opened SourceSets
  import opened Listings
  import opened Sampling
  import A = Agreement
  import D = DependencySearches
  import L = LeafSearches
  import W = ArraySearches

  // -- Topology from metadata ------------------------------------------------------------------------

  /** The whole disks at a device path. */
  function DisksAt(ms: seq<Metadata>, n: nat, target: SysfsPath): seq<nat>
    requires n <= |ms|
  {
    if n == 0 then []
    else DisksAt(ms, n - 1, target) + if ms[n - 1].kind.Block? && ms[n - 1].target == target then [n - 1] else []
  }

  lemma {:induction false} DisksAtMembers(ms: seq<Metadata>, n: nat, target: SysfsPath)
    requires n <= |ms|
    ensures forall i :: i in DisksAt(ms, n, target) <==> 0 <= i < n && ms[i].kind.Block? && ms[i].target == target
  {
    if n > 0 {
      DisksAtMembers(ms, n - 1, target);
    }
  }

  predicate HasParent(ms: seq<Metadata>, i: nat)
    requires i < |ms|
  {
    ms[i].kind.Partition? ==> |DisksAt(ms, |ms|, Dir(ms[i].target))| == 1
  }

  function ParentOf(ms: seq<Metadata>, i: nat): (p: nat)
    requires i < |ms| && HasParent(ms, i) && ms[i].kind.Partition?
    ensures p < |ms| && ms[p].kind.Block? && ms[p].target == Dir(ms[i].target)
  {
    var disks := DisksAt(ms, |ms|, Dir(ms[i].target));
    DisksAtMembers(ms, |ms|, Dir(ms[i].target));
    assert disks[0] in disks;
    disks[0]
  }

  predicate TargetsDistinct(ms: seq<Metadata>, n: nat)
    requires n <= |ms|
  {
    forall i, j {:trigger TargetsApart(ms, i, j)} :: 0 <= i < j < n ==> TargetsApart(ms, i, j)
  }

  predicate TargetsApart(ms: seq<Metadata>, i: nat, j: nat)
    requires i < |ms| && j < |ms|
  {
    ms[i].target != ms[j].target
  }

  function TargetIndex(ms: seq<Metadata>, n: nat): (m: map<SysfsPath, nat>)
    requires n <= |ms|
    ensures forall t :: t in m ==> m[t] < n
  {
    if n == 0 then map[] else TargetIndex(ms, n - 1)[ms[n - 1].target := n - 1]
  }

  lemma {:induction false} TargetFound(ms: seq<Metadata>, n: nat, t: SysfsPath)
    requires n <= |ms| && t in TargetIndex(ms, n)
    ensures ms[TargetIndex(ms, n)[t]].target == t
  {
    if ms[n - 1].target != t {
      TargetFound(ms, n - 1, t);
    }
  }

  lemma {:induction false} TargetIndexed(ms: seq<Metadata>, n: nat, i: nat)
    requires i < n <= |ms|
    ensures ms[i].target in TargetIndex(ms, n)
  {
    if i < n - 1 {
      TargetIndexed(ms, n - 1, i);
    }
  }

  /** Every holder lists the node as its slave, and every slave lists it as its holder. */
  predicate Reciprocal(ms: seq<Metadata>, i: nat)
    requires i < |ms|
  {
    var at := TargetIndex(ms, |ms|);
    && (forall h :: h in ms[i].holders ==> h in at && ms[i].target in ms[at[h]].slaves)
    && (forall s :: s in ms[i].slaves ==> s in at && ms[i].target in ms[at[s]].holders)
  }

  /** The metadata of both passes forms a topology. */
  predicate Related(ms: seq<Metadata>) {
    && (forall i {:trigger HasParent(ms, i)} :: 0 <= i < |ms| ==> HasParent(ms, i))
    && TargetsDistinct(ms, |ms|)
    && (forall i {:trigger Reciprocal(ms, i)} :: 0 <= i < |ms| ==> Reciprocal(ms, i))
  }

  // -- Duplicate identities --------------------------------------------------------------------------

  /** The disks that report the same valid value. */
  function SharedBy(values: seq<Vpd>, n: nat, value: string): seq<nat>
    requires n <= |values|
  {
    if n == 0 then []
    else
      var v := values[n - 1];
      SharedBy(values, n - 1, value) + if v.status.Present? && v.value == value then [n - 1] else []
  }

  function Marked(values: seq<Vpd>, i: nat): IdentityStatus
    requires i < |values|
  {
    if values[i].status.Present? && |SharedBy(values, |values|, values[i].value)| >= 2 then Ambiguous
    else values[i].status
  }

  lemma {:induction false} SharedMembers(values: seq<Vpd>, n: nat, value: string)
    requires n <= |values|
    ensures forall i ::
              i in SharedBy(values, n, value) <==> 0 <= i < n && values[i].status.Present? && values[i].value == value
  {
    if n > 0 {
      SharedMembers(values, n - 1, value);
    }
  }

  lemma {:induction false} SharedAscends(values: seq<Vpd>, n: nat, value: string, i: nat, j: nat)
    requires n <= |values| && i < j < |SharedBy(values, n, value)|
    ensures SharedBy(values, n, value)[i] < SharedBy(values, n, value)[j]
  {
    var before := SharedBy(values, n - 1, value);
    if j < |before| {
      SharedAscends(values, n - 1, value, i, j);
    } else {
      SharedMembers(values, n - 1, value);
      assert before[i] in before;
    }
  }

  /** A valid value is marked ambiguous exactly when another disk reports it too. */
  lemma MarkedMeansShared(values: seq<Vpd>, i: nat)
    requires i < |values| && values[i].status.Present?
    ensures Marked(values, i).Ambiguous? <==>
            exists j :: 0 <= j < |values| && j != i && values[j].status.Present? && values[j].value == values[i].value
  {
    var shared := SharedBy(values, |values|, values[i].value);
    SharedMembers(values, |values|, values[i].value);
    assert i in shared;
    if |shared| >= 2 {
      SharedAscends(values, |values|, values[i].value, 0, 1);
      assert shared[0] in shared && shared[1] in shared;
    } else {
      assert forall j :: j in shared ==> j == shared[0];
    }
  }

  // -- Observations ----------------------------------------------------------------------------------

  /** The in-process equality tokens of VPD values; the empty value has none. */
  datatype Tokens = Tokens(serial: string -> nat, wwn: string -> nat)

  function TokenOf(hash: string -> nat, value: string): nat {
    if value == "" then 0 else hash(value)
  }

  function Serials(ms: seq<Metadata>): (v: seq<Vpd>)
    ensures |v| == |ms| && forall i :: 0 <= i < |v| ==> v[i] == ms[i].serial
  {
    seq(|ms|, i requires 0 <= i < |ms| => ms[i].serial)
  }

  function Wwns(ms: seq<Metadata>): (v: seq<Vpd>)
    ensures |v| == |ms| && forall i :: 0 <= i < |v| ==> v[i] == ms[i].wwn
  {
    seq(|ms|, i requires 0 <= i < |ms| => ms[i].wwn)
  }

  function RefTo(names: seq<string>, ms: seq<Metadata>, j: nat): Ref
    requires j < |ms| == |names|
  {
    Ref(names[j], ms[j].kind, ms[j].device, ms[j].diskSequence)
  }

  function LowerOf(names: seq<string>, ms: seq<Metadata>, i: nat): (lower: seq<Ref>)
    requires i < |ms| == |names| && Reciprocal(ms, i)
    ensures |lower| == |ms[i].slaves|
    ensures forall k :: 0 <= k < |lower| ==> lower[k] == RefTo(names, ms, TargetIndex(ms, |ms|)[ms[i].slaves[k]])
  {
    seq(|ms[i].slaves|, k requires 0 <= k < |ms[i].slaves| =>
      assert ms[i].slaves[k] in ms[i].slaves;
      RefTo(names, ms, TargetIndex(ms, |ms|)[ms[i].slaves[k]]))
  }

  function BaseRecord(names: seq<string>, ms: seq<Metadata>, tokens: Tokens, i: nat): BlockNode
    requires i < |ms| == |names|
  {
    var m := ms[i];
    BlockNode(
      names[i], m.kind, m.device, m.sizeBytes, m.readOnly, m.removable, m.partitionNumber, m.partitionStart,
      "", None, None,
      m.serial.status, m.wwn.status, TokenOf(tokens.serial, m.serial.value), TokenOf(tokens.wwn, m.wwn.value),
      m.diskSequence, 0, m.target, [])
  }

  function WithParent(names: seq<string>, ms: seq<Metadata>, i: nat, o: BlockNode): BlockNode
    requires i < |ms| == |names| && HasParent(ms, i)
  {
    if ms[i].kind.Partition? then
      var p := ParentOf(ms, i);
      o.(parentName := names[p], removable := ms[p].removable, parentMajor := Some(ms[p].device.major),
         parentMinor := Some(ms[p].device.minor), parentDiskSequence := ms[p].diskSequence)
    else o
  }

  function ObservationOf(names: seq<string>, ms: seq<Metadata>, tokens: Tokens, i: nat): BlockNode
    requires i < |ms| == |names| && Related(ms)
  {
    assert HasParent(ms, i) && Reciprocal(ms, i);
    WithParent(names, ms, i, BaseRecord(names, ms, tokens, i)).(
      lower := LowerOf(names, ms, i), serialStatus := Marked(Serials(ms), i), wwnStatus := Marked(Wwns(ms), i))
  }

  // -- Attaching the topology ------------------------------------------------------------------------

  method IndexDisks(ms: seq<Metadata>) returns (at: map<SysfsPath, seq<nat>>)
    ensures forall t {:trigger DisksAt(ms, |ms|, t)} :: DisksAt(ms, |ms|, t) == if t in at then at[t] else []
  {
    at := map[];
    for i := 0 to |ms|
      invariant forall t {:trigger DisksAt(ms, i, t)} :: DisksAt(ms, i, t) == if t in at then at[t] else []
    {
      if ms[i].kind.Block? {
        ghost var before := at;
        var t := ms[i].target;
        at := at[t := (if t in at then at[t] else []) + [i]];
        forall x ensures DisksAt(ms, i + 1, x) == if x in at then at[x] else [] {
          assert DisksAt(ms, i, x) == if x in before then before[x] else [];
        }
      } else {
        forall x ensures DisksAt(ms, i + 1, x) == if x in at then at[x] else [] {
          assert DisksAt(ms, i, x) == if x in at then at[x] else [];
        }
      }
    }
  }

  ghost function HasParentAt(ms: seq<Metadata>): nat -> bool {
    (i: nat) => i < |ms| && HasParent(ms, i)
  }

  lemma {:induction false} ParentsMeet(ms: seq<Metadata>)
    ensures Every(|ms|, HasParentAt(ms)) <==> forall i {:trigger HasParent(ms, i)} :: 0 <= i < |ms| ==> HasParent(ms, i)
  {
    if Every(|ms|, HasParentAt(ms)) {
      forall i | 0 <= i < |ms| ensures HasParent(ms, i) {
        EveryAt(|ms|, HasParentAt(ms), i);
      }
    } else if forall i {:trigger HasParent(ms, i)} :: 0 <= i < |ms| ==> HasParent(ms, i) {
      EveryFrom(|ms|, HasParentAt(ms));
    }
  }

  /** The records with their parents attached, one by one. */
  ghost function ParentedBy(names: seq<string>, ms: seq<Metadata>, before: seq<BlockNode>): (nat, BlockNode) -> bool
    requires |ms| == |names|
  {
    (i: nat, after: BlockNode) => i < |ms| && i < |before| && HasParent(ms, i)
    && after == WithParent(names, ms, i, before[i])
  }

  /** Every partition gets the one whole disk at the directory of its own path. */
  method AttachParents(obs: seq<BlockNode>, names: seq<string>, ms: seq<Metadata>) returns (r: Option<seq<BlockNode>>)
    requires |obs| == |ms| == |names|
    ensures r.Some? <==> Every(|ms|, HasParentAt(ms))
    ensures r.Some? ==> |r.value| == |ms| && Each(r.value, ParentedBy(names, ms, obs))
  {
    var at := IndexDisks(ms);
    var done: seq<BlockNode> := [];
    for i := 0 to |ms|
      invariant Every(i, HasParentAt(ms)) && |done| == i && Each(done, ParentedBy(names, ms, obs))
    {
      var o := Parented(at, names, ms, i, obs[i]);
      if o.None? {
        if Every(|ms|, HasParentAt(ms)) {
          EveryAt(|ms|, HasParentAt(ms), i);
        }
        return None;
      }
      EachMore(done, ParentedBy(names, ms, obs), o.value);
      done := done + [o.value];
    }
    r := Some(done);
  }

  method Parented(at: map<SysfsPath, seq<nat>>, names: seq<string>, ms: seq<Metadata>, i: nat, o: BlockNode)
    returns (r: Option<BlockNode>)
    requires i < |ms| == |names|
    requires forall t {:trigger DisksAt(ms, |ms|, t)} :: DisksAt(ms, |ms|, t) == if t in at then at[t] else []
    ensures r.Some? <==> HasParent(ms, i)
    ensures r.Some? ==> r.value == WithParent(names, ms, i, o)
  {
    if !ms[i].kind.Partition? {
      return Some(o);
    }
    var t := Dir(ms[i].target);
    var disks := if t in at then at[t] else [];
    assert disks == DisksAt(ms, |ms|, t);
    if |disks| != 1 {
      return None;
    }
    DisksAtMembers(ms, |ms|, t);
    var p := disks[0];
    assert p in disks;
    r := Some(o.(parentName := names[p], removable := ms[p].removable, parentMajor := Some(ms[p].device.major),
                 parentMinor := Some(ms[p].device.minor), parentDiskSequence := ms[p].diskSequence));
  }

  ghost function ReciprocalAt(ms: seq<Metadata>): nat -> bool {
    (i: nat) => i < |ms| && Reciprocal(ms, i)
  }

  lemma {:induction false} RelationsMeet(ms: seq<Metadata>)
    ensures Every(|ms|, ReciprocalAt(ms)) <==>
              forall i {:trigger Reciprocal(ms, i)} :: 0 <= i < |ms| ==> Reciprocal(ms, i)
  {
    if Every(|ms|, ReciprocalAt(ms)) {
      forall i | 0 <= i < |ms| ensures Reciprocal(ms, i) {
        EveryAt(|ms|, ReciprocalAt(ms), i);
      }
    } else if forall i {:trigger Reciprocal(ms, i)} :: 0 <= i < |ms| ==> Reciprocal(ms, i) {
      EveryFrom(|ms|, ReciprocalAt(ms));
    }
  }

  method IndexTargets(ms: seq<Metadata>) returns (at: Option<map<SysfsPath, nat>>)
    ensures at.Some? <==> TargetsDistinct(ms, |ms|)
    ensures at.Some? ==> at.value == TargetIndex(ms, |ms|)
  {
    var found: map<SysfsPath, nat> := map[];
    for i := 0 to |ms|
      invariant TargetsDistinct(ms, i) && found == TargetIndex(ms, i)
    {
      if ms[i].target in found {
        TargetFound(ms, i, ms[i].target);
        assert !TargetsApart(ms, found[ms[i].target], i);
        return None;
      }
      forall j | 0 <= j < i ensures ms[j].target != ms[i].target {
        TargetIndexed(ms, i, j);
      }
      found := found[ms[i].target := i];
    }
    at := Some(found);
  }

  /** The references of one node, if its relations are observed and mutual. */
  method LowerRefs(names: seq<string>, ms: seq<Metadata>, at: map<SysfsPath, nat>, i: nat) returns (r: Option<seq<Ref>>)
    requires i < |ms| == |names| && at == TargetIndex(ms, |ms|)
    ensures r.Some? <==> Reciprocal(ms, i)
    ensures r.Some? ==> r.value == LowerOf(names, ms, i)
  {
    var m := ms[i];
    for k := 0 to |m.holders|
      invariant forall j :: 0 <= j < k ==> m.holders[j] in at && m.target in ms[at[m.holders[j]]].slaves
    {
      if m.holders[k] !in at || m.target !in ms[at[m.holders[k]]].slaves {
        assert m.holders[k] in m.holders;
        return None;
      }
    }
    var lower: seq<Ref> := [];
    for k := 0 to |m.slaves|
      invariant forall j :: 0 <= j < k ==> m.slaves[j] in at && m.target in ms[at[m.slaves[j]]].holders
      invariant |lower| == k && forall j :: 0 <= j < k ==> lower[j] == RefTo(names, ms, at[m.slaves[j]])
    {
      if m.slaves[k] !in at || m.target !in ms[at[m.slaves[k]]].holders {
        assert m.slaves[k] in m.slaves;
        return None;
      }
      lower := lower + [RefTo(names, ms, at[m.slaves[k]])];
    }
    r := Some(lower);
  }

  ghost function LoweredBy(names: seq<string>, ms: seq<Metadata>, before: seq<BlockNode>): (nat, BlockNode) -> bool
    requires |ms| == |names|
  {
    (i: nat, after: BlockNode) => i < |ms| && i < |before| && Reciprocal(ms, i)
    && after == before[i].(lower := LowerOf(names, ms, i))
  }

  /** Holders and slaves must name observed nodes and agree with each other. */
  method AttachLower(obs: seq<BlockNode>, names: seq<string>, ms: seq<Metadata>) returns (r: Option<seq<BlockNode>>)
    requires |obs| == |ms| == |names|
    ensures r.Some? <==> TargetsDistinct(ms, |ms|) && Every(|ms|, ReciprocalAt(ms))
    ensures r.Some? ==> |r.value| == |ms| && Each(r.value, LoweredBy(names, ms, obs))
  {
    var at := IndexTargets(ms);
    if at.None? {
      return None;
    }
    var done: seq<BlockNode> := [];
    for i := 0 to |ms|
      invariant Every(i, ReciprocalAt(ms)) && |done| == i && Each(done, LoweredBy(names, ms, obs))
    {
      var lower := LowerRefs(names, ms, at.value, i);
      if lower.None? {
        if Every(|ms|, ReciprocalAt(ms)) {
          EveryAt(|ms|, ReciprocalAt(ms), i);
        }
        return None;
      }
      EachMore(done, LoweredBy(names, ms, obs), obs[i].(lower := lower.value));
      done := done + [obs[i].(lower := lower.value)];
    }
    r := Some(done);
  }

  ghost function MarkedBy(ms: seq<Metadata>, before: seq<BlockNode>): (nat, BlockNode) -> bool {
    (i: nat, after: BlockNode) => i < |ms| && i < |before|
      && after == before[i].(serialStatus := Marked(Serials(ms), i), wwnStatus := Marked(Wwns(ms), i))
  }

  /** The records by the valid value they report. */
  method IndexValues(values: seq<Vpd>) returns (at: map<string, seq<nat>>)
    ensures forall v {:trigger SharedBy(values, |values|, v)} ::
              SharedBy(values, |values|, v) == if v in at then at[v] else []
  {
    at := map[];
    for i := 0 to |values|
      invariant forall v {:trigger SharedBy(values, i, v)} :: SharedBy(values, i, v) == if v in at then at[v] else []
    {
      ghost var before := at;
      if values[i].status.Present? {
        var v := values[i].value;
        at := at[v := (if v in at then at[v] else []) + [i]];
      }
      forall x ensures SharedBy(values, i + 1, x) == if x in at then at[x] else [] {
        assert SharedBy(values, i, x) == if x in before then before[x] else [];
      }
    }
  }

  /** The statuses after some groups of equal values have been treated. */
  ghost predicate MarkedIn(values: seq<Vpd>, treated: set<string>, marks: seq<IdentityStatus>) {
    |marks| == |values| && forall i :: 0 <= i < |values| ==>
      marks[i] == if values[i].value in treated then Marked(values, i) else values[i].status
  }

  /** One group of records with the same value: ambiguous if there are several. */
  method MarkGroup(values: seq<Vpd>, value: string, group: seq<nat>, marks: seq<IdentityStatus>,
                   ghost treated: set<string>)
    returns (r: seq<IdentityStatus>)
    requires MarkedIn(values, treated, marks) && group == SharedBy(values, |values|, value)
    ensures MarkedIn(values, treated + {value}, r)
  {
    r := marks;
    SharedMembers(values, |values|, value);
    if |group| < 2 {
      return;
    }
    for k := 0 to |group|
      invariant |r| == |values|
      invariant forall i :: 0 <= i < |values| ==> r[i] == if i in group[..k] then Ambiguous else marks[i]
    {
      assert group[k] in group && group[..k + 1] == group[..k] + [group[k]];
      r := r[group[k] := Ambiguous];
    }
    assert group[..|group|] == group;
  }

  /** Every valid value that several records report becomes ambiguous in all of them. */
  method MarkDuplicates(values: seq<Vpd>) returns (marks: seq<IdentityStatus>)
    ensures |marks| == |values| && forall i :: 0 <= i < |values| ==> marks[i] == Marked(values, i)
  {
    var at := IndexValues(values);
    marks := seq(|values|, i requires 0 <= i < |values| => values[i].status);
    var pending := at.Keys;
    ghost var treated: set<string> := {};
    while pending != {}
      invariant pending <= at.Keys && treated == at.Keys - pending && MarkedIn(values, treated, marks)
      decreases pending
    {
      var v :| v in pending;
      assert SharedBy(values, |values|, v) == at[v];
      marks := MarkGroup(values, v, at[v], marks, treated);
      pending, treated := pending - {v}, treated + {v};
    }
    AllTreated(values, at);
  }

  lemma {:induction false} AllTreated(values: seq<Vpd>, at: map<string, seq<nat>>)
    requires forall v {:trigger SharedBy(values, |values|, v)} ::
               SharedBy(values, |values|, v) == if v in at then at[v] else []
    ensures forall i :: 0 <= i < |values| && values[i].value !in at ==> Marked(values, i) == values[i].status
  {
    forall i | 0 <= i < |values| && values[i].value !in at ensures !values[i].status.Present? {
      SharedMembers(values, |values|, values[i].value);
      assert i !in SharedBy(values, |values|, values[i].value);
    }
  }

  method MarkIdentities(obs: seq<BlockNode>, ms: seq<Metadata>) returns (done: seq<BlockNode>)
    requires |obs| == |ms|
    ensures |done| == |ms| && Each(done, MarkedBy(ms, obs))
  {
    var serials := MarkDuplicates(Serials(ms));
    var wwns := MarkDuplicates(Wwns(ms));
    done := [];
    for i := 0 to |ms|
      invariant |done| == i && Each(done, MarkedBy(ms, obs))
    {
      var o := obs[i].(serialStatus := serials[i], wwnStatus := wwns[i]);
      EachMore(done, MarkedBy(ms, obs), o);
      done := done + [o];
    }
  }

  function ObservationsOf(names: seq<string>, ms: seq<Metadata>, tokens: Tokens): (obs: seq<BlockNode>)
    requires |ms| == |names| && Related(ms)
    ensures |obs| == |ms| && forall i :: 0 <= i < |obs| ==> obs[i] == ObservationOf(names, ms, tokens, i)
  {
    seq(|ms|, i requires 0 <= i < |ms| => ObservationOf(names, ms, tokens, i))
  }

  // -- Collecting ------------------------------------------------------------------------------------

  predicate SequencesDistinct(ms: seq<Metadata>, n: nat)
    requires n <= |ms|
  {
    forall i, j {:trigger SequencesApart(ms, i, j)} :: 0 <= i < j < n ==> SequencesApart(ms, i, j)
  }

  predicate SequencesApart(ms: seq<Metadata>, i: nat, j: nat)
    requires i < |ms| && j < |ms|
  {
    ms[i].kind.Block? && ms[j].kind.Block? ==> ms[i].diskSequence != ms[j].diskSequence
  }

  function SequenceSet(ms: seq<Metadata>, n: nat): set<Uint64>
    requires n <= |ms|
  {
    set i | 0 <= i < n && ms[i].kind.Block? :: ms[i].diskSequence
  }

  lemma {:induction false} PassedOnce(shown: Reading, a: seq<Metadata>, b: seq<Metadata>, t0: nat, ta: nat, tb: nat)
    requires Functional(shown) && Passed(shown, a, t0, ta) && Passed(shown, b, t0, tb) && |a| == |b|
    ensures a == b && ta == tb
  {
    if a != [] {
      var n := |a| - 1;
      PassedOnce(shown, a[..n], b[..n], t0, ta - Steps(a[n]), tb - Steps(b[n]));
      assert a == a[..n] + [a[n]] && b == b[..n] + [b[n]];
    }
  }

  lemma {:induction false} PassedPrefix(shown: Reading, ms: seq<Metadata>, t0: nat, t1: nat, k: nat)
    requires Passed(shown, ms, t0, t1) && k <= |ms|
    ensures Passed(shown, ms[..k], t0, t0 + TotalSteps(ms[..k]))
  {
    if k == |ms| {
      assert ms[..k] == ms;
      PassedTime(shown, ms, t0, t1);
    } else {
      var n := |ms| - 1;
      PassedPrefix(shown, ms[..n], t0, t1 - Steps(ms[n]), k);
      assert ms[..n][..k] == ms[..k];
    }
  }

  /** One node of a pass. */
  method ReadNode(reader: Reader, names: seq<string>, ghost shown: Reading, i: nat) returns (m: Option<Metadata>)
    requires reader.Told() && i < |names| && Tells(shown, reader.trace, names)
    modifies reader`now
    ensures NodeRead(shown, i, old(reader.now), m)
    ensures m.Some? ==> reader.now == old(reader.now) + Steps(m.value)
  {
    m := reader.ObserveMetadata(names[i]);
    if m.None? {
      forall x ensures !shown(i, x, old(reader.now)) {
        assert !Observed(reader.trace, names[i], x, old(reader.now));
      }
    }
  }

  ghost predicate NodeRead(shown: Reading, i: nat, t: nat, m: Option<Metadata>) {
    if m.Some? then shown(i, m.value, t) else forall x :: !shown(i, x, t)
  }

  /** The state of the first pass after some nodes. */
  ghost predicate PassingFirst(shown: Reading, ms: seq<Metadata>, t0: nat, t: nat, sequences: set<Uint64>) {
    t0 <= t && Passed(shown, ms, t0, t) && SequencesDistinct(ms, |ms|) && sequences == SequenceSet(ms, |ms|)
  }

  ghost predicate FirstFails(shown: Reading, n: nat, t0: nat) {
    forall ms, t1 {:trigger Passed(shown, ms, t0, t1)} ::
      |ms| == n && Passed(shown, ms, t0, t1) ==> !SequencesDistinct(ms, |ms|)
  }

  method FirstPass(reader: Reader, names: seq<string>, ghost shown: Reading) returns (r: Option<seq<Metadata>>)
    requires reader.Told() && Tells(shown, reader.trace, names)
    modifies reader`now
    ensures r.Some? ==>
              |r.value| == |names| && Passed(shown, r.value, old(reader.now), reader.now)
              && SequencesDistinct(r.value, |r.value|)
    ensures r.Some? ==> old(reader.now) <= reader.now
    ensures r.None? ==> FirstFails(shown, |names|, old(reader.now))
  {
    ghost var t0 := reader.now;
    var ms: seq<Metadata> := [];
    var sequences: set<Uint64> := {};
    for i := 0 to |names|
      invariant |ms| == i && PassingFirst(shown, ms, t0, reader.now, sequences)
    {
      ghost var t := reader.now;
      var m := ReadNode(reader, names, shown, i);
      if m.None? || (m.value.kind.Block? && m.value.diskSequence in sequences) {
        FirstStops(shown, ms, |names|, t0, t, m, sequences);
        return None;
      }
      FirstGoesOn(shown, ms, t0, t, m.value, sequences);
      ms := ms + [m.value];
      if m.value.kind.Block? {
        sequences := sequences + {m.value.diskSequence};
      }
    }
    r := Some(ms);
  }

  lemma FirstGoesOn(shown: Reading, ms: seq<Metadata>, t0: nat, t: nat, m: Metadata, sequences: set<Uint64>)
    requires PassingFirst(shown, ms, t0, t, sequences) && shown(|ms|, m, t)
    requires !(m.kind.Block? && m.diskSequence in sequences)
    ensures PassingFirst(shown, ms + [m], t0, t + Steps(m),
                         if m.kind.Block? then sequences + {m.diskSequence} else sequences)
  {
    PassedMore(shown, ms, m, t0, t);
    SequencesGrow(ms, m);
  }

  lemma FirstStops(shown: Reading, ms: seq<Metadata>, n: nat, t0: nat, t: nat, m: Option<Metadata>,
                   sequences: set<Uint64>)
    requires Functional(shown) && |ms| < n && PassingFirst(shown, ms, t0, t, sequences) && NodeRead(shown, |ms|, t, m)
    requires m.Some? ==> m.value.kind.Block? && m.value.diskSequence in sequences
    ensures FirstFails(shown, n, t0)
  {
    forall other, t1 | |other| == n && Passed(shown, other, t0, t1) ensures !SequencesDistinct(other, |other|) {
      SameStart(shown, ms, other, t0, t, t1);
      if m.Some? {
        StaleSequence(ms, other, m.value);
      }
    }
  }

  /** Any accepted pass begins with what has been read so far. */
  lemma {:induction false} SameStart(shown: Reading, ms: seq<Metadata>, other: seq<Metadata>, t0: nat, t: nat, t1: nat)
    requires Functional(shown) && Passed(shown, ms, t0, t) && Passed(shown, other, t0, t1) && |ms| < |other|
    ensures other[..|ms|] == ms && shown(|ms|, other[|ms|], t)
  {
    PassedPrefix(shown, other, t0, t1, |ms|);
    PassedOnce(shown, ms, other[..|ms|], t0, t, t0 + TotalSteps(other[..|ms|]));
    PassedAt(shown, other, t0, t1, |ms|);
  }

  lemma StaleSequence(ms: seq<Metadata>, other: seq<Metadata>, m: Metadata)
    requires |ms| < |other| && other[..|ms|] == ms && other[|ms|] == m
    requires m.kind.Block? && m.diskSequence in SequenceSet(ms, |ms|)
    ensures !SequencesDistinct(other, |other|)
  {
    var i :| 0 <= i < |ms| && ms[i].kind.Block? && ms[i].diskSequence == m.diskSequence;
    assert other[i] == ms[i];
    assert !SequencesApart(other, i, |ms|);
  }

  lemma SequencesGrow(ms: seq<Metadata>, m: Metadata)
    requires SequencesDistinct(ms, |ms|) && (m.kind.Block? ==> m.diskSequence !in SequenceSet(ms, |ms|))
    ensures SequencesDistinct(ms + [m], |ms| + 1)
    ensures SequenceSet(ms + [m], |ms| + 1) == SequenceSet(ms, |ms|) + if m.kind.Block? then {m.diskSequence} else {}
  {
    var more := ms + [m];
    assert forall i :: 0 <= i < |ms| ==> more[i] == ms[i];
    assert more[|ms|] == m;
    forall i, j | 0 <= i < j < |more| ensures SequencesApart(more, i, j) {
      assert j < |ms| ==> SequencesApart(ms, i, j);
    }
    forall x
      ensures x in SequenceSet(more, |ms| + 1) <==>
                x in SequenceSet(ms, |ms|) || (m.kind.Block? && x == m.diskSequence)
    {
    }
  }

  ghost predicate SecondFails(shown: Reading, ms: seq<Metadata>, t0: nat) {
    forall t1 {:trigger Passed(shown, ms, t0, t1)} :: !Passed(shown, ms, t0, t1)
  }

  /** Reads every node again and compares. */
  method SecondPass(reader: Reader, names: seq<string>, ghost shown: Reading, ms: seq<Metadata>) returns (same: bool)
    requires reader.Told() && |ms| == |names| && Tells(shown, reader.trace, names)
    modifies reader`now
    ensures same ==> Passed(shown, ms, old(reader.now), reader.now) && reader.now >= old(reader.now)
    ensures !same ==> SecondFails(shown, ms, old(reader.now))
  {
    ghost var t0 := reader.now;
    ghost var again: seq<Metadata> := [];
    for i := 0 to |names|
      invariant PassingSecond(shown, ms, again, i, t0, reader.now)
    {
      ghost var t := reader.now;
      var m := ReadNode(reader, names, shown, i);
      if m != Some(ms[i]) {
        SecondStops(shown, ms, again, t0, t, m);
        return false;
      }
      SecondGoesOn(shown, ms, again, t0, t);
      again := again + [ms[i]];
    }
    assert again == ms;
    same := true;
  }

  ghost predicate PassingSecond(shown: Reading, ms: seq<Metadata>, again: seq<Metadata>, i: nat, t0: nat, t: nat) {
    |again| == i <= |ms| && again == ms[..i] && t0 <= t && Passed(shown, again, t0, t)
  }

  lemma SecondGoesOn(shown: Reading, ms: seq<Metadata>, again: seq<Metadata>, t0: nat, t: nat)
    requires PassingSecond(shown, ms, again, |again|, t0, t) && |again| < |ms| && shown(|again|, ms[|again|], t)
    ensures PassingSecond(shown, ms, again + [ms[|again|]], |again| + 1, t0, t + Steps(ms[|again|]))
  {
    PassedMore(shown, again, ms[|again|], t0, t);
  }

  lemma SecondStops(shown: Reading, ms: seq<Metadata>, again: seq<Metadata>, t0: nat, t: nat, m: Option<Metadata>)
    requires Functional(shown) && |again| < |ms| && PassingSecond(shown, ms, again, |again|, t0, t)
    requires NodeRead(shown, |again|, t, m) && m != Some(ms[|again|])
    ensures SecondFails(shown, ms, t0)
  {
    forall t1 ensures !Passed(shown, ms, t0, t1) {
      if Passed(shown, ms, t0, t1) {
        SameStart(shown, again, ms, t0, t, t1);
        assert false;
      }
    }
  }

  // -- The collector ---------------------------------------------------------------------------------

  /** The instant between the passes of a collection that listed the names at `t0`. */
  function Middle(t0: nat, ms: seq<Metadata>): nat {
    t0 + 1 + TotalSteps(ms)
  }

  /** Read, found to be a topology, read again alike, and listed again alike. */
  ghost predicate Readable(trace: Trace, names: seq<string>, shown: Reading, ms: seq<Metadata>, t0: nat) {
    var t1 := Middle(t0, ms);
    var t2 := t1 + TotalSteps(ms);
    && Tells(shown, trace, names)
    && |ms| == |names| && Passed(shown, ms, t0 + 1, t1) && SequencesDistinct(ms, |ms|) && Related(ms)
    && Passed(shown, ms, t1, t2)
    && trace.at(t2).entries.Some? && multiset(trace.at(t2).entries.value) == multiset(names)
  }

  /** The whole protocol succeeds from `t0` on. */
  ghost predicate Publishable(trace: Trace, t0: nat, names: seq<string>, ms: seq<Metadata>) {
    && trace.at(t0).entries.Some? && |trace.at(t0).entries.value| <= MAX_BLOCK_ENTRIES
    && Listing(trace.at(t0).entries.value, names)
    && exists shown :: Readable(trace, names, shown, ms, t0)
  }

  function SnapshotOf(names: seq<string>, ms: seq<Metadata>, tokens: Tokens, limitations: seq<string>): StorageSnapshot
    requires |ms| == |names| && Related(ms)
  {
    StorageSnapshot(2, STORAGE_SCOPE, true, false, false, false, false, |ms|, ObservationsOf(names, ms, tokens),
                    limitations, true)
  }

  lemma {:induction false} AttachedIs(names: seq<string>, ms: seq<Metadata>, tokens: Tokens, a: seq<BlockNode>,
                                      b: seq<BlockNode>, c: seq<BlockNode>, e: seq<BlockNode>, i: nat)
    requires |names| == |ms| == |a| == |b| == |c| == |e| && Related(ms) && i < |ms|
    requires a[i] == BaseRecord(names, ms, tokens, i)
    requires Each(b, ParentedBy(names, ms, a)) && Each(c, LoweredBy(names, ms, b)) && Each(e, MarkedBy(ms, c))
    ensures e[i] == ObservationOf(names, ms, tokens, i)
  {
    EachAt(b, ParentedBy(names, ms, a), i);
    EachAt(c, LoweredBy(names, ms, b), i);
    EachAt(e, MarkedBy(ms, c), i);
  }

  method BuildObservations(names: seq<string>, ms: seq<Metadata>, tokens: Tokens) returns (r: Option<seq<BlockNode>>)
    requires |ms| == |names|
    ensures r.Some? <==> Related(ms)
    ensures r.Some? ==> r.value == ObservationsOf(names, ms, tokens)
  {
    var bases := seq(|ms|, i requires 0 <= i < |ms| => BaseRecord(names, ms, tokens, i));
    ParentsMeet(ms);
    RelationsMeet(ms);
    var parented := AttachParents(bases, names, ms);
    if parented.None? {
      return None;
    }
    var lowered := AttachLower(parented.value, names, ms);
    if lowered.None? {
      return None;
    }
    var obs := MarkIdentities(lowered.value, ms);
    forall i | 0 <= i < |ms| ensures obs[i] == ObservationOf(names, ms, tokens, i) {
      AttachedIs(names, ms, tokens, bases, parented.value, lowered.value, obs, i);
    }
    r := Some(obs);
  }

  /** Publishes exactly when the whole protocol succeeds, and then what both passes read. */
  method Collect(reader: Reader, tokens: Tokens, limitations: seq<string>) returns (r: Option<StorageSnapshot>)
    requires reader.Told()
    modifies reader`now
    ensures r.None? ==> forall names, ms :: !Publishable(reader.trace, old(reader.now), names, ms)
    ensures r.Some? ==>
              exists names, ms ::
                Publishable(reader.trace, old(reader.now), names, ms)
                && r.value == SnapshotOf(names, ms, tokens, limitations)
  {
    ghost var t0 := reader.now;
    var entries := reader.List();
    if entries.None? || |entries.value| > MAX_BLOCK_ENTRIES {
      return None;
    }
    var names := SortNames(entries.value);
    if names.None? {
      return None;
    }
    ReadByTells(reader.trace, names.value);
    ghost var ms;
    r, ms := CollectNamed(reader, names.value, ReadBy(reader.trace, names.value), t0, tokens, limitations);
    if r.None? {
      forall other, them ensures !Publishable(reader.trace, t0, other, them) {
        if Publishable(reader.trace, t0, other, them) {
          OneListing(entries.value, names.value, other);
        }
      }
    }
  }

  method CollectNamed(reader: Reader, names: seq<string>, ghost shown: Reading, ghost listed: nat, tokens: Tokens,
                      limitations: seq<string>)
    returns (r: Option<StorageSnapshot>, ghost ms: seq<Metadata>)
    requires reader.Told() && Tells(shown, reader.trace, names)
    modifies reader`now
    requires reader.now == listed + 1
    ensures r.Some? ==>
              Readable(reader.trace, names, shown, ms, listed) && r.value == SnapshotOf(names, ms, tokens, limitations)
    ensures r.None? ==> forall any, other :: !Readable(reader.trace, names, any, other, listed)
  {
    ghost var t0 := listed;
    ms := [];
    var first := FirstPass(reader, names, shown);
    if first.None? {
      NoFirst(reader.trace, names, shown, t0);
      return None, ms;
    }
    ms := first.value;
    ghost var t1 := reader.now;
    PassedTime(shown, ms, t0 + 1, t1);
    var obs := BuildObservations(names, first.value, tokens);
    if obs.None? {
      NoSecond(reader.trace, names, shown, ms, t0);
      return None, ms;
    }
    var confirmed := Confirm(reader, names, shown, t0, first.value);
    if !confirmed {
      NoSecond(reader.trace, names, shown, ms, t0);
      return None, ms;
    }
    r := Some(StorageSnapshot(2, STORAGE_SCOPE, true, false, false, false, false, |obs.value|, obs.value, limitations,
                              true));
  }

  /** The second pass and the final listing. */
  method Confirm(reader: Reader, names: seq<string>, ghost shown: Reading, ghost listed: nat, ms: seq<Metadata>)
    returns (ok: bool)
    requires reader.Told() && Tells(shown, reader.trace, names)
    requires |ms| == |names| && Passed(shown, ms, listed + 1, reader.now) && SequencesDistinct(ms, |ms|) && Related(ms)
    requires reader.now == Middle(listed, ms)
    modifies reader`now
    ensures ok <==> Readable(reader.trace, names, shown, ms, listed)
  {
    ghost var t1 := reader.now;
    var same := SecondPass(reader, names, shown, ms);
    if !same {
      return false;
    }
    PassedTime(shown, ms, t1, reader.now);
    var entries := reader.List();
    ok := entries.Some? && multiset(entries.value) == multiset(names);
  }

  lemma {:induction false} PassedAgrees(trace: Trace, names: seq<string>, shown: Reading, any: Reading,
                                        ms: seq<Metadata>, t0: nat, t1: nat)
    requires Tells(shown, trace, names) && Tells(any, trace, names) && |ms| <= |names| && Passed(any, ms, t0, t1)
    ensures Passed(shown, ms, t0, t1)
  {
    if ms != [] {
      var n := |ms| - 1;
      PassedAgrees(trace, names, shown, any, ms[..n], t0, t1 - Steps(ms[n]));
      assert Observed(trace, names[n], ms[n], t1 - Steps(ms[n]));
    }
  }

  lemma ReadableAgrees(trace: Trace, names: seq<string>, shown: Reading, any: Reading, ms: seq<Metadata>, t0: nat)
    requires Tells(shown, trace, names) && Readable(trace, names, any, ms, t0)
    ensures Readable(trace, names, shown, ms, t0)
  {
    var t1 := Middle(t0, ms);
    PassedAgrees(trace, names, shown, any, ms, t0 + 1, t1);
    PassedAgrees(trace, names, shown, any, ms, t1, t1 + TotalSteps(ms));
  }

  lemma NoFirst(trace: Trace, names: seq<string>, shown: Reading, t0: nat)
    requires Tells(shown, trace, names) && FirstFails(shown, |names|, t0 + 1)
    ensures forall any, other :: !Readable(trace, names, any, other, t0)
  {
    forall any, other ensures !Readable(trace, names, any, other, t0) {
      if Readable(trace, names, any, other, t0) {
        ReadableAgrees(trace, names, shown, any, other, t0);
        assert false;
      }
    }
  }

  lemma {:induction false} NoSecond(trace: Trace, names: seq<string>, shown: Reading, ms: seq<Metadata>, t0: nat)
    requires Tells(shown, trace, names) && |ms| == |names| && Passed(shown, ms, t0 + 1, Middle(t0, ms))
    requires !Readable(trace, names, shown, ms, t0)
    ensures forall any, other :: !Readable(trace, names, any, other, t0)
  {
    forall any, other ensures !Readable(trace, names, any, other, t0) {
      if Readable(trace, names, any, other, t0) {
        ReadableAgrees(trace, names, shown, any, other, t0);
        PassedOnce(shown, ms, other, t0 + 1, Middle(t0, ms), Middle(t0, other));
      }
    }
  }

  // -- What publication means ------------------------------------------------------------------------

  /** When the collector reads an attribute of a node: in its second pass if the attribute stands before the
      disk sequence, and otherwise in its first. */
  function ReadTime(t0: nat, ms: seq<Metadata>, k: nat, a: Attribute): nat
    requires k < |ms|
  {
    (if ReadBeforeSequence(a) then Middle(t0, ms) else t0 + 1) + TotalSteps(ms[..k]) + ReadStep(ms[k], a)
  }

  lemma {:induction false} ReadIsConsistent(trace: Trace, t0: nat, names: seq<string>, shown: Reading,
                                            ms: seq<Metadata>, k: nat, a: Attribute)
    requires SequencesNeverReturn(trace) && Readable(trace, names, shown, ms, t0) && k < |ms| && ms[k].kind.Block?
    ensures trace.at(Middle(t0, ms)).node(names[k]).diskSequence == Some(ms[k].diskSequence)
    ensures ReadUnderGeneration(trace, names[k], ms[k], a, ReadTime(t0, ms, k, a))
  {
    var t1 := Middle(t0, ms);
    PassesPin(trace, names, shown, ms, t0 + 1, t1, t1, t1 + TotalSteps(ms), k, t1);
    PassesSaw(trace, names, shown, ms, t0 + 1, t1, t1, t1 + TotalSteps(ms), k, a);
  }

  /** What a SCSI page shows: the token of its value, and its status unless the value is shared. */
  predicate PageShows(hash: string -> nat, page: Vpd, evidence: nat, status: IdentityStatus) {
    && evidence == (if page.value == "" then 0 else hash(page.value))
    && (status == page.status || (page.status.Present? && status.Ambiguous?))
  }

  /** The read of the attribute shows what is published of a whole disk. */
  predicate DiskShows(tokens: Tokens, s: NodeState, o: BlockNode, a: Attribute) {
    match a
    case Target => s.target == Some(o.target)
    case NotPartitioned => s.partition == NoPartition && o.partitionNumber == 0 && o.partitionStart == 0
    case Device => s.device == Some(o.device)
    case Size => s.sizeBytes == Some(o.sizeBytes)
    case ReadOnlyFlag => s.readOnly == Some(o.readOnly)
    case RemovableFlag => s.removable == Some(o.removable)
    case Serial => PageShows(tokens.serial, s.serial, o.serialEvidence, o.serialStatus)
    case Wwn => PageShows(tokens.wwn, s.wwn, o.wwnEvidence, o.wwnStatus)
    case Holders => true
    case Slaves => true
  }

  predicate InDeviceTree(list: seq<SysfsPath>) {
    forall i :: 0 <= i < |list| ==> |list[i]| > 1 && list[i][0] == "devices"
  }

  lemma ReadInTree(trace: Trace, owner: SysfsPath, relation: Relation, list: seq<SysfsPath>, t: nat)
    requires RelationRead(trace.at, owner, relation, list, t)
    ensures InDeviceTree(list)
  {
    forall i | 0 <= i < |list| ensures |list[i]| > 1 && list[i][0] == "devices" {
      EachAt(list, LinkReadFrom(trace.at, owner, relation, t + 1), i);
      assert LinkRead(trace.at, owner, relation, list[i], t + 1 + i);
    }
  }

  /** The links of the slave directory, in order, are the lower blocks. */
  ghost predicate SlavesShow(trace: Trace, o: BlockNode, t: nat) {
    exists list ::
      RelationRead(trace.at, o.target, SlaveLinks, list, t) && LowerNames(o) == Bases(list) && InDeviceTree(list)
  }

  /** The links of the holder directory lead to exactly the nodes that have this one as a lower block. */
  ghost predicate HoldersShow(trace: Trace, obs: seq<BlockNode>, o: BlockNode, t: nat) {
    exists list :: RelationRead(trace.at, o.target, HolderLinks, list, t) && HeldBy(obs, o, list)
  }

  predicate HeldBy(obs: seq<BlockNode>, o: BlockNode, list: seq<SysfsPath>) {
    forall i :: 0 <= i < |obs| ==> (o.name in LowerNames(obs[i]) <==> obs[i].target in list)
  }

  /** The reads of a partition from `t` on show what is published of it; `h` is the number of its holders. */
  predicate PartitionShows(trace: Trace, o: BlockNode, h: nat, t: nat) {
    && trace.at(t).node(o.name).target == Some(o.target)
    && trace.at(t + 2 + h).node(o.name).partition == PartitionNumber(o.partitionNumber) && o.partitionNumber != 0
    && trace.at(t + 3 + h).node(o.name).start == Some(o.partitionStart)
    && trace.at(t + 4 + h).node(o.name).device == Some(o.device)
    && trace.at(t + 5 + h).node(o.name).sizeBytes == Some(o.sizeBytes)
    && trace.at(t + 6 + h).node(o.name).readOnly == Some(o.readOnly)
  }

  /** A partition shows its parent, the one whole disk at the directory of its path, and what it takes from it. */
  predicate ParentShows(obs: seq<BlockNode>, o: BlockNode) {
    exists p :: 0 <= p < |obs| && obs[p].kind.Block? && obs[p].target == Dir(o.target) && TakesFrom(o, obs[p])
  }

  predicate TakesFrom(o: BlockNode, parent: BlockNode) {
    && o.parentName == parent.name && o.removable == parent.removable
    && o.parentMajor == Some(parent.device.major) && o.parentMinor == Some(parent.device.minor)
    && o.parentDiskSequence == parent.diskSequence && o.diskSequence == 0 && o.lower == []
    && o.serialStatus == NoStatus == o.wwnStatus && o.serialEvidence == 0 == o.wwnEvidence
  }

  lemma MarkedShows(values: seq<Vpd>, i: nat)
    requires i < |values|
    ensures Marked(values, i) == values[i].status || (values[i].status.Present? && Marked(values, i).Ambiguous?)
  {
  }

  lemma DiskIsShown(trace: Trace, names: seq<string>, ms: seq<Metadata>, tokens: Tokens, k: nat, a: Attribute, t: nat)
    requires |ms| == |names| && k < |ms| && Related(ms) && Shaped(ms[k]) && ms[k].kind.Block?
    requires ReadAs(trace, names[k], ms[k], a, t)
    ensures DiskShows(tokens, trace.at(t).node(names[k]), ObservationOf(names, ms, tokens, k), a)
  {
    MarkedShows(Serials(ms), k);
    MarkedShows(Wwns(ms), k);
  }

  lemma {:induction false} TargetAt(ms: seq<Metadata>, i: nat)
    requires TargetsDistinct(ms, |ms|) && i < |ms|
    ensures ms[i].target in TargetIndex(ms, |ms|) && TargetIndex(ms, |ms|)[ms[i].target] == i
  {
    TargetIndexed(ms, |ms|, i);
    TargetFound(ms, |ms|, ms[i].target);
    var j := TargetIndex(ms, |ms|)[ms[i].target];
    assert j < i ==> TargetsApart(ms, j, i);
    assert i < j ==> TargetsApart(ms, i, j);
  }

  lemma LowerIsBases(names: seq<string>, ms: seq<Metadata>, tokens: Tokens, k: nat)
    requires Sampled(names, ms) && k < |ms|
    ensures LowerNames(ObservationOf(names, ms, tokens, k)) == Bases(ms[k].slaves)
  {
    var o := ObservationOf(names, ms, tokens, k);
    assert Reciprocal(ms, k);
    forall i | 0 <= i < |ms[k].slaves| ensures LowerNames(o)[i] == Bases(ms[k].slaves)[i] {
      assert ms[k].slaves[i] in ms[k].slaves;
      TargetFound(ms, |ms|, ms[k].slaves[i]);
      var j := TargetIndex(ms, |ms|)[ms[k].slaves[i]];
      assert MetadataOk(names[j], ms[j]);
    }
  }

  lemma HeldByHolders(names: seq<string>, ms: seq<Metadata>, tokens: Tokens, k: nat, i: nat)
    requires Sampled(names, ms) && k < |ms| && i < |ms|
    ensures names[k] in LowerNames(ObservationOf(names, ms, tokens, i)) <==> ms[i].target in ms[k].holders
  {
    var lower := LowerNames(ObservationOf(names, ms, tokens, i));
    assert Reciprocal(ms, i) && Reciprocal(ms, k);
    TargetAt(ms, k);
    TargetAt(ms, i);
    if names[k] in lower {
      var j :| 0 <= j < |lower| && lower[j] == names[k];
      assert ms[i].slaves[j] in ms[i].slaves;
      TargetFound(ms, |ms|, ms[i].slaves[j]);
      NamesApart(names, TargetIndex(ms, |ms|)[ms[i].slaves[j]], k);
    }
    if ms[i].target in ms[k].holders {
      var j :| 0 <= j < |ms[i].slaves| && ms[i].slaves[j] == ms[k].target;
      assert lower[j] == names[k];
    }
  }

  lemma PartitionIsShown(trace: Trace, names: seq<string>, ms: seq<Metadata>, tokens: Tokens, k: nat, t: nat)
    requires |ms| == |names| && k < |ms| && Related(ms) && ms[k].kind.Partition? && Observed(trace, names[k], ms[k], t)
    ensures PartitionShows(trace, ObservationOf(names, ms, tokens, k), |ms[k].holders|, t)
    ensures ParentShows(ObservationsOf(names, ms, tokens), ObservationOf(names, ms, tokens, k))
  {
    var h := |ms[k].holders|;
    PartitionMeans(trace, names[k], ms[k], t + 3 + h);
    assert HasParent(ms, k);
    var p := ParentOf(ms, k);
    assert ObservationsOf(names, ms, tokens)[p] == ObservationOf(names, ms, tokens, p);
    assert TakesFrom(ObservationOf(names, ms, tokens, k), ObservationOf(names, ms, tokens, p));
  }

  lemma {:induction false} MetadataIsConsistent(trace: Trace, t0: nat, names: seq<string>, ms: seq<Metadata>, k: nat,
                                                a: Attribute)
    requires SequencesNeverReturn(trace) && Publishable(trace, t0, names, ms)
    requires k < |ms| == |names|
    ensures Observed(trace, names[k], ms[k], t0 + 1 + TotalSteps(ms[..k]))
    ensures ms[k].kind.Block? ==>
              && trace.at(Middle(t0, ms)).node(names[k]).diskSequence == Some(ms[k].diskSequence)
              && ReadUnderGeneration(trace, names[k], ms[k], a, ReadTime(t0, ms, k, a))
  {
    var shown :| Readable(trace, names, shown, ms, t0);
    ReadFirst(trace, t0, names, shown, ms, k);
    if ms[k].kind.Block? {
      ReadIsConsistent(trace, t0, names, shown, ms, k, a);
    }
  }

  lemma {:induction false} ReadFirst(trace: Trace, t0: nat, names: seq<string>, shown: Reading, ms: seq<Metadata>,
                                     k: nat)
    requires Readable(trace, names, shown, ms, t0) && k < |ms|
    ensures Observed(trace, names[k], ms[k], t0 + 1 + TotalSteps(ms[..k]))
  {
    PassedAt(shown, ms, t0 + 1, Middle(t0, ms), k);
  }

  lemma RelationsAreShown(trace: Trace, names: seq<string>, ms: seq<Metadata>, tokens: Tokens, k: nat, a: Attribute,
                          t: nat)
    requires RelationsTold(trace) && Sampled(names, ms) && k < |ms|
    requires ReadAs(trace, names[k], ms[k], a, t)
    ensures var obs := ObservationsOf(names, ms, tokens);
            (a.Slaves? ==> SlavesShow(trace, obs[k], t)) && (a.Holders? ==> HoldersShow(trace, obs, obs[k], t))
  {
    var obs := ObservationsOf(names, ms, tokens);
    ObservationFields(names, ms, tokens, k);
    if a.Slaves? {
      assert RelationTold(trace, ms[k].target, SlaveLinks, t);
      ReadInTree(trace, ms[k].target, SlaveLinks, ms[k].slaves, t);
      LowerIsBases(names, ms, tokens, k);
    } else if a.Holders? {
      assert RelationTold(trace, ms[k].target, HolderLinks, t);
      forall i | 0 <= i < |obs| ensures obs[k].name in LowerNames(obs[i]) <==> obs[i].target in ms[k].holders {
        ObservationFields(names, ms, tokens, i);
        HeldByHolders(names, ms, tokens, k, i);
      }
      assert HeldBy(obs, obs[k], ms[k].holders);
    }
  }

  /** What is published of a whole disk: at one instant between the passes it held its reported generation, and every
      field was read as reported, all reads of it under that generation. */
  ghost predicate DiskPublished(trace: Trace, tokens: Tokens, obs: seq<BlockNode>, o: BlockNode, middle: nat,
                                a: Attribute, from: nat, until: nat)
  {
    && trace.at(middle).node(o.name).diskSequence == Some(o.diskSequence)
    && (forall u :: from <= u < until ==> trace.at(u).node(o.name).diskSequence == Some(o.diskSequence))
    && DiskShows(tokens, trace.at(from).node(o.name), o, a)
    && (a.Slaves? ==> SlavesShow(trace, o, from)) && (a.Holders? ==> HoldersShow(trace, obs, o, from))
  }

  /** Every record of a published snapshot: a whole disk is published as above, and a partition as it was read, with
      what its parent is published with. */
  lemma {:induction false} PublishedIsConsistent(trace: Trace, t0: nat, names: seq<string>, ms: seq<Metadata>,
                                                 tokens: Tokens, limitations: seq<string>, k: nat, a: Attribute)
    requires SequencesNeverReturn(trace) && RelationsTold(trace) && Publishable(trace, t0, names, ms) && k < |names|
    ensures |ms| == |names| && Related(ms)
    ensures var obs := SnapshotOf(names, ms, tokens, limitations).observations;
            var from := ReadTime(t0, ms, k, a);
            && |obs| == |names| && obs[k].name == names[k]
            && if obs[k].kind.Block? then
                 DiskPublished(trace, tokens, obs, obs[k], Middle(t0, ms), a, from, from + Span(ms[k], a))
               else
                 && PartitionShows(trace, obs[k], |ms[k].holders|, t0 + 1 + TotalSteps(ms[..k]))
                 && ParentShows(obs, obs[k])
  {
    PublishedIsSampled(trace, t0, names, ms);
    assert MetadataOk(names[k], ms[k]);
    MetadataIsConsistent(trace, t0, names, ms, k, a);
    ObservationFields(names, ms, tokens, k);
    if ms[k].kind.Block? {
      var t := ReadTime(t0, ms, k, a);
      DiskIsShown(trace, names, ms, tokens, k, a, t);
      RelationsAreShown(trace, names, ms, tokens, k, a, t);
    } else {
      PartitionIsShown(trace, names, ms, tokens, k, t0 + 1 + TotalSteps(ms[..k]));
    }
  }

  // -- The published inventory -----------------------------------------------------------------------

  /** What the reads of one node guarantee about its metadata. */
  predicate MetadataOk(name: string, m: Metadata) {
    && ValidBlockName(name) && ValidTarget(m.target, name) && RelationsOk(m.slaves)
    && if m.kind.Partition? then m.partitionNumber != 0 && m.diskSequence == 0 && m.slaves == []
       else
         && m.kind.Block? && m.partitionNumber == 0 && m.diskSequence != 0
         && !m.serial.status.NoStatus? && !m.wwn.status.NoStatus?
  }

  ghost predicate Sampled(names: seq<string>, ms: seq<Metadata>) {
    && |ms| == |names| && Ascends(names) && SequencesDistinct(ms, |ms|) && Related(ms)
    && forall i {:trigger MetadataOk(names[i], ms[i])} :: 0 <= i < |ms| ==> MetadataOk(names[i], ms[i])
  }

  lemma ObservedIsOk(trace: Trace, name: string, m: Metadata, t: nat)
    requires RelationsTold(trace) && Observed(trace, name, m, t) && ValidBlockName(name)
    ensures MetadataOk(name, m)
  {
    if m.kind.Block? {
      var h := t + 2 + |m.holders|;
      SlavesAreOk(trace, m, h + 1);
      PagesHaveStatus(trace, name, m, h + 2 + |m.slaves|);
    }
  }

  lemma SlavesAreOk(trace: Trace, m: Metadata, t: nat)
    requires RelationsTold(trace) && trace.relations(m.target, SlaveLinks, t) == Some(m.slaves)
    ensures RelationsOk(m.slaves)
  {
    assert RelationTold(trace, m.target, SlaveLinks, t);
    RelationIsOk(trace.at, m.target, SlaveLinks, m.slaves, t);
  }

  lemma PagesHaveStatus(trace: Trace, name: string, m: Metadata, t: nat)
    requires m.kind.Block? && LaterObserved(trace, name, m, t)
    ensures !m.serial.status.NoStatus? && !m.wwn.status.NoStatus?
  {
    BlockMeans(trace, name, m, t);
  }

  lemma ToldIsOk(trace: Trace, names: seq<string>, shown: Reading, m: Metadata, k: nat, t: nat)
    requires RelationsTold(trace) && Tells(shown, trace, names) && k < |names| && ValidBlockName(names[k])
    requires shown(k, m, t)
    ensures MetadataOk(names[k], m)
  {
    assert Observed(trace, names[k], m, t);
    ObservedIsOk(trace, names[k], m, t);
  }

  lemma PublishedIsSampled(trace: Trace, t0: nat, names: seq<string>, ms: seq<Metadata>)
    requires RelationsTold(trace) && Publishable(trace, t0, names, ms)
    ensures Sampled(names, ms)
  {
    var shown :| Readable(trace, names, shown, ms, t0);
    forall i | 0 <= i < |ms| ensures MetadataOk(names[i], ms[i]) {
      PassedAt(shown, ms, t0 + 1, Middle(t0, ms), i);
      ToldIsOk(trace, names, shown, ms[i], i, t0 + 1 + TotalSteps(ms[..i]));
    }
  }

  /** What the passes cannot settle: usable device numbers. */
  predicate DevicesUsable(obs: seq<BlockNode>) {
    && (forall i :: 0 <= i < |obs| ==> obs[i].device != DeviceNumber(0, 0))
    && (forall i, j :: 0 <= i < j < |obs| ==> obs[i].device != obs[j].device)
  }

  lemma NamesApart(names: seq<string>, i: nat, j: nat)
    requires Ascends(names) && i < |names| && j < |names| && names[i] == names[j]
    ensures i == j
  {
    TextLessIrreflexive(names[i]);
  }

  lemma NodeFound(names: seq<string>, ms: seq<Metadata>, tokens: Tokens, i: nat)
    requires Sampled(names, ms) && i < |ms|
    ensures var obs := ObservationsOf(names, ms, tokens);
            names[i] in Index(obs) && Index(obs)[names[i]] == ObservationOf(names, ms, tokens, i)
  {
    var obs := ObservationsOf(names, ms, tokens);
    forall a, b | 0 <= a < b < |obs| ensures obs[a].name != obs[b].name {
      if names[a] == names[b] {
        NamesApart(names, a, b);
      }
    }
    IndexFinds(obs, i);
  }

  lemma ObservationFields(names: seq<string>, ms: seq<Metadata>, tokens: Tokens, i: nat)
    requires |names| == |ms| && Related(ms) && i < |ms|
    ensures var o, m := ObservationOf(names, ms, tokens, i), ms[i];
            && o.name == names[i] && o.kind == m.kind && o.device == m.device && o.target == m.target
            && o.diskSequence == m.diskSequence
            && o.partitionNumber == m.partitionNumber && Reciprocal(ms, i) && o.lower == LowerOf(names, ms, i)
            && o.serialStatus == Marked(Serials(ms), i) && o.wwnStatus == Marked(Wwns(ms), i)
  {
  }

  lemma RecordIsValid(names: seq<string>, ms: seq<Metadata>, tokens: Tokens, i: nat)
    requires Sampled(names, ms) && i < |ms|
    ensures SelfValid(ObservationOf(names, ms, tokens, i)) <==> ms[i].device != DeviceNumber(0, 0)
    ensures ms[i].kind.Partition? ==> ObservationOf(names, ms, tokens, i).lower == []
  {
    assert MetadataOk(names[i], ms[i]);
    ObservationFields(names, ms, tokens, i);
    if ms[i].kind.Partition? {
      assert HasParent(ms, i);
      var p := ParentOf(ms, i);
      assert MetadataOk(names[p], ms[p]);
    }
  }

  lemma RecordsAreValid(names: seq<string>, ms: seq<Metadata>, tokens: Tokens)
    requires Sampled(names, ms)
    ensures var obs := ObservationsOf(names, ms, tokens); RecordsValid(obs, |obs|) <==> DevicesUsable(obs)
  {
    var obs := ObservationsOf(names, ms, tokens);
    forall i | 0 <= i < |obs| ensures SelfValid(obs[i]) <==> obs[i].device != DeviceNumber(0, 0) {
      RecordIsValid(names, ms, tokens, i);
      ObservationFields(names, ms, tokens, i);
    }
    forall j | 0 < j < |obs| ensures Follows(obs, j) {
      assert TextLess(names[j - 1], names[j]);
    }
    forall i, j | 0 <= i < j < |obs| ensures SourceSets.Apart(obs[i], obs[j]) <==> obs[i].device != obs[j].device {
      ObservationFields(names, ms, tokens, i);
      ObservationFields(names, ms, tokens, j);
      assert TargetsApart(ms, i, j) && SequencesApart(ms, i, j);
    }
  }

  lemma ParentIsLinked(names: seq<string>, ms: seq<Metadata>, tokens: Tokens, i: nat)
    requires Sampled(names, ms) && i < |ms|
    ensures var obs := ObservationsOf(names, ms, tokens); ParentLinked(Index(obs), obs[i])
  {
    if ms[i].kind.Partition? {
      assert HasParent(ms, i);
      var p := ParentOf(ms, i);
      NodeFound(names, ms, tokens, p);
      ObservationFields(names, ms, tokens, p);
      ObservationFields(names, ms, tokens, i);
    }
  }

  lemma LowerIsLinked(names: seq<string>, ms: seq<Metadata>, tokens: Tokens, i: nat, k: nat)
    requires Sampled(names, ms) && i < |ms| && k < |ms[i].slaves|
    ensures Reciprocal(ms, i) && RefMatches(Index(ObservationsOf(names, ms, tokens)), LowerOf(names, ms, i)[k])
  {
    assert Reciprocal(ms, i);
    var s := ms[i].slaves[k];
    assert s in ms[i].slaves;
    var j := TargetIndex(ms, |ms|)[s];
    NodeFound(names, ms, tokens, j);
    ObservationFields(names, ms, tokens, j);
  }

  lemma LowerNamesApart(names: seq<string>, ms: seq<Metadata>, i: nat, k: nat, l: nat)
    requires Sampled(names, ms) && i < |ms| && k < l < |ms[i].slaves|
    ensures Reciprocal(ms, i) && LowerOf(names, ms, i)[k].name != LowerOf(names, ms, i)[l].name
  {
    assert Reciprocal(ms, i) && MetadataOk(names[i], ms[i]);
    var a, b := ms[i].slaves[k], ms[i].slaves[l];
    assert a in ms[i].slaves && b in ms[i].slaves && Sampling.Apart(a, b);
    TargetFound(ms, |ms|, a);
    TargetFound(ms, |ms|, b);
    var x, y := TargetIndex(ms, |ms|)[a], TargetIndex(ms, |ms|)[b];
    if names[x] == names[y] {
      NamesApart(names, x, y);
    }
  }

  lemma SoundMeansLinked(names: seq<string>, ms: seq<Metadata>, tokens: Tokens, i: nat)
    requires Sampled(names, ms) && i < |ms| && TopologySound(Index(ObservationsOf(names, ms, tokens)))
    ensures var obs := ObservationsOf(names, ms, tokens); Linked(Index(obs), obs[i])
  {
    var obs := ObservationsOf(names, ms, tokens);
    var nodes := Index(obs);
    ParentIsLinked(names, ms, tokens, i);
    ObservationFields(names, ms, tokens, i);
    NodeFound(names, ms, tokens, i);
    forall k | 0 <= k < |obs[i].lower|
      ensures obs[i].lower[k].name != obs[i].name && RefMatches(nodes, obs[i].lower[k])
    {
      LowerIsLinked(names, ms, tokens, i, k);
      if obs[i].lower[k].name == obs[i].name {
        SelfLoop(nodes, names[i], k);
      }
    }
    forall k, l | 0 <= k < l < |obs[i].lower| ensures obs[i].lower[k].name != obs[i].lower[l].name {
      LowerNamesApart(names, ms, i, k, l);
    }
  }

  lemma SelfLoop(nodes: Nodes, n: string, k: nat)
    requires n in nodes && k < |nodes[n].lower| && nodes[n].lower[k].name == n
    ensures !TopologySound(nodes)
  {
    var g := TopologyGraph(nodes);
    LowerEdges(nodes, n);
    assert Edge(g, n, n);
    EdgeOnCycle(g, n);
    assert !SoundAt(nodes, n);
  }

  lemma EdgeOnCycle(g: Graph, n: string)
    requires Edge(g, n, n)
    ensures OnCycle(g, n)
  {
    SinglePath(g, n);
    PathPrepend(g, n, [n]);
  }

  /** Exactly when a published inventory passes the completeness check: its device numbers are usable and its
      topology is sound. Everything else the collector has already established. */
  lemma PublishedIsCompleteWhen(trace: Trace, t0: nat, names: seq<string>, ms: seq<Metadata>, tokens: Tokens,
                                limitations: seq<string>)
    requires RelationsTold(trace) && Publishable(trace, t0, names, ms)
    ensures |ms| == |names| && Related(ms)
    ensures var snapshot := SnapshotOf(names, ms, tokens, limitations);
            var obs := snapshot.observations;
            && (Complete(snapshot) <==> DevicesUsable(obs) && TopologySound(Index(obs)))
            && snapshot.limitations == limitations
            && forall i :: 0 <= i < |obs| && obs[i].kind.Partition? ==> obs[i].lower == []
  {
    InventoryIsCompleteWhen(trace, t0, names, ms, tokens);
    assert |names| == |multiset(names)| == |multiset(trace.at(t0).entries.value)|;
  }

  lemma InventoryIsCompleteWhen(trace: Trace, t0: nat, names: seq<string>, ms: seq<Metadata>, tokens: Tokens)
    requires RelationsTold(trace) && Publishable(trace, t0, names, ms)
    ensures |ms| == |names| && Related(ms)
    ensures var obs := ObservationsOf(names, ms, tokens);
            && (CompleteInventory(obs) <==> DevicesUsable(obs) && TopologySound(Index(obs)))
            && forall i :: 0 <= i < |obs| && obs[i].kind.Partition? ==> obs[i].lower == []
  {
    PublishedIsSampled(trace, t0, names, ms);
    var obs := ObservationsOf(names, ms, tokens);
    RecordsAreValid(names, ms, tokens);
    if TopologySound(Index(obs)) {
      forall i | 0 <= i < |obs| ensures Linked(Index(obs), obs[i]) {
        SoundMeansLinked(names, ms, tokens, i);
      }
    }
    forall i | 0 <= i < |obs| && obs[i].kind.Partition? ensures obs[i].lower == [] {
      ObservationFields(names, ms, tokens, i);
      RecordIsValid(names, ms, tokens, i);
    }
  }

  // -- The searches over a published inventory -------------------------------------------------------

  lemma SampledIsShaped(names: seq<string>, ms: seq<Metadata>, tokens: Tokens)
    requires Sampled(names, ms)
    ensures A.CollectorShaped(ObservationsOf(names, ms, tokens))
  {
    var obs := ObservationsOf(names, ms, tokens);
    forall i | 0 <= i < |obs| ensures obs[i].name != "" && A.NodeShaped(obs[i]) {
      assert MetadataOk(names[i], ms[i]);
      ObservationFields(names, ms, tokens, i);
      RecordIsValid(names, ms, tokens, i);
    }
    forall i, j | 0 <= i < j < |obs| ensures obs[i].name != obs[j].name {
      ObservationFields(names, ms, tokens, i);
      ObservationFields(names, ms, tokens, j);
      if names[i] == names[j] {
        NamesApart(names, i, j);
      }
    }
  }

  lemma SampledSlaves(names: seq<string>, ms: seq<Metadata>, tokens: Tokens, i: nat)
    requires Sampled(names, ms) && i < |ms|
    ensures var obs := ObservationsOf(names, ms, tokens); D.SlavesOk(Index(obs), obs[i], |obs[i].lower|)
  {
    var obs := ObservationsOf(names, ms, tokens);
    ObservationFields(names, ms, tokens, i);
    forall k | 0 <= k < |obs[i].lower|
      ensures obs[i].lower[k].name != "" && RefMatches(Index(obs), obs[i].lower[k])
    {
      LowerIsLinked(names, ms, tokens, i, k);
      SampledIsShaped(names, ms, tokens);
      A.ShapedNode(obs, obs[i].lower[k].name);
    }
    forall k, l | 0 <= k < l < |obs[i].lower| ensures obs[i].lower[k].name != obs[i].lower[l].name {
      LowerNamesApart(names, ms, i, k, l);
    }
  }

  lemma SampledLinks(names: seq<string>, ms: seq<Metadata>, tokens: Tokens, i: nat)
    requires Sampled(names, ms) && i < |ms|
    ensures var nodes := Index(ObservationsOf(names, ms, tokens)); names[i] in nodes && A.LinksHold(nodes, names[i])
  {
    var obs := ObservationsOf(names, ms, tokens);
    NodeFound(names, ms, tokens, i);
    ParentIsLinked(names, ms, tokens, i);
    SampledSlaves(names, ms, tokens, i);
    SampledIsShaped(names, ms, tokens);
    A.ShapedNode(obs, names[i]);
    ObservationFields(names, ms, tokens, i);
    assert MetadataOk(names[i], ms[i]);
    if ms[i].kind.Partition? {
      A.ShapedNode(obs, obs[i].parentName);
    }
  }

  lemma SampledIsLinked(names: seq<string>, ms: seq<Metadata>, tokens: Tokens)
    requires Sampled(names, ms)
    ensures A.WellLinked(Index(ObservationsOf(names, ms, tokens)))
  {
    var obs := ObservationsOf(names, ms, tokens);
    forall n | n in Index(obs) ensures A.LinksHold(Index(obs), n) {
      var i := IndexUpToSource(obs, |obs|, n);
      ObservationFields(names, ms, tokens, i);
      SampledLinks(names, ms, tokens, i);
    }
  }

  /** Of every published inventory, cyclic ones included: the array search and the dependency search fail exactly
      over a cycle, the disk search exactly over a cycle or a virtual leaf, and where it succeeds its disks are the
      physical leaves that the dependency search reaches. */
  lemma PublishedSearchesAgree(trace: Trace, t0: nat, names: seq<string>, ms: seq<Metadata>, tokens: Tokens, a: string)
    requires RelationsTold(trace) && Publishable(trace, t0, names, ms)
    ensures |ms| == |names| && Related(ms) && A.CollectorShaped(ObservationsOf(names, ms, tokens))
    ensures var nodes := Index(ObservationsOf(names, ms, tokens));
            a in nodes ==>
              && (forall n :: n in nodes ==> nodes[n].name == n)
              && (W.WalkClean(nodes, a) <==> A.AcyclicBelow(nodes, a))
              && (D.Clean(nodes, a) <==> A.AcyclicBelow(nodes, a))
              && (L.DisksBehind(nodes[a], nodes, {}).Some? <==>
                    && A.AcyclicBelow(nodes, a)
                    && forall n :: Reaches(TopologyGraph(nodes), a, n) ==> !A.VirtualLeaf(nodes, n))
              && (L.DisksBehind(nodes[a], nodes, {}).Some? ==>
                    forall n :: n in nodes && L.IsLeaf(nodes[n]) ==>
                      (nodes[n] in L.DisksBehind(nodes[a], nodes, {}).value <==> Reaches(TopologyGraph(nodes), a, n)))
  {
    PublishedIsSampled(trace, t0, names, ms);
    SampledIsShaped(names, ms, tokens);
    SampledIsLinked(names, ms, tokens);
    var obs := ObservationsOf(names, ms, tokens);
    if a in Index(obs) {
      A.LinkedTraversals(Index(obs), a);
      if L.DisksBehind(Index(obs)[a], Index(obs), {}).Some? {
        A.TraversalsAgree(obs, a);
      }
    }
  }
}
