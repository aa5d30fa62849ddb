/** Reviewing claimed volumes against a validated census: one entry per claim, conservation of the mounted
    objects, and the backing of volumes observed exactly once. */
module VolumeReviews {
  import opened Basics
  import opened Graphs
  import opened Sorting
  import opened BlockInventory
  import opened SourceSets
  import opened LeafSearches
  import opened MdBindings
  import opened MountedIdentities
  import opened MountedJoins
  import opened MountedCensus

  datatype Volume = Volume(id: string, uuid: string)

  // `otherwiseValid` stands for the parts of policy validation that do not concern volumes.
  datatype Policy = Policy(revision: Uint64, volumes: seq<Volume>, otherwiseValid: bool)

  datatype Status = NotObserved | ObservedOnce | AmbiguousInScope

  datatype Observation = Observation(id: string, status: Status, objects: nat, aliases: nat, unresolved: bool)

  datatype Review = Review(revision: Uint64, coverage: Coverage, objects: nat, unclaimed: nat,
                           volumes: seq<Observation>)

  predicate PolicyHolds(p: Policy) {
    && p.otherwiseValid
    && forall i, j ::
         0 <= i < j < |p.volumes| ==> p.volumes[i].id != p.volumes[j].id && p.volumes[i].uuid != p.volumes[j].uuid
  }

  // -- What is mounted -------------------------------------------------------------------------------

  /** The kernel devices mounted under the UUID. */
  function DevicesOf(ids: seq<MountedIdentity>, n: nat, uuid: string): set<DeviceNumber>
    requires n <= |ids|
  {
    set i | 0 <= i < n && ids[i].uuid == uuid :: ids[i].device
  }

  /** How many mounts show the UUID on one of the devices. */
  function AliasesIn(ids: seq<MountedIdentity>, n: nat, uuid: string, devices: set<DeviceNumber>): nat
    requires n <= |ids|
  {
    if n == 0 then 0
    else AliasesIn(ids, n - 1, uuid, devices) + if ids[n - 1].uuid == uuid && ids[n - 1].device in devices then 1 else 0
  }

  predicate LacksEvidence(id: MountedIdentity) {
    exists k :: 0 <= k < |id.disks| &&
      !EvidenceUnique(id.disks[k].serialStatus, id.disks[k].wwnStatus, id.disks[k].serialEvidence,
                      id.disks[k].wwnEvidence)
  }

  predicate UnresolvedIn(ids: seq<MountedIdentity>, n: nat, uuid: string, devices: set<DeviceNumber>)
    requires n <= |ids|
  {
    exists i :: 0 <= i < n && ids[i].uuid == uuid && ids[i].device in devices && LacksEvidence(ids[i])
  }

  /** How many mounts show the UUID. */
  function Aliases(ids: seq<MountedIdentity>, n: nat, uuid: string): nat
    requires n <= |ids|
  {
    if n == 0 then 0 else Aliases(ids, n - 1, uuid) + if ids[n - 1].uuid == uuid then 1 else 0
  }

  predicate Unresolved(ids: seq<MountedIdentity>, uuid: string) {
    exists i :: 0 <= i < |ids| && ids[i].uuid == uuid && LacksEvidence(ids[i])
  }

  function StatusOf(objects: nat): Status {
    if objects == 1 then ObservedOnce else if objects > 1 then AmbiguousInScope else NotObserved
  }

  /** What the census says about one claimed volume. */
  function Observed(ids: seq<MountedIdentity>, v: Volume): Observation {
    var objects := |DevicesOf(ids, |ids|, v.uuid)|;
    Observation(v.id, StatusOf(objects), objects, Aliases(ids, |ids|, v.uuid), Unresolved(ids, v.uuid))
  }

  /** The mounted objects with a UUID from the set. */
  function ObjectsWithin(ids: seq<MountedIdentity>, uuids: set<string>): set<(string, DeviceNumber)> {
    set i | 0 <= i < |ids| && ids[i].uuid in uuids :: (ids[i].uuid, ids[i].device)
  }

  function AllUuids(ids: seq<MountedIdentity>): set<string> {
    set i | 0 <= i < |ids| :: ids[i].uuid
  }

  function Claimed(volumes: seq<Volume>, n: nat): set<string>
    requires n <= |volumes|
  {
    set k | 0 <= k < n :: volumes[k].uuid
  }

  // -- Grouping the identities -----------------------------------------------------------------------

  datatype MountedObject = MountedObject(aliases: nat, unresolved: bool)

  type Groups = map<string, map<DeviceNumber, MountedObject>>

  ghost predicate GroupHolds(objects: map<DeviceNumber, MountedObject>, ids: seq<MountedIdentity>, n: nat, uuid: string)
    requires n <= |ids|
  {
    && objects.Keys == DevicesOf(ids, n, uuid)
    && forall d ::
         d in objects ==> objects[d] == MountedObject(AliasesIn(ids, n, uuid, {d}), UnresolvedIn(ids, n, uuid, {d}))
  }

  ghost predicate GroupsHold(g: Groups, ids: seq<MountedIdentity>, n: nat)
    requires n <= |ids|
  {
    && (forall u {:trigger u in g} :: u in g <==> DevicesOf(ids, n, u) != {})
    && (forall u {:trigger GroupHolds(g[u], ids, n, u)} :: u in g ==> GroupHolds(g[u], ids, n, u))
  }

  function Old(g: Groups, id: MountedIdentity): map<DeviceNumber, MountedObject> {
    if id.uuid in g then g[id.uuid] else map[]
  }

  function Seen(objects: map<DeviceNumber, MountedObject>, id: MountedIdentity): map<DeviceNumber, MountedObject> {
    var before := if id.device in objects then objects[id.device] else MountedObject(0, false);
    objects[id.device := MountedObject(before.aliases + 1, before.unresolved || LacksEvidence(id))]
  }

  lemma DevicesStep(ids: seq<MountedIdentity>, n: nat, uuid: string)
    requires n < |ids|
    ensures DevicesOf(ids, n + 1, uuid) == DevicesOf(ids, n, uuid) + if ids[n].uuid == uuid then {ids[n].device} else {}
  {
  }

  lemma {:induction false} NoAliases(ids: seq<MountedIdentity>, n: nat, uuid: string, d: DeviceNumber)
    requires n <= |ids| && d !in DevicesOf(ids, n, uuid)
    ensures AliasesIn(ids, n, uuid, {d}) == 0 && !UnresolvedIn(ids, n, uuid, {d})
  {
    if n > 0 {
      DevicesStep(ids, n - 1, uuid);
      NoAliases(ids, n - 1, uuid, d);
    }
  }

  lemma UnresolvedStep(ids: seq<MountedIdentity>, n: nat, uuid: string, devices: set<DeviceNumber>)
    requires n < |ids|
    ensures UnresolvedIn(ids, n + 1, uuid, devices) <==>
            UnresolvedIn(ids, n, uuid, devices)
            || (ids[n].uuid == uuid && ids[n].device in devices && LacksEvidence(ids[n]))
  {
  }

  lemma GroupStep(objects: map<DeviceNumber, MountedObject>, ids: seq<MountedIdentity>, n: nat)
    requires n < |ids| && GroupHolds(objects, ids, n, ids[n].uuid)
    ensures GroupHolds(Seen(objects, ids[n]), ids, n + 1, ids[n].uuid)
  {
    var id, more := ids[n], Seen(objects, ids[n]);
    DevicesStep(ids, n, id.uuid);
    if id.device !in objects {
      NoAliases(ids, n, id.uuid, id.device);
    }
    forall d | d in more
      ensures more[d] == MountedObject(AliasesIn(ids, n + 1, id.uuid, {d}), UnresolvedIn(ids, n + 1, id.uuid, {d}))
    {
      UnresolvedStep(ids, n, id.uuid, {d});
    }
  }

  lemma GroupStays(objects: map<DeviceNumber, MountedObject>, ids: seq<MountedIdentity>, n: nat, uuid: string)
    requires n < |ids| && GroupHolds(objects, ids, n, uuid) && ids[n].uuid != uuid
    ensures GroupHolds(objects, ids, n + 1, uuid)
  {
    DevicesStep(ids, n, uuid);
    forall d | d in objects
      ensures objects[d] == MountedObject(AliasesIn(ids, n + 1, uuid, {d}), UnresolvedIn(ids, n + 1, uuid, {d}))
    {
      UnresolvedStep(ids, n, uuid, {d});
    }
  }

  lemma GroupsStep(g: Groups, ids: seq<MountedIdentity>, n: nat)
    requires n < |ids| && GroupsHold(g, ids, n)
    ensures GroupsHold(g[ids[n].uuid := Seen(Old(g, ids[n]), ids[n])], ids, n + 1)
  {
    var id := ids[n];
    var more := g[id.uuid := Seen(Old(g, id), id)];
    forall u ensures u in more <==> DevicesOf(ids, n + 1, u) != {} {
      DevicesStep(ids, n, u);
      assert u in more <==> u in g || u == id.uuid;
    }
    forall u | u in more ensures GroupHolds(more[u], ids, n + 1, u) {
      if u == id.uuid {
        assert GroupHolds(Old(g, id), ids, n, u) by {
          if u !in g {
            assert DevicesOf(ids, n, u) == {};
          }
        }
        GroupStep(Old(g, id), ids, n);
      } else {
        assert GroupHolds(g[u], ids, n, u);
        GroupStays(g[u], ids, n, u);
      }
    }
  }

  method GroupIdentities(ids: seq<MountedIdentity>) returns (g: Groups)
    ensures GroupsHold(g, ids, |ids|)
  {
    g := map[];
    for i := 0 to |ids|
      invariant GroupsHold(g, ids, i)
    {
      GroupsStep(g, ids, i);
      g := g[ids[i].uuid := Seen(Old(g, ids[i]), ids[i])];
    }
  }

  // -- One volume ------------------------------------------------------------------------------------

  lemma {:induction false} AliasesAdd(ids: seq<MountedIdentity>, n: nat, uuid: string, devices: set<DeviceNumber>,
                                      d: DeviceNumber)
    requires n <= |ids| && d !in devices
    ensures AliasesIn(ids, n, uuid, devices + {d}) == AliasesIn(ids, n, uuid, devices) + AliasesIn(ids, n, uuid, {d})
    ensures UnresolvedIn(ids, n, uuid, devices + {d}) <==>
              UnresolvedIn(ids, n, uuid, devices) || UnresolvedIn(ids, n, uuid, {d})
  {
    if n > 0 {
      AliasesAdd(ids, n - 1, uuid, devices, d);
    }
  }

  lemma {:induction false} AliasesNone(ids: seq<MountedIdentity>, n: nat, uuid: string)
    requires n <= |ids|
    ensures AliasesIn(ids, n, uuid, {}) == 0
  {
    if n > 0 {
      AliasesNone(ids, n - 1, uuid);
    }
  }

  lemma {:induction false} AliasesAll(ids: seq<MountedIdentity>, n: nat, uuid: string, devices: set<DeviceNumber>)
    requires n <= |ids| && DevicesOf(ids, n, uuid) <= devices
    ensures AliasesIn(ids, n, uuid, devices) == Aliases(ids, n, uuid)
    ensures n == |ids| ==> (UnresolvedIn(ids, n, uuid, devices) <==> Unresolved(ids, uuid))
  {
    if n > 0 {
      DevicesStep(ids, n - 1, uuid);
      AliasesAll(ids, n - 1, uuid, devices);
    }
    if n == |ids| {
      forall i | 0 <= i < n && ids[i].uuid == uuid ensures ids[i].device in devices {
        assert ids[i].device in DevicesOf(ids, n, uuid);
      }
    }
  }

  /** Summing over the objects of a UUID, in any order, counts its mounts. */
  method ObserveVolume(g: Groups, ghost ids: seq<MountedIdentity>, v: Volume) returns (o: Observation)
    requires GroupsHold(g, ids, |ids|)
    ensures o == Observed(ids, v)
  {
    var objects := if v.uuid in g then g[v.uuid] else map[];
    assert GroupHolds(objects, ids, |ids|, v.uuid);
    var aliases, unresolved, left := 0, false, objects.Keys;
    AliasesNone(ids, |ids|, v.uuid);
    assert objects.Keys - left == {};
    while left != {}
      invariant left <= objects.Keys
      invariant aliases == AliasesIn(ids, |ids|, v.uuid, objects.Keys - left)
      invariant unresolved == UnresolvedIn(ids, |ids|, v.uuid, objects.Keys - left)
    {
      var d :| d in left;
      AliasesAdd(ids, |ids|, v.uuid, objects.Keys - left, d);
      assert objects.Keys - (left - {d}) == objects.Keys - left + {d};
      aliases, unresolved, left := aliases + objects[d].aliases, unresolved || objects[d].unresolved, left - {d};
    }
    assert objects.Keys - {} == objects.Keys;
    AliasesAll(ids, |ids|, v.uuid, objects.Keys);
    assert |objects| == |objects.Keys|;
    o := Observation(v.id, StatusOf(|objects|), |objects|, aliases, unresolved);
  }

  // -- All objects -----------------------------------------------------------------------------------

  function Paired(uuid: string, devices: set<DeviceNumber>): set<(string, DeviceNumber)> {
    set d | d in devices :: (uuid, d)
  }

  lemma {:induction false} PairedCounts(uuid: string, devices: set<DeviceNumber>)
    ensures |Paired(uuid, devices)| == |devices|
  {
    if devices != {} {
      var d :| d in devices;
      PairedCounts(uuid, devices - {d});
      assert Paired(uuid, devices) == Paired(uuid, devices - {d}) + {(uuid, d)};
    }
  }

  lemma ObjectsAdd(ids: seq<MountedIdentity>, uuids: set<string>, uuid: string)
    requires uuid !in uuids
    ensures |ObjectsWithin(ids, uuids + {uuid})| == |ObjectsWithin(ids, uuids)| + |DevicesOf(ids, |ids|, uuid)|
  {
    var devices := DevicesOf(ids, |ids|, uuid);
    PairedCounts(uuid, devices);
    forall x
      ensures x in ObjectsWithin(ids, uuids + {uuid}) <==> x in ObjectsWithin(ids, uuids) + Paired(uuid, devices)
    {
    }
    assert ObjectsWithin(ids, uuids + {uuid}) == ObjectsWithin(ids, uuids) + Paired(uuid, devices);
    assert ObjectsWithin(ids, uuids) !! Paired(uuid, devices);
  }

  lemma ObjectsSplit(ids: seq<MountedIdentity>, a: set<string>, b: set<string>)
    requires a !! b
    ensures |ObjectsWithin(ids, a + b)| == |ObjectsWithin(ids, a)| + |ObjectsWithin(ids, b)|
  {
    assert ObjectsWithin(ids, a + b) == ObjectsWithin(ids, a) + ObjectsWithin(ids, b);
  }

  method CountObjects(g: Groups, ghost ids: seq<MountedIdentity>, claimed: set<string>)
    returns (total: nat, unclaimed: nat)
    requires GroupsHold(g, ids, |ids|)
    ensures total == |ObjectsWithin(ids, AllUuids(ids))| && unclaimed == |ObjectsWithin(ids, AllUuids(ids) - claimed)|
  {
    total, unclaimed := 0, 0;
    var left := g.Keys;
    assert ObjectsWithin(ids, {}) == {};
    while left != {}
      invariant left <= g.Keys
      invariant total == |ObjectsWithin(ids, g.Keys - left)|
      invariant unclaimed == |ObjectsWithin(ids, g.Keys - left - claimed)|
    {
      var uuid :| uuid in left;
      var n := |g[uuid]|;
      assert GroupHolds(g[uuid], ids, |ids|, uuid);
      assert n == |DevicesOf(ids, |ids|, uuid)|;
      ObjectsAdd(ids, g.Keys - left, uuid);
      assert g.Keys - (left - {uuid}) == g.Keys - left + {uuid};
      total := total + n;
      if uuid in claimed {
        assert g.Keys - (left - {uuid}) - claimed == g.Keys - left - claimed;
      } else {
        ObjectsAdd(ids, g.Keys - left - claimed, uuid);
        assert g.Keys - (left - {uuid}) - claimed == g.Keys - left - claimed + {uuid};
        unclaimed := unclaimed + n;
      }
      left := left - {uuid};
    }
    GroupedUuids(g, ids);
    assert g.Keys - {} == AllUuids(ids);
  }

  lemma GroupedUuids(g: Groups, ids: seq<MountedIdentity>)
    requires GroupsHold(g, ids, |ids|)
    ensures g.Keys == AllUuids(ids)
  {
    forall u ensures u in g <==> u in AllUuids(ids) {
      if u in AllUuids(ids) {
        var i :| 0 <= i < |ids| && ids[i].uuid == u;
        assert ids[i].device in DevicesOf(ids, |ids|, u);
      }
    }
  }

  // -- The review ------------------------------------------------------------------------------------

  function Observations(ids: seq<MountedIdentity>, volumes: seq<Volume>): (r: seq<Observation>)
    ensures |r| == |volumes| && forall k :: 0 <= k < |r| ==> r[k] == Observed(ids, volumes[k])
  {
    seq(|volumes|, k requires 0 <= k < |volumes| => Observed(ids, volumes[k]))
  }

  predicate ById(a: Observation, b: Observation) {
    TextAtMost(a.id, b.id)
  }

  ghost predicate ReviewHolds(p: Policy, c: Census, r: Review) {
    && r.revision == p.revision && r.coverage == c.coverage
    && multiset(r.volumes) == multiset(Observations(c.identities, p.volumes)) && SortedBy(ById, r.volumes)
    && r.objects == |ObjectsWithin(c.identities, AllUuids(c.identities))|
    && r.unclaimed == |ObjectsWithin(c.identities, AllUuids(c.identities) - Claimed(p.volumes, |p.volumes|))|
  }

  lemma ByIdIsTotal()
    ensures TotalOrder(ById)
  {
    TextOrderIsTotal();
    forall x: Observation, y: Observation, z: Observation | ById(x, y) && ById(y, z) ensures ById(x, z) {
      assert TextAtMost(x.id, y.id) && TextAtMost(y.id, z.id);
    }
    forall x: Observation, y: Observation ensures ById(x, y) || ById(y, x) {
      assert TextAtMost(x.id, y.id) || TextAtMost(y.id, x.id);
    }
  }

  method ReviewVolumes(p: Policy, c: Census) returns (r: Option<Review>)
    ensures r.Some? <==> PolicyHolds(p) && CensusHolds(c)
    ensures r.Some? ==> ReviewMeans(p, c, r.value)
    ensures r.Some? ==> ReviewHolds(p, c, r.value)
  {
    var held := ValidateCensus(c);
    if !PolicyHolds(p) || !held {
      return None;
    }
    var review := Summarise(p, c);
    CensusIsMeant(c);
    ReviewIsMeant(p, c, review);
    r := Some(review);
  }

  method ObserveVolumes(g: Groups, ghost ids: seq<MountedIdentity>, volumes: seq<Volume>)
    returns (list: seq<Observation>)
    requires GroupsHold(g, ids, |ids|)
    ensures list == Observations(ids, volumes)
  {
    list := [];
    for k := 0 to |volumes|
      invariant |list| == k && forall j :: 0 <= j < k ==> list[j] == Observed(ids, volumes[j])
    {
      var o := ObserveVolume(g, ids, volumes[k]);
      list := list + [o];
    }
  }

  method Summarise(p: Policy, c: Census) returns (r: Review)
    ensures ReviewHolds(p, c, r)
  {
    var g := GroupIdentities(c.identities);
    var list := ObserveVolumes(g, c.identities, p.volumes);
    var total, unclaimed := CountObjects(g, c.identities, Claimed(p.volumes, |p.volumes|));
    ByIdIsTotal();
    SortSorts(ById, list);
    r := Review(p.revision, c.coverage, total, unclaimed, Sort(ById, list));
  }

  // -- Conservation ----------------------------------------------------------------------------------

  function ClaimedObjects(list: seq<Observation>): nat {
    if list == [] then 0 else ClaimedObjects(list[..|list| - 1]) + list[|list| - 1].objects
  }

  lemma {:induction false} ClaimedJoin(a: seq<Observation>, b: seq<Observation>)
    ensures ClaimedObjects(a + b) == ClaimedObjects(a) + ClaimedObjects(b)
    decreases |b|
  {
    if b == [] {
      assert a + b == a;
    } else {
      assert (a + b)[..|a + b| - 1] == a + b[..|b| - 1];
      ClaimedJoin(a, b[..|b| - 1]);
    }
  }

  lemma {:induction false} ClaimedPermutes(a: seq<Observation>, b: seq<Observation>)
    requires multiset(a) == multiset(b)
    ensures ClaimedObjects(a) == ClaimedObjects(b)
    decreases |a|
  {
    if a == [] {
      assert |multiset(b)| == 0;
    } else {
      var fore, aft := CutOut(a, b);
      var x := a[|a| - 1];
      ClaimedPermutes(a[..|a| - 1], fore + aft);
      ClaimedJoin(fore, aft);
      ClaimedJoin(fore, [x] + aft);
      ClaimedJoin([x], aft);
      assert [x][..0] == [];
    }
  }

  lemma {:induction false} ClaimedCounts(ids: seq<MountedIdentity>, volumes: seq<Volume>, n: nat)
    requires n <= |volumes| && forall i, j :: 0 <= i < j < |volumes| ==> volumes[i].uuid != volumes[j].uuid
    ensures ClaimedObjects(Observations(ids, volumes)[..n]) == |ObjectsWithin(ids, Claimed(volumes, n))|
  {
    var list := Observations(ids, volumes);
    if n == 0 {
      assert ObjectsWithin(ids, Claimed(volumes, 0)) == {};
    } else {
      ClaimedCounts(ids, volumes, n - 1);
      assert list[..n][..n - 1] == list[..n - 1];
      assert volumes[n - 1].uuid !in Claimed(volumes, n - 1);
      ObjectsAdd(ids, Claimed(volumes, n - 1), volumes[n - 1].uuid);
      assert Claimed(volumes, n) == Claimed(volumes, n - 1) + {volumes[n - 1].uuid};
    }
  }

  /** Claimed and unclaimed objects are all objects. */
  lemma ObjectsConserved(p: Policy, c: Census, r: Review)
    requires PolicyHolds(p) && ReviewHolds(p, c, r)
    ensures ClaimedObjects(r.volumes) + r.unclaimed == r.objects
  {
    var ids, n := c.identities, |p.volumes|;
    var list, claimed, all := Observations(ids, p.volumes), Claimed(p.volumes, |p.volumes|), AllUuids(ids);
    ClaimedPermutes(r.volumes, list);
    ClaimedCounts(ids, p.volumes, n);
    assert list[..n] == list;
    ObjectsSplit(ids, all * claimed, all - claimed);
    assert all * claimed + (all - claimed) == all;
    assert ObjectsWithin(ids, all * claimed) == ObjectsWithin(ids, claimed);
  }

  // -- Ambiguity -------------------------------------------------------------------------------------

  /** Every identity of a census restates the root it was made from. */
  lemma IdentityOfRoot(c: Census, plan: CensusPlan, k: nat)
    requires CensusFollows(c, plan) && plan.anchors != [] && k < |c.identities|
    ensures k < |c.roots.mounts|
    ensures IdentityFor(c.storage.observations, c.arrays, ConflictSet(c.roots.mounts), c.roots.mounts[k],
                        c.identities[k])
    ensures c.identities[k].uuid == c.roots.mounts[k].uuid && c.identities[k].device == c.roots.mounts[k].device
  {
    EachAt(c.identities, IdentityAt(c.storage.observations, c.arrays, c.roots.mounts), k);
  }

  lemma SameDevices(c: Census, plan: CensusPlan, uuid: string)
    requires CensusFollows(c, plan) && plan.anchors != []
    ensures DevicesOf(c.identities, |c.identities|, uuid) == DevicesWith(c.roots.mounts, |c.roots.mounts|, uuid)
  {
    var ids, mounts := c.identities, c.roots.mounts;
    forall k | 0 <= k < |ids| ensures ids[k].uuid == mounts[k].uuid && ids[k].device == mounts[k].device {
      IdentityOfRoot(c, plan, k);
    }
  }

  lemma FollowedConflicts(c: Census, plan: CensusPlan, uuid: string)
    requires CensusFollows(c, plan)
    ensures |DevicesOf(c.identities, |c.identities|, uuid)| > 1 <==> uuid in c.roots.conflicting
  {
    if plan.anchors == [] {
      assert DevicesOf(c.identities, |c.identities|, uuid) == {};
    } else {
      SameDevices(c, plan, uuid);
      ConflictCounts(c.roots.mounts, uuid);
      assert ListsSet(c.roots.conflicting, ConflictSet(c.roots.mounts));
    }
  }

  /** A volume is ambiguous exactly when the census lists its UUID as conflicting. */
  lemma AmbiguousMeansConflict(c: Census, v: Volume)
    requires CensusHolds(c)
    ensures Observed(c.identities, v).status == AmbiguousInScope <==> v.uuid in c.roots.conflicting
  {
    var plan :| CensusFollows(c, plan);
    FollowedConflicts(c, plan, v.uuid);
  }

  // -- What an observation means ---------------------------------------------------------------------

  /** Neither page is shared with another disk, and one of them is held. */
  predicate Identified(disk: BlockNode) {
    && disk.serialStatus != Ambiguous && disk.wwnStatus != Ambiguous
    && ((disk.serialStatus == Present && disk.serialEvidence != 0)
        || (disk.wwnStatus == Present && disk.wwnEvidence != 0))
  }

  /** Some physical disk below the device is not identified. */
  ghost predicate LeafUnidentified(nodes: Nodes, device: DeviceNumber) {
    exists n, leaf :: n in nodes && nodes[n].device == device && leaf in Leaves(nodes, n) && !Identified(nodes[leaf])
  }

  function MountsWith(mounts: seq<MountedFilesystem>, uuid: string): set<nat> {
    set i: nat | i < |mounts| && mounts[i].uuid == uuid
  }

  /** What is said of a claimed volume, from the observed roots and the block inventory alone. */
  ghost predicate ObservedMeans(c: Census, v: Volume, o: Observation) {
    var mounts := c.roots.mounts;
    && o.id == v.id && o.objects == |DevicesWith(mounts, |mounts|, v.uuid)| && o.aliases == |MountsWith(mounts, v.uuid)|
    && (o.status == NotObserved <==> o.objects == 0) && (o.status == ObservedOnce <==> o.objects == 1)
    && (o.status == AmbiguousInScope <==> o.objects > 1)
    && (o.unresolved <==>
          exists k :: 0 <= k < |mounts| && mounts[k].uuid == v.uuid
                      && LeafUnidentified(Index(c.storage.observations), mounts[k].device))
  }

  /** The identity means what the join says it does. */
  ghost predicate MeantAt(c: Census, k: nat)
    requires k < |c.identities| == |c.roots.mounts|
  {
    IdentityMeans(Index(c.storage.observations), c.arrays, c.roots.mounts, c.roots.mounts[k], c.identities[k])
  }

  ghost predicate Meant(c: Census) {
    |c.identities| == |c.roots.mounts| && forall k {:trigger MeantAt(c, k)} :: 0 <= k < |c.identities| ==> MeantAt(c, k)
  }

  lemma CensusIsMeant(c: Census)
    requires CensusHolds(c)
    ensures Meant(c)
  {
    var plan :| CensusFollows(c, plan);
    forall k | 0 <= k < |c.identities| ensures MeantAt(c, k) {
      IdentityOfRoot(c, plan, k);
      IdentityIsMeant(c.storage.observations, c.arrays, c.roots.mounts, c.roots.mounts[k], c.identities[k]);
    }
  }

  /** The parts of an identity that a review looks at. */
  ghost predicate RestatesAt(c: Census, k: nat)
    requires k < |c.identities| == |c.roots.mounts|
  {
    && c.identities[k].uuid == c.roots.mounts[k].uuid && c.identities[k].device == c.roots.mounts[k].device
    && (LacksEvidence(c.identities[k]) <==>
          LeafUnidentified(Index(c.storage.observations), c.roots.mounts[k].device))
  }

  lemma MeantRestates(c: Census, k: nat)
    requires Meant(c) && k < |c.identities|
    ensures RestatesAt(c, k)
  {
    assert MeantAt(c, k);
    LacksMeans(Index(c.storage.observations), c.arrays, c.roots.mounts, c.roots.mounts[k], c.identities[k]);
  }

  lemma LacksMeans(nodes: Nodes, bindings: seq<Binding>, mounts: seq<MountedFilesystem>, m: MountedFilesystem,
                   id: MountedIdentity)
    requires IdentityMeans(nodes, bindings, mounts, m, id)
    ensures LacksEvidence(id) <==> LeafUnidentified(nodes, m.device)
  {
    if LacksEvidence(id) {
      var k :| 0 <= k < |id.disks| &&
        !EvidenceUnique(id.disks[k].serialStatus, id.disks[k].wwnStatus, id.disks[k].serialEvidence,
                        id.disks[k].wwnEvidence);
      assert id.disks[k] in id.disks;
      assert !Identified(nodes[id.disks[k].diskName]);
    }
    if n, leaf :| n in nodes && nodes[n].device == m.device && leaf in Leaves(nodes, n) && !Identified(nodes[leaf]) {
      var d :| d in id.disks && d.diskName == leaf;
      var k :| 0 <= k < |id.disks| && id.disks[k] == d;
      assert DiskDescribes(d, nodes[leaf]);
    }
  }

  function AliasSet(ids: seq<MountedIdentity>, n: nat, uuid: string): set<nat>
    requires n <= |ids|
  {
    set i: nat | i < n && ids[i].uuid == uuid
  }

  lemma AliasSetStep(ids: seq<MountedIdentity>, n: nat, uuid: string)
    requires n < |ids|
    ensures n !in AliasSet(ids, n, uuid)
    ensures AliasSet(ids, n + 1, uuid) == AliasSet(ids, n, uuid) + if ids[n].uuid == uuid then {n} else {}
  {
  }

  lemma {:induction false} AliasesCount(ids: seq<MountedIdentity>, n: nat, uuid: string)
    requires n <= |ids|
    ensures Aliases(ids, n, uuid) == |AliasSet(ids, n, uuid)|
  {
    if n > 0 {
      AliasesCount(ids, n - 1, uuid);
      AliasSetStep(ids, n - 1, uuid);
    }
  }

  lemma MeantDevices(c: Census, uuid: string)
    requires Meant(c)
    ensures DevicesOf(c.identities, |c.identities|, uuid) == DevicesWith(c.roots.mounts, |c.roots.mounts|, uuid)
    ensures AliasSet(c.identities, |c.identities|, uuid) == MountsWith(c.roots.mounts, uuid)
  {
    forall k | 0 <= k < |c.identities|
      ensures c.identities[k].uuid == c.roots.mounts[k].uuid && c.identities[k].device == c.roots.mounts[k].device
    {
      MeantRestates(c, k);
    }
  }

  lemma MeantUnresolved(c: Census, uuid: string)
    requires Meant(c)
    ensures Unresolved(c.identities, uuid) <==>
              exists k :: 0 <= k < |c.roots.mounts| && c.roots.mounts[k].uuid == uuid
                          && LeafUnidentified(Index(c.storage.observations), c.roots.mounts[k].device)
  {
    forall k | 0 <= k < |c.identities| ensures RestatesAt(c, k) {
      MeantRestates(c, k);
    }
    if Unresolved(c.identities, uuid) {
      var k :| 0 <= k < |c.identities| && c.identities[k].uuid == uuid && LacksEvidence(c.identities[k]);
      assert RestatesAt(c, k);
    }
    if k :| 0 <= k < |c.roots.mounts| && c.roots.mounts[k].uuid == uuid
            && LeafUnidentified(Index(c.storage.observations), c.roots.mounts[k].device) {
      assert RestatesAt(c, k);
    }
  }

  lemma ObservationIsMeant(c: Census, v: Volume)
    requires Meant(c)
    ensures ObservedMeans(c, v, Observed(c.identities, v))
  {
    MeantDevices(c, v.uuid);
    MeantUnresolved(c, v.uuid);
    AliasesCount(c.identities, |c.identities|, v.uuid);
  }

  /** The review has one observation for every claim, in the order of their ids, each meaning what it says. */
  ghost predicate ReviewMeans(p: Policy, c: Census, r: Review) {
    && |r.volumes| == |p.volumes| && r.revision == p.revision && r.coverage == c.coverage
    && (forall v :: v in p.volumes ==> exists o :: o in r.volumes && ObservedMeans(c, v, o))
    && (forall i, j :: 0 <= i < j < |r.volumes| ==> TextAtMost(r.volumes[i].id, r.volumes[j].id))
    && r.objects == |MountedObjects(c.roots.mounts)| && r.unclaimed == |UnclaimedObjects(c.roots.mounts, p.volumes)|
  }

  function MountedObjects(mounts: seq<MountedFilesystem>): set<(string, DeviceNumber)> {
    set i | 0 <= i < |mounts| :: (mounts[i].uuid, mounts[i].device)
  }

  ghost function UnclaimedObjects(mounts: seq<MountedFilesystem>, volumes: seq<Volume>): set<(string, DeviceNumber)> {
    set i | 0 <= i < |mounts| && (forall v :: v in volumes ==> v.uuid != mounts[i].uuid)
      :: (mounts[i].uuid, mounts[i].device)
  }

  lemma ObjectsAreMounted(c: Census, p: Policy)
    requires Meant(c)
    ensures var ids, all := c.identities, AllUuids(c.identities);
            && ObjectsWithin(ids, all) == MountedObjects(c.roots.mounts)
            && ObjectsWithin(ids, all - Claimed(p.volumes, |p.volumes|)) == UnclaimedObjects(c.roots.mounts, p.volumes)
  {
    forall k | 0 <= k < |c.identities|
      ensures c.identities[k].uuid == c.roots.mounts[k].uuid && c.identities[k].device == c.roots.mounts[k].device
    {
      MeantRestates(c, k);
    }
    ObjectsRestated(c.identities, c.roots.mounts, p.volumes);
  }

  lemma ObjectsRestated(ids: seq<MountedIdentity>, mounts: seq<MountedFilesystem>, volumes: seq<Volume>)
    requires |ids| == |mounts|
    requires forall k :: 0 <= k < |ids| ==> ids[k].uuid == mounts[k].uuid && ids[k].device == mounts[k].device
    ensures ObjectsWithin(ids, AllUuids(ids)) == MountedObjects(mounts)
    ensures ObjectsWithin(ids, AllUuids(ids) - Claimed(volumes, |volumes|)) == UnclaimedObjects(mounts, volumes)
  {
    forall u ensures u in Claimed(volumes, |volumes|) <==> exists v :: v in volumes && v.uuid == u {
    }
    forall x ensures x in ObjectsWithin(ids, AllUuids(ids)) <==> x in MountedObjects(mounts) {
    }
    forall x
      ensures x in ObjectsWithin(ids, AllUuids(ids) - Claimed(volumes, |volumes|)) <==>
              x in UnclaimedObjects(mounts, volumes)
    {
    }
  }

  lemma ReviewIsMeant(p: Policy, c: Census, r: Review)
    requires Meant(c) && ReviewHolds(p, c, r)
    ensures ReviewMeans(p, c, r)
  {
    var list := Observations(c.identities, p.volumes);
    assert |r.volumes| == |multiset(r.volumes)| == |list|;
    forall v | v in p.volumes ensures exists o :: o in r.volumes && ObservedMeans(c, v, o) {
      var k :| 0 <= k < |p.volumes| && p.volumes[k] == v;
      assert list[k] in multiset(r.volumes);
      ObservationIsMeant(c, v);
    }
    forall i, j | 0 <= i < j < |r.volumes| ensures TextAtMost(r.volumes[i].id, r.volumes[j].id) {
      assert ById(r.volumes[i], r.volumes[j]);
    }
    ObjectsAreMounted(c, p);
  }

  // -- Backing of a volume observed once -------------------------------------------------------------

  datatype BackingKind =
    | NoBacking | MdDevice | MdPartition | MdBackedStack | PhysicalDiskKind | PhysicalPartition | OtherBlockStack

  datatype Backing = Backing(observed: Observation, kind: BackingKind, disks: nat, arrays: nat)

  function KindOf(nodes: Nodes, id: MountedIdentity): BackingKind
    requires id.sourceName in nodes
  {
    var source := nodes[id.sourceName];
    if id.arrays != [] then
      if source.kind.Block? && ValidMdName(source.name) then MdDevice
      else if source.kind.Partition? && ValidMdName(source.parentName) then MdPartition
      else MdBackedStack
    else if source.kind.Block? && source.lower == [] && !IsVirtual(source.target) then PhysicalDiskKind
    else if source.kind.Partition? && PlainParent(nodes, source.parentName) then PhysicalPartition
    else OtherBlockStack
  }

  // An absent parent reads as an empty record: no lower blocks and no virtual target.
  predicate PlainParent(nodes: Nodes, parent: string) {
    parent in nodes ==> nodes[parent].lower == [] && !IsVirtual(nodes[parent].target)
  }

  function BackingOf(nodes: Nodes, o: Observation, id: MountedIdentity): Backing
    requires id.sourceName in nodes
  {
    Backing(o, KindOf(nodes, id), |id.disks|, |id.arrays|)
  }

  lemma SourceObserved(c: Census, plan: CensusPlan, i: nat)
    requires CensusFollows(c, plan) && i < |c.identities|
    ensures c.identities[i].sourceName in Index(c.storage.observations)
  {
    IdentityOfRoot(c, plan, i);
  }

  /** Two mounts of one device have the same source, disks and arrays. */
  lemma AliasesAgree(c: Census, plan: CensusPlan, i: nat, j: nat)
    requires CensusFollows(c, plan) && i < |c.identities| && j < |c.identities|
    requires c.identities[i].device == c.identities[j].device
    ensures var a, b := c.identities[i], c.identities[j];
            a.sourceName == b.sourceName && a.disks == b.disks && a.arrays == b.arrays
  {
    IdentityOfRoot(c, plan, i);
    IdentityOfRoot(c, plan, j);
    var obs := c.storage.observations;
    var source := DeviceIndex(obs, |obs|)[c.identities[i].device];
    OneOrder(c.identities[i].disks, c.identities[j].disks, DisksBehind(source, Index(obs), {}).value);
    OneArrayList(obs, c.arrays, source.name, c.identities[i].arrays, c.identities[j].arrays);
  }

  lemma OneDevice(ids: seq<MountedIdentity>, uuid: string, i: nat, j: nat)
    requires |DevicesOf(ids, |ids|, uuid)| == 1 && i < |ids| && j < |ids| && ids[i].uuid == uuid && ids[j].uuid == uuid
    ensures ids[i].device == ids[j].device
  {
    var s := DevicesOf(ids, |ids|, uuid);
    if ids[i].device != ids[j].device {
      SetOfTwo(s, ids[i].device, ids[j].device);
    }
  }

  /** Every identity has an observed source, and mounts of one device agree. */
  ghost predicate Coherent(c: Census) {
    && (forall i {:trigger HasSource(c, i)} :: 0 <= i < |c.identities| ==> HasSource(c, i))
    && (forall i, j {:trigger Agree(c, i, j)} :: 0 <= i < |c.identities| && 0 <= j < |c.identities| ==> Agree(c, i, j))
  }

  ghost predicate HasSource(c: Census, i: nat)
    requires i < |c.identities|
  {
    c.identities[i].sourceName in Index(c.storage.observations)
  }

  ghost predicate Agree(c: Census, i: nat, j: nat)
    requires i < |c.identities| && j < |c.identities|
  {
    var a, b := c.identities[i], c.identities[j];
    a.device == b.device ==> a.sourceName == b.sourceName && a.disks == b.disks && a.arrays == b.arrays
  }

  lemma CensusIsCoherent(c: Census)
    requires CensusHolds(c)
    ensures Coherent(c)
  {
    var plan :| CensusFollows(c, plan);
    forall i | 0 <= i < |c.identities| ensures HasSource(c, i) {
      SourceObserved(c, plan, i);
    }
    forall i, j | 0 <= i < |c.identities| && 0 <= j < |c.identities| ensures Agree(c, i, j) {
      if c.identities[i].device == c.identities[j].device {
        AliasesAgree(c, plan, i, j);
      }
    }
  }

  lemma CoherentBacking(c: Census, v: Volume, i: nat, j: nat)
    requires Coherent(c) && Observed(c.identities, v).status == ObservedOnce
    requires i < |c.identities| && j < |c.identities| && c.identities[i].uuid == v.uuid
    requires c.identities[j].uuid == v.uuid
    ensures HasSource(c, i) && HasSource(c, j)
    ensures BackingOf(Index(c.storage.observations), Observed(c.identities, v), c.identities[i]) ==
            BackingOf(Index(c.storage.observations), Observed(c.identities, v), c.identities[j])
  {
    assert HasSource(c, i) && HasSource(c, j) && Agree(c, i, j);
    OneDevice(c.identities, v.uuid, i, j);
  }

  /** For a volume observed once, whichever mount is kept the backing is the same. */
  lemma BackingIgnoresAlias(c: Census, v: Volume, i: nat, j: nat)
    requires CensusHolds(c) && Observed(c.identities, v).status == ObservedOnce
    requires i < |c.identities| && j < |c.identities| && c.identities[i].uuid == v.uuid
    requires c.identities[j].uuid == v.uuid
    ensures HasSource(c, i) && HasSource(c, j)
    ensures BackingOf(Index(c.storage.observations), Observed(c.identities, v), c.identities[i]) ==
            BackingOf(Index(c.storage.observations), Observed(c.identities, v), c.identities[j])
  {
    CensusIsCoherent(c);
    CoherentBacking(c, v, i, j);
  }

  /** The backing of a claimed volume: nothing unless it is observed once, and then what any of its mounts
      shows. */
  ghost predicate BackingHolds(c: Census, v: Volume, b: Backing) {
    && b.observed == Observed(c.identities, v)
    && if b.observed.status != ObservedOnce then b == Backing(b.observed, NoBacking, 0, 0)
       else
         && (exists i :: 0 <= i < |c.identities| && c.identities[i].uuid == v.uuid)
         && forall i :: 0 <= i < |c.identities| && c.identities[i].uuid == v.uuid ==>
              c.identities[i].sourceName in Index(c.storage.observations) &&
              b == BackingOf(Index(c.storage.observations), b.observed, c.identities[i])
  }

  /** What each kind says about the mounted node. */
  ghost predicate KindMeans(nodes: Nodes, n: string, kind: BackingKind)
    requires n in nodes
  {
    var source := nodes[n];
    var device := source.kind.Block? && ValidMdName(n);
    var partition := source.kind.Partition? && ValidMdName(source.parentName);
    var rests := if source.kind.Partition? && source.parentName in nodes then nodes[source.parentName] else source;
    match kind
    case NoBacking => false
    case MdDevice => device
    case MdPartition => partition
    case MdBackedStack => MdBlocks(nodes, n) != {} && !device && !partition
    case PhysicalDiskKind => MdBlocks(nodes, n) == {} && source.kind.Block? && source.lower == []
    case PhysicalPartition => MdBlocks(nodes, n) == {} && source.kind.Partition? && rests.lower == []
    case OtherBlockStack => MdBlocks(nodes, n) == {} && rests.lower != []
  }

  /** Where it is mounted from: the node, the disks below it, the arrays in its stack, and its kind. */
  ghost predicate BackedBy(nodes: Nodes, n: string, b: Backing) {
    && n in nodes && b.disks == |Leaves(nodes, n)| && b.arrays == |MdBlocks(nodes, n)|
    && forall kind :: b.kind == kind <==> KindMeans(nodes, n, kind)
  }

  /** The backing of a claimed volume, from the observed roots and the block inventory alone. */
  ghost predicate BackingMeans(c: Census, v: Volume, b: Backing) {
    var mounts, nodes := c.roots.mounts, Index(c.storage.observations);
    && ObservedMeans(c, v, b.observed)
    && if b.observed.objects != 1 then b.kind == NoBacking && b.disks == 0 && b.arrays == 0
       else
         exists k, n :: && 0 <= k < |mounts| && mounts[k].uuid == v.uuid && n in nodes
                        && nodes[n].device == mounts[k].device && BackedBy(nodes, n, b)
  }

  lemma {:induction false} StackFacts(nodes: Nodes, source: BlockNode)
    requires MdBindings.Named(nodes) && source.name in nodes && nodes[source.name] == source
    requires DisksBehind(source, nodes, {}).Some?
    ensures source.kind.Block? || source.kind.Partition?
    ensures source.kind.Block? && source.lower == [] ==> !IsVirtual(source.target)
    ensures source.kind.Block? && ValidMdName(source.name) ==> source.name in MdBlocks(nodes, source.name)
    ensures source.kind.Partition? ==>
              && source.parentName in nodes && nodes[source.parentName].kind.Block?
              && (nodes[source.parentName].lower == [] ==> !IsVirtual(nodes[source.parentName].target))
              && (ValidMdName(source.parentName) ==> source.parentName in MdBlocks(nodes, source.name))
  {
    var g, a := LeafGraph(nodes), source.name;
    DisksBehindDecides(source, nodes, {});
    ReachesSelf(g, a);
    assert GoodBelow(nodes, {}, a);
    if source.kind.Partition? {
      LeafEdges(nodes, a);
      assert Edge(g, a, source.parentName);
      ReachesSelf(g, source.parentName);
      EdgeThenReaches(g, a, source.parentName, source.parentName);
      assert GoodBelow(nodes, {}, source.parentName);
    }
  }

  lemma {:induction false} KindIsMeant(nodes: Nodes, bindings: seq<Binding>, id: MountedIdentity)
    requires MdBindings.Named(nodes) && id.sourceName in nodes && DisksBehind(nodes[id.sourceName], nodes, {}).Some?
    requires ListsArrays(nodes, id.sourceName, bindings, id.arrays)
    ensures forall kind :: KindOf(nodes, id) == kind <==> KindMeans(nodes, id.sourceName, kind)
  {
    StackFacts(nodes, nodes[id.sourceName]);
    assert id.arrays != [] <==> MdBlocks(nodes, id.sourceName) != {};
  }

  ghost predicate Resolved(c: Census) {
    forall i {:trigger ResolvedAt(c, i)} :: 0 <= i < |c.identities| ==> ResolvedAt(c, i)
  }

  ghost predicate ResolvedAt(c: Census, i: nat)
    requires i < |c.identities|
  {
    var nodes, id := Index(c.storage.observations), c.identities[i];
    id.sourceName in nodes && DisksBehind(nodes[id.sourceName], nodes, {}).Some?
  }

  lemma CensusResolves(c: Census)
    requires CensusHolds(c)
    ensures Resolved(c)
  {
    var plan :| CensusFollows(c, plan);
    forall i | 0 <= i < |c.identities| ensures ResolvedAt(c, i) {
      IdentityOfRoot(c, plan, i);
    }
  }

  lemma SourceBacks(c: Census, i: nat, b: Backing)
    requires Meant(c) && Resolved(c) && i < |c.identities|
    requires c.identities[i].sourceName in Index(c.storage.observations)
    requires b == BackingOf(Index(c.storage.observations), b.observed, c.identities[i])
    ensures BackedBy(Index(c.storage.observations), c.identities[i].sourceName, b)
    ensures Index(c.storage.observations)[c.identities[i].sourceName].device == c.roots.mounts[i].device
    ensures c.identities[i].uuid == c.roots.mounts[i].uuid
  {
    assert MeantAt(c, i) && ResolvedAt(c, i);
    KindIsMeant(Index(c.storage.observations), c.arrays, c.identities[i]);
  }

  lemma BackingIsMeant(c: Census, v: Volume, b: Backing)
    requires Meant(c) && Resolved(c) && BackingHolds(c, v, b)
    ensures BackingMeans(c, v, b)
  {
    ObservationIsMeant(c, v);
    if b.observed.status == ObservedOnce {
      var i :| 0 <= i < |c.identities| && c.identities[i].uuid == v.uuid;
      SourceBacks(c, i, b);
    }
  }

  function ByUuid(ids: seq<MountedIdentity>, n: nat): map<string, MountedIdentity>
    requires n <= |ids|
  {
    if n == 0 then map[] else ByUuid(ids, n - 1)[ids[n - 1].uuid := ids[n - 1]]
  }

  /** The mount kept for a UUID is the last one. */
  lemma {:induction false} KeptAlias(ids: seq<MountedIdentity>, n: nat, uuid: string) returns (i: nat)
    requires n <= |ids| && DevicesOf(ids, n, uuid) != {}
    ensures uuid in ByUuid(ids, n) && i < n && ids[i] == ByUuid(ids, n)[uuid] && ids[i].uuid == uuid
  {
    i := n - 1;
    if ids[n - 1].uuid != uuid {
      DevicesStep(ids, n - 1, uuid);
      i := KeptAlias(ids, n - 1, uuid);
    }
  }

  method BackVolume(c: Census, byUuid: map<string, MountedIdentity>, v: Volume, o: Observation) returns (b: Backing)
    requires Coherent(c) && byUuid == ByUuid(c.identities, |c.identities|) && o == Observed(c.identities, v)
    ensures BackingHolds(c, v, b)
  {
    if o.status != ObservedOnce || o.objects != 1 {
      return Backing(o, NoBacking, 0, 0);
    }
    ghost var kept := KeptAlias(c.identities, |c.identities|, v.uuid);
    CoherentBacking(c, v, kept, kept);
    b := BackingOf(Index(c.storage.observations), o, byUuid[v.uuid]);
    forall i | 0 <= i < |c.identities| && c.identities[i].uuid == v.uuid
      ensures c.identities[i].sourceName in Index(c.storage.observations)
      ensures b == BackingOf(Index(c.storage.observations), o, c.identities[i])
    {
      CoherentBacking(c, v, i, kept);
    }
  }

  function UuidById(volumes: seq<Volume>, n: nat): map<string, string>
    requires n <= |volumes|
  {
    if n == 0 then map[] else UuidById(volumes, n - 1)[volumes[n - 1].id := volumes[n - 1].uuid]
  }

  lemma {:induction false} UuidFound(volumes: seq<Volume>, n: nat, k: nat)
    requires k < n <= |volumes| && forall i, j :: 0 <= i < j < |volumes| ==> volumes[i].id != volumes[j].id
    ensures volumes[k].id in UuidById(volumes, n) && UuidById(volumes, n)[volumes[k].id] == volumes[k].uuid
  {
    if k < n - 1 {
      UuidFound(volumes, n - 1, k);
    }
  }

  /** Every reviewed volume is some claim, and the claim is found by its id. */
  lemma ReviewedClaims(p: Policy, c: Census, r: Review, i: nat) returns (k: nat)
    requires PolicyHolds(p) && ReviewHolds(p, c, r) && i < |r.volumes|
    ensures k < |p.volumes| && r.volumes[i] == Observed(c.identities, p.volumes[k])
    ensures r.volumes[i].id == p.volumes[k].id
    ensures p.volumes[k].id in UuidById(p.volumes, |p.volumes|)
    ensures Volume(r.volumes[i].id, UuidById(p.volumes, |p.volumes|)[p.volumes[k].id]) == p.volumes[k]
  {
    var list := Observations(c.identities, p.volumes);
    assert r.volumes[i] in multiset(list);
    k :| 0 <= k < |list| && list[k] == r.volumes[i];
    assert list[k] == Observed(c.identities, p.volumes[k]);
    UuidFound(p.volumes, |p.volumes|, k);
  }

  /** The backing of some claim, in the place of its review. */
  ghost predicate BackedClaim(p: Policy, c: Census, o: Observation, b: Backing) {
    b.observed == o && exists k :: 0 <= k < |p.volumes| && p.volumes[k].id == o.id && BackingHolds(c, p.volumes[k], b)
  }

  ghost function BackedAt(p: Policy, c: Census, volumes: seq<Observation>): (nat, Backing) -> bool {
    (k: nat, b: Backing) => k < |volumes| && BackedClaim(p, c, volumes[k], b)
  }

  /** The backing of the claim with this observation. */
  ghost predicate BackingReported(p: Policy, c: Census, o: Observation, b: Backing) {
    b.observed == o && exists v :: v in p.volumes && v.id == o.id && BackingMeans(c, v, b)
  }

  lemma ClaimIsReported(p: Policy, c: Census, o: Observation, b: Backing)
    requires Meant(c) && Resolved(c) && BackedClaim(p, c, o, b)
    ensures BackingReported(p, c, o, b)
  {
    var k :| 0 <= k < |p.volumes| && p.volumes[k].id == o.id && BackingHolds(c, p.volumes[k], b);
    BackingIsMeant(c, p.volumes[k], b);
  }

  /** One backing per reviewed volume, in the same order; the lookups it depends on cannot fail. */
  method ReviewBacking(p: Policy, c: Census) returns (r: Option<(Review, seq<Backing>)>)
    ensures r.Some? <==> PolicyHolds(p) && CensusHolds(c)
    ensures r.Some? ==> ReviewHolds(p, c, r.value.0) && |r.value.1| == |r.value.0.volumes|
    ensures r.Some? ==>
              ReviewMeans(p, c, r.value.0)
              && forall k :: 0 <= k < |r.value.1| ==> BackingReported(p, c, r.value.0.volumes[k], r.value.1[k])
    ensures r.Some? ==> Each(r.value.1, BackedAt(p, c, r.value.0.volumes))
  {
    var review := ReviewVolumes(p, c);
    if review.None? {
      return None;
    }
    CensusIsCoherent(c);
    var list := BackVolumes(p, c, review.value);
    CensusIsMeant(c);
    CensusResolves(c);
    forall k | 0 <= k < |list| ensures BackingReported(p, c, review.value.volumes[k], list[k]) {
      EachAt(list, BackedAt(p, c, review.value.volumes), k);
      ClaimIsReported(p, c, review.value.volumes[k], list[k]);
    }
    r := Some((review.value, list));
  }

  method BackVolumes(p: Policy, c: Census, review: Review) returns (list: seq<Backing>)
    requires PolicyHolds(p) && Coherent(c) && ReviewHolds(p, c, review)
    ensures |list| == |review.volumes| && Each(list, BackedAt(p, c, review.volumes))
  {
    var byId, byUuid := UuidById(p.volumes, |p.volumes|), ByUuid(c.identities, |c.identities|);
    list := [];
    for i := 0 to |review.volumes|
      invariant |list| == i && Each(list, BackedAt(p, c, review.volumes))
    {
      ghost var k := ReviewedClaims(p, c, review, i);
      var b := BackVolume(c, byUuid, Volume(review.volumes[i].id, byId[review.volumes[i].id]), review.volumes[i]);
      assert BackedClaim(p, c, review.volumes[i], b);
      EachMore(list, BackedAt(p, c, review.volumes), b);
      list := list + [b];
    }
  }
}
