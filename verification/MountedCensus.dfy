/** The census of mounted ext filesystems: which roots it observes, how it is collected, and the validator
    that rebuilds it from its own observations. */
module MountedCensus {
  import opened Basics
  import opened Sorting
  import opened BlockInventory
  import opened SourceSets
  import opened MountTables
  import opened MdIdentity
  import opened MdBindings
  import opened MountedIdentities
  import opened MountedJoins

  datatype Coverage = Coverage(
    mountCount: nat,
    observedRoots: nat,
    processRootExcluded: nat,
    subtreeExcluded: nat,
    unsupportedExcluded: nat,
    zeroMajorExcluded: nat)

  datatype Class = ZeroMajor | ProcessRoot | OtherFilesystem | Subtree | Anchor

  function ClassOf(m: Mount): Class {
    if m.device.major == 0 then ZeroMajor
    else if m.mountPoint == "/" then ProcessRoot
    else if m.filesystem != "ext2" && m.filesystem != "ext3" && m.filesystem != "ext4" then OtherFilesystem
    else if m.filesystemRoot != "/" then Subtree
    else Anchor
  }

  function Count(mounts: seq<Mount>, n: nat, c: Class): nat
    requires n <= |mounts|
  {
    if n == 0 then 0 else Count(mounts, n - 1, c) + if ClassOf(mounts[n - 1]) == c then 1 else 0
  }

  /** The mount points of the ext roots, in table order. */
  function Roots(mounts: seq<Mount>, n: nat): (roots: seq<string>)
    requires n <= |mounts|
    ensures |roots| == Count(mounts, n, Anchor)
  {
    if n == 0 then []
    else Roots(mounts, n - 1) + if ClassOf(mounts[n - 1]) == Anchor then [mounts[n - 1].mountPoint] else []
  }

  function CoverageUpTo(mounts: seq<Mount>, n: nat): Coverage
    requires n <= |mounts|
  {
    Coverage(|mounts|, Count(mounts, n, Anchor), Count(mounts, n, ProcessRoot), Count(mounts, n, Subtree),
             Count(mounts, n, OtherFilesystem), Count(mounts, n, ZeroMajor))
  }

  /** Every mount is counted once. */
  lemma {:induction false} CoverageSums(mounts: seq<Mount>, n: nat)
    requires n <= |mounts|
    ensures var c := CoverageUpTo(mounts, n);
            c.observedRoots + c.processRootExcluded + c.subtreeExcluded + c.unsupportedExcluded
              + c.zeroMajorExcluded == n
  {
    if n > 0 {
      CoverageSums(mounts, n - 1);
    }
  }

  // -- The plan --------------------------------------------------------------------------------------

  predicate TableAnnounced(t: MountSnapshot) {
    && t.collectionComplete && t.schemaVersion == 1 && t.scope == MOUNT_SCOPE && t.readOnly && !t.filesystemContentsRead
    && !t.mountOperationsPerformed && 1 <= |t.mounts| <= MAX_MOUNT_ENTRIES && t.mountCount == |t.mounts|
  }

  predicate MountAdmissible(obs: seq<BlockNode>, m: Mount) {
    && m.mountInfoId != 0 && CleanPath(m.mountPoint) && CleanPath(m.filesystemRoot) && ValidFilesystem(m.filesystem)
    && (m.device.major != 0 ==> m.device in DeviceIndex(obs, |obs|))
  }

  predicate MountsDistinct(mounts: seq<Mount>, n: nat)
    requires n <= |mounts|
  {
    forall i, j ::
      0 <= i < j < n ==> mounts[i].mountInfoId != mounts[j].mountInfoId && mounts[i].mountPoint != mounts[j].mountPoint
  }

  predicate MountsAdmissible(obs: seq<BlockNode>, mounts: seq<Mount>, n: nat)
    requires n <= |mounts|
  {
    && (forall i {:trigger MountAdmissible(obs, mounts[i])} :: 0 <= i < n ==> MountAdmissible(obs, mounts[i]))
    && MountsDistinct(mounts, n) && Count(mounts, n, Anchor) <= MAX_ANCHORS
  }

  ghost predicate Plannable(storage: StorageSnapshot, t: MountSnapshot) {
    Complete(storage) && TableAnnounced(t) && MountsAdmissible(storage.observations, t.mounts, |t.mounts|)
  }

  lemma {:induction false} CountGrows(mounts: seq<Mount>, i: nat, n: nat, c: Class)
    requires i <= n <= |mounts|
    ensures Count(mounts, i, c) <= Count(mounts, n, c)
  {
    if i < n {
      CountGrows(mounts, i, n - 1, c);
    }
  }

  lemma AdmissibleStep(obs: seq<BlockNode>, mounts: seq<Mount>, n: nat)
    requires n < |mounts|
    ensures MountsAdmissible(obs, mounts, n + 1) <==>
            && MountsAdmissible(obs, mounts, n) && MountAdmissible(obs, mounts[n])
            && Count(mounts, n + 1, Anchor) <= MAX_ANCHORS
            && forall i ::
                 0 <= i < n ==>
                     mounts[i].mountInfoId != mounts[n].mountInfoId && mounts[i].mountPoint != mounts[n].mountPoint
    ensures MountsAdmissible(obs, mounts, |mounts|) ==> MountsAdmissible(obs, mounts, n + 1)
  {
    CountGrows(mounts, n, n + 1, Anchor);
    CountGrows(mounts, n + 1, |mounts|, Anchor);
  }

  /** The ids and mount points seen so far. */
  ghost predicate SeenSoFar(ids: set<Uint32>, points: set<string>, mounts: seq<Mount>, n: nat)
    requires n <= |mounts|
  {
    && (forall x :: x in ids <==> exists i :: 0 <= i < n && mounts[i].mountInfoId == x)
    && (forall x :: x in points <==> exists i :: 0 <= i < n && mounts[i].mountPoint == x)
  }

  lemma SeenStep(ids: set<Uint32>, points: set<string>, mounts: seq<Mount>, n: nat)
    requires n < |mounts| && SeenSoFar(ids, points, mounts, n)
    ensures SeenSoFar(ids + {mounts[n].mountInfoId}, points + {mounts[n].mountPoint}, mounts, n + 1)
    ensures mounts[n].mountInfoId !in ids && mounts[n].mountPoint !in points <==>
            forall i ::
              0 <= i < n ==>
                  mounts[i].mountInfoId != mounts[n].mountInfoId && mounts[i].mountPoint != mounts[n].mountPoint
  {
  }

  function Bump(c: Coverage, k: Class): Coverage {
    match k
    case ZeroMajor => c.(zeroMajorExcluded := c.zeroMajorExcluded + 1)
    case ProcessRoot => c.(processRootExcluded := c.processRootExcluded + 1)
    case OtherFilesystem => c.(unsupportedExcluded := c.unsupportedExcluded + 1)
    case Subtree => c.(subtreeExcluded := c.subtreeExcluded + 1)
    case Anchor => c
  }

  datatype CensusPlan = CensusPlan(anchors: seq<string>, coverage: Coverage)

  ghost predicate PlanHolds(mounts: seq<Mount>, plan: CensusPlan) {
    && Ascends(plan.anchors) && multiset(plan.anchors) == multiset(Roots(mounts, |mounts|))
    && plan.coverage == CoverageUpTo(mounts, |mounts|)
  }

  datatype Tally = Tally(coverage: Coverage, roots: seq<string>, ids: set<Uint32>, points: set<string>)

  ghost predicate ScanHolds(obs: seq<BlockNode>, mounts: seq<Mount>, n: nat, s: Tally)
    requires n <= |mounts|
  {
    && MountsAdmissible(obs, mounts, n) && SeenSoFar(s.ids, s.points, mounts, n)
    && s.roots == Roots(mounts, n) && s.coverage == CoverageUpTo(mounts, n).(observedRoots := 0)
  }

  predicate Passes(obs: seq<BlockNode>, s: Tally, m: Mount) {
    && MountAdmissible(obs, m) && m.mountInfoId !in s.ids && m.mountPoint !in s.points
    && (ClassOf(m) == Anchor ==> |s.roots| < MAX_ANCHORS)
  }

  function Advance(s: Tally, m: Mount): Tally {
    Tally(Bump(s.coverage, ClassOf(m)), if ClassOf(m) == Anchor then s.roots + [m.mountPoint] else s.roots,
         s.ids + {m.mountInfoId}, s.points + {m.mountPoint})
  }

  lemma CoverageStep(mounts: seq<Mount>, n: nat)
    requires n < |mounts|
    ensures CoverageUpTo(mounts, n + 1).(observedRoots := 0) ==
            Bump(CoverageUpTo(mounts, n).(observedRoots := 0), ClassOf(mounts[n]))
  {
  }

  lemma ScanStep(obs: seq<BlockNode>, mounts: seq<Mount>, n: nat, s: Tally)
    requires n < |mounts| && ScanHolds(obs, mounts, n, s)
    ensures if Passes(obs, s, mounts[n]) then ScanHolds(obs, mounts, n + 1, Advance(s, mounts[n]))
            else !MountsAdmissible(obs, mounts, |mounts|)
  {
    AdmissibleStep(obs, mounts, n);
    SeenStep(s.ids, s.points, mounts, n);
    CoverageStep(mounts, n);
  }

  method ScanMounts(obs: seq<BlockNode>, mounts: seq<Mount>) returns (r: Option<CensusPlan>)
    ensures r.Some? <==> MountsAdmissible(obs, mounts, |mounts|)
    ensures r.Some? ==> r.value.anchors == Roots(mounts, |mounts|) && r.value.coverage == CoverageUpTo(mounts, |mounts|)
  {
    var s := Tally(Coverage(|mounts|, 0, 0, 0, 0, 0), [], {}, {});
    for i := 0 to |mounts|
      invariant ScanHolds(obs, mounts, i, s)
    {
      ScanStep(obs, mounts, i, s);
      if !Passes(obs, s, mounts[i]) {
        return None;
      }
      s := Advance(s, mounts[i]);
    }
    r := Some(CensusPlan(s.roots, s.coverage.(observedRoots := |s.roots|)));
  }

  lemma {:induction false} RootSource(mounts: seq<Mount>, n: nat, k: nat) returns (i: nat)
    requires n <= |mounts| && k < |Roots(mounts, n)|
    ensures i < n && mounts[i].mountPoint == Roots(mounts, n)[k] && ClassOf(mounts[i]) == Anchor
    ensures Count(mounts, i, Anchor) == k
  {
    if k < |Roots(mounts, n - 1)| {
      i := RootSource(mounts, n - 1, k);
    } else {
      i := n - 1;
    }
  }

  lemma {:induction false} RootsDistinct(mounts: seq<Mount>, j: nat, k: nat)
    requires MountsDistinct(mounts, |mounts|) && j < k < |Roots(mounts, |mounts|)|
    ensures Roots(mounts, |mounts|)[j] != Roots(mounts, |mounts|)[k]
  {
    var a := RootSource(mounts, |mounts|, j);
    var b := RootSource(mounts, |mounts|, k);
    assert a != b;
  }

  // -- What the plan means ---------------------------------------------------------------------------

  predicate ExtFilesystem(m: Mount) {
    m.filesystem == "ext2" || m.filesystem == "ext3" || m.filesystem == "ext4"
  }

  /** The root of an ext filesystem on a block device, mounted below the process root. */
  predicate ExtRoot(m: Mount) {
    m.device.major != 0 && m.mountPoint != "/" && ExtFilesystem(m) && m.filesystemRoot == "/"
  }

  function ZeroMajors(mounts: seq<Mount>): set<nat> {
    set i: nat | i < |mounts| && mounts[i].device.major == 0
  }

  function ProcessRoots(mounts: seq<Mount>): set<nat> {
    set i: nat | i < |mounts| && mounts[i].device.major != 0 && mounts[i].mountPoint == "/"
  }

  function Unsupported(mounts: seq<Mount>): set<nat> {
    set i: nat | i < |mounts| && mounts[i].device.major != 0 && mounts[i].mountPoint != "/" && !ExtFilesystem(mounts[i])
  }

  function Subtrees(mounts: seq<Mount>): set<nat> {
    set i: nat |
      && i < |mounts| && mounts[i].device.major != 0 && mounts[i].mountPoint != "/" && ExtFilesystem(mounts[i])
      && mounts[i].filesystemRoot != "/"
  }

  /** The anchors are the mount points of the ext roots, and every other mount is counted for what it is. */
  ghost predicate PlanMeans(mounts: seq<Mount>, plan: CensusPlan) {
    && (forall p ::
          p in plan.anchors <==> exists i :: 0 <= i < |mounts| && mounts[i].mountPoint == p && ExtRoot(mounts[i]))
    && plan.coverage.mountCount == |mounts| && plan.coverage.observedRoots == |plan.anchors|
    && plan.coverage.zeroMajorExcluded == |ZeroMajors(mounts)|
    && plan.coverage.processRootExcluded == |ProcessRoots(mounts)|
    && plan.coverage.unsupportedExcluded == |Unsupported(mounts)|
    && plan.coverage.subtreeExcluded == |Subtrees(mounts)|
  }

  ghost function OfClass(mounts: seq<Mount>, n: nat, c: Class): set<nat>
    requires n <= |mounts|
  {
    set i: nat | i < n && ClassOf(mounts[i]) == c
  }

  lemma OfClassStep(mounts: seq<Mount>, n: nat, c: Class)
    requires n < |mounts|
    ensures n !in OfClass(mounts, n, c)
    ensures OfClass(mounts, n + 1, c) == OfClass(mounts, n, c) + if ClassOf(mounts[n]) == c then {n} else {}
  {
  }

  lemma {:induction false} CountIsSize(mounts: seq<Mount>, n: nat, c: Class)
    requires n <= |mounts|
    ensures Count(mounts, n, c) == |OfClass(mounts, n, c)|
  {
    if n > 0 {
      CountIsSize(mounts, n - 1, c);
      OfClassStep(mounts, n - 1, c);
    }
  }

  lemma {:induction false} RootIsListed(mounts: seq<Mount>, n: nat, i: nat)
    requires i < n <= |mounts| && ClassOf(mounts[i]) == Anchor
    ensures mounts[i].mountPoint in Roots(mounts, n)
  {
    if i < n - 1 {
      RootIsListed(mounts, n - 1, i);
    }
  }

  lemma PlanIsMeant(mounts: seq<Mount>, plan: CensusPlan)
    requires PlanHolds(mounts, plan)
    ensures PlanMeans(mounts, plan)
  {
    var n := |mounts|;
    CountIsSize(mounts, n, ZeroMajor);
    CountIsSize(mounts, n, ProcessRoot);
    CountIsSize(mounts, n, OtherFilesystem);
    CountIsSize(mounts, n, Subtree);
    assert OfClass(mounts, n, ZeroMajor) == ZeroMajors(mounts);
    assert OfClass(mounts, n, ProcessRoot) == ProcessRoots(mounts);
    assert OfClass(mounts, n, OtherFilesystem) == Unsupported(mounts);
    assert OfClass(mounts, n, Subtree) == Subtrees(mounts);
    assert |plan.anchors| == |multiset(plan.anchors)| == |Roots(mounts, n)|;
    forall p ensures p in plan.anchors <==> exists i :: 0 <= i < n && mounts[i].mountPoint == p && ExtRoot(mounts[i]) {
      assert p in plan.anchors <==> p in multiset(Roots(mounts, n));
      AnchorMeans(mounts, p);
    }
  }

  lemma {:induction false} AnchorMeans(mounts: seq<Mount>, p: string)
    ensures p in Roots(mounts, |mounts|) <==>
            exists i :: 0 <= i < |mounts| && mounts[i].mountPoint == p && ExtRoot(mounts[i])
  {
    if p in Roots(mounts, |mounts|) {
      var k :| 0 <= k < |Roots(mounts, |mounts|)| && Roots(mounts, |mounts|)[k] == p;
      var i := RootSource(mounts, |mounts|, k);
      assert ExtRoot(mounts[i]);
    }
    if i :| 0 <= i < |mounts| && mounts[i].mountPoint == p && ExtRoot(mounts[i]) {
      RootIsListed(mounts, |mounts|, i);
    }
  }

  /** What a plannable table tells: the announced kind of table, and mounts with ids and points of their own, clean
      paths, and devices that the inventory holds. */
  lemma PlannableMeans(storage: StorageSnapshot, t: MountSnapshot)
    requires Plannable(storage, t)
    ensures t.scope == "current-process-mount-namespace" && t.schemaVersion == 1 && t.collectionComplete && t.readOnly
    ensures !t.filesystemContentsRead && !t.mountOperationsPerformed && 1 <= t.mountCount == |t.mounts| <= 128
    ensures forall m :: m in t.mounts ==>
              && m.mountInfoId != 0 && CleanPath(m.mountPoint) && CleanPath(m.filesystemRoot)
              && ValidFilesystem(m.filesystem)
              && (m.device.major != 0 ==> exists o :: o in storage.observations && o.device == m.device)
    ensures forall i, j :: 0 <= i < j < |t.mounts| ==>
              t.mounts[i].mountInfoId != t.mounts[j].mountInfoId && t.mounts[i].mountPoint != t.mounts[j].mountPoint
  {
    forall m | m in t.mounts
      ensures m.mountInfoId != 0 && CleanPath(m.mountPoint) && CleanPath(m.filesystemRoot)
      ensures ValidFilesystem(m.filesystem)
      ensures m.device.major != 0 ==> exists o :: o in storage.observations && o.device == m.device
    {
      var i :| 0 <= i < |t.mounts| && t.mounts[i] == m;
      assert MountAdmissible(storage.observations, t.mounts[i]);
    }
  }

  method PlanCensus(storage: StorageSnapshot, t: MountSnapshot) returns (r: Option<CensusPlan>)
    ensures r.Some? <==> Plannable(storage, t)
    ensures r.Some? ==> PlanMeans(t.mounts, r.value) && Ascends(r.value.anchors)
    ensures r.Some? ==> PlanHolds(t.mounts, r.value)
  {
    var devices := CompleteDeviceSet(storage);
    if devices.None? || !TableAnnounced(t) {
      return None;
    }
    var scan := ScanMounts(storage.observations, t.mounts);
    if scan.None? {
      return None;
    }
    var roots := scan.value.anchors;
    forall j, k | 0 <= j < k < |roots| ensures roots[j] != roots[k] {
      RootsDistinct(t.mounts, j, k);
    }
    SortedDistinct(roots);
    r := Some(CensusPlan(Sort(TextAtMost, roots), scan.value.coverage));
    PlanIsMeant(t.mounts, r.value);
  }

  /** The plan is determined by the table. */
  lemma OnePlan(mounts: seq<Mount>, a: CensusPlan, b: CensusPlan)
    requires PlanHolds(mounts, a) && PlanHolds(mounts, b)
    ensures a == b
  {
    var s := set x | x in a.anchors;
    forall x ensures x in s <==> x in b.anchors {
      assert x in multiset(a.anchors) <==> x in multiset(b.anchors);
    }
    AscendingListUnique(a.anchors, b.anchors, s);
  }

  // -- The census ------------------------------------------------------------------------------------

  datatype Census = Census(
    coverage: Coverage,
    table: MountSnapshot,
    storage: StorageSnapshot,
    arrays: seq<Binding>,
    roots: MountedInventory,
    identities: seq<MountedIdentity>)

  function PointIndex(mounts: seq<Mount>, n: nat): map<string, Mount>
    requires n <= |mounts|
  {
    if n == 0 then map[] else PointIndex(mounts, n - 1)[mounts[n - 1].mountPoint := mounts[n - 1]]
  }

  predicate RootMatches(points: map<string, Mount>, root: MountedFilesystem, anchor: string) {
    root.anchor in points && root.anchor == anchor && root.mountId != 0 && root.device == points[root.anchor].device
  }

  /** One root per planned anchor, in order, on the device the mount table shows. */
  predicate RootsMatch(roots: MountedInventory, anchors: seq<string>, mounts: seq<Mount>) {
    |roots.mounts| == |anchors|
    && forall i :: 0 <= i < |anchors| ==> RootMatches(PointIndex(mounts, |mounts|), roots.mounts[i], anchors[i])
  }

  /** The census follows the plan and everything in it is determined by its own observations. */
  ghost predicate CensusFollows(c: Census, plan: CensusPlan) {
    && PlanHolds(c.table.mounts, plan) && c.coverage == plan.coverage && |c.identities| == |plan.anchors|
    && RootsMatch(c.roots, plan.anchors, c.table.mounts) && BindingsHold(Index(c.storage.observations), c.arrays)
    && if plan.anchors == [] then c.roots.conflicting == []
       else
         && Joinable(c.storage, c.arrays, c.roots)
         && Each(c.identities, IdentityAt(c.storage.observations, c.arrays, c.roots.mounts))
  }

  ghost predicate CensusHolds(c: Census) {
    Plannable(c.storage, c.table) && exists plan :: CensusFollows(c, plan)
  }

  method ValidateCensus(c: Census) returns (ok: bool)
    ensures ok <==> CensusHolds(c)
  {
    var planned := PlanCensus(c.storage, c.table);
    if planned.None? {
      return false;
    }
    ok := CheckCensus(c, planned.value);
    if CensusHolds(c) {
      ghost var plan :| CensusFollows(c, plan);
      OnePlan(c.table.mounts, plan, planned.value);
    }
  }

  method CheckCensus(c: Census, plan: CensusPlan) returns (ok: bool)
    requires Plannable(c.storage, c.table) && PlanHolds(c.table.mounts, plan)
    ensures ok <==> CensusFollows(c, plan)
  {
    if plan.coverage != c.coverage || |c.identities| != |plan.anchors|
       || !RootsMatch(c.roots, plan.anchors, c.table.mounts) {
      return false;
    }
    var held := ValidateBindings(Index(c.storage.observations), c.arrays);
    if !held {
      return false;
    }
    if plan.anchors == [] {
      return c.roots.conflicting == [];
    }
    var rebuilt := CorrelateMounted(c.storage, c.arrays, c.roots);
    if rebuilt.None? {
      return false;
    }
    ok := c.identities == rebuilt.value;
    if Each(c.identities, IdentityAt(c.storage.observations, c.arrays, c.roots.mounts)) {
      SameIdentities(c.storage.observations, c.arrays, c.roots.mounts, c.identities, rebuilt.value);
    }
  }

  lemma {:induction false} PointFound(mounts: seq<Mount>, n: nat, i: nat)
    requires i < n <= |mounts| && MountsDistinct(mounts, n)
    ensures mounts[i].mountPoint in PointIndex(mounts, n) && PointIndex(mounts, n)[mounts[i].mountPoint] == mounts[i]
  {
    if i < n - 1 {
      PointFound(mounts, n - 1, i);
    }
  }

  /** The observed root is the mount of the table at its anchor. */
  predicate Observes(root: MountedFilesystem, m: Mount) {
    root.anchor == m.mountPoint && root.device == m.device && root.mountId != 0
  }

  ghost predicate ObservesSome(root: MountedFilesystem, mounts: seq<Mount>) {
    exists k :: 0 <= k < |mounts| && ExtRoot(mounts[k]) && Observes(root, mounts[k])
  }

  ghost predicate Observed(roots: seq<MountedFilesystem>, m: Mount) {
    exists i :: 0 <= i < |roots| && Observes(roots[i], m)
  }

  lemma RootIsExt(roots: MountedInventory, plan: CensusPlan, mounts: seq<Mount>, i: nat)
    requires PlanMeans(mounts, plan) && MountsDistinct(mounts, |mounts|) && RootsMatch(roots, plan.anchors, mounts)
    requires i < |roots.mounts|
    ensures ObservesSome(roots.mounts[i], mounts)
  {
    assert plan.anchors[i] in plan.anchors;
    var k :| 0 <= k < |mounts| && mounts[k].mountPoint == plan.anchors[i] && ExtRoot(mounts[k]);
    PointFound(mounts, |mounts|, k);
    assert RootMatches(PointIndex(mounts, |mounts|), roots.mounts[i], plan.anchors[i]);
  }

  lemma ExtIsRoot(roots: MountedInventory, plan: CensusPlan, mounts: seq<Mount>, k: nat)
    requires PlanMeans(mounts, plan) && MountsDistinct(mounts, |mounts|) && RootsMatch(roots, plan.anchors, mounts)
    requires k < |mounts| && ExtRoot(mounts[k])
    ensures Observed(roots.mounts, mounts[k])
  {
    assert mounts[k].mountPoint in plan.anchors;
    var i :| 0 <= i < |plan.anchors| && plan.anchors[i] == mounts[k].mountPoint;
    PointFound(mounts, |mounts|, k);
    assert RootMatches(PointIndex(mounts, |mounts|), roots.mounts[i], plan.anchors[i]);
  }

  /** A census observes every ext root of its table once, on the device the table shows, and nothing else. */
  lemma {:induction false} CensusCoversRoots(c: Census)
    requires CensusHolds(c)
    ensures |c.identities| == |c.roots.mounts| == c.coverage.observedRoots
    ensures forall m :: m in c.table.mounts && ExtRoot(m) ==> Observed(c.roots.mounts, m)
    ensures forall root :: root in c.roots.mounts ==> ObservesSome(root, c.table.mounts)
    ensures forall i, j ::
              0 <= i < j < |c.roots.mounts| ==> TextLess(c.roots.mounts[i].anchor, c.roots.mounts[j].anchor)
  {
    var plan :| CensusFollows(c, plan);
    PlanIsMeant(c.table.mounts, plan);
    RootsCover(c.roots, plan, c.table.mounts);
  }

  lemma RootsCover(roots: MountedInventory, plan: CensusPlan, mounts: seq<Mount>)
    requires PlanMeans(mounts, plan) && MountsDistinct(mounts, |mounts|) && RootsMatch(roots, plan.anchors, mounts)
    requires Ascends(plan.anchors)
    ensures |roots.mounts| == |plan.anchors|
    ensures forall m :: m in mounts && ExtRoot(m) ==> Observed(roots.mounts, m)
    ensures forall root :: root in roots.mounts ==> ObservesSome(root, mounts)
    ensures forall i, j :: 0 <= i < j < |roots.mounts| ==> TextLess(roots.mounts[i].anchor, roots.mounts[j].anchor)
  {
    forall m | m in mounts && ExtRoot(m) ensures Observed(roots.mounts, m) {
      var k :| 0 <= k < |mounts| && mounts[k] == m;
      ExtIsRoot(roots, plan, mounts, k);
    }
    forall root | root in roots.mounts ensures ObservesSome(root, mounts) {
      var i :| 0 <= i < |roots.mounts| && roots.mounts[i] == root;
      RootIsExt(roots, plan, mounts, i);
    }
    forall i, j | 0 <= i < j < |roots.mounts| ensures TextLess(roots.mounts[i].anchor, roots.mounts[j].anchor) {
      assert roots.mounts[i].anchor == plan.anchors[i] && roots.mounts[j].anchor == plan.anchors[j];
    }
  }

  // -- The collector ---------------------------------------------------------------------------------

  /** Two storage samples around two MD samples. */
  datatype IdentitySample = IdentitySample(
    storageBefore: Option<StorageSnapshot>,
    mdBefore: MdSnapshot,
    mdAfter: MdSnapshot,
    storageAfter: Option<StorageSnapshot>)

  /** What the collector meets: the mount table twice, the identity sample twice, the roots twice, and a
      context that may be cancelled at each of its checks. */
  datatype Environment = Environment(
    table: Option<MountSnapshot>,
    sample: IdentitySample,
    observe: seq<string> -> Option<MountedInventory>,
    observeAgain: seq<string> -> Option<MountedInventory>,
    sampleAgain: IdentitySample,
    tableAgain: Option<MountSnapshot>,
    alive: nat -> bool)

  predicate SameArray(a: MdArray, b: MdArray) {
    && a.name == b.name && a.device == b.device && a.level == b.level && a.uuid == b.uuid
    && a.uuidStatus == b.uuidStatus
    && a.identityComplete && b.identityComplete && multiset(a.members) == multiset(b.members)
  }

  predicate SameMd(a: MdSnapshot, b: MdSnapshot) {
    && a.identityCollected && b.identityCollected && a.identityInventoryComplete && b.identityInventoryComplete
    && a.schemaVersion == b.schemaVersion && a.status == b.status && a.readOnly == b.readOnly
    && a.blockDevicesOpened == b.blockDevicesOpened && a.diskContentRead == b.diskContentRead
    && a.mutationsPerformed == b.mutationsPerformed && a.arrayCount == b.arrayCount && |a.arrays| == |b.arrays|
    && forall i :: 0 <= i < |a.arrays| ==> SameArray(a.arrays[i], b.arrays[i])
  }

  predicate SameTable(a: MountSnapshot, b: MountSnapshot) {
    a == b.(observedAt := a.observedAt)
  }

  /** Nothing changed across the sample, and it can be correlated. */
  ghost predicate SampleHolds(s: IdentitySample) {
    && s.storageBefore.Some? && s.storageAfter == s.storageBefore && SameMd(s.mdBefore, s.mdAfter)
    && Correlatable(s.storageBefore.value, s.mdBefore)
  }

  ghost predicate SampleBound(s: IdentitySample, bindings: seq<Binding>)
    requires SampleHolds(s)
  {
    && |bindings| == |s.mdBefore.arrays|
    && Each(bindings, BoundAt(Index(s.storageBefore.value.observations), s.mdBefore.arrays))
  }

  /** One array seen twice. */
  predicate Alike(a: MdArray, b: MdArray) {
    a.name == b.name && a.device == b.device && a.level == b.level && a.uuid == b.uuid && a.uuidStatus == b.uuidStatus
    && a.identityComplete == b.identityComplete
  }

  lemma {:induction false} PlacesAlike(before: seq<MdArray>, after: seq<MdArray>, n: nat, uuid: string)
    requires n <= |before| == |after| && forall i :: 0 <= i < |before| ==> Alike(before[i], after[i])
    ensures Places(before, n, uuid) == Places(after, n, uuid)
  {
    if n > 0 {
      PlacesAlike(before, after, n - 1, uuid);
      assert Alike(before[n - 1], after[n - 1]);
    }
  }

  lemma SearchableAlike(before: seq<MdArray>, after: seq<MdArray>)
    requires |before| == |after| && Searchable(before, |before|)
             && forall i :: 0 <= i < |before| ==> Alike(before[i], after[i])
    ensures Searchable(after, |after|)
  {
    forall i | 0 <= i < |after| ensures ArrayUsable(after[i]) {
      assert Alike(before[i], after[i]) && ArrayUsable(before[i]);
    }
    forall i, j | 0 <= i < j < |after| ensures after[i].name != after[j].name && !Clash(after, i, j) {
      assert Alike(before[i], after[i]) && Alike(before[j], after[j]) && !Clash(before, i, j);
    }
  }

  lemma NamesPermute(a: seq<string>, b: seq<string>)
    requires multiset(a) == multiset(b) && MemberNamesOk(a)
    ensures MemberNamesOk(b)
  {
    DistinctCounts(a);
    forall i | 0 <= i < |b| ensures ValidBlockName(b[i]) {
      assert b[i] in multiset(a);
    }
    forall i, j | 0 <= i < j < |b| ensures b[i] != b[j] {
      if b[i] == b[j] {
        TwiceCounts(b, i, j);
      }
    }
  }

  lemma BoundAlike(nodes: Nodes, before: seq<MdArray>, after: seq<MdArray>, k: nat, binding: Binding)
    requires MdBindings.Named(nodes) && k < |before| == |after| && Bound(nodes, before, before[k], binding)
    requires forall i :: 0 <= i < |before| ==> Alike(before[i], after[i])
    requires multiset(before[k].members) == multiset(after[k].members)
    ensures Bound(nodes, after, after[k], binding)
  {
    var a, b := before[k], after[k];
    assert Alike(a, b);
    PlacesAlike(before, after, |before|, a.uuid);
    NamesPermute(a.members, b.members);
    GatheredPermutes(nodes, a.members, b.members);
    SoundPermutes(Gathered(nodes, a.members).value, Gathered(nodes, b.members).value);
  }

  /** An accepted sample: the second look at the arrays determines the same bindings as the first. */
  lemma {:induction false} SampleIsStable(s: IdentitySample, bindings: seq<Binding>)
    requires SampleHolds(s) && SampleBound(s, bindings)
    ensures Correlatable(s.storageAfter.value, s.mdAfter)
    ensures |bindings| == |s.mdAfter.arrays|
    ensures Each(bindings, BoundAt(Index(s.storageAfter.value.observations), s.mdAfter.arrays))
  {
    var nodes := Index(s.storageBefore.value.observations);
    var before, after := s.mdBefore.arrays, s.mdAfter.arrays;
    forall i | 0 <= i < |before| ensures Alike(before[i], after[i]) {
      assert SameArray(before[i], after[i]);
    }
    forall k | 0 <= k < |bindings| ensures BoundAt(nodes, after)(k, bindings[k]) {
      EachAt(bindings, BoundAt(nodes, before), k);
      assert SameArray(before[k], after[k]);
      BoundAlike(nodes, before, after, k, bindings[k]);
    }
    EachFrom(bindings, BoundAt(nodes, after));
    forall k: nat | k < |after| ensures ReadyAt(nodes, after)(k) {
      assert BoundAt(nodes, after)(k, bindings[k]);
    }
    EveryFrom(|after|, ReadyAt(nodes, after));
    if after != [] {
      SearchableAlike(before, after);
    }
  }

  method CollectIdentity(s: IdentitySample) returns (r: Option<seq<Binding>>)
    ensures r.Some? <==> SampleHolds(s)
    ensures r.Some? ==> SampleBound(s, r.value)
  {
    if s.storageBefore.None? || s.storageAfter != s.storageBefore || !SameMd(s.mdBefore, s.mdAfter) {
      return None;
    }
    r := Correlate(s.storageBefore.value, s.mdBefore);
  }

  /** The planned roots are observed twice alike, match the table and can be joined; no roots, no observation. */
  ghost predicate RootsCollectable(env: Environment, storage: StorageSnapshot, table: MountSnapshot,
                                   arrays: seq<Binding>, anchors: seq<string>)
  {
    anchors == [] ||
    (&& env.observe(anchors).Some? && RootsMatch(env.observe(anchors).value, anchors, table.mounts)
     && Joinable(storage, arrays, env.observe(anchors).value)
     && env.observeAgain(anchors) == env.observe(anchors) && env.alive(2) && env.alive(3) && env.alive(4))
  }

  /** Nothing moved while the census was taken, and every stage could be carried out. */
  ghost predicate Collectable(env: Environment, plan: CensusPlan, arrays: seq<Binding>) {
    && env.table.Some? && env.alive(0) && env.alive(1) && env.alive(7)
    && SampleHolds(env.sample) && SampleBound(env.sample, arrays)
    && Plannable(env.sample.storageBefore.value, env.table.value) && PlanHolds(env.table.value.mounts, plan)
    && RootsCollectable(env, env.sample.storageBefore.value, env.table.value, arrays, plan.anchors)
    && SampleHolds(env.sampleAgain) && SampleBound(env.sampleAgain, arrays)
    && env.sampleAgain.storageBefore == env.sample.storageBefore
    && env.tableAgain.Some? && SameTable(env.table.value, env.tableAgain.value)
  }

  /** The second look at the mount table gives the same plan as the first. */
  lemma TableIsStable(storage: StorageSnapshot, a: MountSnapshot, b: MountSnapshot, plan: CensusPlan)
    requires SameTable(a, b) && Plannable(storage, a) && PlanHolds(a.mounts, plan)
    ensures Plannable(storage, b) && PlanHolds(b.mounts, plan) && a.limitations == b.limitations
  {
  }

  lemma OneCollection(env: Environment, plan: CensusPlan, arrays: seq<Binding>, mine: CensusPlan, bound: seq<Binding>)
    requires Collectable(env, plan, arrays)
    requires PlanHolds(env.table.value.mounts, mine) && SampleBound(env.sample, bound)
    ensures plan == mine && arrays == bound
  {
    OnePlan(env.table.value.mounts, plan, mine);
    OneBindingList(Index(env.sample.storageBefore.value.observations), env.sample.mdBefore.arrays, arrays, bound);
  }

  /** Collects exactly when that is possible, and what it collects holds. */
  method Collect(env: Environment) returns (r: Option<Census>)
    ensures r.Some? <==> exists plan, arrays :: Collectable(env, plan, arrays)
    ensures r.Some? ==>
              CensusHolds(r.value) && env.table == Some(r.value.table)
              && env.sample.storageBefore == Some(r.value.storage)
  {
    if !env.alive(0) || env.table.None? {
      return None;
    }
    var arrays := CollectIdentity(env.sample);
    if arrays.None? || !env.alive(1) {
      return None;
    }
    var plan := PlanCensus(env.sample.storageBefore.value, env.table.value);
    if plan.None? {
      return None;
    }
    r := CollectPlanned(env, plan.value, arrays.value);
    if exists p, a :: Collectable(env, p, a) {
      ghost var p, a :| Collectable(env, p, a);
      OneCollection(env, p, a, plan.value, arrays.value);
    }
  }

  method CollectPlanned(env: Environment, plan: CensusPlan, arrays: seq<Binding>) returns (r: Option<Census>)
    requires env.table.Some? && env.alive(0) && env.alive(1) && SampleHolds(env.sample)
    requires SampleBound(env.sample, arrays)
    requires Plannable(env.sample.storageBefore.value, env.table.value) && PlanHolds(env.table.value.mounts, plan)
    ensures r.Some? <==> Collectable(env, plan, arrays)
    ensures r.Some? ==>
              CensusHolds(r.value) && env.table == Some(r.value.table)
              && env.sample.storageBefore == Some(r.value.storage)
  {
    var storage, table := env.sample.storageBefore.value, env.table.value;
    var seen := CollectRoots(env, storage, table, arrays, plan.anchors);
    if seen.None? {
      return None;
    }
    var again := CollectIdentity(env.sampleAgain);
    if again.None? || env.sampleAgain.storageBefore.value != storage {
      return None;
    }
    if SampleBound(env.sampleAgain, arrays) {
      OneBindingList(Index(storage.observations), env.sampleAgain.mdBefore.arrays, arrays, again.value);
    }
    if again.value != arrays || env.tableAgain.None? || !SameTable(table, env.tableAgain.value) || !env.alive(7) {
      return None;
    }
    var c := Census(plan.coverage, table, storage, arrays, seen.value.0, seen.value.1);
    CorrelatedIsValid(storage, env.sample.mdBefore, arrays);
    assert CensusFollows(c, plan);
    r := Some(c);
  }

  method CollectRoots(env: Environment, storage: StorageSnapshot, table: MountSnapshot, arrays: seq<Binding>,
                      anchors: seq<string>)
    returns (r: Option<(MountedInventory, seq<MountedIdentity>)>)
    ensures r.Some? <==> RootsCollectable(env, storage, table, arrays, anchors)
    ensures r.Some? ==>
              var (roots, ids) := r.value;
              && |ids| == |anchors| && RootsMatch(roots, anchors, table.mounts)
              && if anchors == [] then roots.conflicting == []
                 else
                   && Joinable(storage, arrays, roots)
                   && Each(ids, IdentityAt(storage.observations, arrays, roots.mounts))
                   && env.observe(anchors) == Some(roots)
  {
    if anchors == [] {
      return Some((MountedInventory([], []), []));
    }
    var roots := env.observe(anchors);
    if roots.None? || !env.alive(2) || !RootsMatch(roots.value, anchors, table.mounts) {
      return None;
    }
    var ids := CorrelateMounted(storage, arrays, roots.value);
    if ids.None? || !env.alive(3) {
      return None;
    }
    var again := env.observeAgain(anchors);
    if !env.alive(4) || again != roots {
      return None;
    }
    r := Some((roots.value, ids.value));
  }

  // -- Closure ---------------------------------------------------------------------------------------

  /** Whatever the collector returns, the validator accepts. */
  method CollectThenValidate(env: Environment) returns (r: Option<Census>, ok: bool)
    ensures r.Some? <==> exists plan, arrays :: Collectable(env, plan, arrays)
    ensures r.Some? ==> ok && CensusHolds(r.value)
  {
    r := Collect(env);
    ok := false;
    if r.Some? {
      ok := ValidateCensus(r.value);
    }
  }

  predicate SameObservations(a: Census, b: Census) {
    a.coverage == b.coverage && SameTable(a.table, b.table) && a.storage == b.storage && a.arrays == b.arrays
    && a.roots == b.roots
  }

  /** The recheck compares observations only, yet equal observations leave the same identities. */
  lemma RecheckCoversIdentities(a: Census, b: Census)
    requires CensusHolds(a) && CensusHolds(b)
    requires SameObservations(a, b)
    ensures a.identities == b.identities
  {
    var p :| CensusFollows(a, p);
    var q :| CensusFollows(b, q);
    OnePlan(a.table.mounts, p, q);
    if p.anchors != [] {
      SameIdentities(a.storage.observations, a.arrays, a.roots.mounts, a.identities, b.identities);
    }
  }

  /** Equal observations, compared after a fresh collection that the validator accepts. */
  method Recheck(previous: Census, env: Environment) returns (ok: bool, current: Option<Census>)
    ensures env.alive(9) && CensusHolds(previous) ==>
              (current.Some? <==> exists plan, arrays :: Collectable(env, plan, arrays))
    ensures ok <==>
              && env.alive(9) && CensusHolds(previous) && current.Some? && env.alive(8)
              && SameObservations(previous, current.value)
    ensures ok ==> previous.identities == current.value.identities
  {
    current, ok := None, false;
    if !env.alive(9) {
      return;
    }
    ok := ValidateCensus(previous);
    if !ok {
      return;
    }
    var collected, held := CollectThenValidate(env);
    current := collected;
    ok := collected.Some? && env.alive(8) && held && SameObservations(previous, collected.value);
    if ok {
      RecheckCoversIdentities(previous, collected.value);
    }
  }
}
