/** Which whole disks a read-only discovery may open: the planner and what it guarantees. */
module Discovery {
  import opened Basics
  import opened Graphs
  import opened BlockInventory
  import opened SourceSets
  import opened MountTables
  import opened Agreement
  import D = DependencySearches

  datatype Reason = VirtualNode | StackedNode | StackMember | DependentMount | RemovableDevice

  datatype Candidate = Candidate(name: string, generation: Generation, serialStatus: IdentityStatus,
                                 wwnStatus: IdentityStatus)

  datatype Exclusion = Exclusion(name: string, reason: Reason)

  datatype Plan = Plan(
    candidates: seq<Candidate>,
    excluded: seq<Exclusion>,
    hasAmbiguousIdentity: bool,
    identityEvidenceIncomplete: bool)

  // -- What the checks mean --------------------------------------------------------------------------

  ghost predicate Rests(obs: seq<BlockNode>, upper: string, disk: string) {
    Reaches(TopologyGraph(Index(obs)), upper, disk)
  }

  /** Another whole block node stacked over lower blocks rests on the disk. */
  ghost predicate StackedOver(obs: seq<BlockNode>, upper: BlockNode, disk: string) {
    upper.kind.Block? && upper.name != disk && upper.lower != [] && Rests(obs, upper.name, disk)
  }

  ghost predicate HasStack(obs: seq<BlockNode>, disk: string) {
    exists i :: 0 <= i < |obs| && StackedOver(obs, obs[i], disk)
  }

  /** No observed node carries the nonzero device number of the mount. */
  predicate Orphan(obs: seq<BlockNode>, m: Mount) {
    m.device.major != 0 && forall i :: 0 <= i < |obs| ==> obs[i].device != m.device
  }

  ghost predicate MountedOver(obs: seq<BlockNode>, m: Mount, disk: string) {
    exists i :: 0 <= i < |obs| && obs[i].device == m.device && Rests(obs, obs[i].name, disk)
  }

  /** The mounts in order: the first orphan fails the assessment, the first dependent mount decides it. */
  ghost function MountVerdict(obs: seq<BlockNode>, mounts: seq<Mount>, disk: string, i: nat): Option<bool>
    requires i <= |mounts|
    decreases |mounts| - i
  {
    if i == |mounts| then Some(false)
    else if Orphan(obs, mounts[i]) then None
    else if MountedOver(obs, mounts[i], disk) then Some(true)
    else MountVerdict(obs, mounts, disk, i + 1)
  }

  lemma {:induction false} ClearVerdict(obs: seq<BlockNode>, mounts: seq<Mount>, disk: string, i: nat)
    requires i <= |mounts|
    ensures MountVerdict(obs, mounts, disk, i) == Some(false) <==>
            forall j :: i <= j < |mounts| ==> !Orphan(obs, mounts[j]) && !MountedOver(obs, mounts[j], disk)
    decreases |mounts| - i
  {
    if i < |mounts| {
      ClearVerdict(obs, mounts, disk, i + 1);
    }
  }

  // -- The checks ------------------------------------------------------------------------------------

  ghost predicate Trusted(disk: BlockNode, inventory: seq<BlockNode>) {
    CompleteInventory(inventory) && disk in inventory && disk.kind.Block?
  }

  lemma TrustedSearch(node: BlockNode, disk: BlockNode, inventory: seq<BlockNode>)
    requires Trusted(disk, inventory) && node in inventory
    ensures D.Admissible(node, disk, inventory)
    ensures D.Searchable(node, inventory) == Index(inventory)
    ensures D.Clean(D.Searchable(node, inventory), node.name)
  {
    CompleteIsUnique(inventory);
    Located(inventory, node);
    Located(inventory, disk);
    CompleteIsClean(inventory, node.name);
    assert D.Searchable(node, inventory) == Index(inventory);
  }

  /** The dependency search cannot be carried out from the node, or meets a flaw of the topology. */
  ghost predicate Unsearchable(node: BlockNode, disk: BlockNode, inventory: seq<BlockNode>) {
    !D.Admissible(node, disk, inventory) || !D.Clean(Index(inventory), node.name)
  }

  lemma OwnRecord(node: BlockNode, inventory: seq<BlockNode>)
    requires node in inventory && D.UniquelyNamed(inventory)
    ensures D.Searchable(node, inventory) == Index(inventory)
  {
    var i :| 0 <= i < |inventory| && inventory[i] == node;
    IndexFinds(inventory, i);
  }

  /** An answer is the plain truth on any inventory, and on a trusted one there is always an answer. */
  method RestsOnDisk(node: BlockNode, disk: BlockNode, inventory: seq<BlockNode>)
    returns (r: Result<bool, D.TopologyError>)
    requires node in inventory
    ensures r.Ok? ==> r.value == Rests(inventory, node.name, disk.name)
    ensures r.Err? ==> Unsearchable(node, disk, inventory)
  {
    r := D.NodeDependsOnWholeDisk(node, disk, inventory);
    if D.UniquelyNamed(inventory) {
      OwnRecord(node, inventory);
    }
  }

  lemma TrustedIsSearchable(node: BlockNode, disk: BlockNode, inventory: seq<BlockNode>)
    requires Trusted(disk, inventory) && node in inventory
    ensures !Unsearchable(node, disk, inventory)
  {
    TrustedSearch(node, disk, inventory);
  }

  ghost predicate NoStackBefore(obs: seq<BlockNode>, disk: string, i: nat)
    requires i <= |obs|
  {
    i == 0 || (NoStackBefore(obs, disk, i - 1) && !StackedOver(obs, obs[i - 1], disk))
  }

  lemma {:induction false} NoStackMeans(obs: seq<BlockNode>, disk: string, i: nat)
    requires i <= |obs|
    ensures NoStackBefore(obs, disk, i) <==> forall j :: 0 <= j < i ==> !StackedOver(obs, obs[j], disk)
  {
    if i > 0 {
      NoStackMeans(obs, disk, i - 1);
    }
  }

  predicate IsStack(upper: BlockNode, disk: BlockNode) {
    upper.kind.Block? && upper.name != disk.name && upper.lower != []
  }

  method HasStackedDependent(disk: BlockNode, inventory: seq<BlockNode>) returns (r: Result<bool, D.TopologyError>)
    ensures r.Ok? ==> r.value == HasStack(inventory, disk.name)
    ensures r.Err? ==>
              exists i ::
                0 <= i < |inventory| && IsStack(inventory[i], disk) && Unsearchable(inventory[i], disk, inventory)
    ensures Trusted(disk, inventory) ==> r.Ok?
  {
    for i := 0 to |inventory|
      invariant NoStackBefore(inventory, disk.name, i)
    {
      var upper := inventory[i];
      if IsStack(upper, disk) {
        r := RestsOnDisk(upper, disk, inventory);
        if r != Ok(false) {
          if Trusted(disk, inventory) {
            TrustedIsSearchable(upper, disk, inventory);
          }
          return;
        }
      }
    }
    NoStackMeans(inventory, disk.name, |inventory|);
    r := Ok(false);
  }

  datatype MountError = InvalidInput | DiskNotUnique | AmbiguousMount | OrphanMount | Topology(error: D.TopologyError)

  /** The index of the one observation carrying a device number. */
  method MatchDevice(device: DeviceNumber, inventory: seq<BlockNode>) returns (r: Result<Option<nat>, MountError>)
    ensures r.Ok? && r.value.Some? ==> r.value.value < |inventory| && inventory[r.value.value].device == device
    ensures r.Ok? && r.value.None? ==> forall j :: 0 <= j < |inventory| ==> inventory[j].device != device
    ensures r.Err? ==> exists j, k :: 0 <= j < k < |inventory| && inventory[j].device == inventory[k].device == device
    ensures r.Ok? ==>
              forall j, k :: 0 <= j < k < |inventory| && inventory[j].device == device ==> inventory[k].device != device
  {
    var matched: Option<nat> := None;
    for i := 0 to |inventory|
      invariant matched.Some? ==> matched.value < i && inventory[matched.value].device == device
      invariant matched.Some? ==> forall j :: 0 <= j < i && j != matched.value ==> inventory[j].device != device
      invariant matched.None? ==> forall j :: 0 <= j < i ==> inventory[j].device != device
    {
      if inventory[i].device == device {
        if matched.Some? {
          assert inventory[matched.value].device == inventory[i].device == device;
          return Err(AmbiguousMount);
        }
        matched := Some(i);
      }
    }
    r := Ok(matched);
  }

  predicate IsDisk(o: BlockNode, disk: BlockNode) {
    o.name == disk.name && o.kind.Block? && o.device == disk.device && o.diskSequence == disk.diskSequence
  }

  function Occurrences(inventory: seq<BlockNode>, disk: BlockNode, i: nat): nat
    requires i <= |inventory|
  {
    if i == 0 then 0
    else Occurrences(inventory, disk, i - 1) + if IsDisk(inventory[i - 1], disk) then 1 else 0
  }

  lemma {:induction false} OccursOnce(inventory: seq<BlockNode>, disk: BlockNode, i: nat, at: nat)
    requires DistinctNames(inventory) && i <= |inventory| && at < |inventory| && inventory[at] == disk
    requires disk.kind.Block?
    ensures Occurrences(inventory, disk, i) == if at < i then 1 else 0
  {
    if i > 0 {
      OccursOnce(inventory, disk, i - 1, at);
      assert IsDisk(inventory[i - 1], disk) <==> i - 1 == at;
    }
  }

  lemma {:induction false} OccursSomewhere(inventory: seq<BlockNode>, disk: BlockNode, i: nat) returns (at: nat)
    requires i <= |inventory| && Occurrences(inventory, disk, i) > 0
    ensures at < i && inventory[at].name == disk.name && inventory[at].kind.Block?
    ensures inventory[at].device == disk.device && inventory[at].diskSequence == disk.diskSequence
  {
    at := i - 1;
    if !IsDisk(inventory[at], disk) {
      at := OccursSomewhere(inventory, disk, i - 1);
    }
  }

  method CountDisk(disk: BlockNode, inventory: seq<BlockNode>) returns (matches: nat)
    ensures matches == Occurrences(inventory, disk, |inventory|)
  {
    matches := 0;
    for i := 0 to |inventory|
      invariant matches == Occurrences(inventory, disk, i)
    {
      if IsDisk(inventory[i], disk) {
        matches := matches + 1;
      }
    }
  }

  lemma {:induction false} TrustedDisk(disk: BlockNode, inventory: seq<BlockNode>)
    requires Trusted(disk, inventory)
    ensures Occurrences(inventory, disk, |inventory|) == 1
    ensures disk.diskSequence != 0 && disk.device != DeviceNumber(0, 0)
  {
    CompleteIsUnique(inventory);
    var at :| 0 <= at < |inventory| && inventory[at] == disk;
    OccursOnce(inventory, disk, |inventory|, at);
    assert SelfValid(inventory[at]);
  }

  lemma TrustedDevices(inventory: seq<BlockNode>, j: nat, k: nat)
    requires CompleteInventory(inventory) && j < |inventory| && k < |inventory|
    requires inventory[j].device == inventory[k].device
    ensures j == k
  {
    assert j < k ==> Apart(inventory[j], inventory[k]);
    assert k < j ==> Apart(inventory[k], inventory[j]);
  }

  predicate SharedDevice(inventory: seq<BlockNode>, device: DeviceNumber) {
    exists j, k :: 0 <= j < k < |inventory| && inventory[j].device == inventory[k].device == device
  }

  /** The mount cannot be attributed: an unknown device, one carried twice, or a node that cannot be searched. */
  ghost predicate Troubled(inventory: seq<BlockNode>, m: Mount, disk: BlockNode) {
    || Orphan(inventory, m) || SharedDevice(inventory, m.device)
    || exists i ::
         0 <= i < |inventory| && inventory[i].device == m.device && Unsearchable(inventory[i], disk, inventory)
  }

  lemma TrustedTrouble(inventory: seq<BlockNode>, m: Mount, disk: BlockNode)
    requires Trusted(disk, inventory)
    ensures Troubled(inventory, m, disk) <==> Orphan(inventory, m)
  {
    forall i | 0 <= i < |inventory| ensures !Unsearchable(inventory[i], disk, inventory) {
      TrustedIsSearchable(inventory[i], disk, inventory);
    }
    if SharedDevice(inventory, m.device) {
      var j, k :| 0 <= j < k < |inventory| && inventory[j].device == inventory[k].device == m.device;
      TrustedDevices(inventory, j, k);
    }
  }

  /** One mount: no matching node, or the answer for the one it maps to. */
  method AssessMount(disk: BlockNode, inventory: seq<BlockNode>, mount: Mount) returns (r: Result<bool, MountError>)
    ensures r.Ok? ==> !Orphan(inventory, mount) && r.value == MountedOver(inventory, mount, disk.name)
    ensures r.Err? ==> Troubled(inventory, mount, disk)
  {
    var matched := MatchDevice(mount.device, inventory);
    if matched.Err? {
      return Err(matched.error);
    }
    if matched.value.None? {
      if mount.device.major != 0 {
        return Err(OrphanMount);
      }
      return Ok(false);
    }
    var i := matched.value.value;
    var depends := RestsOnDisk(inventory[i], disk, inventory);
    if depends.Err? {
      return Err(Topology(depends.error));
    }
    r := Ok(depends.value);
  }

  /** A usable disk record that the inventory holds once. */
  predicate Selected(disk: BlockNode, inventory: seq<BlockNode>) {
    && disk.kind.Block? && disk.diskSequence != 0 && disk.device != DeviceNumber(0, 0)
    && Occurrences(inventory, disk, |inventory|) == 1
  }

  /** On any inventory an answer is the truth about the mounts and an error names a flaw; on a trusted one the
      mounts decide in order. */
  method HasVisibleDependentMount(disk: BlockNode, inventory: seq<BlockNode>, mounts: seq<Mount>)
    returns (r: Result<bool, MountError>)
    ensures r.Ok? ==> Selected(disk, inventory)
    ensures r.Ok? ==>
              && disk.kind.Block? && disk.diskSequence != 0 && (disk.device.major != 0 || disk.device.minor != 0)
              && exists o :: && o in inventory && o.name == disk.name && o.kind.Block? && o.device == disk.device
                             && o.diskSequence == disk.diskSequence
    ensures r.Ok? ==> (r.value <==> exists j :: 0 <= j < |mounts| && MountedOver(inventory, mounts[j], disk.name))
    ensures r.Err? ==>
              !Selected(disk, inventory) || exists j :: 0 <= j < |mounts| && Troubled(inventory, mounts[j], disk)
    ensures Trusted(disk, inventory) ==>
              var verdict := MountVerdict(inventory, mounts, disk.name, 0);
              if verdict.None? then r.Err? else r == Ok(verdict.value)
  {
    if Trusted(disk, inventory) {
      TrustedDisk(disk, inventory);
    }
    if !disk.kind.Block? || disk.diskSequence == 0 || disk.device == DeviceNumber(0, 0) {
      return Err(InvalidInput);
    }
    var matches := CountDisk(disk, inventory);
    if matches != 1 {
      return Err(DiskNotUnique);
    }
    ghost var at := OccursSomewhere(inventory, disk, |inventory|);
    assert inventory[at] in inventory;
    for i := 0 to |mounts|
      invariant forall j :: 0 <= j < i ==> !MountedOver(inventory, mounts[j], disk.name)
      invariant Trusted(disk, inventory) ==>
                  MountVerdict(inventory, mounts, disk.name, 0) == MountVerdict(inventory, mounts, disk.name, i)
    {
      r := AssessMount(disk, inventory, mounts[i]);
      if r != Ok(false) {
        if Trusted(disk, inventory) {
          TrustedTrouble(inventory, mounts[i], disk);
        }
        return;
      }
    }
    r := Ok(false);
  }

  // -- The planner -----------------------------------------------------------------------------------

  predicate EvidenceMissing(status: IdentityStatus) {
    status.Unavailable? || status.Invalid? || status.Unreadable?
  }

  predicate AmbiguousIdentity(disk: BlockNode) {
    disk.serialStatus.Ambiguous? || disk.wwnStatus.Ambiguous?
  }

  predicate IncompleteIdentity(disk: BlockNode) {
    EvidenceMissing(disk.serialStatus) || EvidenceMissing(disk.wwnStatus)
  }

  /** The mount table has to be consulted for the disk. */
  ghost predicate Eligible(obs: seq<BlockNode>, disk: BlockNode) {
    !IsVirtual(disk.target) && disk.lower == [] && !HasStack(obs, disk.name)
  }

  /** Why the disk is excluded, if it is; no answer when its mounts cannot be assessed. */
  ghost function Judgement(obs: seq<BlockNode>, mounts: seq<Mount>, disk: BlockNode): Option<Option<Reason>> {
    if IsVirtual(disk.target) then Some(Some(VirtualNode))
    else if disk.lower != [] then Some(Some(StackedNode))
    else if HasStack(obs, disk.name) then Some(Some(StackMember))
    else match MountVerdict(obs, mounts, disk.name, 0)
      case None => None
      case Some(true) => Some(Some(DependentMount))
      case Some(false) => Some(if disk.removable then Some(RemovableDevice) else None)
  }

  method Judge(disk: BlockNode, inventory: seq<BlockNode>, mounts: seq<Mount>) returns (r: Option<Option<Reason>>)
    ensures Trusted(disk, inventory) ==> r == Judgement(inventory, mounts, disk)
  {
    if IsVirtual(disk.target) {
      return Some(Some(VirtualNode));
    } else if disk.lower != [] {
      return Some(Some(StackedNode));
    }
    var stacked := HasStackedDependent(disk, inventory);
    if stacked.Err? {
      return None;
    } else if stacked.value {
      return Some(Some(StackMember));
    }
    var mounted := HasVisibleDependentMount(disk, inventory, mounts);
    if mounted.Err? {
      return None;
    } else if mounted.value {
      return Some(Some(DependentMount));
    }
    r := Some(if disk.removable then Some(RemovableDevice) else None);
  }

  /** The whole-disk records among the first `i`, in order. */
  function Disks(obs: seq<BlockNode>, i: nat): seq<BlockNode>
    requires i <= |obs|
  {
    if i == 0 then [] else Disks(obs, i - 1) + if obs[i - 1].kind.Block? then [obs[i - 1]] else []
  }

  lemma {:induction false} DevicesAreDisks(obs: seq<BlockNode>, i: nat, k: nat)
    requires i <= |obs| && k < |Disks(obs, i)|
    ensures |WholeDevices(obs, i)| == |Disks(obs, i)|
    ensures WholeDevices(obs, i)[k] == DeviceOf(Disks(obs, i)[k])
    ensures Disks(obs, i)[k] in obs && Disks(obs, i)[k].kind.Block?
  {
    DiskCount(obs, i - 1);
    if k < |Disks(obs, i - 1)| {
      DevicesAreDisks(obs, i - 1, k);
    }
  }

  lemma {:induction false} DiskCount(obs: seq<BlockNode>, i: nat)
    requires i <= |obs|
    ensures |WholeDevices(obs, i)| == |Disks(obs, i)|
  {
    if i > 0 {
      DiskCount(obs, i - 1);
    }
  }

  lemma {:induction false} DiskMembers(obs: seq<BlockNode>, i: nat)
    requires i <= |obs|
    ensures forall disk :: disk in Disks(obs, i) <==> exists j :: 0 <= j < i && obs[j] == disk && disk.kind.Block?
  {
    if i > 0 {
      DiskMembers(obs, i - 1);
    }
  }

  function CandidateOf(disk: BlockNode): Candidate {
    Candidate(disk.name, DeviceOf(disk).generation, disk.serialStatus, disk.wwnStatus)
  }

  ghost function Chosen(obs: seq<BlockNode>, mounts: seq<Mount>, disks: seq<BlockNode>): seq<Candidate> {
    if disks == [] then []
    else
      var rest, disk := disks[..|disks| - 1], disks[|disks| - 1];
      Chosen(obs, mounts, rest) +
      if Judgement(obs, mounts, disk) == Some(None)
      then [CandidateOf(disk)] else []
  }

  ghost function Rejected(obs: seq<BlockNode>, mounts: seq<Mount>, disks: seq<BlockNode>): seq<Exclusion> {
    if disks == [] then []
    else
      var rest, disk := disks[..|disks| - 1], disks[|disks| - 1];
      Rejected(obs, mounts, rest) +
      match Judgement(obs, mounts, disk)
      case Some(Some(reason)) => [Exclusion(disk.name, reason)]
      case _ => []
  }

  ghost predicate AllJudged(obs: seq<BlockNode>, mounts: seq<Mount>, disks: seq<BlockNode>) {
    disks != [] ==>
      AllJudged(obs, mounts, disks[..|disks| - 1]) && Judgement(obs, mounts, disks[|disks| - 1]).Some?
  }

  lemma {:induction false} AllJudgedMeans(obs: seq<BlockNode>, mounts: seq<Mount>, disks: seq<BlockNode>)
    ensures AllJudged(obs, mounts, disks) <==> forall disk :: disk in disks ==> Judgement(obs, mounts, disk).Some?
  {
    if disks != [] {
      var rest := disks[..|disks| - 1];
      AllJudgedMeans(obs, mounts, rest);
      assert disks == rest + [disks[|disks| - 1]];
    }
  }

  /** What a plan over these disks holds: the chosen, the rejected with their reasons, and the identity flags. */
  ghost predicate PlanOver(obs: seq<BlockNode>, mounts: seq<Mount>, disks: seq<BlockNode>, plan: Plan) {
    && AllJudged(obs, mounts, disks)
    && plan.candidates == Chosen(obs, mounts, disks) && plan.excluded == Rejected(obs, mounts, disks)
    && (plan.hasAmbiguousIdentity <==> exists disk :: disk in disks && AmbiguousIdentity(disk))
    && (plan.identityEvidenceIncomplete <==> exists disk :: disk in disks && IncompleteIdentity(disk))
  }

  function Extend(plan: Plan, d: ObservedDevice, record: BlockNode, reason: Option<Reason>): Plan {
    Plan(
      if reason.None? then plan.candidates + [Candidate(d.name, d.generation, record.serialStatus, record.wwnStatus)]
      else plan.candidates,
      if reason.Some? then plan.excluded + [Exclusion(d.name, reason.value)] else plan.excluded,
      plan.hasAmbiguousIdentity || AmbiguousIdentity(record),
      plan.identityEvidenceIncomplete || IncompleteIdentity(record))
  }

  lemma PlanExtends(obs: seq<BlockNode>, mounts: seq<Mount>, disks: seq<BlockNode>, k: nat, plan: Plan,
                    reason: Option<Reason>)
    requires k < |disks| && PlanOver(obs, mounts, disks[..k], plan)
    requires Judgement(obs, mounts, disks[k]) == Some(reason)
    ensures PlanOver(obs, mounts, disks[..k + 1], Extend(plan, DeviceOf(disks[k]), disks[k], reason))
  {
    var more := disks[..k + 1];
    assert more[..|more| - 1] == disks[..k] && more[|more| - 1] == disks[k];
    assert more == disks[..k] + [disks[k]];
  }

  /** A usable table: valid, and free of filesystems whose backing set the block graph does not show. */
  predicate UsableMounts(s: MountSnapshot) {
    ValidMounts(s) && forall i :: 0 <= i < |s.mounts| ==> !MultiDevice(s.mounts[i])
  }

  ghost predicate Assessable(obs: seq<BlockNode>, mounts: seq<Mount>) {
    forall disk :: disk in obs && disk.kind.Block? ==> Judgement(obs, mounts, disk).Some?
  }

  method PlanDiscovery(storage: StorageSnapshot, table: MountSnapshot) returns (r: Option<Plan>)
    ensures r.Some? <==> Complete(storage) && UsableMounts(table) && Assessable(storage.observations, table.mounts)
    ensures r.Some? ==> PlanMeans(storage.observations, table.mounts, r.value)
    ensures r.Some? ==>
              PlanOver(storage.observations, table.mounts, Disks(storage.observations, |storage.observations|), r.value)
  {
    var devices := CompleteDeviceSet(storage);
    if devices.None? || !UsableMounts(table) {
      return None;
    }
    var obs := storage.observations;
    r := PlanDevices(obs, table.mounts, devices.value);
    DiskMembers(obs, |obs|);
    AllJudgedMeans(obs, table.mounts, Disks(obs, |obs|));
    if r.Some? {
      PlanIsMeant(obs, table.mounts, r.value);
    }
  }

  method PlanDevices(obs: seq<BlockNode>, mounts: seq<Mount>, devices: seq<ObservedDevice>) returns (r: Option<Plan>)
    requires CompleteInventory(obs) && devices == WholeDevices(obs, |obs|)
    ensures r.Some? ==> PlanOver(obs, mounts, Disks(obs, |obs|), r.value)
    ensures r.None? ==> !Assessable(obs, mounts)
  {
    ghost var disks := Disks(obs, |obs|);
    DiskCount(obs, |obs|);
    var plan := Plan([], [], false, false);
    for k := 0 to |devices|
      invariant PlanOver(obs, mounts, disks[..k], plan)
    {
      r := PlanDevice(obs, mounts, devices, k, plan);
      if r.None? {
        return;
      }
      plan := r.value;
    }
    assert disks[..|devices|] == disks;
    r := Some(plan);
  }

  lemma {:induction false} DeviceRecord(obs: seq<BlockNode>, k: nat)
    requires CompleteInventory(obs) && k < |Disks(obs, |obs|)|
    ensures var disk := Disks(obs, |obs|)[k];
            && k < |WholeDevices(obs, |obs|)| && WholeDevices(obs, |obs|)[k] == DeviceOf(disk)
            && disk.name in Index(obs) && Index(obs)[disk.name] == disk && Trusted(disk, obs)
  {
    DevicesAreDisks(obs, |obs|, k);
    Located(obs, Disks(obs, |obs|)[k]);
  }

  method PlanDevice(obs: seq<BlockNode>, mounts: seq<Mount>, devices: seq<ObservedDevice>, k: nat, plan: Plan)
    returns (r: Option<Plan>)
    requires CompleteInventory(obs) && devices == WholeDevices(obs, |obs|)
    requires k < |devices| == |Disks(obs, |obs|)| && PlanOver(obs, mounts, Disks(obs, |obs|)[..k], plan)
    ensures r.Some? ==> PlanOver(obs, mounts, Disks(obs, |obs|)[..k + 1], r.value)
    ensures r.None? ==> !Assessable(obs, mounts)
  {
    DeviceRecord(obs, k);
    var record := Index(obs)[devices[k].name];
    var reason := Judge(record, obs, mounts);
    if reason.None? {
      return None;
    }
    PlanExtends(obs, mounts, Disks(obs, |obs|), k, plan, reason.value);
    r := Some(Extend(plan, devices[k], record, reason.value));
  }

  // -- What the plan guarantees ----------------------------------------------------------------------

  lemma {:induction false} ChosenSource(obs: seq<BlockNode>, mounts: seq<Mount>, disks: seq<BlockNode>, c: Candidate)
    returns (disk: BlockNode)
    requires c in Chosen(obs, mounts, disks)
    ensures disk in disks && Judgement(obs, mounts, disk) == Some(None) && c == CandidateOf(disk)
  {
    var rest := disks[..|disks| - 1];
    disk := disks[|disks| - 1];
    if c in Chosen(obs, mounts, rest) {
      disk := ChosenSource(obs, mounts, rest, c);
    }
  }

  lemma {:induction false} ChosenHolds(obs: seq<BlockNode>, mounts: seq<Mount>, disks: seq<BlockNode>, k: nat)
    requires k < |disks| && Judgement(obs, mounts, disks[k]) == Some(None)
    ensures CandidateOf(disks[k]) in Chosen(obs, mounts, disks)
  {
    if k < |disks| - 1 {
      ChosenHolds(obs, mounts, disks[..|disks| - 1], k);
    }
  }

  lemma {:induction false} RejectedSource(obs: seq<BlockNode>, mounts: seq<Mount>, disks: seq<BlockNode>, e: Exclusion)
    returns (disk: BlockNode)
    requires e in Rejected(obs, mounts, disks)
    ensures disk in disks && Judgement(obs, mounts, disk) == Some(Some(e.reason)) && disk.name == e.name
  {
    var rest := disks[..|disks| - 1];
    disk := disks[|disks| - 1];
    if e in Rejected(obs, mounts, rest) {
      disk := RejectedSource(obs, mounts, rest, e);
    }
  }

  lemma {:induction false} RejectedHolds(obs: seq<BlockNode>, mounts: seq<Mount>, disks: seq<BlockNode>, k: nat,
                                         reason: Reason)
    requires k < |disks| && Judgement(obs, mounts, disks[k]) == Some(Some(reason))
    ensures Exclusion(disks[k].name, reason) in Rejected(obs, mounts, disks)
  {
    if k < |disks| - 1 {
      RejectedHolds(obs, mounts, disks[..|disks| - 1], k, reason);
    }
  }

  lemma {:induction false} PlanCounts(obs: seq<BlockNode>, mounts: seq<Mount>, disks: seq<BlockNode>)
    requires AllJudged(obs, mounts, disks)
    ensures |Chosen(obs, mounts, disks)| + |Rejected(obs, mounts, disks)| == |disks|
  {
    if disks != [] {
      PlanCounts(obs, mounts, disks[..|disks| - 1]);
    }
  }

  lemma {:induction false} BlockedVerdict(obs: seq<BlockNode>, mounts: seq<Mount>, disk: string, i: nat)
    requires i <= |mounts|
    ensures MountVerdict(obs, mounts, disk, i).None? <==>
            exists j ::
              i <= j < |mounts| && Orphan(obs, mounts[j])
              && forall k :: i <= k < j ==> !MountedOver(obs, mounts[k], disk)
    decreases |mounts| - i
  {
    if i < |mounts| {
      BlockedVerdict(obs, mounts, disk, i + 1);
      if MountVerdict(obs, mounts, disk, i + 1).None? && !MountedOver(obs, mounts[i], disk) {
        var j :| i + 1 <= j < |mounts| && Orphan(obs, mounts[j])
                 && forall k :: i + 1 <= k < j ==> !MountedOver(obs, mounts[k], disk);
        assert forall k :: i <= k < j ==> !MountedOver(obs, mounts[k], disk);
      }
    }
  }

  /** Exactly when valid inputs yield no plan: a mount on an unknown device comes before anything mounted
      over some disk whose mounts had to be consulted. */
  lemma PlanFailsExactly(obs: seq<BlockNode>, mounts: seq<Mount>)
    ensures !Assessable(obs, mounts) <==>
            exists disk, j :: disk in obs && disk.kind.Block? && Eligible(obs, disk) && StrayFirst(obs, mounts, disk, j)
  {
    forall disk | disk in obs
      ensures Judgement(obs, mounts, disk).None? <==>
                Eligible(obs, disk) && exists j :: StrayFirst(obs, mounts, disk, j)
    {
      BlockedVerdict(obs, mounts, disk.name, 0);
      StrayIsOrphan(obs, mounts, disk);
    }
  }

  /** A mount with a nonzero major number and an unobserved device, before anything mounted over the disk. */
  ghost predicate StrayFirst(obs: seq<BlockNode>, mounts: seq<Mount>, disk: BlockNode, j: nat) {
    && j < |mounts| && mounts[j].device.major != 0 && (forall o :: o in obs ==> o.device != mounts[j].device)
    && forall k :: 0 <= k < j ==> !MountedOver(obs, mounts[k], disk.name)
  }

  lemma StrayIsOrphan(obs: seq<BlockNode>, mounts: seq<Mount>, disk: BlockNode)
    ensures forall j: nat :: StrayFirst(obs, mounts, disk, j) <==>
              && j < |mounts| && Orphan(obs, mounts[j])
              && forall k :: 0 <= k < j ==> !MountedOver(obs, mounts[k], disk.name)
  {
  }

  // One disk, and a mount on a device that the inventory does not hold.
  const LONE_DISK: BlockNode :=
    BlockNode("sda", Block, DeviceNumber(8, 0), 512, false, false, 0, 0, "", None, None, Present, Present, 1, 2, 1, 0,
              ["devices", "sda"], [])

  const LONE_STORAGE: StorageSnapshot :=
    StorageSnapshot(2, STORAGE_SCOPE, true, false, false, false, false, 1, [LONE_DISK], [], true)

  const STRAY_MOUNT: Mount := Mount("/mnt", "ext4", DeviceNumber(9, 9), false, 1, "/")

  const STRAY_TABLE: MountSnapshot :=
    MountSnapshot(1, 1, MOUNT_SCOPE, true, false, false, 1, [STRAY_MOUNT], [], true)

  lemma LoneTarget()
    ensures ValidTarget(LONE_DISK.target, LONE_DISK.name)
  {
    var path := LONE_DISK.target;
    assert path[1..] == ["sda"] && path[1..][1..] == [];
    assert TextLength(path) == |path[0]| + 1 + TextLength(path[1..]);
  }

  lemma LoneIsSound()
    ensures Index([LONE_DISK]) == map["sda" := LONE_DISK] && TopologySound(Index([LONE_DISK]))
  {
    var nodes := Index([LONE_DISK]);
    assert IndexUpTo([LONE_DISK], 1) == map["sda" := LONE_DISK];
    assert Below(LONE_DISK) == [];
    NoEdgeNoCycle(TopologyGraph(nodes), "sda");
  }

  lemma LoneIsComplete()
    ensures Complete(LONE_STORAGE)
  {
    LoneTarget();
    LoneIsSound();
    assert SelfValid(LONE_DISK);
  }

  /** Valid inputs without a plan: one disk, and a valid mount on a device unknown to the inventory. */
  lemma StrayMountStopsPlanning()
    ensures Complete(LONE_STORAGE) && UsableMounts(STRAY_TABLE)
    ensures !Assessable(LONE_STORAGE.observations, STRAY_TABLE.mounts)
  {
    var obs, mounts := LONE_STORAGE.observations, STRAY_TABLE.mounts;
    LoneIsComplete();
    assert Lower("ext4")[0] == 'e';
    assert LONE_DISK in obs && Orphan(obs, mounts[0]);
    assert MountVerdict(obs, mounts, "sda", 0) == None;
    assert !HasStack(obs, "sda");
    assert Judgement(obs, mounts, LONE_DISK) == None;
  }

  /** Exactly one node carries the device number. */
  predicate Resolves(obs: seq<BlockNode>, m: Mount) {
    exists i ::
      0 <= i < |obs| && obs[i].device == m.device && forall j :: 0 <= j < |obs| && obs[j].device == m.device ==> j == i
  }

  lemma {:induction false} SameDisk(obs: seq<BlockNode>, a: BlockNode, b: BlockNode)
    requires CompleteInventory(obs) && a in Disks(obs, |obs|) && b in obs && a.name == b.name
    ensures a == b
  {
    DiskMembers(obs, |obs|);
    Located(obs, a);
    Located(obs, b);
  }

  /** Every whole disk is a candidate under its own record, or is excluded under exactly one reason. */
  lemma {:induction false} PlanPartitions(obs: seq<BlockNode>, mounts: seq<Mount>, plan: Plan, disk: BlockNode)
    requires CompleteInventory(obs) && PlanOver(obs, mounts, Disks(obs, |obs|), plan)
    requires disk in obs && disk.kind.Block?
    ensures |plan.candidates| + |plan.excluded| == |WholeDevices(obs, |obs|)|
    ensures match Judgement(obs, mounts, disk)
            case None => false
            case Some(None) =>
              && CandidateOf(disk) in plan.candidates
              && forall e :: e in plan.excluded ==> e.name != disk.name
            case Some(Some(reason)) =>
              && Exclusion(disk.name, reason) in plan.excluded
              && (forall e :: e in plan.excluded && e.name == disk.name ==> e.reason == reason)
              && forall c :: c in plan.candidates ==> c.name != disk.name
  {
    var disks := Disks(obs, |obs|);
    DiskCount(obs, |obs|);
    DiskMembers(obs, |obs|);
    PlanCounts(obs, mounts, disks);
    AllJudgedMeans(obs, mounts, disks);
    var k :| 0 <= k < |disks| && disks[k] == disk;
    var judgement := Judgement(obs, mounts, disk).value;
    if judgement.None? {
      ChosenHolds(obs, mounts, disks, k);
    } else {
      RejectedHolds(obs, mounts, disks, k, judgement.value);
    }
    forall e | e in plan.excluded && e.name == disk.name ensures judgement == Some(e.reason) {
      var other := RejectedSource(obs, mounts, disks, e);
      SameDisk(obs, other, disk);
    }
    forall c | c in plan.candidates && c.name == disk.name ensures judgement == None {
      var other := ChosenSource(obs, mounts, disks, c);
      SameDisk(obs, other, disk);
    }
  }

  // -- What the plan means ---------------------------------------------------------------------------

  ghost predicate AnyMountOver(obs: seq<BlockNode>, mounts: seq<Mount>, disk: string) {
    exists j :: 0 <= j < |mounts| && MountedOver(obs, mounts[j], disk)
  }

  /** The candidate describes the disk. */
  predicate Describes(c: Candidate, disk: BlockNode) {
    && c.name == disk.name && c.generation.device == disk.device && c.generation.diskSequence == disk.diskSequence
    && c.serialStatus == disk.serialStatus && c.wwnStatus == disk.wwnStatus
  }

  /** The condition of each outcome: a candidate without reason, or the one reason that is reported. */
  ghost predicate Deserves(obs: seq<BlockNode>, mounts: seq<Mount>, disk: BlockNode, outcome: Option<Reason>) {
    var virtual := ["devices", "virtual", "block"] < disk.target;
    match outcome
    case Some(VirtualNode) => virtual
    case Some(StackedNode) => !virtual && disk.lower != []
    case Some(StackMember) => !virtual && disk.lower == [] && HasStack(obs, disk.name)
    case Some(DependentMount) =>
      !virtual && disk.lower == [] && !HasStack(obs, disk.name) && AnyMountOver(obs, mounts, disk.name)
    case Some(RemovableDevice) =>
      && !virtual && disk.lower == [] && !HasStack(obs, disk.name) && !AnyMountOver(obs, mounts, disk.name)
      && disk.removable
    case None =>
      && !virtual && disk.lower == [] && !HasStack(obs, disk.name) && !AnyMountOver(obs, mounts, disk.name)
      && !disk.removable
  }

  /** Every whole disk is reported by what it deserves and by nothing else. */
  ghost predicate ReportedRightly(obs: seq<BlockNode>, mounts: seq<Mount>, plan: Plan, disk: BlockNode) {
    && (Deserves(obs, mounts, disk, None) <==> exists c :: c in plan.candidates && c.name == disk.name)
    && (forall c :: c in plan.candidates && c.name == disk.name ==> Describes(c, disk))
    && forall reason :: Exclusion(disk.name, reason) in plan.excluded <==> Deserves(obs, mounts, disk, Some(reason))
  }

  predicate IdentityShared(disk: BlockNode) {
    disk.serialStatus == Ambiguous || disk.wwnStatus == Ambiguous
  }

  predicate IdentityLacking(disk: BlockNode) {
    disk.serialStatus in {Unavailable, Invalid, Unreadable} || disk.wwnStatus in {Unavailable, Invalid, Unreadable}
  }

  /** A whole disk of the inventory has this name. */
  ghost predicate NamesDisk(obs: seq<BlockNode>, name: string) {
    exists disk :: disk in obs && disk.kind.Block? && disk.name == name
  }

  ghost predicate FlagsMean(obs: seq<BlockNode>, plan: Plan) {
    && (plan.hasAmbiguousIdentity <==> exists disk :: disk in obs && disk.kind.Block? && IdentityShared(disk))
    && (plan.identityEvidenceIncomplete <==> exists disk :: disk in obs && disk.kind.Block? && IdentityLacking(disk))
  }

  ghost predicate PlanMeans(obs: seq<BlockNode>, mounts: seq<Mount>, plan: Plan) {
    && (forall disk {:trigger ReportedRightly(obs, mounts, plan, disk)} ::
          disk in obs && disk.kind.Block? ==> ReportedRightly(obs, mounts, plan, disk))
    && (forall c :: c in plan.candidates ==> NamesDisk(obs, c.name))
    && (forall e :: e in plan.excluded ==> NamesDisk(obs, e.name))
    && FlagsMean(obs, plan)
  }

  lemma JudgedAsDeserved(obs: seq<BlockNode>, mounts: seq<Mount>, disk: BlockNode, outcome: Option<Reason>)
    requires Judgement(obs, mounts, disk).Some?
    ensures Judgement(obs, mounts, disk) == Some(outcome) <==> Deserves(obs, mounts, disk, outcome)
  {
    VirtualMeans(disk.target);
    DecidedVerdict(obs, mounts, disk.name, 0);
  }

  lemma VirtualMeans(path: SysfsPath)
    ensures IsVirtual(path) <==> ["devices", "virtual", "block"] < path
  {
  }

  lemma {:induction false} DecidedVerdict(obs: seq<BlockNode>, mounts: seq<Mount>, disk: string, i: nat)
    requires i <= |mounts|
    ensures MountVerdict(obs, mounts, disk, i).Some? ==>
              (MountVerdict(obs, mounts, disk, i).value <==>
                 exists j :: i <= j < |mounts| && MountedOver(obs, mounts[j], disk))
    decreases |mounts| - i
  {
    if i < |mounts| {
      DecidedVerdict(obs, mounts, disk, i + 1);
    }
  }

  lemma {:induction false} DiskIsReported(obs: seq<BlockNode>, mounts: seq<Mount>, plan: Plan, disk: BlockNode)
    requires CompleteInventory(obs) && PlanOver(obs, mounts, Disks(obs, |obs|), plan)
    requires disk in obs && disk.kind.Block?
    ensures ReportedRightly(obs, mounts, plan, disk)
  {
    PlanPartitions(obs, mounts, plan, disk);
    JudgedAsDeserved(obs, mounts, disk, None);
    forall reason
      ensures Exclusion(disk.name, reason) in plan.excluded <==> Deserves(obs, mounts, disk, Some(reason))
    {
      JudgedAsDeserved(obs, mounts, disk, Some(reason));
    }
    forall c | c in plan.candidates && c.name == disk.name ensures Describes(c, disk) {
      var source := ChosenSource(obs, mounts, Disks(obs, |obs|), c);
      SameDisk(obs, source, disk);
    }
  }

  lemma FlagsAreMeant(obs: seq<BlockNode>, mounts: seq<Mount>, disks: seq<BlockNode>, plan: Plan)
    requires PlanOver(obs, mounts, disks, plan)
    requires forall disk :: disk in disks <==> disk in obs && disk.kind.Block?
    ensures FlagsMean(obs, plan)
  {
    if disk :| disk in obs && disk.kind.Block? && IdentityShared(disk) {
      assert disk in disks && AmbiguousIdentity(disk);
    }
    if disk :| disk in obs && disk.kind.Block? && IdentityLacking(disk) {
      assert disk in disks && IncompleteIdentity(disk);
    }
    assert forall disk :: disk in disks && AmbiguousIdentity(disk) ==> IdentityShared(disk);
    assert forall disk :: disk in disks && IncompleteIdentity(disk) ==> IdentityLacking(disk);
  }

  lemma {:induction false} ListedAreDisks(obs: seq<BlockNode>, mounts: seq<Mount>, disks: seq<BlockNode>)
    requires forall disk :: disk in disks ==> disk in obs && disk.kind.Block?
    ensures forall c :: c in Chosen(obs, mounts, disks) ==> NamesDisk(obs, c.name)
    ensures forall e :: e in Rejected(obs, mounts, disks) ==> NamesDisk(obs, e.name)
  {
    forall c | c in Chosen(obs, mounts, disks) ensures NamesDisk(obs, c.name) {
      var source := ChosenSource(obs, mounts, disks, c);
    }
    forall e | e in Rejected(obs, mounts, disks) ensures NamesDisk(obs, e.name) {
      var source := RejectedSource(obs, mounts, disks, e);
    }
  }

  lemma {:induction false} DisksAreWhole(obs: seq<BlockNode>)
    ensures forall disk :: disk in Disks(obs, |obs|) <==> disk in obs && disk.kind.Block?
  {
    DiskMembers(obs, |obs|);
  }

  /** A plan that was made reports every whole disk by exactly what the inventories say about it. */
  lemma {:induction false} PlanIsMeant(obs: seq<BlockNode>, mounts: seq<Mount>, plan: Plan)
    requires CompleteInventory(obs) && PlanOver(obs, mounts, Disks(obs, |obs|), plan)
    ensures PlanMeans(obs, mounts, plan)
  {
    DisksAreWhole(obs);
    forall disk | disk in obs && disk.kind.Block? ensures ReportedRightly(obs, mounts, plan, disk) {
      DiskIsReported(obs, mounts, plan, disk);
    }
    ListedAreDisks(obs, mounts, Disks(obs, |obs|));
    FlagsAreMeant(obs, mounts, Disks(obs, |obs|), plan);
  }

  /** Nothing stacked and nothing mounted rests on a candidate. */
  lemma {:induction false} CandidatesAreClear(obs: seq<BlockNode>, mounts: seq<Mount>, plan: Plan, c: Candidate)
    returns (disk: BlockNode)
    requires PlanOver(obs, mounts, Disks(obs, |obs|), plan) && c in plan.candidates
    ensures disk in obs && disk.kind.Block? && c == CandidateOf(disk) && Eligible(obs, disk) && !disk.removable
    ensures forall i :: 0 <= i < |obs| ==> !StackedOver(obs, obs[i], c.name)
    ensures forall j :: 0 <= j < |mounts| ==> !Orphan(obs, mounts[j]) && !MountedOver(obs, mounts[j], c.name)
  {
    disk := ChosenSource(obs, mounts, Disks(obs, |obs|), c);
    DiskMembers(obs, |obs|);
    ClearVerdict(obs, mounts, c.name, 0);
    assert !HasStack(obs, c.name);
  }

  /** One candidate is enough to know that every mount with a nonzero major number was attributed. */
  lemma {:induction false} CandidateMeansMountsResolve(obs: seq<BlockNode>, mounts: seq<Mount>, plan: Plan, j: nat)
    requires CompleteInventory(obs) && PlanOver(obs, mounts, Disks(obs, |obs|), plan) && plan.candidates != []
    requires j < |mounts| && mounts[j].device.major != 0
    ensures Resolves(obs, mounts[j])
  {
    var disk := CandidatesAreClear(obs, mounts, plan, plan.candidates[0]);
    assert !Orphan(obs, mounts[j]);
    var i :| 0 <= i < |obs| && obs[i].device == mounts[j].device;
    forall k | 0 <= k < |obs| && obs[k].device == mounts[j].device ensures k == i {
      TrustedDevices(obs, k, i);
    }
  }
}
