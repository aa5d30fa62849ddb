/** Classifying GPT identities across a complete candidate set, and the summary that may leave the broker. */
module GptIdentities {
  import opened Basics
  import opened BlockInventory
  import opened SourceSets
  import opened MdIdentity
  import opened PartitionTables

  const MAX_SUMMARY_DISKS: nat := 6

  datatype Coverage = EmptySet | NoGpt | PartialGpt | AllGpt

  // A list of bindings may be absent, and an absent list is not an empty one.
  datatype Observation = Observation(
    candidates: nat,
    gptDisks: nat,
    unsupported: nat,
    noTable: nat,
    coverage: Coverage,
    vpdAmbiguous: bool,
    vpdIncomplete: bool,
    bindings: Option<seq<DiskBinding>>)

  /** The copy made by appending to an absent list: an empty list comes out absent. */
  function Copied<T>(list: seq<T>): Option<seq<T>> {
    if list == [] then None else Some(list)
  }

  function Listed(o: Observation): seq<DiskBinding> {
    if o.bindings.None? then [] else o.bindings.value
  }

  // -- Lists without repetition ----------------------------------------------------------------------

  predicate Distinct<T(==)>(list: seq<T>) {
    forall i, j :: 0 <= i < j < |list| ==> list[i] != list[j]
  }

  function Held<T(==)>(list: seq<T>): set<T> {
    set x | x in list
  }

  lemma DistinctMore<T>(list: seq<T>, x: T)
    ensures Distinct(list + [x]) <==> Distinct(list) && x !in list
    ensures Held(list + [x]) == Held(list) + {x}
  {
    var more := list + [x];
    assert forall i :: 0 <= i < |list| ==> more[i] == list[i];
    assert more[|list|] == x;
    if Distinct(more) {
      forall i, j | 0 <= i < j < |list| ensures list[i] != list[j] {
        assert more[i] != more[j];
      }
    }
  }

  lemma DistinctPrefix<T>(list: seq<T>, more: seq<T>)
    requires Distinct(list + more)
    ensures Distinct(list)
  {
    forall i, j | 0 <= i < j < |list| ensures list[i] != list[j] {
      assert (list + more)[i] != (list + more)[j];
    }
  }

  // -- What is compared ------------------------------------------------------------------------------

  /** The partitions of all disks, in order. */
  function AllParts(bindings: seq<DiskBinding>): seq<PartitionBinding> {
    if bindings == [] then [] else AllParts(bindings[..|bindings| - 1]) + bindings[|bindings| - 1].partitions
  }

  function PartDevices(parts: seq<PartitionBinding>): seq<DeviceNumber> {
    if parts == [] then [] else PartDevices(parts[..|parts| - 1]) + [parts[|parts| - 1].device]
  }

  function PartNames(parts: seq<PartitionBinding>): seq<string> {
    if parts == [] then [] else PartNames(parts[..|parts| - 1]) + [parts[|parts| - 1].name]
  }

  function PartUuids(parts: seq<PartitionBinding>): seq<string> {
    if parts == [] then [] else PartUuids(parts[..|parts| - 1]) + [parts[|parts| - 1].uuid]
  }

  function DiskNames(bindings: seq<DiskBinding>): seq<string> {
    if bindings == [] then [] else DiskNames(bindings[..|bindings| - 1]) + [bindings[|bindings| - 1].diskName]
  }

  function AllDevices(bindings: seq<DiskBinding>): seq<DeviceNumber> {
    if bindings == [] then []
    else
      var b := bindings[|bindings| - 1];
      AllDevices(bindings[..|bindings| - 1]) + [b.generation.device] + PartDevices(b.partitions)
  }

  predicate PartOk(p: PartitionBinding, hint: string -> string) {
    && ValidBlockName(p.name) && p.device != DeviceNumber(0, 0) && CanonicalUuid(p.uuid) && CanonicalUuid(p.typeId)
    && p.typeHint == hint(p.typeId) && p.number != 0
  }

  predicate PartsOk(parts: seq<PartitionBinding>, hint: string -> string) {
    parts == [] || (PartsOk(parts[..|parts| - 1], hint) && PartOk(parts[|parts| - 1], hint))
  }

  predicate DiskOk(b: DiskBinding) {
    && ValidBlockName(b.diskName) && b.generation.device != DeviceNumber(0, 0) && b.generation.diskSequence != 0
    && if b.disposition == GptTable then b.isGpt && CanonicalUuid(b.tableId)
       else !b.isGpt && b.tableId == "" && b.partitions == []
  }

  predicate BindingsOk(bindings: seq<DiskBinding>, hint: string -> string) {
    bindings == [] ||
    var b := bindings[|bindings| - 1];
    BindingsOk(bindings[..|bindings| - 1], hint) && DiskOk(b) && PartsOk(b.partitions, hint)
    && Distinct(PartUuids(b.partitions))
  }

  /** Valid records, and no name, device number or partition name twice. */
  predicate Comparable(bindings: seq<DiskBinding>, hint: string -> string) {
    && BindingsOk(bindings, hint) && Distinct(DiskNames(bindings)) && Distinct(AllDevices(bindings))
    && Distinct(PartNames(AllParts(bindings)))
  }

  // -- Counting --------------------------------------------------------------------------------------

  function Disposed(bindings: seq<DiskBinding>, d: Disposition): nat {
    if bindings == [] then 0
    else Disposed(bindings[..|bindings| - 1], d) + if bindings[|bindings| - 1].disposition == d then 1 else 0
  }

  /** Every table disposition is counted once. */
  lemma {:induction false} DispositionsSum(bindings: seq<DiskBinding>)
    ensures Disposed(bindings, GptTable) + Disposed(bindings, Unsupported) + Disposed(bindings, NoTable) == |bindings|
  {
    if bindings != [] {
      DispositionsSum(bindings[..|bindings| - 1]);
    }
  }

  function CoverageOf(candidates: nat, gpt: nat): Coverage {
    if candidates == 0 then EmptySet else if gpt == 0 then NoGpt else if gpt == candidates then AllGpt else PartialGpt
  }

  // -- Owners ----------------------------------------------------------------------------------------

  /** The GPT disks that carry the GUID. */
  function GuidOwners(bindings: seq<DiskBinding>, n: nat, id: string): seq<nat>
    requires n <= |bindings|
  {
    if n == 0 then []
    else
      var b := bindings[n - 1];
      GuidOwners(bindings, n - 1, id) + if b.disposition == GptTable && b.tableId == id then [n - 1] else []
  }

  /** The places of the UUID in a list of partitions. */
  function UuidOwners(parts: seq<PartitionBinding>, n: nat, uuid: string): seq<nat>
    requires n <= |parts|
  {
    if n == 0 then [] else UuidOwners(parts, n - 1, uuid) + if parts[n - 1].uuid == uuid then [n - 1] else []
  }

  predicate Rises(list: seq<nat>, n: nat) {
    (forall i :: 0 <= i < |list| ==> list[i] < n) && forall i, j :: 0 <= i < j < |list| ==> list[i] < list[j]
  }

  lemma {:induction false} GuidOwnersMean(bindings: seq<DiskBinding>, n: nat, id: string)
    requires n <= |bindings|
    ensures Rises(GuidOwners(bindings, n, id), n)
    ensures forall i ::
              i in GuidOwners(bindings, n, id) <==>
                  0 <= i < n && bindings[i].disposition == GptTable && bindings[i].tableId == id
  {
    if n > 0 {
      GuidOwnersMean(bindings, n - 1, id);
    }
  }

  lemma {:induction false} UuidOwnersMean(parts: seq<PartitionBinding>, n: nat, uuid: string)
    requires n <= |parts|
    ensures Rises(UuidOwners(parts, n, uuid), n)
    ensures forall i :: i in UuidOwners(parts, n, uuid) <==> 0 <= i < n && parts[i].uuid == uuid
  {
    if n > 0 {
      UuidOwnersMean(parts, n - 1, uuid);
    }
  }

  /** Two owners mean another one, and another one means two. */
  lemma AnotherOwner(owners: seq<nat>, n: nat, i: nat)
    requires Rises(owners, n) && i in owners
    ensures |owners| >= 2 <==> exists j :: j in owners && j != i
  {
    if |owners| >= 2 {
      assert owners[0] in owners && owners[1] in owners && owners[0] < owners[1];
    } else {
      assert forall j :: j in owners ==> j == owners[0];
    }
  }

  /** A disk GUID is ambiguous exactly when another GPT disk carries it. */
  predicate GuidShared(bindings: seq<DiskBinding>, i: nat)
    requires i < |bindings|
  {
    exists j ::
      0 <= j < |bindings| && j != i && bindings[j].disposition == GptTable && bindings[j].tableId == bindings[i].tableId
  }

  /** A PARTUUID is ambiguous exactly when another partition carries it. */
  predicate UuidShared(parts: seq<PartitionBinding>, k: nat)
    requires k < |parts|
  {
    exists l :: 0 <= l < |parts| && l != k && parts[l].uuid == parts[k].uuid
  }

  lemma {:induction false} GuidOwnersShare(bindings: seq<DiskBinding>, i: nat)
    requires i < |bindings| && bindings[i].disposition == GptTable
    ensures |GuidOwners(bindings, |bindings|, bindings[i].tableId)| >= 2 <==> GuidShared(bindings, i)
  {
    var owners := GuidOwners(bindings, |bindings|, bindings[i].tableId);
    GuidOwnersMean(bindings, |bindings|, bindings[i].tableId);
    AnotherOwner(owners, |bindings|, i);
  }

  lemma {:induction false} UuidOwnersShare(parts: seq<PartitionBinding>, k: nat)
    requires k < |parts|
    ensures |UuidOwners(parts, |parts|, parts[k].uuid)| >= 2 <==> UuidShared(parts, k)
  {
    var owners := UuidOwners(parts, |parts|, parts[k].uuid);
    UuidOwnersMean(parts, |parts|, parts[k].uuid);
    AnotherOwner(owners, |parts|, k);
  }

  // -- Checking --------------------------------------------------------------------------------------

  lemma {:induction false} PartNamesJoin(a: seq<PartitionBinding>, b: seq<PartitionBinding>)
    ensures PartNames(a + b) == PartNames(a) + PartNames(b)
    decreases |b|
  {
    if b == [] {
      assert a + b == a;
    } else {
      var rest := b[..|b| - 1];
      PartNamesJoin(a, rest);
      assert (a + b)[..|a + b| - 1] == a + rest;
      assert PartNames(a) + (PartNames(rest) + [b[|b| - 1].name]) ==
          (PartNames(a) + PartNames(rest)) + [b[|b| - 1].name];
    }
  }

  /** What the scan of a disk's partitions remembers. */
  datatype PartScan = PartScan(devices: set<DeviceNumber>, names: set<string>, uuids: set<string>)

  /** The partitions so far, after the devices and names of the disks before them. */
  ghost predicate PartsScanned(devs: seq<DeviceNumber>, names: seq<string>, parts: seq<PartitionBinding>,
                               hint: string -> string, s: PartScan)
  {
    && PartsOk(parts, hint)
    && Distinct(devs + PartDevices(parts)) && s.devices == Held(devs + PartDevices(parts))
    && Distinct(names + PartNames(parts)) && s.names == Held(names + PartNames(parts))
    && Distinct(PartUuids(parts)) && s.uuids == Held(PartUuids(parts))
  }

  predicate PartPasses(p: PartitionBinding, hint: string -> string, s: PartScan) {
    PartOk(p, hint) && p.name !in s.names && p.device !in s.devices && p.uuid !in s.uuids
  }

  function Noted(s: PartScan, p: PartitionBinding): PartScan {
    PartScan(s.devices + {p.device}, s.names + {p.name}, s.uuids + {p.uuid})
  }

  /** The parts checks of one disk. */
  ghost predicate PartsFit(devs: seq<DeviceNumber>, names: seq<string>, parts: seq<PartitionBinding>,
                           hint: string -> string)
  {
    PartsOk(parts, hint) && Distinct(devs + PartDevices(parts)) && Distinct(names + PartNames(parts))
    && Distinct(PartUuids(parts))
  }

  lemma PartStep(devs: seq<DeviceNumber>, names: seq<string>, parts: seq<PartitionBinding>, p: PartitionBinding,
                 hint: string -> string, s: PartScan)
    requires PartsScanned(devs, names, parts, hint, s)
    ensures if PartPasses(p, hint, s) then PartsScanned(devs, names, parts + [p], hint, Noted(s, p))
            else !PartsFit(devs, names, parts + [p], hint)
  {
    assert (parts + [p])[..|parts|] == parts;
    assert devs + (PartDevices(parts) + [p.device]) == (devs + PartDevices(parts)) + [p.device];
    assert names + (PartNames(parts) + [p.name]) == (names + PartNames(parts)) + [p.name];
    DistinctMore(devs + PartDevices(parts), p.device);
    DistinctMore(names + PartNames(parts), p.name);
    DistinctMore(PartUuids(parts), p.uuid);
  }

  /** A longer list that fits has a beginning that fits. */
  lemma {:induction false} PartsFitPrefix(devs: seq<DeviceNumber>, names: seq<string>, parts: seq<PartitionBinding>,
                                          hint: string -> string, k: nat)
    requires PartsFit(devs, names, parts, hint) && k <= |parts|
    ensures PartsFit(devs, names, parts[..k], hint)
    decreases |parts|
  {
    if k == |parts| {
      assert parts[..k] == parts;
    } else {
      var n := |parts| - 1;
      var rest, p := parts[..n], parts[n];
      assert devs + PartDevices(parts) == (devs + PartDevices(rest)) + [p.device];
      assert names + PartNames(parts) == (names + PartNames(rest)) + [p.name];
      DistinctPrefix(devs + PartDevices(rest), [p.device]);
      DistinctPrefix(names + PartNames(rest), [p.name]);
      DistinctPrefix(PartUuids(rest), [p.uuid]);
      PartsFitPrefix(devs, names, rest, hint, k);
      assert rest[..k] == parts[..k];
    }
  }

  method CheckParts(parts: seq<PartitionBinding>, hint: string -> string, ghost devs: seq<DeviceNumber>,
                    ghost names: seq<string>, start: PartScan)
    returns (r: Option<PartScan>)
    requires PartsScanned(devs, names, [], hint, start)
    ensures r.Some? <==> PartsFit(devs, names, parts, hint)
    ensures r.Some? ==> PartsScanned(devs, names, parts, hint, r.value)
  {
    var s := start;
    assert parts[..0] == [];
    for k := 0 to |parts|
      invariant PartsScanned(devs, names, parts[..k], hint, s)
    {
      PartStep(devs, names, parts[..k], parts[k], hint, s);
      assert parts[..k + 1] == parts[..k] + [parts[k]];
      if !PartPasses(parts[k], hint, s) {
        if PartsFit(devs, names, parts, hint) {
          PartsFitPrefix(devs, names, parts, hint, k + 1);
        }
        return None;
      }
      s := Noted(s, parts[k]);
    }
    assert parts[..|parts|] == parts;
    r := Some(s);
  }

  /** What the scan of the disks remembers. */
  datatype DiskScan = DiskScan(diskNames: set<string>, devices: set<DeviceNumber>, partNames: set<string>)

  ghost predicate DisksScanned(bindings: seq<DiskBinding>, hint: string -> string, s: DiskScan) {
    && Comparable(bindings, hint) && s.diskNames == Held(DiskNames(bindings))
    && s.devices == Held(AllDevices(bindings)) && s.partNames == Held(PartNames(AllParts(bindings)))
  }

  /** The lists that must not repeat, extended by one disk. */
  lemma {:induction false} ListsGrow(bindings: seq<DiskBinding>, b: DiskBinding)
    ensures DiskNames(bindings + [b]) == DiskNames(bindings) + [b.diskName]
    ensures AllDevices(bindings + [b]) == AllDevices(bindings) + [b.generation.device] + PartDevices(b.partitions)
    ensures PartNames(AllParts(bindings + [b])) == PartNames(AllParts(bindings)) + PartNames(b.partitions)
  {
    assert (bindings + [b])[..|bindings|] == bindings;
    PartNamesJoin(AllParts(bindings), b.partitions);
  }

  /** Extending by one disk, in terms of its own checks. */
  lemma {:induction false} ComparableStep(bindings: seq<DiskBinding>, b: DiskBinding, hint: string -> string)
    ensures Comparable(bindings + [b], hint) <==>
            && BindingsOk(bindings, hint) && Distinct(DiskNames(bindings) + [b.diskName])
            && DiskOk(b)
            && PartsFit(AllDevices(bindings) + [b.generation.device], PartNames(AllParts(bindings)), b.partitions, hint)
  {
    assert (bindings + [b])[..|bindings|] == bindings;
    ListsGrow(bindings, b);
  }

  lemma {:induction false} BindingsOkPrefix(bindings: seq<DiskBinding>, b: DiskBinding, hint: string -> string)
    requires BindingsOk(bindings + [b], hint)
    ensures BindingsOk(bindings, hint)
  {
    assert (bindings + [b])[..|bindings|] == bindings;
  }

  lemma ComparablePrefix(bindings: seq<DiskBinding>, b: DiskBinding, hint: string -> string)
    requires Comparable(bindings + [b], hint)
    ensures Comparable(bindings, hint)
  {
    var devices := [b.generation.device] + PartDevices(b.partitions);
    BindingsOkPrefix(bindings, b, hint);
    ListsGrow(bindings, b);
    assert AllDevices(bindings + [b]) == AllDevices(bindings) + devices;
    DistinctPrefix(DiskNames(bindings), [b.diskName]);
    DistinctPrefix(AllDevices(bindings), devices);
    DistinctPrefix(PartNames(AllParts(bindings)), PartNames(b.partitions));
  }

  lemma {:induction false} ComparableStart(bindings: seq<DiskBinding>, hint: string -> string, k: nat)
    requires Comparable(bindings, hint) && k <= |bindings|
    ensures Comparable(bindings[..k], hint)
    decreases |bindings|
  {
    if k == |bindings| {
      assert bindings[..k] == bindings;
    } else {
      var n := |bindings| - 1;
      assert bindings == bindings[..n] + [bindings[n]];
      ComparablePrefix(bindings[..n], bindings[n], hint);
      ComparableStart(bindings[..n], hint, k);
      assert bindings[..n][..k] == bindings[..k];
    }
  }

  method CheckDisk(ghost before: seq<DiskBinding>, b: DiskBinding, hint: string -> string, s: DiskScan)
    returns (r: Option<DiskScan>)
    requires DisksScanned(before, hint, s)
    ensures r.Some? <==> Comparable(before + [b], hint)
    ensures r.Some? ==> DisksScanned(before + [b], hint, r.value)
  {
    ComparableStep(before, b, hint);
    ListsGrow(before, b);
    DistinctMore(DiskNames(before), b.diskName);
    DistinctMore(AllDevices(before), b.generation.device);
    ghost var devs, names := AllDevices(before) + [b.generation.device], PartNames(AllParts(before));
    if !DiskOk(b) || b.diskName in s.diskNames || b.generation.device in s.devices {
      if Comparable(before + [b], hint) {
        DistinctPrefix(devs, PartDevices(b.partitions));
      }
      return None;
    }
    assert devs + [] == devs && names + [] == names;
    var parts :=
        CheckParts(b.partitions, hint, devs, names, PartScan(s.devices + {b.generation.device}, s.partNames, {}));
    if parts.None? {
      return None;
    }
    r := Some(DiskScan(s.diskNames + {b.diskName}, parts.value.devices, parts.value.names));
  }

  method CheckDisks(bindings: seq<DiskBinding>, hint: string -> string) returns (ok: bool)
    ensures ok <==> Comparable(bindings, hint)
  {
    var s := DiskScan({}, {}, {});
    assert bindings[..0] == [];
    for i := 0 to |bindings|
      invariant DisksScanned(bindings[..i], hint, s)
    {
      assert bindings[..i + 1] == bindings[..i] + [bindings[i]];
      var next := CheckDisk(bindings[..i], bindings[i], hint, s);
      if next.None? {
        if Comparable(bindings, hint) {
          ComparableStart(bindings, hint, i + 1);
        }
        return false;
      }
      s := next.value;
    }
    assert bindings[..|bindings|] == bindings;
    ok := true;
  }

  // -- Marking ---------------------------------------------------------------------------------------

  function MarkPart(all: seq<PartitionBinding>, p: PartitionBinding): PartitionBinding {
    p.(uuidAmbiguous := Some(|UuidOwners(all, |all|, p.uuid)| >= 2))
  }

  function MarkParts(all: seq<PartitionBinding>, parts: seq<PartitionBinding>): (r: seq<PartitionBinding>)
    ensures |r| == |parts| && forall k :: 0 <= k < |r| ==> r[k] == MarkPart(all, parts[k])
  {
    if parts == [] then [] else MarkParts(all, parts[..|parts| - 1]) + [MarkPart(all, parts[|parts| - 1])]
  }

  function MarkDisk(bindings: seq<DiskBinding>, b: DiskBinding): DiskBinding {
    if b.disposition != GptTable then b
    else b.(idAmbiguous := Some(|GuidOwners(bindings, |bindings|, b.tableId)| >= 2),
            partitions := MarkParts(AllParts(bindings), b.partitions))
  }

  /** How many GPT disks carry each GUID. */
  method CountGuids(bindings: seq<DiskBinding>) returns (owners: map<string, seq<nat>>)
    ensures forall id {:trigger GuidOwners(bindings, |bindings|, id)} ::
              GuidOwners(bindings, |bindings|, id) == if id in owners then owners[id] else []
  {
    owners := map[];
    for i := 0 to |bindings|
      invariant forall id {:trigger GuidOwners(bindings, i, id)} ::
                  GuidOwners(bindings, i, id) == if id in owners then owners[id] else []
    {
      ghost var before := owners;
      var b := bindings[i];
      if b.disposition == GptTable {
        owners := owners[b.tableId := (if b.tableId in owners then owners[b.tableId] else []) + [i]];
      }
      forall id ensures GuidOwners(bindings, i + 1, id) == if id in owners then owners[id] else [] {
        assert GuidOwners(bindings, i, id) == if id in before then before[id] else [];
      }
    }
  }

  lemma UuidOwnersStep(parts: seq<PartitionBinding>, i: nat, owners: map<string, seq<nat>>)
    requires i < |parts|
    requires forall u {:trigger UuidOwners(parts, i, u)} ::
               UuidOwners(parts, i, u) == if u in owners then owners[u] else []
    ensures var u := parts[i].uuid;
            var more := owners[u := (if u in owners then owners[u] else []) + [i]];
            forall x {:trigger UuidOwners(parts, i + 1, x)} ::
              UuidOwners(parts, i + 1, x) == if x in more then more[x] else []
  {
    var u := parts[i].uuid;
    var more := owners[u := (if u in owners then owners[u] else []) + [i]];
    forall x ensures UuidOwners(parts, i + 1, x) == if x in more then more[x] else [] {
      assert UuidOwners(parts, i, x) == if x in owners then owners[x] else [];
    }
  }

  method CountUuids(parts: seq<PartitionBinding>) returns (owners: map<string, seq<nat>>)
    ensures forall u {:trigger UuidOwners(parts, |parts|, u)} ::
              UuidOwners(parts, |parts|, u) == if u in owners then owners[u] else []
  {
    owners := map[];
    for i := 0 to |parts|
      invariant forall u {:trigger UuidOwners(parts, i, u)} ::
                  UuidOwners(parts, i, u) == if u in owners then owners[u] else []
    {
      UuidOwnersStep(parts, i, owners);
      var u := parts[i].uuid;
      owners := owners[u := (if u in owners then owners[u] else []) + [i]];
    }
  }

  /** Marked copies of the bindings, in order. */
  ghost predicate MarkedAll(bindings: seq<DiskBinding>, marked: seq<DiskBinding>) {
    |marked| == |bindings| && forall i :: 0 <= i < |bindings| ==> marked[i] == MarkDisk(bindings, bindings[i])
  }

  method MarkAll(bindings: seq<DiskBinding>) returns (marked: seq<DiskBinding>)
    ensures MarkedAll(bindings, marked)
  {
    var all := AllParts(bindings);
    var guids := CountGuids(bindings);
    var uuids := CountUuids(all);
    marked := [];
    for i := 0 to |bindings|
      invariant |marked| == i && forall j :: 0 <= j < i ==> marked[j] == MarkDisk(bindings, bindings[j])
    {
      var m := MarkOne(bindings, guids, uuids, bindings[i]);
      marked := marked + [m];
    }
  }

  method MarkOne(ghost bindings: seq<DiskBinding>, guids: map<string, seq<nat>>, uuids: map<string, seq<nat>>,
                 b: DiskBinding)
    returns (m: DiskBinding)
    requires forall id {:trigger GuidOwners(bindings, |bindings|, id)} ::
               GuidOwners(bindings, |bindings|, id) == if id in guids then guids[id] else []
    requires forall u {:trigger UuidOwners(AllParts(bindings), |AllParts(bindings)|, u)} ::
               UuidOwners(AllParts(bindings), |AllParts(bindings)|, u) == if u in uuids then uuids[u] else []
    ensures m == MarkDisk(bindings, b)
  {
    m := b;
    if b.disposition == GptTable {
      assert GuidOwners(bindings, |bindings|, b.tableId) == if b.tableId in guids then guids[b.tableId] else [];
      var parts := MarkEach(AllParts(bindings), uuids, b.partitions);
      m := b.(idAmbiguous := Some(b.tableId in guids && |guids[b.tableId]| >= 2), partitions := parts);
    }
  }

  method MarkEach(ghost all: seq<PartitionBinding>, owners: map<string, seq<nat>>, parts: seq<PartitionBinding>)
    returns (r: seq<PartitionBinding>)
    requires forall u {:trigger UuidOwners(all, |all|, u)} ::
               UuidOwners(all, |all|, u) == if u in owners then owners[u] else []
    ensures r == MarkParts(all, parts)
  {
    r := [];
    assert parts[..0] == [];
    for k := 0 to |parts|
      invariant r == MarkParts(all, parts[..k])
    {
      var p := parts[k];
      assert UuidOwners(all, |all|, p.uuid) == if p.uuid in owners then owners[p.uuid] else [];
      assert parts[..k + 1][..k] == parts[..k];
      r := r + [p.(uuidAmbiguous := Some(p.uuid in owners && |owners[p.uuid]| >= 2))];
    }
    assert parts[..|parts|] == parts;
  }

  method CountDispositions(bindings: seq<DiskBinding>) returns (gpt: nat, unsupported: nat, noTable: nat)
    ensures gpt == Disposed(bindings, GptTable) && unsupported == Disposed(bindings, Unsupported)
    ensures noTable == Disposed(bindings, NoTable)
  {
    gpt, unsupported, noTable := 0, 0, 0;
    assert bindings[..0] == [];
    for i := 0 to |bindings|
      invariant gpt == Disposed(bindings[..i], GptTable) && unsupported == Disposed(bindings[..i], Unsupported)
      invariant noTable == Disposed(bindings[..i], NoTable)
    {
      assert bindings[..i + 1][..i] == bindings[..i];
      match bindings[i].disposition {
        case GptTable => gpt := gpt + 1;
        case Unsupported => unsupported := unsupported + 1;
        case NoTable => noTable := noTable + 1;
      }
    }
    assert bindings[..|bindings|] == bindings;
  }

  ghost predicate Classified(bindings: seq<DiskBinding>, o: Observation) {
    && o.candidates == |bindings| && o.gptDisks == Disposed(bindings, GptTable)
    && o.unsupported == Disposed(bindings, Unsupported)
    && o.noTable == Disposed(bindings, NoTable) && o.coverage == CoverageOf(|bindings|, o.gptDisks)
    && o.bindings == Copied(Listed(o)) && MarkedAll(bindings, Listed(o))
  }

  method Classify(given: Option<seq<DiskBinding>>, hint: string -> string) returns (r: Option<Observation>)
    ensures r.Some? <==> given.Some? && |given.value| <= MAX_BLOCK_ENTRIES && Comparable(given.value, hint)
    ensures r.Some? ==> Classified(given.value, r.value)
  {
    if given.None? || |given.value| > MAX_BLOCK_ENTRIES {
      return None;
    }
    var bindings := given.value;
    var ok := CheckDisks(bindings, hint);
    if !ok {
      return None;
    }
    var gpt, unsupported, noTable := CountDispositions(bindings);
    var marked := MarkAll(bindings);
    var coverage := CoverageOf(|bindings|, gpt);
    r := Some(Observation(|bindings|, gpt, unsupported, noTable, coverage, false, false, Copied(marked)));
  }

  // -- What the marks say ----------------------------------------------------------------------------

  lemma {:induction false} BindingOkAt(bindings: seq<DiskBinding>, hint: string -> string, i: nat)
    requires BindingsOk(bindings, hint) && i < |bindings|
    ensures DiskOk(bindings[i])
  {
    if i < |bindings| - 1 {
      BindingOkAt(bindings[..|bindings| - 1], hint, i);
    }
  }

  lemma {:induction false} PartsOkAt(bindings: seq<DiskBinding>, hint: string -> string, i: nat)
    requires BindingsOk(bindings, hint) && i < |bindings|
    ensures PartsOk(bindings[i].partitions, hint)
  {
    if i < |bindings| - 1 {
      PartsOkAt(bindings[..|bindings| - 1], hint, i);
    }
  }

  lemma {:induction false} PartOkAt(parts: seq<PartitionBinding>, hint: string -> string, k: nat)
    requires PartsOk(parts, hint) && k < |parts|
    ensures PartOk(parts[k], hint)
  {
    if k < |parts| - 1 {
      PartOkAt(parts[..|parts| - 1], hint, k);
    }
  }

  /** What a classified set tells of each of its disks and partitions. */
  lemma ComparedMeans(bindings: seq<DiskBinding>, hint: string -> string, b: DiskBinding, p: PartitionBinding)
    requires Comparable(bindings, hint) && b in bindings
    ensures ValidBlockName(b.diskName) && b.generation.diskSequence != 0
    ensures b.generation.device.major != 0 || b.generation.device.minor != 0
    ensures b.disposition == GptTable <==> b.isGpt
    ensures if b.isGpt then CanonicalUuid(b.tableId) else b.tableId == "" && b.partitions == []
    ensures p in b.partitions ==>
              && ValidBlockName(p.name) && (p.device.major != 0 || p.device.minor != 0) && p.number != 0
              && CanonicalUuid(p.uuid) && CanonicalUuid(p.typeId) && p.typeHint == hint(p.typeId)
  {
    var i :| 0 <= i < |bindings| && bindings[i] == b;
    BindingOkAt(bindings, hint, i);
    PartsOkAt(bindings, hint, i);
    if p in b.partitions {
      var k :| 0 <= k < |b.partitions| && b.partitions[k] == p;
      PartOkAt(b.partitions, hint, k);
    }
  }

  lemma {:induction false} MarkJoin(all: seq<PartitionBinding>, a: seq<PartitionBinding>, b: seq<PartitionBinding>)
    ensures MarkParts(all, a + b) == MarkParts(all, a) + MarkParts(all, b)
  {
  }

  lemma {:induction false} OneDiskMarked(bindings: seq<DiskBinding>, marked: seq<DiskBinding>, n: nat)
    requires MarkedAll(bindings, marked) && n < |bindings| && DiskOk(bindings[n])
    ensures AllParts(bindings[..n + 1]) == AllParts(bindings[..n]) + bindings[n].partitions
    ensures AllParts(marked[..n + 1]) == AllParts(marked[..n]) + MarkParts(AllParts(bindings), bindings[n].partitions)
  {
    assert marked[..n + 1][..n] == marked[..n] && bindings[..n + 1][..n] == bindings[..n];
    assert marked[n] == MarkDisk(bindings, bindings[n]);
  }

  /** Marking the disks marks the list of all partitions. */
  lemma {:induction false} AllPartsMarked(bindings: seq<DiskBinding>, marked: seq<DiskBinding>,
                                          hint: string -> string, n: nat)
    requires BindingsOk(bindings, hint) && MarkedAll(bindings, marked) && n <= |bindings|
    ensures AllParts(marked[..n]) == MarkParts(AllParts(bindings), AllParts(bindings[..n]))
  {
    if n > 0 {
      AllPartsMarked(bindings, marked, hint, n - 1);
      BindingOkAt(bindings, hint, n - 1);
      OneDiskMarked(bindings, marked, n - 1);
      MarkJoin(AllParts(bindings), AllParts(bindings[..n - 1]), bindings[n - 1].partitions);
    }
  }

  lemma {:induction false} WholeListMarked(bindings: seq<DiskBinding>, marked: seq<DiskBinding>, hint: string -> string)
    requires BindingsOk(bindings, hint) && MarkedAll(bindings, marked)
    ensures AllParts(marked) == MarkParts(AllParts(bindings), AllParts(bindings))
  {
    AllPartsMarked(bindings, marked, hint, |bindings|);
    assert bindings[..|bindings|] == bindings && marked[..|bindings|] == marked;
  }

  /** Every partition of the observation is marked ambiguous exactly when another one carries its UUID. */
  lemma {:induction false} UuidMarks(bindings: seq<DiskBinding>, o: Observation, hint: string -> string, k: nat)
    requires Comparable(bindings, hint) && Classified(bindings, o) && k < |AllParts(bindings)|
    ensures k < |AllParts(Listed(o))| && AllParts(Listed(o))[k] == MarkPart(AllParts(bindings), AllParts(bindings)[k])
    ensures AllParts(Listed(o))[k].uuidAmbiguous == Some(UuidShared(AllParts(bindings), k))
  {
    WholeListMarked(bindings, Listed(o), hint);
    UuidOwnersShare(AllParts(bindings), k);
  }

  /** Every GPT disk of the observation is marked ambiguous exactly when another one carries its GUID. */
  lemma GuidMarks(bindings: seq<DiskBinding>, o: Observation, i: nat)
    requires Classified(bindings, o) && i < |bindings| && bindings[i].disposition == GptTable
    ensures Listed(o)[i].idAmbiguous == Some(GuidShared(bindings, i)) && Listed(o)[i].disposition == GptTable
  {
    GuidOwnersShare(bindings, i);
  }

  // -- The summary -----------------------------------------------------------------------------------

  datatype Summary = Summary(
    candidates: nat,
    gptDisks: nat,
    partitions: nat,
    unsupported: nat,
    coverage: Coverage,
    ambiguousGuids: nat,
    ambiguousUuids: nat,
    identityIncomplete: bool,
    contentRead: bool,
    mutationsPerformed: bool)

  predicate GuidFlag(b: DiskBinding) {
    b.disposition == GptTable && b.idAmbiguous == Some(true)
  }

  function AmbiguousGuids(bs: seq<DiskBinding>): nat {
    if bs == [] then 0 else AmbiguousGuids(bs[..|bs| - 1]) + if GuidFlag(bs[|bs| - 1]) then 1 else 0
  }

  function AmbiguousUuids(parts: seq<PartitionBinding>): nat {
    if parts == [] then 0
    else AmbiguousUuids(parts[..|parts| - 1]) + if parts[|parts| - 1].uuidAmbiguous == Some(true) then 1 else 0
  }

  /** The partitions that count: those of GPT disks. */
  function GptParts(bs: seq<DiskBinding>): seq<PartitionBinding> {
    if bs == [] then []
    else GptParts(bs[..|bs| - 1]) + if bs[|bs| - 1].disposition == GptTable then bs[|bs| - 1].partitions else []
  }

  predicate SummaryValid(s: Summary) {
    && s.candidates <= MAX_SUMMARY_DISKS && s.gptDisks <= s.candidates && s.partitions <= MAX_SUMMARY_DISKS * 256
    && s.unsupported == s.candidates - s.gptDisks && s.ambiguousGuids <= s.gptDisks && s.ambiguousUuids <= s.partitions
    && !s.contentRead && !s.mutationsPerformed && s.coverage == CoverageOf(s.candidates, s.gptDisks)
  }

  lemma {:induction false} AmbiguousJoin(a: seq<PartitionBinding>, b: seq<PartitionBinding>)
    ensures AmbiguousUuids(a + b) == AmbiguousUuids(a) + AmbiguousUuids(b)
    decreases |b|
  {
    if b == [] {
      assert a + b == a;
    } else {
      AmbiguousJoin(a, b[..|b| - 1]);
      assert (a + b)[..|a + b| - 1] == a + b[..|b| - 1];
    }
  }

  method CountParts(parts: seq<PartitionBinding>) returns (ambiguous: nat)
    ensures ambiguous == AmbiguousUuids(parts)
  {
    ambiguous := 0;
    assert parts[..0] == [];
    for k := 0 to |parts|
      invariant ambiguous == AmbiguousUuids(parts[..k])
    {
      assert parts[..k + 1][..k] == parts[..k];
      if parts[k].uuidAmbiguous == Some(true) {
        ambiguous := ambiguous + 1;
      }
    }
    assert parts[..|parts|] == parts;
  }

  method Count(bs: seq<DiskBinding>) returns (guids: nat, partitions: nat, uuids: nat)
    ensures guids == AmbiguousGuids(bs) && partitions == |GptParts(bs)| && uuids == AmbiguousUuids(GptParts(bs))
  {
    guids, partitions, uuids := 0, 0, 0;
    assert bs[..0] == [];
    for i := 0 to |bs|
      invariant guids == AmbiguousGuids(bs[..i]) && partitions == |GptParts(bs[..i])|
      invariant uuids == AmbiguousUuids(GptParts(bs[..i]))
    {
      assert bs[..i + 1][..i] == bs[..i];
      if bs[i].disposition == GptTable {
        var n := CountParts(bs[i].partitions);
        AmbiguousJoin(GptParts(bs[..i]), bs[i].partitions);
        if bs[i].idAmbiguous == Some(true) {
          guids := guids + 1;
        }
        partitions, uuids := partitions + |bs[i].partitions|, uuids + n;
      } else {
        assert GptParts(bs[..i]) + [] == GptParts(bs[..i]);
      }
    }
    assert bs[..|bs|] == bs;
  }

  function SummaryOf(o: Observation): Summary {
    Summary(o.candidates, o.gptDisks, |GptParts(Listed(o))|, o.unsupported + o.noTable, o.coverage,
            AmbiguousGuids(Listed(o)),
            AmbiguousUuids(GptParts(Listed(o))), o.vpdIncomplete, false, false)
  }

  /** The summary can be given: there is a list, it is the counted one, and the validator accepts the result. */
  predicate Summarises(o: Observation) {
    o.bindings.Some? && o.candidates == |o.bindings.value| && SummaryValid(SummaryOf(o))
  }

  method Summarise(o: Observation) returns (r: Option<Summary>)
    ensures r.Some? <==> Summarises(o)
    ensures r.Some? ==> r.value == SummaryOf(o)
    ensures r.Some? ==>
              && r.value.gptDisks <= r.value.candidates <= 6 && r.value.partitions <= 1536
              && r.value.gptDisks + r.value.unsupported == r.value.candidates
              && r.value.ambiguousGuids <= r.value.gptDisks && r.value.ambiguousUuids <= r.value.partitions
              && !r.value.contentRead && !r.value.mutationsPerformed
              && CoverageMeans(r.value.coverage, r.value.candidates, r.value.gptDisks)
  {
    if o.candidates > MAX_SUMMARY_DISKS || o.gptDisks > o.candidates || o.bindings.None?
       || |o.bindings.value| != o.candidates {
      return None;
    }
    var guids, partitions, uuids := Count(o.bindings.value);
    var s := Summary(o.candidates, o.gptDisks, partitions, o.unsupported + o.noTable, o.coverage, guids, uuids,
                     o.vpdIncomplete, false, false);
    r := if SummaryValid(s) then Some(s) else None;
  }

  // -- The summary of a classification ---------------------------------------------------------------

  lemma {:induction false} AmbiguousBounds(bs: seq<DiskBinding>)
    ensures AmbiguousGuids(bs) <= Disposed(bs, GptTable)
  {
    if bs != [] {
      AmbiguousBounds(bs[..|bs| - 1]);
    }
  }

  lemma {:induction false} UuidBounds(parts: seq<PartitionBinding>)
    ensures AmbiguousUuids(parts) <= |parts|
  {
    if parts != [] {
      UuidBounds(parts[..|parts| - 1]);
    }
  }

  /** Marking changes neither dispositions nor the number of partitions, which only GPT disks have. */
  ghost predicate ShapeKept(bindings: seq<DiskBinding>, marked: seq<DiskBinding>) {
    |marked| == |bindings| && forall i :: 0 <= i < |bindings| ==>
      && marked[i].disposition == bindings[i].disposition && |marked[i].partitions| == |bindings[i].partitions|
      && (marked[i].disposition != GptTable ==> marked[i].partitions == [])
  }

  lemma {:induction false} ShapeCounts(bindings: seq<DiskBinding>, marked: seq<DiskBinding>, n: nat)
    requires ShapeKept(bindings, marked) && n <= |bindings|
    ensures Disposed(marked[..n], GptTable) == Disposed(bindings[..n], GptTable)
    ensures GptParts(marked[..n]) == AllParts(marked[..n]) && |AllParts(marked[..n])| == |AllParts(bindings[..n])|
  {
    if n > 0 {
      ShapeCounts(bindings, marked, n - 1);
      assert marked[..n][..n - 1] == marked[..n - 1] && bindings[..n][..n - 1] == bindings[..n - 1];
    }
  }

  lemma {:induction false} KeptWhole(bindings: seq<DiskBinding>, o: Observation, hint: string -> string)
    requires Comparable(bindings, hint) && Classified(bindings, o)
    ensures Disposed(Listed(o), GptTable) == o.gptDisks
    ensures GptParts(Listed(o)) == AllParts(Listed(o)) && |AllParts(Listed(o))| == |AllParts(bindings)|
  {
    forall i | 0 <= i < |bindings| ensures DiskOk(bindings[i]) {
      BindingOkAt(bindings, hint, i);
    }
    ShapeCounts(bindings, Listed(o), |bindings|);
    assert bindings[..|bindings|] == bindings && Listed(o)[..|bindings|] == Listed(o);
  }

  /** A summary within the size limits: at least one disk, at most six, and at most 1536 partitions. */
  predicate Summarisable(bindings: seq<DiskBinding>) {
    1 <= |bindings| <= MAX_SUMMARY_DISKS && |AllParts(bindings)| <= MAX_SUMMARY_DISKS * 256
  }

  lemma {:induction false} SummaryCounts(bindings: seq<DiskBinding>, o: Observation, hint: string -> string)
    requires Comparable(bindings, hint) && Classified(bindings, o)
    ensures var s := SummaryOf(o);
            && s.candidates == |bindings| && s.gptDisks <= s.candidates && s.partitions == |AllParts(bindings)|
            && s.unsupported == s.candidates - s.gptDisks && s.ambiguousGuids <= s.gptDisks
            && s.ambiguousUuids <= s.partitions
            && s.coverage == CoverageOf(s.candidates, s.gptDisks)
  {
    DispositionsSum(bindings);
    KeptWhole(bindings, o, hint);
    AmbiguousBounds(Listed(o));
    UuidBounds(GptParts(Listed(o)));
  }

  /** A classification summarises exactly within those limits. */
  lemma {:induction false} SummaryAcceptedExactly(bindings: seq<DiskBinding>, o: Observation, hint: string -> string)
    requires Comparable(bindings, hint) && Classified(bindings, o)
    ensures Summarises(o) <==> Summarisable(bindings)
  {
    SummaryCounts(bindings, o, hint);
  }

  /** The empty candidate set classifies, and the validator would accept its summary, but none is ever given:
      the copied list of bindings is absent. */
  lemma EmptySetIsRefused(hint: string -> string) returns (o: Observation)
    ensures Comparable([], hint) && Classified([], o) && o.coverage == EmptySet
    ensures SummaryValid(SummaryOf(o)) && !Summarises(o)
  {
    o := Observation(0, 0, 0, 0, EmptySet, false, false, None);
  }

  // -- What the summary means ------------------------------------------------------------------------

  function GptAt(bindings: seq<DiskBinding>): set<nat> {
    set i: nat | i < |bindings| && bindings[i].disposition == GptTable
  }

  function SharedGuidsAt(bindings: seq<DiskBinding>): set<nat> {
    set i: nat | i < |bindings| && bindings[i].disposition == GptTable && GuidShared(bindings, i)
  }

  function SharedUuidsAt(parts: seq<PartitionBinding>): set<nat> {
    set k: nat | k < |parts| && UuidShared(parts, k)
  }

  predicate CoverageMeans(coverage: Coverage, candidates: nat, gpt: nat) {
    match coverage
    case EmptySet => candidates == 0
    case NoGpt => candidates > 0 && gpt == 0
    case PartialGpt => 0 < gpt < candidates
    case AllGpt => candidates > 0 && gpt == candidates
  }

  predicate DisksMean(bindings: seq<DiskBinding>, s: Summary) {
    && s.candidates == |bindings| && s.gptDisks == |GptAt(bindings)| && s.unsupported == |bindings| - s.gptDisks
    && s.ambiguousGuids == |SharedGuidsAt(bindings)|
  }

  predicate PartsMean(parts: seq<PartitionBinding>, s: Summary) {
    s.partitions == |parts| && s.ambiguousUuids == |SharedUuidsAt(parts)|
  }

  /** The published counts: GPT disks, partitions, and how many of each share an identifier with another one. */
  predicate SummaryMeans(bindings: seq<DiskBinding>, incomplete: bool, s: Summary) {
    && DisksMean(bindings, s) && PartsMean(AllParts(bindings), s)
    && CoverageMeans(s.coverage, s.candidates, s.gptDisks)
    && s.identityIncomplete == incomplete && !s.contentRead && !s.mutationsPerformed
  }

  function DisposedAt(bs: seq<DiskBinding>, n: nat, d: Disposition): set<nat>
    requires n <= |bs|
  {
    set i: nat | i < n && bs[i].disposition == d
  }

  function FlaggedAt(bs: seq<DiskBinding>, n: nat): set<nat>
    requires n <= |bs|
  {
    set i: nat | i < n && GuidFlag(bs[i])
  }

  function UuidFlaggedAt(parts: seq<PartitionBinding>, n: nat): set<nat>
    requires n <= |parts|
  {
    set i: nat | i < n && parts[i].uuidAmbiguous == Some(true)
  }

  lemma SetsStep(bs: seq<DiskBinding>, n: nat, d: Disposition)
    requires n < |bs|
    ensures n !in DisposedAt(bs, n, d) && n !in FlaggedAt(bs, n)
    ensures DisposedAt(bs, n + 1, d) == DisposedAt(bs, n, d) + if bs[n].disposition == d then {n} else {}
    ensures FlaggedAt(bs, n + 1) == FlaggedAt(bs, n) + if GuidFlag(bs[n]) then {n} else {}
  {
  }

  lemma UuidSetStep(parts: seq<PartitionBinding>, n: nat)
    requires n < |parts|
    ensures n !in UuidFlaggedAt(parts, n)
    ensures UuidFlaggedAt(parts, n + 1) ==
              UuidFlaggedAt(parts, n) + if parts[n].uuidAmbiguous == Some(true) then {n} else {}
  {
  }

  lemma {:induction false} DiskCounts(bs: seq<DiskBinding>, n: nat, d: Disposition)
    requires n <= |bs|
    ensures Disposed(bs[..n], d) == |DisposedAt(bs, n, d)| && AmbiguousGuids(bs[..n]) == |FlaggedAt(bs, n)|
  {
    if n > 0 {
      DiskCounts(bs, n - 1, d);
      SetsStep(bs, n - 1, d);
      assert bs[..n][..n - 1] == bs[..n - 1];
    }
  }

  lemma {:induction false} UuidCounts(parts: seq<PartitionBinding>, n: nat)
    requires n <= |parts|
    ensures AmbiguousUuids(parts[..n]) == |UuidFlaggedAt(parts, n)|
  {
    if n > 0 {
      UuidCounts(parts, n - 1);
      UuidSetStep(parts, n - 1);
      assert parts[..n][..n - 1] == parts[..n - 1];
    }
  }

  lemma FlaggedAreShared(bindings: seq<DiskBinding>, o: Observation)
    requires Classified(bindings, o)
    ensures FlaggedAt(Listed(o), |bindings|) == SharedGuidsAt(bindings)
  {
    forall i: nat | i < |bindings| ensures GuidFlag(Listed(o)[i]) <==> i in SharedGuidsAt(bindings) {
      assert Listed(o)[i] == MarkDisk(bindings, bindings[i]);
      if bindings[i].disposition == GptTable {
        GuidMarks(bindings, o, i);
      }
    }
  }

  lemma {:induction false} FlaggedUuidsAreShared(bindings: seq<DiskBinding>, o: Observation, hint: string -> string)
    requires Comparable(bindings, hint) && Classified(bindings, o)
    ensures var all, marked := AllParts(bindings), AllParts(Listed(o));
            |marked| == |all| && UuidFlaggedAt(marked, |all|) == SharedUuidsAt(all)
  {
    KeptWhole(bindings, o, hint);
    var all, marked := AllParts(bindings), AllParts(Listed(o));
    forall k: nat | k < |all| ensures marked[k].uuidAmbiguous == Some(true) <==> k in SharedUuidsAt(all) {
      UuidMarks(bindings, o, hint, k);
    }
  }

  lemma {:induction false} DisksAreMeant(bindings: seq<DiskBinding>)
    ensures Disposed(bindings, GptTable) == |GptAt(bindings)|
  {
    DiskCounts(bindings, |bindings|, GptTable);
    assert bindings[..|bindings|] == bindings;
    assert DisposedAt(bindings, |bindings|, GptTable) == GptAt(bindings);
  }

  lemma {:induction false} GuidsAreMeant(bindings: seq<DiskBinding>, o: Observation)
    requires Classified(bindings, o)
    ensures AmbiguousGuids(Listed(o)) == |SharedGuidsAt(bindings)|
  {
    DiskCounts(Listed(o), |bindings|, GptTable);
    FlaggedAreShared(bindings, o);
    assert Listed(o)[..|bindings|] == Listed(o);
  }

  lemma {:induction false} UuidsAreMeant(bindings: seq<DiskBinding>, o: Observation, hint: string -> string)
    requires Comparable(bindings, hint) && Classified(bindings, o)
    ensures AmbiguousUuids(AllParts(Listed(o))) == |SharedUuidsAt(AllParts(bindings))|
  {
    var marked := AllParts(Listed(o));
    UuidCounts(marked, |marked|);
    FlaggedUuidsAreShared(bindings, o, hint);
    assert marked[..|marked|] == marked;
  }

  lemma DisksSummarised(bindings: seq<DiskBinding>, o: Observation)
    requires Classified(bindings, o)
    ensures DisksMean(bindings, SummaryOf(o))
    ensures CoverageMeans(o.coverage, |bindings|, o.gptDisks)
  {
    DispositionsSum(bindings);
    DisksAreMeant(bindings);
    GuidsAreMeant(bindings, o);
  }

  lemma {:induction false} PartsSummarised(bindings: seq<DiskBinding>, o: Observation, hint: string -> string)
    requires Comparable(bindings, hint) && Classified(bindings, o)
    ensures PartsMean(AllParts(bindings), SummaryOf(o))
  {
    KeptWhole(bindings, o, hint);
    UuidsAreMeant(bindings, o, hint);
  }

  lemma SummaryIsMeant(bindings: seq<DiskBinding>, o: Observation, hint: string -> string)
    requires Comparable(bindings, hint) && Classified(bindings, o)
    ensures SummaryMeans(bindings, o.vpdIncomplete, SummaryOf(o))
  {
    DisksSummarised(bindings, o);
    PartsSummarised(bindings, o, hint);
  }

  /** What the broker publishes about the tables of the candidates. */
  method Publish(given: Option<seq<DiskBinding>>, hint: string -> string, ambiguous: bool, incomplete: bool)
    returns (r: Option<Summary>)
    ensures r.Some? <==> given.Some? && Comparable(given.value, hint) && Summarisable(given.value)
    ensures r.Some? ==> SummaryMeans(given.value, incomplete, r.value)
    ensures r.Some? ==> r.value.ambiguousGuids != 1 && r.value.ambiguousUuids != 1
  {
    var o := Classify(given, hint);
    if o.None? {
      return None;
    }
    var observed := o.value.(vpdAmbiguous := ambiguous, vpdIncomplete := incomplete);
    assert Classified(given.value, observed);
    SummaryAcceptedExactly(given.value, observed, hint);
    r := Summarise(observed);
    SummaryIsMeant(given.value, observed, hint);
    NeverExactlyOneGuid(given.value, observed);
    NeverExactlyOneUuid(given.value, observed, hint);
  }

  // -- Never exactly one -----------------------------------------------------------------------------

  lemma {:induction false} GuidWitness(bs: seq<DiskBinding>) returns (i: nat)
    requires AmbiguousGuids(bs) >= 1
    ensures i < |bs| && GuidFlag(bs[i])
    ensures AmbiguousGuids(bs) == 1 ==> forall j :: 0 <= j < |bs| && GuidFlag(bs[j]) ==> j == i
  {
    var rest := bs[..|bs| - 1];
    if AmbiguousGuids(rest) >= 1 {
      i := GuidWitness(rest);
    } else {
      i := |bs| - 1;
      NoGuids(rest);
    }
  }

  lemma {:induction false} NoGuids(bs: seq<DiskBinding>)
    requires AmbiguousGuids(bs) == 0
    ensures forall j :: 0 <= j < |bs| ==> !GuidFlag(bs[j])
  {
    if bs != [] {
      NoGuids(bs[..|bs| - 1]);
    }
  }

  lemma {:induction false} UuidWitness(parts: seq<PartitionBinding>) returns (i: nat)
    requires AmbiguousUuids(parts) >= 1
    ensures i < |parts| && parts[i].uuidAmbiguous == Some(true)
    ensures AmbiguousUuids(parts) == 1 ==>
              forall j :: 0 <= j < |parts| && parts[j].uuidAmbiguous == Some(true) ==> j == i
  {
    var rest := parts[..|parts| - 1];
    if AmbiguousUuids(rest) >= 1 {
      i := UuidWitness(rest);
    } else {
      i := |parts| - 1;
      NoUuids(rest);
    }
  }

  lemma {:induction false} NoUuids(parts: seq<PartitionBinding>)
    requires AmbiguousUuids(parts) == 0
    ensures forall j :: 0 <= j < |parts| ==> parts[j].uuidAmbiguous != Some(true)
  {
    if parts != [] {
      NoUuids(parts[..|parts| - 1]);
    }
  }

  /** Ambiguity needs company: neither count is ever exactly one. */
  lemma NeverExactlyOneGuid(bindings: seq<DiskBinding>, o: Observation)
    requires Classified(bindings, o)
    ensures AmbiguousGuids(Listed(o)) != 1
  {
    if AmbiguousGuids(Listed(o)) == 1 {
      var i := GuidWitness(Listed(o));
      assert Listed(o)[i] == MarkDisk(bindings, bindings[i]);
      GuidOwnersShare(bindings, i);
      var j :| 0 <= j < |bindings| && j != i && bindings[j].disposition == GptTable
          && bindings[j].tableId == bindings[i].tableId;
      GuidOwnersShare(bindings, j);
      assert Listed(o)[j] == MarkDisk(bindings, bindings[j]);
      assert GuidFlag(Listed(o)[j]);
    }
  }

  lemma NeverExactlyOneUuid(bindings: seq<DiskBinding>, o: Observation, hint: string -> string)
    requires Comparable(bindings, hint) && Classified(bindings, o)
    ensures AmbiguousUuids(GptParts(Listed(o))) != 1
  {
    KeptWhole(bindings, o, hint);
    var all := AllParts(bindings);
    if AmbiguousUuids(AllParts(Listed(o))) == 1 {
      var i := UuidWitness(AllParts(Listed(o)));
      UuidMarks(bindings, o, hint, i);
      var j :| 0 <= j < |all| && j != i && all[j].uuid == all[i].uuid;
      assert UuidShared(all, j);
      UuidMarks(bindings, o, hint, j);
    }
  }
}
