/** Matching a partition table read from a disk with the partitions the kernel shows on it. */
module PartitionTables {
  import opened Basics
  import opened BlockInventory
  import opened SourceSets
  import A = Agreement

  const SECTOR_BYTES: nat := 512

  datatype Entry = Entry(number: Uint32, start: Uint64, size: Uint64, typeId: string, uuid: string)

  datatype Scheme = Gpt | Dos | OtherScheme

  datatype Table = Table(scheme: Scheme, id: string, entries: seq<Entry>)

  datatype ProbeStatus = UnsupportedTable | OtherSignature | OtherStatus

  datatype ProbeResult = ProbeResult(fromBlockDevice: bool, status: ProbeStatus, table: Option<Table>)

  datatype Disposition = NoTable | GptTable | Unsupported

  datatype PartitionBinding = PartitionBinding(
    name: string,
    device: DeviceNumber,
    number: Uint32,
    start: Uint64,
    size: Uint64,
    typeId: string,
    typeHint: string,
    uuid: string,
    uuidAmbiguous: Option<bool>)

  datatype DiskBinding = DiskBinding(
    diskName: string,
    generation: Generation,
    status: ProbeStatus,
    disposition: Disposition,
    isGpt: bool,
    tableId: string,
    idAmbiguous: Option<bool>,
    partitions: seq<PartitionBinding>)

  // -- The kernel's side -----------------------------------------------------------------------------

  predicate IsChild(disk: BlockNode, o: BlockNode) {
    o.kind.Partition? && o.parentName == disk.name
  }

  predicate ChildFits(disk: BlockNode, o: BlockNode) {
    && o.parentMajor == Some(disk.device.major) && o.parentMinor == Some(disk.device.minor)
    && o.parentDiskSequence == disk.diskSequence && Dir(o.target) == disk.target
    && o.partitionNumber != 0 && o.partitionStart != 0 && o.sizeBytes != 0 && o.sizeBytes % SECTOR_BYTES == 0
  }

  predicate ChildrenApart(disk: BlockNode, a: BlockNode, b: BlockNode) {
    IsChild(disk, a) && IsChild(disk, b) ==> a.partitionNumber != b.partitionNumber
  }

  /** The kernel's partitions of the disk are well described and numbered apart. */
  predicate ChildrenFit(disk: BlockNode, inventory: seq<BlockNode>, n: nat)
    requires n <= |inventory|
  {
    && (forall i {:trigger ChildFits(disk, inventory[i])} ::
          0 <= i < n && IsChild(disk, inventory[i]) ==> ChildFits(disk, inventory[i]))
    && (forall i, j {:trigger ChildrenApart(disk, inventory[i], inventory[j])} ::
          0 <= i < j < n ==> ChildrenApart(disk, inventory[i], inventory[j]))
  }

  /** The partitions by number. */
  ghost predicate Numbers(disk: BlockNode, inventory: seq<BlockNode>, n: nat, byNumber: map<Uint32, BlockNode>)
    requires n <= |inventory|
  {
    && (forall x ::
          x in byNumber ==>
              IsChild(disk, byNumber[x]) && byNumber[x].partitionNumber == x && byNumber[x] in inventory[..n])
    && (forall i ::
          0 <= i < n && IsChild(disk, inventory[i]) ==>
              inventory[i].partitionNumber in byNumber && byNumber[inventory[i].partitionNumber] == inventory[i])
  }

  lemma NumbersStep(disk: BlockNode, inventory: seq<BlockNode>, n: nat, byNumber: map<Uint32, BlockNode>)
    requires n < |inventory| && ChildrenFit(disk, inventory, n) && Numbers(disk, inventory, n, byNumber)
    ensures var o := inventory[n];
            if !IsChild(disk, o) then ChildrenFit(disk, inventory, n + 1) && Numbers(disk, inventory, n + 1, byNumber)
            else if ChildFits(disk, o) && o.partitionNumber !in byNumber then
              ChildrenFit(disk, inventory, n + 1) && Numbers(disk, inventory, n + 1, byNumber[o.partitionNumber := o])
            else !ChildrenFit(disk, inventory, |inventory|)
  {
    var o := inventory[n];
    assert inventory[..n + 1] == inventory[..n] + [o];
    if IsChild(disk, o) && o.partitionNumber in byNumber {
      var i :| 0 <= i < n && inventory[i] == byNumber[o.partitionNumber];
      assert !ChildrenApart(disk, inventory[i], inventory[n]);
    } else if IsChild(disk, o) && !ChildFits(disk, o) {
      assert !ChildFits(disk, inventory[n]);
    } else {
      forall i | 0 <= i < n ensures ChildrenApart(disk, inventory[i], o) {
      }
    }
  }

  method IndexChildren(disk: BlockNode, inventory: seq<BlockNode>) returns (r: Option<map<Uint32, BlockNode>>)
    ensures r.Some? <==> ChildrenFit(disk, inventory, |inventory|)
    ensures r.Some? ==> Numbers(disk, inventory, |inventory|, r.value)
  {
    var byNumber: map<Uint32, BlockNode> := map[];
    for i := 0 to |inventory|
      invariant ChildrenFit(disk, inventory, i) && Numbers(disk, inventory, i, byNumber)
    {
      var o := inventory[i];
      NumbersStep(disk, inventory, i, byNumber);
      if IsChild(disk, o) {
        if !ChildFits(disk, o) || o.partitionNumber in byNumber {
          return None;
        }
        byNumber := byNumber[o.partitionNumber := o];
      }
    }
    r := Some(byNumber);
  }

  // -- The table's side ------------------------------------------------------------------------------

  /** A used entry that lies inside a disk of so many sectors, without wrapping. */
  predicate EntryFits(e: Entry, sectors: nat) {
    e.number != 0 && e.start != 0 && e.size != 0 && e.start <= MAX_UINT64 - e.size && e.start + e.size <= sectors
  }

  /** The kernel partition with the same number, start and size. */
  predicate Matches(e: Entry, o: BlockNode) {
    o.partitionNumber == e.number && o.partitionStart == e.start && o.sizeBytes / SECTOR_BYTES == e.size
  }

  function BindingOf(e: Entry, o: BlockNode, hint: string -> string): PartitionBinding {
    PartitionBinding(o.name, o.device, e.number, e.start, e.size, e.typeId, hint(e.typeId), e.uuid, None)
  }

  predicate EntryMatched(byNumber: map<Uint32, BlockNode>, e: Entry, sectors: nat) {
    EntryFits(e, sectors) && e.number in byNumber && Matches(e, byNumber[e.number])
  }

  predicate EntriesMatch(byNumber: map<Uint32, BlockNode>, entries: seq<Entry>, sectors: nat, n: nat)
    requires n <= |entries|
  {
    && (forall k {:trigger EntryMatched(byNumber, entries[k], sectors)} ::
          0 <= k < n ==> EntryMatched(byNumber, entries[k], sectors))
    && (forall j, k :: 0 <= j < k < n ==> entries[j].number != entries[k].number)
  }

  /** The partitions of the first entries, each with its kernel node. */
  predicate BoundTo(byNumber: map<Uint32, BlockNode>, entries: seq<Entry>, hint: string -> string,
                    list: seq<PartitionBinding>)
  {
    |list| <= |entries| && forall k :: 0 <= k < |list| ==>
      entries[k].number in byNumber && list[k] == BindingOf(entries[k], byNumber[entries[k].number], hint)
  }

  function NumberSet(entries: seq<Entry>, n: nat): set<Uint32>
    requires n <= |entries|
  {
    if n == 0 then {} else NumberSet(entries, n - 1) + {entries[n - 1].number}
  }

  lemma {:induction false} NumberSetMembers(entries: seq<Entry>, n: nat)
    requires n <= |entries|
    ensures forall x :: x in NumberSet(entries, n) <==> exists k :: 0 <= k < n && entries[k].number == x
  {
    if n > 0 {
      NumberSetMembers(entries, n - 1);
    }
  }

  lemma EntriesStep(byNumber: map<Uint32, BlockNode>, entries: seq<Entry>, sectors: nat, k: nat)
    requires k < |entries|
    ensures EntriesMatch(byNumber, entries, sectors, k + 1) <==>
            && EntriesMatch(byNumber, entries, sectors, k) && EntryMatched(byNumber, entries[k], sectors)
            && entries[k].number !in NumberSet(entries, k)
    ensures EntriesMatch(byNumber, entries, sectors, |entries|) ==> EntriesMatch(byNumber, entries, sectors, k + 1)
  {
    NumberSetMembers(entries, k);
  }

  method MatchEntries(byNumber: map<Uint32, BlockNode>, entries: seq<Entry>, sectors: nat, hint: string -> string)
    returns (r: Option<seq<PartitionBinding>>)
    ensures r.Some? <==> EntriesMatch(byNumber, entries, sectors, |entries|)
    ensures r.Some? ==> |r.value| == |entries| && BoundTo(byNumber, entries, hint, r.value)
  {
    var seen: set<Uint32> := {};
    var list: seq<PartitionBinding> := [];
    for k := 0 to |entries|
      invariant EntriesMatch(byNumber, entries, sectors, k) && seen == NumberSet(entries, k)
      invariant |list| == k && BoundTo(byNumber, entries, hint, list)
    {
      var e := entries[k];
      EntriesStep(byNumber, entries, sectors, k);
      if !EntryMatched(byNumber, e, sectors) || e.number in seen {
        return None;
      }
      seen, list := seen + {e.number}, list + [BindingOf(e, byNumber[e.number], hint)];
    }
    r := Some(list);
  }

  lemma {:induction false} NumbersCount(entries: seq<Entry>, n: nat)
    requires n <= |entries| && forall j, k :: 0 <= j < k < n ==> entries[j].number != entries[k].number
    ensures |NumberSet(entries, n)| == n
  {
    if n > 0 {
      NumbersCount(entries, n - 1);
      NumberSetMembers(entries, n - 1);
    }
  }

  // -- Correlation -----------------------------------------------------------------------------------

  /** The disk is a whole, sized record of a complete inventory. */
  ghost predicate DiskFits(disk: BlockNode, inventory: seq<BlockNode>, result: ProbeResult) {
    && result.fromBlockDevice && disk.kind.Block? && disk.diskSequence != 0 && disk.sizeBytes != 0
    && disk.sizeBytes % SECTOR_BYTES == 0
    && |inventory| <= MAX_BLOCK_ENTRIES && CompleteInventory(inventory) && disk in inventory
  }

  ghost predicate EntryCovered(disk: BlockNode, inventory: seq<BlockNode>, e: Entry) {
    exists i :: 0 <= i < |inventory| && IsChild(disk, inventory[i]) && Matches(e, inventory[i])
  }

  ghost predicate ChildCovered(entries: seq<Entry>, o: BlockNode) {
    exists k :: 0 <= k < |entries| && Matches(entries[k], o)
  }

  /** Every entry is a partition of the disk, every partition an entry, with number, start and size kept. */
  ghost predicate Bijection(disk: BlockNode, inventory: seq<BlockNode>, entries: seq<Entry>) {
    && (forall k {:trigger EntryCovered(disk, inventory, entries[k])} ::
          0 <= k < |entries| ==> EntryCovered(disk, inventory, entries[k]))
    && (forall i {:trigger ChildCovered(entries, inventory[i])} ::
          0 <= i < |inventory| && IsChild(disk, inventory[i]) ==> ChildCovered(entries, inventory[i]))
    && (forall j, k :: 0 <= j < k < |entries| ==> entries[j].number != entries[k].number)
  }

  predicate EntriesFit(entries: seq<Entry>, sectors: nat) {
    forall k {:trigger EntryFits(entries[k], sectors)} :: 0 <= k < |entries| ==> EntryFits(entries[k], sectors)
  }

  /** When the table and the kernel agree. */
  ghost predicate TableAgrees(disk: BlockNode, inventory: seq<BlockNode>, result: ProbeResult) {
    && ChildrenFit(disk, inventory, |inventory|)
    && (result.status == UnsupportedTable ||
        (if result.table.None? then forall i :: 0 <= i < |inventory| ==> !IsChild(disk, inventory[i])
         else
           && result.status == OtherSignature
           && (result.table.value.scheme == Dos ||
               (&& result.table.value.scheme == Gpt && result.table.value.id != ""
                && Bijection(disk, inventory, result.table.value.entries)
                && EntriesFit(result.table.value.entries, disk.sizeBytes / SECTOR_BYTES)))))
  }

  predicate UsesTable(result: ProbeResult) {
    result.status != UnsupportedTable && result.table.Some? && result.table.value.scheme == Gpt
  }

  /** Matching by number is a bijection exactly when the counts agree as well. */
  lemma MatchIsBijection(disk: BlockNode, inventory: seq<BlockNode>, byNumber: map<Uint32, BlockNode>,
                         entries: seq<Entry>, sectors: nat)
    requires ChildrenFit(disk, inventory, |inventory|) && Numbers(disk, inventory, |inventory|, byNumber)
    ensures |entries| == |byNumber| && EntriesMatch(byNumber, entries, sectors, |entries|) <==>
            Bijection(disk, inventory, entries) && EntriesFit(entries, sectors)
  {
    if |entries| == |byNumber| && EntriesMatch(byNumber, entries, sectors, |entries|) {
      MatchedIsBijection(disk, inventory, byNumber, entries, sectors);
    }
    if Bijection(disk, inventory, entries) && EntriesFit(entries, sectors) {
      BijectionIsMatched(disk, inventory, byNumber, entries, sectors);
    }
  }

  lemma MatchedIsBijection(disk: BlockNode, inventory: seq<BlockNode>, byNumber: map<Uint32, BlockNode>,
                           entries: seq<Entry>, sectors: nat)
    requires ChildrenFit(disk, inventory, |inventory|) && Numbers(disk, inventory, |inventory|, byNumber)
    requires |entries| == |byNumber| && EntriesMatch(byNumber, entries, sectors, |entries|)
    ensures Bijection(disk, inventory, entries) && EntriesFit(entries, sectors)
  {
    forall k | 0 <= k < |entries|
      ensures EntryFits(entries[k], sectors)
      ensures EntryCovered(disk, inventory, entries[k])
    {
      assert EntryMatched(byNumber, entries[k], sectors);
      assert inventory[..|inventory|] == inventory;
      var i :| 0 <= i < |inventory| && inventory[i] == byNumber[entries[k].number];
    }
    NumbersCount(entries, |entries|);
    NumberSetMembers(entries, |entries|);
    forall x | x in NumberSet(entries, |entries|) ensures x in byNumber {
      var k :| 0 <= k < |entries| && entries[k].number == x;
      assert EntryMatched(byNumber, entries[k], sectors);
    }
    SubsetFills(NumberSet(entries, |entries|), byNumber.Keys);
    forall i | 0 <= i < |inventory| && IsChild(disk, inventory[i]) ensures ChildCovered(entries, inventory[i]) {
      assert inventory[i].partitionNumber in NumberSet(entries, |entries|);
      var k :| 0 <= k < |entries| && entries[k].number == inventory[i].partitionNumber;
      assert EntryMatched(byNumber, entries[k], sectors);
    }
  }

  lemma BijectionIsMatched(disk: BlockNode, inventory: seq<BlockNode>, byNumber: map<Uint32, BlockNode>,
                           entries: seq<Entry>, sectors: nat)
    requires Numbers(disk, inventory, |inventory|, byNumber) && Bijection(disk, inventory, entries)
    requires EntriesFit(entries, sectors)
    ensures |entries| == |byNumber| && EntriesMatch(byNumber, entries, sectors, |entries|)
  {
    forall k | 0 <= k < |entries| ensures EntryMatched(byNumber, entries[k], sectors) {
      CoveredIsMatched(disk, inventory, byNumber, entries, sectors, k);
    }
    NumbersCount(entries, |entries|);
    NumberSetMembers(entries, |entries|);
    forall x ensures x in NumberSet(entries, |entries|) <==> x in byNumber.Keys {
      if x in NumberSet(entries, |entries|) {
        var k :| 0 <= k < |entries| && entries[k].number == x;
        assert EntryMatched(byNumber, entries[k], sectors);
      }
      if x in byNumber {
        CoveredHasEntry(disk, inventory, byNumber, entries, x);
      }
    }
    assert NumberSet(entries, |entries|) == byNumber.Keys;
  }

  lemma CoveredIsMatched(disk: BlockNode, inventory: seq<BlockNode>, byNumber: map<Uint32, BlockNode>,
                         entries: seq<Entry>, sectors: nat, k: nat)
    requires Numbers(disk, inventory, |inventory|, byNumber) && Bijection(disk, inventory, entries)
    requires EntriesFit(entries, sectors)
    requires k < |entries|
    ensures EntryMatched(byNumber, entries[k], sectors)
  {
    assert EntryFits(entries[k], sectors) && EntryCovered(disk, inventory, entries[k]);
    var i :| 0 <= i < |inventory| && IsChild(disk, inventory[i]) && Matches(entries[k], inventory[i]);
  }

  lemma {:induction false} CoveredHasEntry(disk: BlockNode, inventory: seq<BlockNode>,
                                           byNumber: map<Uint32, BlockNode>, entries: seq<Entry>, x: Uint32)
    requires Numbers(disk, inventory, |inventory|, byNumber) && Bijection(disk, inventory, entries) && x in byNumber
    ensures x in NumberSet(entries, |entries|)
  {
    assert inventory[..|inventory|] == inventory;
    var i :| 0 <= i < |inventory| && inventory[i] == byNumber[x];
    assert ChildCovered(entries, inventory[i]);
    var k :| 0 <= k < |entries| && Matches(entries[k], inventory[i]);
    NumberSetMembers(entries, |entries|);
  }

  // -- One disk --------------------------------------------------------------------------------------

  /** Found by generation, and the record of that name is the disk itself. */
  method FindDisk(disk: BlockNode, inventory: seq<BlockNode>, devices: seq<ObservedDevice>) returns (ok: bool)
    requires disk.kind.Block? && CompleteInventory(inventory) && devices == WholeDevices(inventory, |inventory|)
    ensures ok <==> disk in inventory
  {
    if disk in inventory {
      ghost var i :| 0 <= i < |inventory| && inventory[i] == disk;
      DeviceListed(inventory, |inventory|, i);
      A.CompleteIsUnique(inventory);
    }
    var found := false;
    for k := 0 to |devices|
      invariant found <==> DeviceOf(disk) in devices[..k]
    {
      assert devices[..k + 1] == devices[..k] + [devices[k]];
      if devices[k] == DeviceOf(disk) {
        found := true;
      }
    }
    assert devices[..|devices|] == devices;
    if !found {
      return false;
    }
    for i := 0 to |inventory|
      invariant forall j :: 0 <= j < i && inventory[j].name == disk.name ==> inventory[j] == disk
    {
      if inventory[i].name == disk.name && inventory[i] != disk {
        return false;
      }
    }
    ghost var i := DeviceSource(inventory, |inventory|, DeviceOf(disk));
    ok := true;
  }

  function DispositionOf(result: ProbeResult): Disposition {
    if result.status == UnsupportedTable then Unsupported
    else if result.table.None? then NoTable
    else if result.table.value.scheme == Dos then Unsupported
    else GptTable
  }

  ghost predicate PartitionBound(disk: BlockNode, inventory: seq<BlockNode>, e: Entry, hint: string -> string,
                                 p: PartitionBinding)
  {
    exists i ::
      0 <= i < |inventory| && IsChild(disk, inventory[i]) && Matches(e, inventory[i])
      && p == BindingOf(e, inventory[i], hint)
  }

  /** What a successful correlation returns. */
  ghost predicate BindingHolds(disk: BlockNode, inventory: seq<BlockNode>, result: ProbeResult, hint: string -> string,
                               b: DiskBinding)
  {
    && b.diskName == disk.name && b.generation == DeviceOf(disk).generation && b.status == result.status
    && b.disposition == DispositionOf(result) && b.idAmbiguous.None?
    && if b.disposition == GptTable then
         && UsesTable(result) && b.isGpt && b.tableId == result.table.value.id
         && |b.partitions| == |result.table.value.entries|
         && forall k {:trigger b.partitions[k]} :: 0 <= k < |b.partitions| ==>
              PartitionBound(disk, inventory, result.table.value.entries[k], hint, b.partitions[k])
       else !b.isGpt && b.tableId == "" && b.partitions == []
  }

  // -- What a binding means --------------------------------------------------------------------------

  /** The kernel's partition is the entry of the table: number, start and size agree, and the binding says so. */
  predicate PartitionMeans(disk: BlockNode, e: Entry, o: BlockNode, hint: string -> string, p: PartitionBinding) {
    && o.kind.Partition? && o.parentName == disk.name
    && o.partitionNumber == e.number && o.partitionStart == e.start && o.sizeBytes == e.size * 512
    && p.name == o.name && p.device == o.device && p.number == e.number && p.start == e.start && p.size == e.size
    && p.typeId == e.typeId && p.typeHint == hint(e.typeId) && p.uuid == e.uuid && p.uuidAmbiguous.None?
  }

  ghost predicate PartitionFound(disk: BlockNode, inventory: seq<BlockNode>, e: Entry, hint: string -> string,
                                 p: PartitionBinding)
  {
    exists o :: o in inventory && PartitionMeans(disk, e, o, hint, p)
  }

  predicate ListedIn(entries: seq<Entry>, o: BlockNode) {
    exists e ::
      e in entries && e.number == o.partitionNumber && e.start == o.partitionStart && e.size * 512 == o.sizeBytes
  }

  /** A GPT binding: entries and kernel partitions correspond one to one, in the order of the entries. */
  ghost predicate GptMeans(disk: BlockNode, inventory: seq<BlockNode>, table: Table, hint: string -> string,
                           b: DiskBinding)
  {
    && table.scheme == Gpt && b.isGpt && table.id != "" && b.tableId == table.id && |b.partitions| == |table.entries|
    && (forall k {:trigger b.partitions[k]} :: 0 <= k < |b.partitions| ==>
          PartitionFound(disk, inventory, table.entries[k], hint, b.partitions[k]))
    && (forall o {:trigger ListedIn(table.entries, o)} ::
          o in inventory && o.kind.Partition? && o.parentName == disk.name ==> ListedIn(table.entries, o))
  }

  predicate SizedPartition(o: BlockNode) {
    o.partitionNumber != 0 && o.partitionStart != 0 && o.sizeBytes != 0 && o.sizeBytes % 512 == 0
  }

  /** What a binding says, from the disk, the inventory and the probed table alone. */
  ghost predicate BindingMeans(disk: BlockNode, inventory: seq<BlockNode>, result: ProbeResult, hint: string -> string,
                               b: DiskBinding)
  {
    && b.diskName == disk.name && b.generation.device == disk.device
    && b.generation.diskSequence == disk.diskSequence && b.status == result.status && b.idAmbiguous.None?
    && (forall o {:trigger SizedPartition(o)} ::
          o in inventory && o.kind.Partition? && o.parentName == disk.name ==> SizedPartition(o))
    && (b.disposition == Unsupported <==>
          result.status == UnsupportedTable || (result.table.Some? && result.table.value.scheme == Dos))
    && (b.disposition == NoTable <==> result.status != UnsupportedTable && result.table.None?)
    && (b.disposition == NoTable ==>
          forall o :: o in inventory && o.parentName == disk.name ==> !o.kind.Partition?)
    && if b.disposition == GptTable then
         result.table.Some? && GptMeans(disk, inventory, result.table.value, hint, b)
       else !b.isGpt && b.tableId == "" && b.partitions == []
  }

  lemma SizeInSectors(disk: BlockNode, inventory: seq<BlockNode>, i: nat, e: Entry)
    requires ChildrenFit(disk, inventory, |inventory|) && i < |inventory| && IsChild(disk, inventory[i])
    ensures Matches(e, inventory[i]) <==>
              inventory[i].partitionNumber == e.number && inventory[i].partitionStart == e.start
              && inventory[i].sizeBytes == e.size * 512
  {
    assert ChildFits(disk, inventory[i]);
  }

  lemma BoundIsFound(disk: BlockNode, inventory: seq<BlockNode>, e: Entry, hint: string -> string, p: PartitionBinding)
    requires ChildrenFit(disk, inventory, |inventory|) && PartitionBound(disk, inventory, e, hint, p)
    ensures PartitionFound(disk, inventory, e, hint, p)
  {
    var i :| 0 <= i < |inventory| && IsChild(disk, inventory[i]) && Matches(e, inventory[i])
             && p == BindingOf(e, inventory[i], hint);
    SizeInSectors(disk, inventory, i, e);
    assert PartitionMeans(disk, e, inventory[i], hint, p);
  }

  lemma ChildIsListed(disk: BlockNode, inventory: seq<BlockNode>, entries: seq<Entry>, o: BlockNode)
    requires ChildrenFit(disk, inventory, |inventory|) && Bijection(disk, inventory, entries)
    requires o in inventory && o.kind.Partition? && o.parentName == disk.name
    ensures ListedIn(entries, o)
  {
    var i :| 0 <= i < |inventory| && inventory[i] == o;
    assert ChildCovered(entries, inventory[i]);
    var k :| 0 <= k < |entries| && Matches(entries[k], o);
    SizeInSectors(disk, inventory, i, entries[k]);
    assert entries[k] in entries;
  }

  /** A successful correlation binds every table entry to the kernel partition it is, and conversely. */
  lemma BindingIsMeant(disk: BlockNode, inventory: seq<BlockNode>, result: ProbeResult, hint: string -> string,
                       b: DiskBinding)
    requires TableAgrees(disk, inventory, result) && BindingHolds(disk, inventory, result, hint, b)
    ensures BindingMeans(disk, inventory, result, hint, b)
  {
    forall o | o in inventory && o.kind.Partition? && o.parentName == disk.name ensures SizedPartition(o) {
      var i :| 0 <= i < |inventory| && inventory[i] == o;
      assert ChildFits(disk, inventory[i]);
    }
    if b.disposition == GptTable {
      var entries := result.table.value.entries;
      forall k | 0 <= k < |b.partitions| ensures PartitionFound(disk, inventory, entries[k], hint, b.partitions[k]) {
        BoundIsFound(disk, inventory, entries[k], hint, b.partitions[k]);
      }
      forall o | o in inventory && o.kind.Partition? && o.parentName == disk.name ensures ListedIn(entries, o) {
        ChildIsListed(disk, inventory, entries, o);
      }
    }
  }

  method Correlate(disk: BlockNode, inventory: seq<BlockNode>, result: ProbeResult, hint: string -> string)
    returns (r: Option<DiskBinding>)
    ensures r.Some? <==> DiskFits(disk, inventory, result) && TableAgrees(disk, inventory, result)
    ensures r.Some? ==> BindingMeans(disk, inventory, result, hint, r.value)
    ensures r.Some? ==> BindingHolds(disk, inventory, result, hint, r.value)
  {
    if !result.fromBlockDevice || !disk.kind.Block? || disk.diskSequence == 0 || disk.sizeBytes == 0
       || disk.sizeBytes % SECTOR_BYTES != 0 {
      return None;
    }
    var snapshot :=
        StorageSnapshot(2, STORAGE_SCOPE, true, false, false, false, false, |inventory|, inventory,
                        ["internal trusted correlation"], true);
    var devices := CompleteDeviceSet(snapshot);
    if devices.None? {
      return None;
    }
    var found := FindDisk(disk, inventory, devices.value);
    if !found {
      return None;
    }
    r := CorrelateTable(disk, inventory, result, hint);
    if r.Some? {
      BindingIsMeant(disk, inventory, result, hint, r.value);
    }
  }

  method CorrelateTable(disk: BlockNode, inventory: seq<BlockNode>, result: ProbeResult, hint: string -> string)
    returns (r: Option<DiskBinding>)
    ensures r.Some? <==> TableAgrees(disk, inventory, result)
    ensures r.Some? ==> BindingHolds(disk, inventory, result, hint, r.value)
  {
    var children := IndexChildren(disk, inventory);
    if children.None? {
      return None;
    }
    var binding := DiskBinding(disk.name, DeviceOf(disk).generation, result.status, NoTable, false, "", None, []);
    if result.status == UnsupportedTable {
      return Some(binding.(disposition := Unsupported));
    }
    if result.table.None? {
      NoChildren(disk, inventory, children.value);
      return if |children.value| != 0 then None else Some(binding);
    }
    if result.status != OtherSignature {
      return None;
    }
    var table := result.table.value;
    if table.scheme == Dos {
      return Some(binding.(disposition := Unsupported));
    }
    MatchIsBijection(disk, inventory, children.value, table.entries, disk.sizeBytes / SECTOR_BYTES);
    if table.scheme != Gpt || table.id == "" || |table.entries| != |children.value| {
      return None;
    }
    var list := MatchEntries(children.value, table.entries, disk.sizeBytes / SECTOR_BYTES, hint);
    if list.None? {
      return None;
    }
    BoundPartitions(disk, inventory, children.value, table.entries, disk.sizeBytes / SECTOR_BYTES, hint, list.value);
    r := Some(binding.(disposition := GptTable, isGpt := true, tableId := table.id, partitions := list.value));
  }

  lemma NoChildren(disk: BlockNode, inventory: seq<BlockNode>, byNumber: map<Uint32, BlockNode>)
    requires Numbers(disk, inventory, |inventory|, byNumber)
    ensures |byNumber| == 0 <==> forall i :: 0 <= i < |inventory| ==> !IsChild(disk, inventory[i])
  {
    if |byNumber| != 0 {
      assert byNumber.Keys != {};
      var x :| x in byNumber;
      assert inventory[..|inventory|] == inventory;
    }
  }

  lemma BoundPartitions(disk: BlockNode, inventory: seq<BlockNode>, byNumber: map<Uint32, BlockNode>,
                        entries: seq<Entry>, sectors: nat,
                        hint: string -> string, list: seq<PartitionBinding>)
    requires Numbers(disk, inventory, |inventory|, byNumber) && EntriesMatch(byNumber, entries, sectors, |entries|)
    requires BoundTo(byNumber, entries, hint, list) && |list| == |entries|
    ensures forall k :: 0 <= k < |list| ==> PartitionBound(disk, inventory, entries[k], hint, list[k])
  {
    forall k | 0 <= k < |list| ensures PartitionBound(disk, inventory, entries[k], hint, list[k]) {
      assert EntryMatched(byNumber, entries[k], sectors);
      assert inventory[..|inventory|] == inventory;
      var i :| 0 <= i < |inventory| && inventory[i] == byNumber[entries[k].number];
    }
  }

  /** Every accepted entry ends inside the disk, also in bytes of 64 bits. */
  lemma EntriesStayInside(disk: BlockNode, inventory: seq<BlockNode>, result: ProbeResult, k: nat)
    requires DiskFits(disk, inventory, result) && TableAgrees(disk, inventory, result)
    requires DispositionOf(result) == GptTable
    requires k < |result.table.value.entries|
    ensures var e := result.table.value.entries[k];
            (e.start + e.size) * SECTOR_BYTES <= disk.sizeBytes <= MAX_UINT64
  {
    assert EntryFits(result.table.value.entries[k], disk.sizeBytes / SECTOR_BYTES);
  }
}
