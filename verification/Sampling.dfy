/** Reading sysfs while it changes: every attribute read sees the world at its own instant, a block node is
    read twice, and the inventory is published only if both passes agree. */
module Sampling {
  import opened Basics
  import opened Sorting
  import opened BlockInventory
  import opened SourceSets
  import opened Listings

  // -- The changing world ----------------------------------------------------------------------------

  /** A SCSI page reduced to its value and status. */
  datatype Vpd = Vpd(value: string, status: IdentityStatus)

  // A page read always has an outcome.
  type PageRead = v: Vpd | v.status != NoStatus witness Vpd("", Unavailable)

  datatype PartitionRead = NoPartition | PartitionNumber(number: Uint32) | PartitionUnreadable

  /** The attributes of one node at one instant; none where a read or its parsing would fail. */
  datatype NodeState = NodeState(
    target: Option<SysfsPath>,
    partition: PartitionRead,
    start: Option<Uint64>,
    diskSequence: Option<Uint64>,
    device: Option<DeviceNumber>,
    sizeBytes: Option<Uint64>,
    readOnly: Option<bool>,
    removable: Option<bool>,
    serial: PageRead,
    wwn: PageRead)

  datatype Relation = HolderLinks | SlaveLinks

  // The relation directories stand under a device path, not under a block name. A link is given by the path it
  // resolves to, and by none where it is unreadable, empty, too long or absolute.
  datatype World = World(
    entries: Option<seq<string>>,
    node: string -> NodeState,
    directory: (SysfsPath, Relation) -> Option<seq<string>>,
    link: (SysfsPath, Relation, string) -> Option<SysfsPath>)

  // What the relation of a device path is found to be when its directory and links are read from an instant on.
  type Relations = (SysfsPath, Relation, nat) -> Option<seq<SysfsPath>>

  /** The world at every instant, and what follows from it for the relations. */
  datatype Trace = Trace(at: nat -> World, relations: Relations)

  /** A disk sequence that shows twice showed all the time between: it changes with every new occupant of the
      name and never returns to an earlier value. */
  ghost predicate SequencesNeverReturn(trace: Trace) {
    forall name, a: nat, t: nat, b: nat {:trigger Holds(trace, name, a, b, t)} ::
      a <= t <= b ==> Holds(trace, name, a, b, t)
  }

  ghost predicate Holds(trace: Trace, name: string, a: nat, b: nat, t: nat) {
    trace.at(a).node(name).diskSequence.Some?
    && trace.at(a).node(name).diskSequence == trace.at(b).node(name).diskSequence ==>
      trace.at(t).node(name).diskSequence == trace.at(a).node(name).diskSequence
  }

  // -- The relations of a node -----------------------------------------------------------------------

  function Base(path: SysfsPath): string {
    if path == [] then "" else path[|path| - 1]
  }

  function Bases(list: seq<SysfsPath>): (names: seq<string>)
    ensures |names| == |list| && forall i :: 0 <= i < |names| ==> names[i] == Base(list[i])
  {
    seq(|list|, i requires 0 <= i < |list| => Base(list[i]))
  }

  /** At its instant the link leads into the device tree, to a node of its own name. */
  predicate LinkRead(at: nat -> World, owner: SysfsPath, relation: Relation, path: SysfsPath, t: nat) {
    at(t).link(owner, relation, Base(path)) == Some(path) && |path| > 1 && path[0] == "devices"
  }

  ghost function LinkReadFrom(at: nat -> World, owner: SysfsPath, relation: Relation, t: nat)
    : (nat, SysfsPath) -> bool
  {
    (i: nat, path: SysfsPath) => LinkRead(at, owner, relation, path, t + i)
  }

  /** The directory is listed at `t`, and its links are read one after the other in the order of their names. */
  ghost predicate RelationRead(at: nat -> World, owner: SysfsPath, relation: Relation, list: seq<SysfsPath>, t: nat) {
    var entries := at(t).directory(owner, relation);
    && entries.Some? && |entries.value| <= MAX_BLOCK_ENTRIES && Listing(entries.value, Bases(list))
    && Each(list, LinkReadFrom(at, owner, relation, t + 1))
  }

  predicate RelationsOk(list: seq<SysfsPath>) {
    |list| <= MAX_BLOCK_ENTRIES
    && forall i, j {:trigger Apart(list[i], list[j])} :: 0 <= i < j < |list| ==> Apart(list[i], list[j])
  }

  predicate Apart(a: SysfsPath, b: SysfsPath) {
    a != b
  }

  lemma RelationIsOk(at: nat -> World, owner: SysfsPath, relation: Relation, list: seq<SysfsPath>, t: nat)
    requires RelationRead(at, owner, relation, list, t)
    ensures RelationsOk(list)
  {
    var entries := at(t).directory(owner, relation).value;
    assert |Bases(list)| == |multiset(Bases(list))| == |multiset(entries)| == |entries|;
    forall i, j | 0 <= i < j < |list| ensures Apart(list[i], list[j]) {
      assert TextLess(Bases(list)[i], Bases(list)[j]);
      TextLessIrreflexive(Base(list[i]));
    }
  }

  /** The reads of a relation admit only one result. */
  lemma RelationOnce(at: nat -> World, owner: SysfsPath, relation: Relation, a: seq<SysfsPath>, b: seq<SysfsPath>,
                     t: nat)
    requires RelationRead(at, owner, relation, a, t) && RelationRead(at, owner, relation, b, t)
    ensures a == b
  {
    OneListing(at(t).directory(owner, relation).value, Bases(a), Bases(b));
    forall i | 0 <= i < |a| ensures a[i] == b[i] {
      assert Bases(a)[i] == Bases(b)[i];
      EachAt(a, LinkReadFrom(at, owner, relation, t + 1), i);
      EachAt(b, LinkReadFrom(at, owner, relation, t + 1), i);
      assert LinkRead(at, owner, relation, a[i], t + 1 + i) && LinkRead(at, owner, relation, b[i], t + 1 + i);
    }
  }

  /** The relation is what its reads give, and none where they fail. */
  ghost predicate RelationTold(trace: Trace, owner: SysfsPath, relation: Relation, t: nat) {
    match trace.relations(owner, relation, t)
    case Some(list) => RelationRead(trace.at, owner, relation, list, t)
    case None => forall list :: !RelationRead(trace.at, owner, relation, list, t)
  }

  ghost predicate RelationsTold(trace: Trace) {
    forall owner, relation, t {:trigger RelationTold(trace, owner, relation, t)} ::
      RelationTold(trace, owner, relation, t)
  }

  ghost function FoundRelation(at: nat -> World, owner: SysfsPath, relation: Relation, t: nat)
    : (r: Option<seq<SysfsPath>>)
    ensures if r.Some? then RelationRead(at, owner, relation, r.value, t)
            else forall list :: !RelationRead(at, owner, relation, list, t)
  {
    if list :| RelationRead(at, owner, relation, list, t) then Some(list) else None
  }

  lemma RelationFound(trace: Trace, owner: SysfsPath, relation: Relation, list: seq<SysfsPath>, t: nat)
    requires RelationsTold(trace) && RelationRead(trace.at, owner, relation, list, t)
    ensures trace.relations(owner, relation, t) == Some(list)
  {
    assert RelationTold(trace, owner, relation, t);
    if trace.relations(owner, relation, t).Some? {
      RelationOnce(trace.at, owner, relation, list, trace.relations(owner, relation, t).value, t);
    }
  }

  lemma RelationLost(trace: Trace, owner: SysfsPath, relation: Relation, t: nat)
    requires RelationsTold(trace) && forall list :: !RelationRead(trace.at, owner, relation, list, t)
    ensures trace.relations(owner, relation, t) == None
  {
    assert RelationTold(trace, owner, relation, t);
  }

  /** A directory that cannot be listed in order gives no relation. */
  lemma UnlistedIsLost(at: nat -> World, owner: SysfsPath, relation: Relation, t: nat)
    requires var entries := at(t).directory(owner, relation);
             entries.None? || |entries.value| > MAX_BLOCK_ENTRIES || forall names :: !Listing(entries.value, names)
    ensures forall list :: !RelationRead(at, owner, relation, list, t)
  {
  }

  /** The links read so far, each at its own instant. */
  ghost predicate LinksSoFar(at: nat -> World, owner: SysfsPath, relation: Relation, names: seq<string>,
                             list: seq<SysfsPath>, t: nat)
  {
    |list| <= |names| && Bases(list) == names[..|list|] && Each(list, LinkReadFrom(at, owner, relation, t))
  }

  lemma LinksGoOn(at: nat -> World, owner: SysfsPath, relation: Relation, names: seq<string>, list: seq<SysfsPath>,
                  path: SysfsPath, t: nat)
    requires LinksSoFar(at, owner, relation, names, list, t) && |list| < |names|
    requires LinkRead(at, owner, relation, path, t + |list|) && Base(path) == names[|list|]
    ensures LinksSoFar(at, owner, relation, names, list + [path], t)
  {
    EachMore(list, LinkReadFrom(at, owner, relation, t), path);
    assert Bases(list + [path]) == Bases(list) + [names[|list|]];
  }

  lemma LinksComplete(at: nat -> World, owner: SysfsPath, relation: Relation, entries: seq<string>, names: seq<string>,
                      list: seq<SysfsPath>, t: nat)
    requires at(t).directory(owner, relation) == Some(entries) && |entries| <= MAX_BLOCK_ENTRIES
    requires Listing(entries, names)
    requires |list| == |names| && LinksSoFar(at, owner, relation, names, list, t + 1)
    ensures RelationRead(at, owner, relation, list, t)
  {
    assert names[..|list|] == names;
  }

  /** No usable link stands under the name at its instant. */
  ghost predicate NoLink(at: nat -> World, owner: SysfsPath, relation: Relation, name: string, t: nat) {
    forall p {:trigger LinkRead(at, owner, relation, p, t)} :: Base(p) == name ==> !LinkRead(at, owner, relation, p, t)
  }

  lemma MissingLink(at: nat -> World, owner: SysfsPath, relation: Relation, entries: seq<string>, names: seq<string>,
                    i: nat, t: nat)
    requires at(t).directory(owner, relation) == Some(entries) && Listing(entries, names)
    requires i < |names| && NoLink(at, owner, relation, names[i], t + 1 + i)
    ensures forall list :: !RelationRead(at, owner, relation, list, t)
  {
    forall list ensures !RelationRead(at, owner, relation, list, t) {
      if RelationRead(at, owner, relation, list, t) {
        OneListing(entries, names, Bases(list));
        EachAt(list, LinkReadFrom(at, owner, relation, t + 1), i);
        assert false;
      }
    }
  }

  /** The relations follow from the worlds. */
  lemma EveryWorldHasRelations(at: nat -> World) returns (trace: Trace)
    ensures trace.at == at && RelationsTold(trace)
  {
    trace := Trace(at, (owner: SysfsPath, relation: Relation, t: nat) => FoundRelation(at, owner, relation, t));
    forall owner, relation, t ensures RelationTold(trace, owner, relation, t) {
      assert trace.relations(owner, relation, t) == FoundRelation(at, owner, relation, t);
    }
  }

  // -- One node --------------------------------------------------------------------------------------

  datatype Metadata = Metadata(
    kind: Kind,
    device: DeviceNumber,
    sizeBytes: Uint64,
    readOnly: bool,
    removable: bool,
    partitionNumber: Uint32,
    partitionStart: Uint64,
    diskSequence: Uint64,
    target: SysfsPath,
    holders: seq<SysfsPath>,
    slaves: seq<SysfsPath>,
    serial: Vpd,
    wwn: Vpd)

  const NO_VPD := Vpd("", NoStatus)

  // One read of a node and what it shows.
  datatype NodeRead =
    | StartRead(start: Uint64)
    | SequenceRead(sequence: Uint64)
    | DeviceRead(device: DeviceNumber)
    | SizeRead(size: Uint64)
    | ReadOnlyRead(readOnly: bool)
    | RemovableRead(removable: bool)
    | SerialRead(serial: Vpd)
    | WwnRead(wwn: Vpd)

  predicate Shows(s: NodeState, r: NodeRead) {
    match r
    case StartRead(start) => s.start == Some(start)
    case SequenceRead(sequence) => s.diskSequence == Some(sequence)
    case DeviceRead(device) => s.device == Some(device)
    case SizeRead(size) => s.sizeBytes == Some(size)
    case ReadOnlyRead(readOnly) => s.readOnly == Some(readOnly)
    case RemovableRead(removable) => s.removable == Some(removable)
    case SerialRead(serial) => s.serial == serial
    case WwnRead(wwn) => s.wwn == wwn
  }

  /** The reads after the relations, in order; those of a whole disk stand between two reads of its sequence. */
  function LaterRead(m: Metadata, k: nat): NodeRead {
    if m.kind.Partition? then
      match k
      case 0 => StartRead(m.partitionStart)
      case 1 => DeviceRead(m.device)
      case 2 => SizeRead(m.sizeBytes)
      case _ => ReadOnlyRead(m.readOnly)
    else
      match k
      case 1 => DeviceRead(m.device)
      case 2 => SizeRead(m.sizeBytes)
      case 3 => ReadOnlyRead(m.readOnly)
      case 4 => RemovableRead(m.removable)
      case 5 => SerialRead(m.serial)
      case 6 => WwnRead(m.wwn)
      case _ => SequenceRead(m.diskSequence)
  }

  function LaterCount(m: Metadata): nat {
    if m.kind.Partition? then 4 else 8
  }

  predicate LaterShown(trace: Trace, name: string, m: Metadata, t: nat, k: nat) {
    Shows(trace.at(t + k).node(name), LaterRead(m, k))
  }

  ghost predicate LaterObserved(trace: Trace, name: string, m: Metadata, t: nat) {
    forall k: nat {:trigger LaterShown(trace, name, m, t, k)} :: k < LaterCount(m) ==> LaterShown(trace, name, m, t, k)
  }

  /** What a partition, or a whole disk, never has. */
  predicate Shaped(m: Metadata) {
    if m.kind.Partition? then
      && m.partitionNumber != 0 && m.slaves == [] && m.diskSequence == 0 && !m.removable
      && m.serial == NO_VPD && m.wwn == NO_VPD
    else m.kind.Block? && m.partitionNumber == 0 && m.partitionStart == 0 && m.diskSequence != 0
  }

  /** The reads from the partition number on. */
  ghost predicate KindObserved(trace: Trace, name: string, m: Metadata, t: nat) {
    if m.kind.Partition? then
      && trace.at(t).node(name).partition == PartitionNumber(m.partitionNumber)
      && LaterObserved(trace, name, m, t + 1)
    else
      && trace.at(t).node(name).partition == NoPartition
      && trace.relations(m.target, SlaveLinks, t + 1) == Some(m.slaves)
      && LaterObserved(trace, name, m, t + 2 + |m.slaves|)
  }

  /** The reads that start at `t` give this metadata. */
  ghost predicate Observed(trace: Trace, name: string, m: Metadata, t: nat) {
    && trace.at(t).node(name).target == Some(m.target) && ValidTarget(m.target, name)
    && trace.relations(m.target, HolderLinks, t + 1) == Some(m.holders)
    && Shaped(m) && KindObserved(trace, name, m, t + 2 + |m.holders|)
  }

  /** When the partition number is read, counted from the first read of the node. */
  function PartitionStep(m: Metadata): nat {
    2 + |m.holders|
  }

  /** When the disk sequence of a whole disk is read for the first time. */
  function SequenceStep(m: Metadata): nat {
    PartitionStep(m) + 2 + |m.slaves|
  }

  function Steps(m: Metadata): nat {
    if m.kind.Partition? then PartitionStep(m) + 5 else SequenceStep(m) + 8
  }

  // The later reads one by one, for the loops that make them.
  predicate PartitionLater(trace: Trace, name: string, m: Metadata, t: nat) {
    && trace.at(t).node(name).start == Some(m.partitionStart)
    && trace.at(t + 1).node(name).device == Some(m.device)
    && trace.at(t + 2).node(name).sizeBytes == Some(m.sizeBytes)
    && trace.at(t + 3).node(name).readOnly == Some(m.readOnly)
  }

  predicate BlockLater(trace: Trace, name: string, m: Metadata, t: nat) {
    && trace.at(t).node(name).diskSequence == Some(m.diskSequence)
    && trace.at(t + 1).node(name).device == Some(m.device)
    && trace.at(t + 2).node(name).sizeBytes == Some(m.sizeBytes)
    && trace.at(t + 3).node(name).readOnly == Some(m.readOnly)
    && trace.at(t + 4).node(name).removable == Some(m.removable)
    && trace.at(t + 5).node(name).serial == m.serial
    && trace.at(t + 6).node(name).wwn == m.wwn
    && trace.at(t + 7).node(name).diskSequence == Some(m.diskSequence)
  }

  lemma LaterAt(trace: Trace, name: string, m: Metadata, t: nat, k: nat)
    requires LaterObserved(trace, name, m, t) && k < LaterCount(m)
    ensures Shows(trace.at(t + k).node(name), LaterRead(m, k))
  {
    assert LaterShown(trace, name, m, t, k);
  }

  lemma PartitionMeans(trace: Trace, name: string, m: Metadata, t: nat)
    requires m.kind.Partition? && LaterObserved(trace, name, m, t)
    ensures PartitionLater(trace, name, m, t)
  {
    assert LaterShown(trace, name, m, t, 0) && LaterShown(trace, name, m, t, 1);
    assert LaterShown(trace, name, m, t, 2) && LaterShown(trace, name, m, t, 3);
  }

  lemma BlockMeans(trace: Trace, name: string, m: Metadata, t: nat)
    requires m.kind.Block? && LaterObserved(trace, name, m, t)
    ensures BlockLater(trace, name, m, t)
  {
    assert LaterShown(trace, name, m, t, 0) && LaterShown(trace, name, m, t, 1);
    assert LaterShown(trace, name, m, t, 2) && LaterShown(trace, name, m, t, 3);
    assert LaterShown(trace, name, m, t, 4) && LaterShown(trace, name, m, t, 5);
    assert LaterShown(trace, name, m, t, 6) && LaterShown(trace, name, m, t, 7);
  }

  lemma LaterHolds(trace: Trace, name: string, m: Metadata, t: nat)
    requires if m.kind.Partition? then PartitionLater(trace, name, m, t) else BlockLater(trace, name, m, t)
    ensures LaterObserved(trace, name, m, t)
  {
    forall k: nat | k < LaterCount(m) ensures LaterShown(trace, name, m, t, k) {
      assert k == 0 || k == 1 || k == 2 || k == 3 || k == 4 || k == 5 || k == 6 || k == 7;
    }
  }

  /** The first reads settle the path and the holders, so the later ones decide. */
  lemma NoneObserved(trace: Trace, name: string, target: SysfsPath, holders: seq<SysfsPath>, t: nat)
    requires trace.at(t).node(name).target == Some(target)
    requires trace.relations(target, HolderLinks, t + 1) == Some(holders)
    requires forall m: Metadata {:trigger Shaped(m)} ::
               m.target == target && Shaped(m) ==> !KindObserved(trace, name, m, t + 2 + |holders|)
    ensures forall m :: !Observed(trace, name, m, t)
  {
  }

  class Reader {
    const trace: Trace
    var now: nat

    ghost predicate Told() {
      RelationsTold(trace)
    }

    constructor (trace: Trace, start: nat)
      requires RelationsTold(trace)
      ensures this.trace == trace && now == start && Told()
    {
      this.trace, now := trace, start;
    }

    /** One read: the caller uses a single attribute of what it returns. */
    method Read(name: string) returns (s: NodeState)
      modifies this`now
      ensures now == old(now) + 1 && s == trace.at(old(now)).node(name)
    {
      s := trace.at(now).node(name);
      now := now + 1;
    }

    method List() returns (entries: Option<seq<string>>)
      modifies this`now
      ensures now == old(now) + 1 && entries == trace.at(old(now)).entries
    {
      entries := trace.at(now).entries;
      now := now + 1;
    }

    method ReadLink(owner: SysfsPath, relation: Relation, name: string) returns (path: Option<SysfsPath>)
      modifies this`now
      ensures now == old(now) + 1
      ensures path.Some? ==> LinkRead(trace.at, owner, relation, path.value, old(now)) && Base(path.value) == name
      ensures path.None? ==> NoLink(trace.at, owner, relation, name, old(now))
    {
      path := trace.at(now).link(owner, relation, name);
      now := now + 1;
      if path.Some? && !(|path.value| > 1 && path.value[0] == "devices" && Base(path.value) == name) {
        path := None;
      }
    }

    /** Lists a relation directory and reads its links. */
    method ReadRelation(owner: SysfsPath, relation: Relation) returns (r: Option<seq<SysfsPath>>)
      requires Told()
      modifies this`now
      ensures r == trace.relations(owner, relation, old(now))
      ensures if r.Some? then now == old(now) + 1 + |r.value| else now >= old(now)
    {
      ghost var t := now;
      var entries := trace.at(now).directory(owner, relation);
      now := now + 1;
      if entries.None? || |entries.value| > MAX_BLOCK_ENTRIES {
        UnlistedIsLost(trace.at, owner, relation, t);
        RelationLost(trace, owner, relation, t);
        return None;
      }
      var names := SortNames(entries.value);
      if names.None? {
        UnlistedIsLost(trace.at, owner, relation, t);
        RelationLost(trace, owner, relation, t);
        return None;
      }
      ghost var missing;
      r, missing := ReadLinks(owner, relation, names.value);
      if r.Some? {
        LinksComplete(trace.at, owner, relation, entries.value, names.value, r.value, t);
        RelationFound(trace, owner, relation, r.value, t);
      } else {
        MissingLink(trace.at, owner, relation, entries.value, names.value, missing, t);
        RelationLost(trace, owner, relation, t);
      }
    }

    method ReadLinks(owner: SysfsPath, relation: Relation, names: seq<string>)
      returns (r: Option<seq<SysfsPath>>, ghost missing: nat)
      modifies this`now
      ensures r.Some? ==> |r.value| == |names| && now == old(now) + |names|
      ensures r.Some? ==> LinksSoFar(trace.at, owner, relation, names, r.value, old(now))
      ensures r.None? ==> now >= old(now) && missing < |names|
      ensures r.None? ==> NoLink(trace.at, owner, relation, names[missing], old(now) + missing)
    {
      var list: seq<SysfsPath> := [];
      missing := 0;
      for i := 0 to |names|
        invariant |list| == i && now == old(now) + i
        invariant LinksSoFar(trace.at, owner, relation, names, list, old(now))
      {
        var path := ReadLink(owner, relation, names[i]);
        if path.None? {
          return None, i;
        }
        LinksGoOn(trace.at, owner, relation, names, list, path.value, old(now));
        list := list + [path.value];
      }
      r := Some(list);
    }

    /** Reads a node attribute by attribute; succeeds exactly when those reads give metadata. */
    method ObserveMetadata(name: string) returns (r: Option<Metadata>)
      requires Told()
      modifies this`now
      ensures r.Some? ==> Observed(trace, name, r.value, old(now)) && now == old(now) + Steps(r.value)
      ensures r.None? ==> now >= old(now) && forall m :: !Observed(trace, name, m, old(now))
    {
      var s := Read(name);
      if s.target.None? || !ValidTarget(s.target.value, name) {
        return None;
      }
      var target := s.target.value;
      var holders := ReadRelation(target, HolderLinks);
      if holders.None? {
        return None;
      }
      r := ObserveKind(name, target, holders.value);
      if r.None? {
        NoneObserved(trace, name, target, holders.value, old(now));
      }
    }

    /** A node with a partition number is a partition, one without the attribute a whole disk. */
    method ObserveKind(name: string, target: SysfsPath, holders: seq<SysfsPath>) returns (r: Option<Metadata>)
      requires Told()
      modifies this`now
      ensures r.Some? ==>
                && r.value.target == target && r.value.holders == holders && Shaped(r.value)
                && KindObserved(trace, name, r.value, old(now))
                && now == old(now) + Steps(r.value) - PartitionStep(r.value)
      ensures r.None? ==>
                && now >= old(now)
                && forall m: Metadata :: m.target == target && Shaped(m) ==> !KindObserved(trace, name, m, old(now))
    {
      var s := Read(name);
      if s.partition.PartitionUnreadable? || s.partition == PartitionNumber(0) {
        return None;
      }
      if s.partition.PartitionNumber? {
        r := ObservePartition(name, target, holders, s.partition.number);
      } else {
        r := ObserveBlock(name, target, holders);
      }
    }

    method ObservePartition(name: string, target: SysfsPath, holders: seq<SysfsPath>, number: Uint32)
      returns (r: Option<Metadata>)
      requires number != 0
      modifies this`now
      ensures r.Some? ==>
                && r.value.kind.Partition? && Shaped(r.value) && r.value.partitionNumber == number
                && now == old(now) + 4
                && r.value.target == target && r.value.holders == holders
                && LaterObserved(trace, name, r.value, old(now))
      ensures r.None? ==>
                && now >= old(now)
                && forall m: Metadata :: m.kind.Partition? ==> !LaterObserved(trace, name, m, old(now))
    {
      ghost var t := now;
      r := ReadPartition(name, target, holders, number);
      if r.Some? {
        LaterHolds(trace, name, r.value, t);
      } else {
        forall m: Metadata | m.kind.Partition? ensures !LaterObserved(trace, name, m, t) {
          if LaterObserved(trace, name, m, t) {
            PartitionMeans(trace, name, m, t);
          }
        }
      }
    }

    method ReadPartition(name: string, target: SysfsPath, holders: seq<SysfsPath>, number: Uint32)
      returns (r: Option<Metadata>)
      requires number != 0
      modifies this`now
      ensures r.Some? ==>
                && r.value.kind.Partition? && Shaped(r.value) && r.value.partitionNumber == number
                && now == old(now) + 4
                && r.value.target == target && r.value.holders == holders
                && PartitionLater(trace, name, r.value, old(now))
      ensures r.None? ==> now >= old(now) && forall m :: !PartitionLater(trace, name, m, old(now))
    {
      var s := Read(name);
      if s.start.None? {
        return None;
      }
      var start := s.start.value;
      s := Read(name);
      if s.device.None? {
        return None;
      }
      var device := s.device.value;
      s := Read(name);
      if s.sizeBytes.None? {
        return None;
      }
      var size := s.sizeBytes.value;
      s := Read(name);
      if s.readOnly.None? {
        return None;
      }
      r := Some(Metadata(Partition, device, size, s.readOnly.value, false, number, start, 0, target, holders, [],
                         NO_VPD, NO_VPD));
    }

    method ObserveBlock(name: string, target: SysfsPath, holders: seq<SysfsPath>) returns (r: Option<Metadata>)
      requires Told()
      modifies this`now
      ensures r.Some? ==>
                && r.value.kind.Block? && Shaped(r.value) && r.value.target == target && r.value.holders == holders
                && trace.relations(target, SlaveLinks, old(now)) == Some(r.value.slaves)
                && LaterObserved(trace, name, r.value, old(now) + 1 + |r.value.slaves|)
                && now == old(now) + 9 + |r.value.slaves|
      ensures r.None? ==>
                && now >= old(now)
                && forall m: Metadata ::
                     m.kind.Block? && m.diskSequence != 0
                     && trace.relations(target, SlaveLinks, old(now)) == Some(m.slaves) ==>
                       !LaterObserved(trace, name, m, old(now) + 1 + |m.slaves|)
    {
      var slaves := ReadRelation(target, SlaveLinks);
      if slaves.None? {
        return None;
      }
      ghost var t := now;
      r := ReadBlock(name, target, holders, slaves.value);
      if r.Some? {
        LaterHolds(trace, name, r.value, t);
      } else {
        forall m: Metadata | m.kind.Block? && m.diskSequence != 0 ensures !LaterObserved(trace, name, m, t) {
          if LaterObserved(trace, name, m, t) {
            BlockMeans(trace, name, m, t);
          }
        }
      }
    }

    method ReadBlock(name: string, target: SysfsPath, holders: seq<SysfsPath>, slaves: seq<SysfsPath>)
      returns (r: Option<Metadata>)
      modifies this`now
      ensures r.Some? ==>
                && r.value.kind.Block? && Shaped(r.value) && BlockLater(trace, name, r.value, old(now))
                && now == old(now) + 8
                && r.value.target == target && r.value.holders == holders && r.value.slaves == slaves
      ensures r.None? ==> now >= old(now) && forall m :: BlockLater(trace, name, m, old(now)) ==> m.diskSequence == 0
    {
      var s := Read(name);
      if s.diskSequence.None? || s.diskSequence.value == 0 {
        return None;
      }
      var sequence := s.diskSequence.value;
      s := Read(name);
      if s.device.None? {
        return None;
      }
      var device := s.device.value;
      s := Read(name);
      if s.sizeBytes.None? {
        return None;
      }
      var size := s.sizeBytes.value;
      s := Read(name);
      if s.readOnly.None? {
        return None;
      }
      var readOnly := s.readOnly.value;
      s := Read(name);
      if s.removable.None? {
        return None;
      }
      var removable := s.removable.value;
      s := Read(name);
      var serial := s.serial;
      s := Read(name);
      var wwn := s.wwn;
      s := Read(name);
      if s.diskSequence != Some(sequence) {
        return None;
      }
      r := Some(Metadata(Block, device, size, readOnly, removable, 0, 0, sequence, target, holders, slaves, serial,
                         wwn));
    }
  }

  // -- Two passes ------------------------------------------------------------------------------------

  type Reading = (nat, Metadata, nat) -> bool

  /** The node with this index, read from the given instant, shows the metadata. */
  ghost function ReadBy(trace: Trace, names: seq<string>): Reading {
    (k: nat, m: Metadata, t: nat) => k < |names| && Observed(trace, names[k], m, t)
  }

  lemma LaterOnce(trace: Trace, name: string, a: Metadata, b: Metadata, t: nat)
    requires Shaped(a) && Shaped(b) && a.kind == b.kind
    requires LaterObserved(trace, name, a, t) && LaterObserved(trace, name, b, t)
    requires a.target == b.target && a.holders == b.holders && a.slaves == b.slaves
    requires a.partitionNumber == b.partitionNumber
    ensures a == b
  {
    if a.kind.Partition? {
      PartitionMeans(trace, name, a, t);
      PartitionMeans(trace, name, b, t);
    } else {
      BlockMeans(trace, name, a, t);
      BlockMeans(trace, name, b, t);
    }
  }

  /** The reads of one node admit only one result. */
  lemma ObservedOnce(trace: Trace, name: string, a: Metadata, b: Metadata, t: nat)
    requires Observed(trace, name, a, t) && Observed(trace, name, b, t)
    ensures a == b
  {
    var h := t + 2 + |a.holders|;
    assert KindObserved(trace, name, a, h) && KindObserved(trace, name, b, h);
    if a.kind.Partition? {
      LaterOnce(trace, name, a, b, h + 1);
    } else {
      LaterOnce(trace, name, a, b, h + 2 + |a.slaves|);
    }
  }

  ghost predicate Functional(shown: Reading) {
    forall k, a, b, t {:trigger shown(k, a, t), shown(k, b, t)} :: shown(k, a, t) && shown(k, b, t) ==> a == b
  }

  lemma ReadByIsFunctional(trace: Trace, names: seq<string>)
    ensures Functional(ReadBy(trace, names))
  {
    forall k: nat, a, b, t: nat | ReadBy(trace, names)(k, a, t) && ReadBy(trace, names)(k, b, t) ensures a == b {
      ObservedOnce(trace, names[k], a, b, t);
    }
  }

  /** `shown` is what the reads of the trace give; stated so that the reads stay folded in the loops. */
  ghost predicate Tells(shown: Reading, trace: Trace, names: seq<string>) {
    && Functional(shown)
    && forall k, m, t {:trigger Observed(trace, names[k], m, t)} ::
         0 <= k < |names| && 0 <= t ==> (shown(k, m, t) <==> Observed(trace, names[k], m, t))
  }

  lemma ReadByTells(trace: Trace, names: seq<string>)
    ensures Tells(ReadBy(trace, names), trace, names)
  {
    ReadByIsFunctional(trace, names);
  }

  /** The nodes were read one after the other, from `t0` to `t1`. */
  ghost predicate Passed(shown: Reading, ms: seq<Metadata>, t0: nat, t1: nat) {
    if ms == [] then t0 == t1
    else
      var n := |ms| - 1;
      && t0 + Steps(ms[n]) <= t1
      && Passed(shown, ms[..n], t0, t1 - Steps(ms[n]))
      && shown(n, ms[n], t1 - Steps(ms[n]))
  }

  lemma PassedMore(shown: Reading, ms: seq<Metadata>, m: Metadata, t0: nat, t: nat)
    requires t0 <= t && Passed(shown, ms, t0, t) && shown(|ms|, m, t)
    ensures Passed(shown, ms + [m], t0, t + Steps(m))
  {
    assert (ms + [m])[..|ms|] == ms;
  }

  datatype Attribute =
    | Target | Holders | NotPartitioned | Slaves | Device | Size | ReadOnlyFlag | RemovableFlag | Serial | Wwn

  /** The attribute is read from `t` on, and shows what is reported. */
  predicate ReadAs(trace: Trace, name: string, m: Metadata, a: Attribute, t: nat) {
    match a
    case Target => trace.at(t).node(name).target == Some(m.target)
    case Holders => trace.relations(m.target, HolderLinks, t) == Some(m.holders)
    case NotPartitioned => trace.at(t).node(name).partition == NoPartition
    case Slaves => trace.relations(m.target, SlaveLinks, t) == Some(m.slaves)
    case Device => trace.at(t).node(name).device == Some(m.device)
    case Size => trace.at(t).node(name).sizeBytes == Some(m.sizeBytes)
    case ReadOnlyFlag => trace.at(t).node(name).readOnly == Some(m.readOnly)
    case RemovableFlag => trace.at(t).node(name).removable == Some(m.removable)
    case Serial => trace.at(t).node(name).serial == m.serial
    case Wwn => trace.at(t).node(name).wwn == m.wwn
  }

  /** How many reads the attribute takes. */
  function Span(m: Metadata, a: Attribute): nat {
    match a
    case Holders => 1 + |m.holders|
    case Slaves => 1 + |m.slaves|
    case _ => 1
  }

  /** When a later attribute is read, counted from the first read of the sequence. */
  function LaterStep(a: Attribute): nat {
    match a
    case Device => 1
    case Size => 2
    case ReadOnlyFlag => 3
    case RemovableFlag => 4
    case Serial => 5
    case Wwn => 6
    case _ => 0
  }

  /** When the attribute is read, counted from the first read of the node. */
  function ReadStep(m: Metadata, a: Attribute): nat {
    match a
    case Target => 0
    case Holders => 1
    case NotPartitioned => PartitionStep(m)
    case Slaves => PartitionStep(m) + 1
    case _ => SequenceStep(m) + LaterStep(a)
  }

  /** All reads of the attribute show what is reported while the name holds the reported generation. */
  ghost predicate ReadUnderGeneration(trace: Trace, name: string, m: Metadata, a: Attribute, t: nat) {
    && ReadAs(trace, name, m, a, t)
    && forall u :: t <= u < t + Span(m, a) ==> trace.at(u).node(name).diskSequence == Some(m.diskSequence)
  }

  lemma SequenceBetween(trace: Trace, name: string, sequence: Uint64, a: nat, t: nat, b: nat)
    requires SequencesNeverReturn(trace) && a <= t <= b
    requires trace.at(a).node(name).diskSequence == Some(sequence) == trace.at(b).node(name).diskSequence
    ensures trace.at(t).node(name).diskSequence == Some(sequence)
  {
    assert Holds(trace, name, a, b, t);
  }

  /** These stand before the first sequence read of a pass, so only the second pass pins them on both sides. */
  predicate ReadBeforeSequence(a: Attribute) {
    a.Target? || a.Holders? || a.NotPartitioned? || a.Slaves?
  }

  /** The two reads of the sequence in one pass. */
  predicate Ends(trace: Trace, name: string, m: Metadata, s: nat) {
    trace.at(s).node(name).diskSequence == Some(m.diskSequence) == trace.at(s + 7).node(name).diskSequence
  }

  lemma LaterOfBlock(trace: Trace, name: string, m: Metadata, t: nat)
    requires m.kind.Block? && Observed(trace, name, m, t)
    ensures LaterObserved(trace, name, m, t + SequenceStep(m))
  {
    assert t + 2 + |m.holders| + 2 + |m.slaves| == t + SequenceStep(m);
  }

  lemma BlockEnds(trace: Trace, name: string, m: Metadata, t: nat)
    requires m.kind.Block? && Observed(trace, name, m, t)
    ensures Ends(trace, name, m, t + SequenceStep(m))
  {
    LaterOfBlock(trace, name, m, t);
    LaterAt(trace, name, m, t + SequenceStep(m), 0);
    LaterAt(trace, name, m, t + SequenceStep(m), 7);
  }

  lemma LaterAttribute(trace: Trace, name: string, m: Metadata, s: nat, a: Attribute)
    requires m.kind.Block? && LaterObserved(trace, name, m, s) && !ReadBeforeSequence(a)
    ensures ReadAs(trace, name, m, a, s + LaterStep(a))
  {
    LaterAt(trace, name, m, s, LaterStep(a));
  }

  lemma ReadThen(trace: Trace, name: string, m: Metadata, t: nat, a: Attribute)
    requires m.kind.Block? && Observed(trace, name, m, t)
    ensures ReadAs(trace, name, m, a, t + ReadStep(m, a))
  {
    if !ReadBeforeSequence(a) {
      LaterOfBlock(trace, name, m, t);
      LaterAttribute(trace, name, m, t + SequenceStep(m), a);
    }
  }

  /** The sequence holds between the two reads of one pass, and from the last read of one pass to the first of
      the next. */
  lemma SequencePinned(trace: Trace, name: string, m: Metadata, first: nat, second: nat, t: nat)
    requires SequencesNeverReturn(trace) && Ends(trace, name, m, first) && Ends(trace, name, m, second)
    requires first <= t <= second
    ensures trace.at(t).node(name).diskSequence == Some(m.diskSequence)
  {
    SequenceBetween(trace, name, m.diskSequence, first, t, second);
  }

  /** The reads of an attribute lie between the two first reads of the sequence, in the pass that pins it. */
  lemma ReadBetween(m: Metadata, first: nat, second: nat, a: Attribute, u: nat)
    requires first + Steps(m) <= second && m.kind.Block?
    requires var from := (if ReadBeforeSequence(a) then second else first) + ReadStep(m, a);
             from <= u < from + Span(m, a)
    ensures first + SequenceStep(m) <= u <= second + SequenceStep(m)
  {
  }

  /** Every attribute of a disk that is read alike twice was read at least once between two reads of its sequence. */
  lemma TwicePinned(trace: Trace, name: string, m: Metadata, first: nat, second: nat, a: Attribute)
    requires SequencesNeverReturn(trace) && m.kind.Block? && first + Steps(m) <= second
    requires Observed(trace, name, m, first) && Observed(trace, name, m, second)
    ensures ReadUnderGeneration(trace, name, m, a, (if ReadBeforeSequence(a) then second else first) + ReadStep(m, a))
  {
    ReadThen(trace, name, m, if ReadBeforeSequence(a) then second else first, a);
    BlockEnds(trace, name, m, first);
    BlockEnds(trace, name, m, second);
    PinnedThroughout(trace, name, m, first, second, a);
  }

  lemma PinnedThroughout(trace: Trace, name: string, m: Metadata, first: nat, second: nat, a: Attribute)
    requires SequencesNeverReturn(trace) && m.kind.Block? && first + Steps(m) <= second
    requires Ends(trace, name, m, first + SequenceStep(m)) && Ends(trace, name, m, second + SequenceStep(m))
    ensures var from := (if ReadBeforeSequence(a) then second else first) + ReadStep(m, a);
            forall u :: from <= u < from + Span(m, a) ==> trace.at(u).node(name).diskSequence == Some(m.diskSequence)
  {
    var from := (if ReadBeforeSequence(a) then second else first) + ReadStep(m, a);
    forall u | from <= u < from + Span(m, a) ensures trace.at(u).node(name).diskSequence == Some(m.diskSequence) {
      ReadBetween(m, first, second, a, u);
      SequencePinned(trace, name, m, first + SequenceStep(m), second + SequenceStep(m), u);
    }
  }

  /** How many reads a pass over these nodes takes. */
  function TotalSteps(ms: seq<Metadata>): nat {
    if ms == [] then 0 else TotalSteps(ms[..|ms| - 1]) + Steps(ms[|ms| - 1])
  }

  lemma {:induction false} PassedTime(shown: Reading, ms: seq<Metadata>, t0: nat, t1: nat)
    requires Passed(shown, ms, t0, t1)
    ensures t1 == t0 + TotalSteps(ms)
  {
    if ms != [] {
      PassedTime(shown, ms[..|ms| - 1], t0, t1 - Steps(ms[|ms| - 1]));
    }
  }

  /** A pass reads each node right after the ones before it. */
  lemma {:induction false} PassedAt(shown: Reading, ms: seq<Metadata>, t0: nat, t1: nat, k: nat)
    requires k < |ms| && Passed(shown, ms, t0, t1)
    ensures shown(k, ms[k], t0 + TotalSteps(ms[..k])) && t0 + TotalSteps(ms[..k]) + Steps(ms[k]) <= t1
  {
    var n := |ms| - 1;
    if k < n {
      PassedAt(shown, ms[..n], t0, t1 - Steps(ms[n]), k);
      assert ms[..n][..k] == ms[..k];
    } else {
      PassedTime(shown, ms[..n], t0, t1 - Steps(ms[n]));
    }
  }

  lemma ToldTwice(trace: Trace, names: seq<string>, shown: Reading, m: Metadata, k: nat, first: nat, second: nat,
                  a: Attribute)
    requires SequencesNeverReturn(trace) && Tells(shown, trace, names) && k < |names| && m.kind.Block?
    requires shown(k, m, first) && shown(k, m, second) && first + Steps(m) <= second
    ensures ReadUnderGeneration(trace, names[k], m, a,
                                (if ReadBeforeSequence(a) then second else first) + ReadStep(m, a))
  {
    assert Observed(trace, names[k], m, first) && Observed(trace, names[k], m, second);
    TwicePinned(trace, names[k], m, first, second, a);
  }

  lemma ToldEnds(trace: Trace, names: seq<string>, shown: Reading, m: Metadata, k: nat, t: nat)
    requires Tells(shown, trace, names) && k < |names| && m.kind.Block? && shown(k, m, t)
    ensures Ends(trace, names[k], m, t + SequenceStep(m))
  {
    assert Observed(trace, names[k], m, t);
    BlockEnds(trace, names[k], m, t);
  }

  /** Two passes that agree: each attribute of a whole disk was read under its generation, in the second pass if
      it stands before the sequence and otherwise in the first. */
  lemma {:induction false} PassesSaw(trace: Trace, names: seq<string>, shown: Reading, ms: seq<Metadata>, t0: nat,
                                     t1: nat, t2: nat, t3: nat, k: nat, a: Attribute)
    requires SequencesNeverReturn(trace) && Tells(shown, trace, names) && t1 <= t2 && k < |ms| == |names|
    requires ms[k].kind.Block?
    requires Passed(shown, ms, t0, t1) && Passed(shown, ms, t2, t3)
    ensures var pass := if ReadBeforeSequence(a) then t2 else t0;
            ReadUnderGeneration(trace, names[k], ms[k], a, pass + TotalSteps(ms[..k]) + ReadStep(ms[k], a))
  {
    var before := TotalSteps(ms[..k]);
    PassedAt(shown, ms, t0, t1, k);
    PassedAt(shown, ms, t2, t3, k);
    ToldTwice(trace, names, shown, ms[k], k, t0 + before, t2 + before, a);
  }

  /** At every instant between the passes every whole disk held its reported sequence. */
  lemma {:induction false} PassesPin(trace: Trace, names: seq<string>, shown: Reading, ms: seq<Metadata>, t0: nat,
                                     t1: nat, t2: nat, t3: nat, k: nat, t: nat)
    requires SequencesNeverReturn(trace) && Tells(shown, trace, names) && t1 <= t <= t2 && k < |ms| == |names|
    requires ms[k].kind.Block?
    requires Passed(shown, ms, t0, t1) && Passed(shown, ms, t2, t3)
    ensures trace.at(t).node(names[k]).diskSequence == Some(ms[k].diskSequence)
  {
    var before := TotalSteps(ms[..k]);
    PassedAt(shown, ms, t0, t1, k);
    PassedAt(shown, ms, t2, t3, k);
    ToldEnds(trace, names, shown, ms[k], k, t0 + before);
    ToldEnds(trace, names, shown, ms[k], k, t2 + before);
    SequencePinned(trace, names[k], ms[k], t0 + before + SequenceStep(ms[k]), t2 + before + SequenceStep(ms[k]), t);
  }
}
