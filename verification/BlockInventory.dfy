/** Block observations, the references between them, and the name rules of the collectors. */
module BlockInventory {
  import opened Basics
  import opened Graphs

  datatype Kind = Block | Partition | UnknownKind(text: string)

  datatype IdentityStatus = NoStatus | Unavailable | Present | Invalid | Ambiguous | Unreadable

  datatype DeviceNumber = DeviceNumber(major: Uint32, minor: Uint32)

  datatype Ref = Ref(name: string, kind: Kind, device: DeviceNumber, diskSequence: Uint64)

  // A sysfs device path as its components.
  type SysfsPath = seq<string>

  // A 32-byte equality token, as a number; zero is the absent token.
  type Evidence = nat

  datatype BlockNode = BlockNode(
    name: string,
    kind: Kind,
    device: DeviceNumber,
    sizeBytes: Uint64,
    readOnly: bool,
    removable: bool,
    partitionNumber: Uint32,
    partitionStart: Uint64,
    parentName: string,
    parentMajor: Option<Uint32>,
    parentMinor: Option<Uint32>,
    serialStatus: IdentityStatus,
    wwnStatus: IdentityStatus,
    serialEvidence: Evidence,
    wwnEvidence: Evidence,
    diskSequence: Uint64,
    parentDiskSequence: Uint64,
    target: SysfsPath,
    lower: seq<Ref>)

  type Nodes = map<string, BlockNode>

  predicate BlockNameChar(c: char) {
    'a' <= c <= 'z' || 'A' <= c <= 'Z' || '0' <= c <= '9' || c == '.' || c == '_' || c == '-'
  }

  predicate ValidBlockName(name: string) {
    name != "" && name != "." && name != ".." && |name| <= 64 &&
    forall i :: 0 <= i < |name| ==> BlockNameChar(name[i])
  }

  predicate Digits(text: string) {
    text != "" && forall i :: 0 <= i < |text| ==> '0' <= text[i] <= '9'
  }

  predicate ValidMdName(name: string) {
    ValidBlockName(name) &&
    if "md_d" <= name then Digits(name[4..])
    else "md" <= name && Digits(name[2..])
  }

  /** The names of MD arrays: `md` or `md_d` before a number. */
  lemma MdNames(name: string)
    ensures ValidMdName(name) <==>
              |name| <= 64 && exists digits :: Digits(digits) && (name == "md" + digits || name == "md_d" + digits)
  {
    if ValidMdName(name) {
      if "md_d" <= name {
        assert name == "md_d" + name[4..];
      } else {
        assert name == "md" + name[2..];
      }
    }
    if digits :| |name| <= 64 && Digits(digits) && (name == "md" + digits || name == "md_d" + digits) {
      MdNameOf(digits, name);
    }
  }

  lemma MdNameOf(digits: string, name: string)
    requires Digits(digits) && (name == "md" + digits || name == "md_d" + digits) && |name| <= 64
    ensures ValidMdName(name)
  {
    if name == "md" + digits {
      assert name[2..] == digits && name[2] != '_';
      assert forall i :: 2 <= i < |name| ==> name[i] == digits[i - 2];
    } else {
      assert name[4..] == digits;
      assert forall i :: 4 <= i < |name| ==> name[i] == digits[i - 4];
    }
  }

  function Dir(path: SysfsPath): SysfsPath {
    if path == [] then [] else path[..|path| - 1]
  }

  predicate IsVirtual(path: SysfsPath) {
    |path| > 3 && path[..3] == ["devices", "virtual", "block"]
  }

  predicate SameIdentity(a: BlockNode, b: BlockNode) {
    a.name == b.name && a.kind == b.kind && a.device == b.device && a.diskSequence == b.diskSequence
  }

  predicate SameReference(node: BlockNode, ref: Ref) {
    node.name == ref.name && node.kind == ref.kind && node.device == ref.device && node.diskSequence == ref.diskSequence
  }

  /** The name index a loop over the inventory builds: a later record replaces an earlier one. */
  function Index(inventory: seq<BlockNode>): Nodes {
    IndexUpTo(inventory, |inventory|)
  }

  function IndexUpTo(inventory: seq<BlockNode>, i: nat): (nodes: Nodes)
    requires i <= |inventory|
    ensures forall j :: 0 <= j < i ==> inventory[j].name in nodes
    ensures forall n :: n in nodes ==> nodes[n].name == n
  {
    if i == 0 then map[]
    else IndexUpTo(inventory, i - 1)[inventory[i - 1].name := inventory[i - 1]]
  }

  function NamesOf(inventory: seq<BlockNode>): (names: seq<string>)
    ensures |names| == |inventory| && forall i :: 0 <= i < |names| ==> names[i] == inventory[i].name
  {
    seq(|inventory|, i requires 0 <= i < |inventory| => inventory[i].name)
  }

  predicate DistinctNames(inventory: seq<BlockNode>) {
    forall i, j :: 0 <= i < j < |inventory| ==> inventory[i].name != inventory[j].name
  }

  lemma {:induction false} IndexUpToSource(inventory: seq<BlockNode>, i: nat, n: string) returns (j: nat)
    requires i <= |inventory| && n in IndexUpTo(inventory, i)
    ensures j < i && inventory[j] == IndexUpTo(inventory, i)[n]
    decreases i
  {
    if inventory[i - 1].name == n {
      j := i - 1;
    } else {
      j := IndexUpToSource(inventory, i - 1, n);
    }
  }

  lemma {:induction false} IndexUpToFinds(inventory: seq<BlockNode>, i: nat, j: nat)
    requires DistinctNames(inventory) && j < i <= |inventory|
    ensures IndexUpTo(inventory, i)[inventory[j].name] == inventory[j]
    decreases i
  {
    if j < i - 1 {
      IndexUpToFinds(inventory, i - 1, j);
    }
  }

  lemma IndexFinds(inventory: seq<BlockNode>, i: nat)
    requires DistinctNames(inventory) && i < |inventory|
    ensures inventory[i].name in Index(inventory) && Index(inventory)[inventory[i].name] == inventory[i]
  {
    IndexUpToFinds(inventory, |inventory|, i);
  }

  function LowerNames(node: BlockNode): (names: seq<string>)
    ensures |names| == |node.lower| && forall i :: 0 <= i < |names| ==> names[i] == node.lower[i].name
  {
    seq(|node.lower|, i requires 0 <= i < |node.lower| => node.lower[i].name)
  }

  /** What a node rests on: a partition's parent, and every lower block. */
  function Below(node: BlockNode): seq<string> {
    (if node.kind.Partition? then [node.parentName] else []) + LowerNames(node)
  }

  function TopologyGraph(nodes: Nodes): Graph {
    map n | n in nodes :: Below(nodes[n])
  }

  lemma LowerEdges(nodes: Nodes, n: string)
    requires n in nodes
    ensures forall i :: 0 <= i < |nodes[n].lower| ==> Edge(TopologyGraph(nodes), n, nodes[n].lower[i].name)
  {
    var node := nodes[n];
    forall i | 0 <= i < |node.lower| ensures Edge(TopologyGraph(nodes), n, node.lower[i].name) {
      assert Below(node)[if node.kind.Partition? then i + 1 else i] == node.lower[i].name;
    }
  }

  predicate RestsOn(node: BlockNode, done: set<string>) {
    && (node.kind.Partition? ==> node.parentName in done)
    && forall i :: 0 <= i < |node.lower| ==> node.lower[i].name in done
  }

  lemma RestsOnEdges(nodes: Nodes, n: string, done: set<string>)
    requires n in nodes
    ensures RestsOn(nodes[n], done) <==>
              forall b {:trigger Edge(TopologyGraph(nodes), n, b)} :: Edge(TopologyGraph(nodes), n, b) ==> b in done
  {
    var node := nodes[n];
    LowerEdges(nodes, n);
    if node.kind.Partition? {
      assert Below(node)[0] == node.parentName;
      assert Edge(TopologyGraph(nodes), n, node.parentName);
    }
  }

  /** The observed parent carries exactly the identity the partition recorded. */
  predicate ParentMatches(nodes: Nodes, node: BlockNode) {
    && node.parentName in nodes
    && nodes[node.parentName].kind.Block?
    && node.parentMajor.Some? && node.parentMinor.Some?
    && nodes[node.parentName].device == DeviceNumber(node.parentMajor.value, node.parentMinor.value)
    && nodes[node.parentName].diskSequence == node.parentDiskSequence
  }

  predicate RefMatches(nodes: Nodes, ref: Ref) {
    ref.name in nodes && SameReference(nodes[ref.name], ref)
  }
}
