/** MD array identities of one inventory: canonical UUIDs, the marking of duplicates when an inventory is
    finished, and the lookup of a UUID in a finished inventory. */
module MdIdentity {
  import opened Basics
  import opened BlockInventory
  import opened Sorting

  const MAX_ARRAYS: nat := 16

  // -- Canonical UUID text ---------------------------------------------------------------------------

  predicate IsDash(i: nat) {
    i == 8 || i == 13 || i == 18 || i == 23
  }

  function LowerHex(c: char): char {
    if 'A' <= c <= 'F' then ((c as int) - ('A' as int) + ('a' as int)) as char else c
  }

  predicate HexDigit(c: char) {
    '0' <= c <= '9' || 'a' <= c <= 'f'
  }

  function WithoutNewline(text: string): string {
    if text != "" && text[|text| - 1] == '\n' then text[..|text| - 1] else text
  }

  /** Lower case, dashed, 36 characters, and not the nil UUID. */
  predicate CanonicalUuid(text: string) {
    && |text| == 36
    && (forall i :: 0 <= i < 36 ==> if IsDash(i) then text[i] == '-' else HexDigit(text[i]))
    && exists i :: 0 <= i < 36 && !IsDash(i) && text[i] != '0'
  }

  function Lowered(text: string): string {
    seq(|text|, i requires 0 <= i < |text| => LowerHex(text[i]))
  }

  /** The scan accepts a text exactly when lowering its digits gives a canonical UUID. */
  method Canonicalise(value: string) returns (r: Option<string>)
    ensures r.Some? <==> CanonicalUuid(Lowered(WithoutNewline(value)))
    ensures r.Some? ==> r.value == Lowered(WithoutNewline(value))
  {
    var text := WithoutNewline(value);
    if |text| != 36 {
      return None;
    }
    var canonical: string := "";
    var nonzero := false;
    for i := 0 to 36
      invariant canonical == Lowered(text)[..i]
      invariant forall j :: 0 <= j < i ==> if IsDash(j) then Lowered(text)[j] == '-' else HexDigit(Lowered(text)[j])
      invariant nonzero <==> exists j :: 0 <= j < i && !IsDash(j) && Lowered(text)[j] != '0'
    {
      var c := text[i];
      if IsDash(i) {
        if c != '-' {
          assert Lowered(text)[i] != '-';
          return None;
        }
      } else {
        if 'A' <= c <= 'F' {
          c := ((c as int) - ('A' as int) + ('a' as int)) as char;
        }
        if !HexDigit(c) {
          assert !HexDigit(Lowered(text)[i]);
          return None;
        }
        nonzero := nonzero || c != '0';
      }
      assert c == Lowered(text)[i];
      canonical := canonical + [c];
    }
    r := if nonzero then Some(canonical) else None;
  }

  /** Canonical text is a fixed point, so the private check is the same as being canonical. */
  lemma CanonicalIsFixed(text: string)
    requires CanonicalUuid(text)
    ensures WithoutNewline(text) == text && Lowered(text) == text
  {
    assert HexDigit(text[35]);
    forall i | 0 <= i < 36 ensures LowerHex(text[i]) == text[i] {
    }
  }

  // -- Arrays ----------------------------------------------------------------------------------------

  datatype InventoryStatus = Available | Partial | NoInventory | NotSupported

  datatype Level =
    | Linear | Multipath | FaultyLevel | Container | Raid0 | Raid1 | Raid4 | Raid5 | Raid6 | Raid10
    | UnknownLevel(text: string)

  predicate ValidLevel(level: Level) {
    !level.UnknownLevel?
  }

  datatype MdArray = MdArray(
    name: string,
    device: DeviceNumber,
    uuid: string,
    uuidStatus: IdentityStatus,
    level: Level,
    members: seq<string>,
    identityComplete: bool)

  datatype MdSnapshot = MdSnapshot(
    schemaVersion: int,
    status: InventoryStatus,
    identityInventoryComplete: bool,
    readOnly: bool,
    blockDevicesOpened: bool,
    diskContentRead: bool,
    mutationsPerformed: bool,
    arrayCount: int,
    arrays: seq<MdArray>,
    identityCollected: bool)

  /** The identity part of one sysfs read: the device number (none when unparsable) and the UUID text. */
  datatype Read<T> = Unread | Text(value: T)

  method ObserveIdentity(name: string, present: bool, device: Read<Option<DeviceNumber>>, uuid: Read<string>)
    returns (a: MdArray)
    ensures a.name == name && Shaped(a)
    ensures a.identityComplete <==>
            && present && device.Text? && device.value.Some? && device.value.value != DeviceNumber(0, 0)
            && uuid.Text? && CanonicalUuid(Lowered(WithoutNewline(uuid.value)))
    ensures a.identityComplete ==> a.uuid == Lowered(WithoutNewline(uuid.value)) && a.device == device.value.value
  {
    a := MdArray(name, DeviceNumber(0, 0), "", Unavailable, UnknownLevel(""), [], false);
    if !present {
      return;
    }
    if device.Unread? {
      a := a.(uuidStatus := Unreadable);
    } else if device.value.None? || device.value.value == DeviceNumber(0, 0) {
      a := a.(uuidStatus := Invalid);
    } else {
      a := a.(device := device.value.value);
      if uuid.Unread? {
        a := a.(uuidStatus := Unreadable);
      } else {
        var canonical := Canonicalise(uuid.value);
        if canonical.None? {
          a := a.(uuidStatus := Invalid);
        } else {
          a := a.(uuid := canonical.value, uuidStatus := Present, identityComplete := true);
        }
      }
    }
  }

  /** What a sysfs read leaves in an array: a whole identity or none of it. */
  predicate Shaped(a: MdArray) {
    if a.identityComplete then CanonicalUuid(a.uuid) && a.uuidStatus.Present? && a.device != DeviceNumber(0, 0)
    else a.uuid == "" && (a.uuidStatus.Unavailable? || a.uuidStatus.Unreadable? || a.uuidStatus.Invalid?)
  }

  predicate Tagged(a: MdArray) {
    a.identityComplete && a.uuid != ""
  }

  /** One kernel object under two UUIDs. */
  predicate Clash(arrays: seq<MdArray>, i: nat, j: nat)
    requires i < |arrays| && j < |arrays|
  {
    Tagged(arrays[i]) && Tagged(arrays[j]) && arrays[i].device == arrays[j].device && arrays[i].uuid != arrays[j].uuid
  }

  predicate ClashFree(arrays: seq<MdArray>, n: nat)
    requires n <= |arrays|
  {
    forall i, j {:trigger Clash(arrays, i, j)} :: 0 <= i < j < n ==> !Clash(arrays, i, j)
  }

  /** The kernel objects that carry the UUID among the first `n` arrays. */
  function Objects(arrays: seq<MdArray>, n: nat, uuid: string): set<DeviceNumber>
    requires n <= |arrays|
  {
    set i | 0 <= i < n && Tagged(arrays[i]) && arrays[i].uuid == uuid :: arrays[i].device
  }

  /** Where the UUID stands among the first `n` arrays. */
  function Places(arrays: seq<MdArray>, n: nat, uuid: string): seq<nat>
    requires n <= |arrays|
  {
    if n == 0 then []
    else Places(arrays, n - 1, uuid) + if Tagged(arrays[n - 1]) && arrays[n - 1].uuid == uuid then [n - 1] else []
  }

  lemma {:induction false} PlacesMembers(arrays: seq<MdArray>, n: nat, uuid: string)
    requires n <= |arrays|
    ensures forall i :: i in Places(arrays, n, uuid) <==> 0 <= i < n && Tagged(arrays[i]) && arrays[i].uuid == uuid
  {
    if n > 0 {
      PlacesMembers(arrays, n - 1, uuid);
    }
  }

  // -- Marking duplicates ----------------------------------------------------------------------------

  function Remarked(arrays: seq<MdArray>, i: nat): MdArray
    requires i < |arrays|
  {
    if Tagged(arrays[i]) then
      arrays[i].(uuidStatus := if |Objects(arrays, |arrays|, arrays[i].uuid)| < 2 then Present else Ambiguous)
    else arrays[i]
  }

  datatype Groups = Groups(
    indices: map<string, seq<nat>>,
    objects: map<string, set<DeviceNumber>>,
    uuids: map<DeviceNumber, string>)

  /** The groups hold what the first `n` arrays say. */
  ghost predicate Grouped(g: Groups, arrays: seq<MdArray>, n: nat)
    requires n <= |arrays|
  {
    && (forall u {:trigger Places(arrays, n, u)} ::
          if u in g.indices then g.indices[u] == Places(arrays, n, u) else Places(arrays, n, u) == [])
    && (forall u {:trigger Objects(arrays, n, u)} ::
          if u in g.objects then g.objects[u] == Objects(arrays, n, u) else Objects(arrays, n, u) == {})
    && g.objects.Keys == g.indices.Keys
    && UuidsHold(g.uuids, arrays, n)
  }

  /** The UUID of every kernel object among the first `n` arrays. */
  ghost predicate UuidsHold(uuids: map<DeviceNumber, string>, arrays: seq<MdArray>, n: nat)
    requires n <= |arrays|
  {
    && (forall d :: d in uuids <==> exists i :: 0 <= i < n && Tagged(arrays[i]) && arrays[i].device == d)
    && (forall i :: 0 <= i < n && Tagged(arrays[i]) ==> uuids[arrays[i].device] == arrays[i].uuid)
  }

  lemma UuidsStep(uuids: map<DeviceNumber, string>, arrays: seq<MdArray>, n: nat)
    requires n < |arrays| && UuidsHold(uuids, arrays, n) && ClashFree(arrays, n)
    ensures var a := arrays[n];
            if !Tagged(a) then UuidsHold(uuids, arrays, n + 1) && ClashFree(arrays, n + 1)
            else if a.device in uuids && uuids[a.device] != a.uuid then !ClashFree(arrays, n + 1)
            else UuidsHold(uuids[a.device := a.uuid], arrays, n + 1) && ClashFree(arrays, n + 1)
  {
    var a := arrays[n];
    if Tagged(a) && a.device in uuids && uuids[a.device] != a.uuid {
      var i :| 0 <= i < n && Tagged(arrays[i]) && arrays[i].device == a.device;
      assert Clash(arrays, i, n);
    } else if Tagged(a) {
      var more := uuids[a.device := a.uuid];
      forall d ensures d in more <==> exists i :: 0 <= i < n + 1 && Tagged(arrays[i]) && arrays[i].device == d {
        assert d in more <==> d in uuids || d == a.device;
      }
    }
  }

  function AddToGroup(g: Groups, i: nat, a: MdArray): Groups {
    Groups(
      g.indices[a.uuid := (if a.uuid in g.indices then g.indices[a.uuid] else []) + [i]],
      g.objects[a.uuid := (if a.uuid in g.objects then g.objects[a.uuid] else {}) + {a.device}],
      g.uuids[a.device := a.uuid])
  }

  lemma ObjectsStep(arrays: seq<MdArray>, n: nat, uuid: string)
    requires n < |arrays|
    ensures Objects(arrays, n + 1, uuid) ==
            Objects(arrays, n, uuid) + if Tagged(arrays[n]) && arrays[n].uuid == uuid then {arrays[n].device} else {}
  {
  }

  lemma GroupStep(g: Groups, arrays: seq<MdArray>, n: nat)
    requires n < |arrays| && Grouped(g, arrays, n) && Tagged(arrays[n])
    requires UuidsHold(g.uuids[arrays[n].device := arrays[n].uuid], arrays, n + 1)
    ensures Grouped(AddToGroup(g, n, arrays[n]), arrays, n + 1)
  {
    var h := AddToGroup(g, n, arrays[n]);
    forall u
      ensures if u in h.objects then h.objects[u] == Objects(arrays, n + 1, u) else Objects(arrays, n + 1, u) == {}
    {
      ObjectsStep(arrays, n, u);
      assert u in g.objects || Objects(arrays, n, u) == {};
    }
    forall u
      ensures if u in h.indices then h.indices[u] == Places(arrays, n + 1, u) else Places(arrays, n + 1, u) == []
    {
      assert u in g.indices || Places(arrays, n, u) == [];
    }
    assert h.objects.Keys == g.objects.Keys + {arrays[n].uuid};
    assert h.indices.Keys == g.indices.Keys + {arrays[n].uuid};
  }

  lemma GroupSkip(g: Groups, arrays: seq<MdArray>, n: nat)
    requires n < |arrays| && Grouped(g, arrays, n) && !Tagged(arrays[n]) && UuidsHold(g.uuids, arrays, n + 1)
    ensures Grouped(g, arrays, n + 1)
  {
    forall u
      ensures if u in g.objects then g.objects[u] == Objects(arrays, n + 1, u) else Objects(arrays, n + 1, u) == {}
    {
      ObjectsStep(arrays, n, u);
      assert u in g.objects || Objects(arrays, n, u) == {};
    }
    forall u
      ensures if u in g.indices then g.indices[u] == Places(arrays, n + 1, u) else Places(arrays, n + 1, u) == []
    {
      assert u in g.indices || Places(arrays, n, u) == [];
    }
  }

  method GroupArrays(arrays: seq<MdArray>) returns (r: Option<Groups>)
    ensures r.Some? <==> ClashFree(arrays, |arrays|)
    ensures r.Some? ==> Grouped(r.value, arrays, |arrays|)
  {
    var g := Groups(map[], map[], map[]);
    for i := 0 to |arrays|
      invariant ClashFree(arrays, i) && Grouped(g, arrays, i)
    {
      var a := arrays[i];
      UuidsStep(g.uuids, arrays, i);
      if !Tagged(a) {
        GroupSkip(g, arrays, i);
        continue;
      }
      if a.device in g.uuids && g.uuids[a.device] != a.uuid {
        return None;
      }
      GroupStep(g, arrays, i);
      g := AddToGroup(g, i, a);
    }
    r := Some(g);
  }

  method SetStatus(a: array<MdArray>, indices: seq<nat>, status: IdentityStatus)
    requires forall k :: k in indices ==> k < a.Length
    modifies a
    ensures forall k :: 0 <= k < a.Length ==>
              a[k] == if k in indices then old(a[k]).(uuidStatus := status) else old(a[k])
  {
    for i := 0 to |indices|
      invariant forall k :: 0 <= k < a.Length ==>
                  a[k] == if k in indices[..i] then old(a[k]).(uuidStatus := status) else old(a[k])
    {
      var k := indices[i];
      assert k in indices;
      assert indices[..i + 1] == indices[..i] + [k];
      a[k] := a[k].(uuidStatus := status);
    }
    assert indices[..|indices|] == indices;
  }

  /** The arrays of the finished groups carry their final status, the others what they had. */
  predicate MarkedSoFar(now: seq<MdArray>, was: seq<MdArray>, done: set<string>) {
    |now| == |was| && forall k :: 0 <= k < |was| ==>
      now[k] == if Tagged(was[k]) && was[k].uuid in done then Remarked(was, k) else was[k]
  }

  /** Fails, changing nothing, when one object has two UUIDs; otherwise every array with an identity is
      marked by the number of objects that carry its UUID. */
  method MarkDuplicates(a: array<MdArray>) returns (ok: bool)
    modifies a
    ensures ok <==> ClashFree(old(a[..]), a.Length)
    ensures !ok ==> a[..] == old(a[..])
    ensures ok ==> forall k :: 0 <= k < a.Length ==> a[k] == Remarked(old(a[..]), k)
  {
    ghost var was := a[..];
    var groups := GroupArrays(a[..]);
    if groups.None? {
      return false;
    }
    var g := groups.value;
    var left := g.indices.Keys;
    while left != {}
      invariant left <= g.indices.Keys
      invariant MarkedSoFar(a[..], was, g.indices.Keys - left)
    {
      var uuid :| uuid in left;
      MarkGroup(a, was, g, uuid, g.indices.Keys - left);
      assert g.indices.Keys - (left - {uuid}) == g.indices.Keys - left + {uuid};
      left := left - {uuid};
    }
    forall k | 0 <= k < a.Length ensures a[k] == Remarked(was, k) {
      if Tagged(was[k]) {
        PlacesMembers(was, |was|, was[k].uuid);
        assert k in Places(was, |was|, was[k].uuid);
      }
    }
    ok := true;
  }

  method MarkGroup(a: array<MdArray>, ghost was: seq<MdArray>, g: Groups, uuid: string, ghost done: set<string>)
    requires Grouped(g, was, |was|) && uuid in g.indices && uuid !in done && MarkedSoFar(a[..], was, done)
    modifies a
    ensures MarkedSoFar(a[..], was, done + {uuid})
  {
    PlacesMembers(was, |was|, uuid);
    assert g.objects[uuid] == Objects(was, |was|, uuid) && g.indices[uuid] == Places(was, |was|, uuid);
    ghost var before := a[..];
    SetStatus(a, g.indices[uuid], if |g.objects[uuid]| < 2 then Present else Ambiguous);
    forall k | 0 <= k < |was|
      ensures a[k] == if Tagged(was[k]) && was[k].uuid in done + {uuid} then Remarked(was, k) else was[k]
    {
      assert before[k] == if Tagged(was[k]) && was[k].uuid in done then Remarked(was, k) else was[k];
    }
  }

  // -- Finishing an inventory ------------------------------------------------------------------------

  predicate ByName(a: MdArray, b: MdArray) {
    TextAtMost(a.name, b.name)
  }

  function Kept(arrays: seq<MdArray>): seq<MdArray> {
    var sorted := Sort(ByName, arrays);
    if |sorted| > MAX_ARRAYS then sorted[..MAX_ARRAYS] else sorted
  }

  /** Every part of the inventory has a whole identity and no object has two. */
  predicate WholeInventory(s: MdSnapshot) {
    && s.identityInventoryComplete && |s.arrays| <= MAX_ARRAYS
    && (forall a :: a in Kept(s.arrays) ==> a.identityComplete)
    && ClashFree(Kept(s.arrays), |Kept(s.arrays)|)
  }

  function Withheld(a: MdArray, ambiguousToo: bool): MdArray {
    if a.uuidStatus.Present? || (ambiguousToo && a.uuidStatus.Ambiguous?) then
      a.(uuidStatus := Unavailable, uuid := "") else a
  }

  predicate Finished(s: MdSnapshot, t: MdSnapshot) {
    var kept := Kept(s.arrays);
    && t.identityInventoryComplete == WholeInventory(s) && t.identityCollected
    && |t.arrays| == |kept| == t.arrayCount
    && (t.identityInventoryComplete ==> forall k :: 0 <= k < |kept| ==> t.arrays[k] == Remarked(kept, k))
    && (!t.identityInventoryComplete ==> forall k :: 0 <= k < |kept| ==>
          t.arrays[k] ==
            Withheld(kept[k], s.identityInventoryComplete && |s.arrays| <= MAX_ARRAYS
                     && forall a :: a in kept ==> a.identityComplete))
    && t == s.(identityInventoryComplete := t.identityInventoryComplete, identityCollected := true,
               arrays := t.arrays, arrayCount := |kept|,
               status := if |s.arrays| > MAX_ARRAYS then Partial else s.status)
  }

  method Withhold(a: array<MdArray>, ambiguousToo: bool)
    modifies a
    ensures forall k :: 0 <= k < a.Length ==> a[k] == Withheld(old(a[k]), ambiguousToo)
  {
    for i := 0 to a.Length
      invariant forall k :: 0 <= k < a.Length ==> a[k] == if k < i then Withheld(old(a[k]), ambiguousToo) else old(a[k])
    {
      if a[i].uuidStatus.Present? || (ambiguousToo && a[i].uuidStatus.Ambiguous?) {
        a[i] := a[i].(uuidStatus := Unavailable, uuid := "");
      }
    }
  }

  method FinishArrays(kept: seq<MdArray>, inventoryComplete: bool) returns (arrays: seq<MdArray>, complete: bool)
    ensures complete == (inventoryComplete && (forall a :: a in kept ==> a.identityComplete) && ClashFree(kept, |kept|))
    ensures |arrays| == |kept|
    ensures complete ==> forall k :: 0 <= k < |kept| ==> arrays[k] == Remarked(kept, k)
    ensures !complete ==> forall k :: 0 <= k < |kept| ==>
              arrays[k] == Withheld(kept[k], inventoryComplete && forall a :: a in kept ==> a.identityComplete)
  {
    var a := new MdArray[|kept|](i requires 0 <= i < |kept| => kept[i]);
    assert a[..] == kept;
    complete := inventoryComplete && forall i :: 0 <= i < |kept| ==> kept[i].identityComplete;
    if !complete {
      Withhold(a, false);
    } else {
      complete := MarkDuplicates(a);
      if !complete {
        Withhold(a, true);
      }
    }
    arrays := a[..];
  }

  method Finish(s: MdSnapshot) returns (t: MdSnapshot)
    ensures Finished(s, t)
  {
    var kept := Kept(s.arrays);
    t := s;
    if |s.arrays| > MAX_ARRAYS {
      t := t.(identityInventoryComplete := false, status := Partial);
    }
    var arrays, complete := FinishArrays(kept, t.identityInventoryComplete);
    t := t.(arrays := arrays, arrayCount := |arrays|, identityInventoryComplete := complete, identityCollected := true);
  }

  lemma KeptIsObserved(arrays: seq<MdArray>, k: nat)
    requires k < |Kept(arrays)|
    ensures Kept(arrays)[k] in arrays
  {
    assert Sort(ByName, arrays)[k] in multiset(arrays);
  }

  /** All or nothing: an inventory that is not complete keeps no array UUID at all. */
  lemma IncompleteKeepsNoUuid(s: MdSnapshot, t: MdSnapshot, k: nat)
    requires (forall a :: a in s.arrays ==> Shaped(a)) && Finished(s, t) && !t.identityInventoryComplete
    requires k < |t.arrays|
    ensures t.arrays[k].uuid == "" && !t.arrays[k].uuidStatus.Present? && !t.arrays[k].uuidStatus.Ambiguous?
  {
    KeptIsObserved(s.arrays, k);
  }

  // -- Looking a UUID up -----------------------------------------------------------------------------

  datatype MatchState = NotObserved | OneObject | ConflictingObjects

  datatype UuidMatch = UuidMatch(state: MatchState, indices: seq<nat>)

  predicate Announced(s: MdSnapshot) {
    && s.identityCollected && s.identityInventoryComplete && s.schemaVersion == 1 && s.readOnly && !s.blockDevicesOpened
    && !s.diskContentRead && !s.mutationsPerformed && |s.arrays| <= MAX_ARRAYS && s.arrayCount == |s.arrays|
  }

  predicate ArrayUsable(a: MdArray) {
    && ValidMdName(a.name) && a.device != DeviceNumber(0, 0) && a.identityComplete && CanonicalUuid(a.uuid)
    && (a.uuidStatus.Present? || a.uuidStatus.Ambiguous?)
  }

  predicate NamesDistinct(arrays: seq<MdArray>, n: nat)
    requires n <= |arrays|
  {
    forall i, j :: 0 <= i < j < n ==> arrays[i].name != arrays[j].name
  }

  predicate Searchable(arrays: seq<MdArray>, n: nat)
    requires n <= |arrays|
  {
    && (forall i {:trigger ArrayUsable(arrays[i])} :: 0 <= i < n ==> ArrayUsable(arrays[i]))
    && NamesDistinct(arrays, n) && ClashFree(arrays, n)
  }

  lemma SearchableStep(arrays: seq<MdArray>, n: nat)
    requires n < |arrays|
    ensures Searchable(arrays, n + 1) <==>
            && Searchable(arrays, n) && ArrayUsable(arrays[n]) && ClashFree(arrays, n + 1)
            && forall i :: 0 <= i < n ==> arrays[i].name != arrays[n].name
    ensures Searchable(arrays, |arrays|) ==> Searchable(arrays, n + 1)
  {
  }

  function StateOf(objects: set<DeviceNumber>): MatchState {
    if |objects| == 1 then OneObject else if |objects| > 1 then ConflictingObjects else NotObserved
  }

  method MatchUuid(s: MdSnapshot, uuid: string) returns (r: Option<UuidMatch>)
    ensures r.Some? <==>
              CanonicalUuid(Lowered(WithoutNewline(uuid))) && Announced(s) && Searchable(s.arrays, |s.arrays|)
    ensures r.Some? ==>
              var canonical := Lowered(WithoutNewline(uuid));
              && r.value.indices == Places(s.arrays, |s.arrays|, canonical)
              && r.value.state == StateOf(Objects(s.arrays, |s.arrays|, canonical))
  {
    var canonical := Canonicalise(uuid);
    if canonical.None? || !Announced(s) {
      return None;
    }
    r := MatchIn(s.arrays, canonical.value);
  }

  ghost predicate NamesHold(names: set<string>, arrays: seq<MdArray>, n: nat)
    requires n <= |arrays|
  {
    forall x :: x in names <==> exists j :: 0 <= j < n && arrays[j].name == x
  }

  lemma NamesStep(names: set<string>, arrays: seq<MdArray>, n: nat)
    requires n < |arrays| && NamesHold(names, arrays, n)
    ensures NamesHold(names + {arrays[n].name}, arrays, n + 1)
  {
  }

  /** What the scan remembers. */
  datatype Scan = Scan(names: set<string>, uuids: map<DeviceNumber, string>, objects: set<DeviceNumber>,
                       indices: seq<nat>)

  ghost predicate ScanHolds(scan: Scan, arrays: seq<MdArray>, n: nat, wanted: string)
    requires n <= |arrays|
  {
    && Searchable(arrays, n) && UuidsHold(scan.uuids, arrays, n) && NamesHold(scan.names, arrays, n)
    && scan.objects == Objects(arrays, n, wanted) && scan.indices == Places(arrays, n, wanted)
  }

  predicate Acceptable(scan: Scan, a: MdArray) {
    ArrayUsable(a) && a.name !in scan.names && (a.device in scan.uuids ==> scan.uuids[a.device] == a.uuid)
  }

  function Scanned(scan: Scan, i: nat, a: MdArray, wanted: string): Scan {
    Scan(scan.names + {a.name}, scan.uuids[a.device := a.uuid],
         if a.uuid == wanted then scan.objects + {a.device} else scan.objects,
         if a.uuid == wanted then scan.indices + [i] else scan.indices)
  }

  lemma ScanStep(scan: Scan, arrays: seq<MdArray>, n: nat, wanted: string)
    requires n < |arrays| && ScanHolds(scan, arrays, n, wanted)
    ensures if Acceptable(scan, arrays[n]) then ScanHolds(Scanned(scan, n, arrays[n], wanted), arrays, n + 1, wanted)
            else !Searchable(arrays, |arrays|)
  {
    SearchableStep(arrays, n);
    if ArrayUsable(arrays[n]) {
      UuidsStep(scan.uuids, arrays, n);
      NamesStep(scan.names, arrays, n);
      ObjectsStep(arrays, n, wanted);
    }
  }

  method MatchIn(arrays: seq<MdArray>, wanted: string) returns (r: Option<UuidMatch>)
    ensures r.Some? <==> Searchable(arrays, |arrays|)
    ensures r.Some? ==>
              r.value.indices == Places(arrays, |arrays|, wanted)
              && r.value.state == StateOf(Objects(arrays, |arrays|, wanted))
  {
    var scan := Scan({}, map[], {}, []);
    assert ScanHolds(scan, arrays, 0, wanted);
    for i := 0 to |arrays|
      invariant ScanHolds(scan, arrays, i, wanted)
    {
      ScanStep(scan, arrays, i, wanted);
      if !Acceptable(scan, arrays[i]) {
        return None;
      }
      scan := Scanned(scan, i, arrays[i], wanted);
    }
    r := Some(UuidMatch(StateOf(scan.objects), scan.indices));
  }

  // -- Agreement of the two --------------------------------------------------------------------------

  lemma KeptNamesDistinct(arrays: seq<MdArray>)
    requires NamesDistinct(arrays, |arrays|)
    ensures NamesDistinct(Kept(arrays), |Kept(arrays)|)
  {
    var sorted := Sort(ByName, arrays);
    DistinctCounts(arrays);
    forall i, j | 0 <= i < j < |sorted| ensures sorted[i].name != sorted[j].name {
      assert sorted[i] in multiset(arrays) && sorted[j] in multiset(arrays);
      if sorted[i] == sorted[j] {
        TwiceCounts(sorted, i, j);
      }
    }
  }

  /** What the collector hands over for finishing. */
  predicate CollectedFor(s: MdSnapshot) {
    && s.schemaVersion == 1 && s.readOnly && !s.blockDevicesOpened && !s.diskContentRead && !s.mutationsPerformed
    && NamesDistinct(s.arrays, |s.arrays|) && forall a :: a in s.arrays ==> Shaped(a) && ValidMdName(a.name)
  }

  lemma FinishedIsSearchable(s: MdSnapshot, t: MdSnapshot)
    requires CollectedFor(s) && Finished(s, t) && t.identityInventoryComplete
    ensures Announced(t) && Searchable(t.arrays, |t.arrays|)
  {
    var kept := Kept(s.arrays);
    KeptNamesDistinct(s.arrays);
    forall i | 0 <= i < |kept| ensures ArrayUsable(t.arrays[i]) {
      KeptIsObserved(s.arrays, i);
      assert kept[i] in kept;
    }
    forall i, j | 0 <= i < j < |kept| ensures !Clash(t.arrays, i, j) {
      assert !Clash(kept, i, j);
    }
  }

  lemma FinishedObjects(s: MdSnapshot, t: MdSnapshot, uuid: string)
    requires Finished(s, t) && t.identityInventoryComplete
    ensures Objects(t.arrays, |t.arrays|, uuid) == Objects(Kept(s.arrays), |t.arrays|, uuid)
  {
    var kept := Kept(s.arrays);
    assert forall i :: 0 <= i < |kept| ==>
      Tagged(t.arrays[i]) == Tagged(kept[i]) && t.arrays[i].uuid == kept[i].uuid
      && t.arrays[i].device == kept[i].device;
  }

  /** In a complete inventory an array is marked ambiguous exactly when looking its UUID up reports
      conflicting objects, and otherwise the lookup reports one object. */
  method FinishThenMatch(s: MdSnapshot, k: nat) returns (t: MdSnapshot, m: Option<UuidMatch>)
    requires CollectedFor(s) && k < |Kept(s.arrays)|
    ensures Finished(s, t) && (m.Some? <==> WholeInventory(s))
    ensures m.Some? ==>
              && (m.value.state == ConflictingObjects <==> t.arrays[k].uuidStatus.Ambiguous?)
              && (m.value.state == OneObject <==> t.arrays[k].uuidStatus.Present?)
              && k in m.value.indices
  {
    t := Finish(s);
    m := MatchUuid(t, t.arrays[k].uuid);
    if t.identityInventoryComplete {
      FinishedIsSearchable(s, t);
      MarkMeansObjects(s, t, k);
    }
  }

  lemma MarkMeansObjects(s: MdSnapshot, t: MdSnapshot, k: nat)
    requires CollectedFor(s) && Finished(s, t) && t.identityInventoryComplete && k < |t.arrays|
    ensures var uuid := t.arrays[k].uuid;
            && CanonicalUuid(uuid) && Lowered(WithoutNewline(uuid)) == uuid
            && StateOf(Objects(t.arrays, |t.arrays|, uuid)) ==
                 (if t.arrays[k].uuidStatus.Ambiguous? then ConflictingObjects else OneObject)
            && (t.arrays[k].uuidStatus.Ambiguous? || t.arrays[k].uuidStatus.Present?)
            && k in Places(t.arrays, |t.arrays|, uuid)
  {
    var uuid, kept := t.arrays[k].uuid, Kept(s.arrays);
    KeptIsObserved(s.arrays, k);
    assert kept[k] in kept;
    CanonicalIsFixed(uuid);
    FinishedObjects(s, t, uuid);
    PlacesMembers(t.arrays, |t.arrays|, uuid);
    assert kept[k].device in Objects(kept, |kept|, uuid);
  }

  // -- What a finished inventory and a lookup mean ---------------------------------------------------

  /** Two arrays carry the UUID on different kernel objects. */
  predicate SharedObjects(arrays: seq<MdArray>, uuid: string) {
    exists i, j ::
      0 <= i < |arrays| && 0 <= j < |arrays| && arrays[i].uuid == uuid && arrays[j].uuid == uuid
      && arrays[i].device != arrays[j].device
  }

  predicate Observed(arrays: seq<MdArray>, uuid: string) {
    exists i :: 0 <= i < |arrays| && arrays[i].uuid == uuid
  }

  lemma {:induction false} PlacesRise(arrays: seq<MdArray>, n: nat, uuid: string)
    requires n <= |arrays|
    ensures forall i, j ::
              0 <= i < j < |Places(arrays, n, uuid)| ==> Places(arrays, n, uuid)[i] < Places(arrays, n, uuid)[j]
  {
    if n > 0 {
      PlacesRise(arrays, n - 1, uuid);
      PlacesMembers(arrays, n - 1, uuid);
      var before := Places(arrays, n - 1, uuid);
      assert forall i :: 0 <= i < |before| ==> before[i] in before;
    }
  }

  lemma ObjectsMean(arrays: seq<MdArray>, uuid: string)
    requires Searchable(arrays, |arrays|)
    ensures Objects(arrays, |arrays|, uuid) == {} <==> !Observed(arrays, uuid)
    ensures |Objects(arrays, |arrays|, uuid)| > 1 <==> SharedObjects(arrays, uuid)
  {
    var objects := Objects(arrays, |arrays|, uuid);
    forall i | 0 <= i < |arrays| ensures Tagged(arrays[i]) {
      assert ArrayUsable(arrays[i]);
    }
    if i :| 0 <= i < |arrays| && arrays[i].uuid == uuid {
      assert arrays[i].device in objects;
    }
    if SharedObjects(arrays, uuid) {
      var i, j :| 0 <= i < |arrays| && 0 <= j < |arrays| && arrays[i].uuid == uuid && arrays[j].uuid == uuid
                  && arrays[i].device != arrays[j].device;
      assert {arrays[i].device, arrays[j].device} <= objects;
      assert |objects - {arrays[i].device}| == |objects| - 1;
      assert arrays[j].device in objects - {arrays[i].device};
    }
    if |objects| > 1 {
      var a :| a in objects;
      assert |objects - {a}| == |objects| - 1;
      var b :| b in objects - {a};
    }
  }

  /** What a searched inventory tells of itself and of every array. */
  lemma SearchedMeans(s: MdSnapshot, a: MdArray)
    requires Announced(s) && Searchable(s.arrays, |s.arrays|)
    ensures s.schemaVersion == 1 && s.readOnly && s.identityCollected && s.identityInventoryComplete
    ensures !s.blockDevicesOpened && !s.diskContentRead && !s.mutationsPerformed && s.arrayCount == |s.arrays| <= 16
    ensures a in s.arrays ==>
              && ValidMdName(a.name) && (a.device.major != 0 || a.device.minor != 0) && a.identityComplete
              && CanonicalUuid(a.uuid) && (a.uuidStatus == Present || a.uuidStatus == Ambiguous)
    ensures forall i, j :: 0 <= i < j < |s.arrays| ==>
              && s.arrays[i].name != s.arrays[j].name
              && (s.arrays[i].device == s.arrays[j].device ==> s.arrays[i].uuid == s.arrays[j].uuid)
  {
    if a in s.arrays {
      var i :| 0 <= i < |s.arrays| && s.arrays[i] == a;
      assert ArrayUsable(s.arrays[i]);
    }
    forall i, j | 0 <= i < j < |s.arrays|
      ensures s.arrays[i].device == s.arrays[j].device ==> s.arrays[i].uuid == s.arrays[j].uuid
    {
      assert ArrayUsable(s.arrays[i]) && ArrayUsable(s.arrays[j]) && !Clash(s.arrays, i, j);
    }
  }

  /** A lookup lists every place of the UUID in order, and tells none, one and several kernel objects apart. */
  lemma {:induction false} LookupMeans(arrays: seq<MdArray>, uuid: string)
    requires Searchable(arrays, |arrays|)
    ensures var indices, state := Places(arrays, |arrays|, uuid), StateOf(Objects(arrays, |arrays|, uuid));
            && (forall i :: i in indices <==> 0 <= i < |arrays| && arrays[i].uuid == uuid)
            && (forall i, j :: 0 <= i < j < |indices| ==> indices[i] < indices[j])
            && (state == NotObserved <==> !Observed(arrays, uuid))
            && (state == ConflictingObjects <==> SharedObjects(arrays, uuid))
            && (state == OneObject <==> Observed(arrays, uuid) && !SharedObjects(arrays, uuid))
  {
    PlacesMembers(arrays, |arrays|, uuid);
    PlacesRise(arrays, |arrays|, uuid);
    ObjectsMean(arrays, uuid);
    forall i | 0 <= i < |arrays| ensures Tagged(arrays[i]) {
      assert ArrayUsable(arrays[i]);
    }
  }

  predicate NamesAscend(arrays: seq<MdArray>) {
    forall i, j :: 0 <= i < j < |arrays| ==> TextAtMost(arrays[i].name, arrays[j].name)
  }

  /** The first sixteen arrays by name, in order. */
  ghost predicate FirstByName(arrays: seq<MdArray>, kept: seq<MdArray>) {
    && |kept| == (if |arrays| > 16 then 16 else |arrays|)
    && exists rest :: multiset(kept + rest) == multiset(arrays) && NamesAscend(kept + rest)
  }

  lemma ByNameIsTotal()
    ensures TotalOrder(ByName)
  {
    TextOrderIsTotal();
  }

  lemma KeptIsFirst(arrays: seq<MdArray>)
    ensures FirstByName(arrays, Kept(arrays))
  {
    var sorted, kept := Sort(ByName, arrays), Kept(arrays);
    ByNameIsTotal();
    SortSorts(ByName, arrays);
    forall i, j | 0 <= i < j < |sorted| ensures TextAtMost(sorted[i].name, sorted[j].name) {
      assert ByName(sorted[i], sorted[j]);
    }
    assert kept + sorted[|kept|..] == sorted;
  }

  /** What finishing never changes in an array. */
  predicate Restates(a: MdArray, b: MdArray) {
    a.name == b.name && a.device == b.device && a.level == b.level && a.members == b.members
    && a.identityComplete == b.identityComplete
  }

  lemma FinishedRestates(s: MdSnapshot, t: MdSnapshot, k: nat)
    requires Finished(s, t) && k < |Kept(s.arrays)|
    ensures k < |t.arrays| && Restates(t.arrays[k], Kept(s.arrays)[k])
  {
    if t.identityInventoryComplete {
      assert t.arrays[k] == Remarked(Kept(s.arrays), k);
    }
  }

  /** Ambiguous exactly when another kernel object carries the UUID. */
  predicate RightlyMarked(kept: seq<MdArray>, k: nat, a: MdArray)
    requires k < |kept|
  {
    a.uuid == kept[k].uuid && a.uuidStatus == if SharedObjects(kept, kept[k].uuid) then Ambiguous else Present
  }

  /** What is finished: the first sixteen arrays by name, rightly marked in a complete inventory. */
  lemma FinishedMeans(s: MdSnapshot, t: MdSnapshot) returns (kept: seq<MdArray>)
    requires CollectedFor(s) && Finished(s, t)
    ensures FirstByName(s.arrays, kept) && |t.arrays| == |kept| == t.arrayCount
    ensures forall k :: 0 <= k < |kept| ==> Restates(t.arrays[k], kept[k])
    ensures |s.arrays| > 16 ==> t.status == Partial && !t.identityInventoryComplete
    ensures t.identityInventoryComplete ==> forall k :: 0 <= k < |kept| ==> RightlyMarked(kept, k, t.arrays[k])
  {
    kept := Kept(s.arrays);
    KeptIsFirst(s.arrays);
    forall k | 0 <= k < |kept| ensures Restates(t.arrays[k], kept[k]) {
      FinishedRestates(s, t, k);
    }
    if t.identityInventoryComplete {
      forall k | 0 <= k < |kept| ensures RightlyMarked(kept, k, t.arrays[k]) {
        KeptMark(s, t, kept, k);
      }
    }
  }

  lemma KeptMark(s: MdSnapshot, t: MdSnapshot, kept: seq<MdArray>, k: nat)
    requires CollectedFor(s) && Finished(s, t) && t.identityInventoryComplete && kept == Kept(s.arrays) && k < |kept|
    ensures RightlyMarked(kept, k, t.arrays[k])
  {
    MarkMeansObjects(s, t, k);
    FinishedIsSearchable(s, t);
    ObjectsMean(t.arrays, t.arrays[k].uuid);
    SameUuids(s, t, kept);
  }

  lemma SameUuids(s: MdSnapshot, t: MdSnapshot, kept: seq<MdArray>)
    requires Finished(s, t) && t.identityInventoryComplete && kept == Kept(s.arrays)
    ensures |t.arrays| == |kept|
    ensures forall i :: 0 <= i < |kept| ==> t.arrays[i].uuid == kept[i].uuid && t.arrays[i].device == kept[i].device
    ensures forall uuid :: SharedObjects(t.arrays, uuid) <==> SharedObjects(kept, uuid)
  {
    forall i | 0 <= i < |kept| ensures t.arrays[i].uuid == kept[i].uuid && t.arrays[i].device == kept[i].device {
      assert t.arrays[i] == Remarked(kept, i);
    }
  }
}
