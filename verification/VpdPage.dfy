/** The SCSI Device Identification page (VPD page 83h, section 7.6.3 of SPC-3): its descriptor list, the parser
    that looks for one logical-unit NAA designator, and the exact relation between the two. */
module VpdPages {
  import opened Basics
  import opened BlockInventory

  const MAX_PAGE_BYTES: nat := 4096

  type Bytes = seq<Uint8>

  /** Three header bytes and the designator; the fourth header byte is the designator's length. */
  datatype Descriptor = Descriptor(first: Uint8, second: Uint8, third: Uint8, value: Bytes)

  predicate WellFormed(d: Descriptor) {
    0 < |d.value| <= 255
  }

  predicate AllWellFormed(list: seq<Descriptor>) {
    forall i :: 0 <= i < |list| ==> WellFormed(list[i])
  }

  // -- Printing --------------------------------------------------------------------------------------

  function Print(d: Descriptor): Bytes
    requires WellFormed(d)
  {
    [d.first, d.second, d.third, |d.value| as Uint8] + d.value
  }

  function PrintAll(list: seq<Descriptor>): Bytes
    requires AllWellFormed(list)
  {
    if list == [] then [] else Print(list[0]) + PrintAll(list[1..])
  }

  function PrintPage(peripheral: Uint8, list: seq<Descriptor>): Bytes
    requires AllWellFormed(list) && |PrintAll(list)| <= MAX_PAGE_BYTES - 4
  {
    [peripheral, 0x83, |PrintAll(list)| / 0x100, |PrintAll(list)| % 0x100] + PrintAll(list)
  }

  // -- Splitting -------------------------------------------------------------------------------------

  /** The payload as a list of descriptors, if it is one. */
  function Split(payload: Bytes): (r: Option<seq<Descriptor>>)
  {
    if payload == [] then Some([])
    else if |payload| < 4 || payload[3] == 0 || payload[3] > |payload| - 4 then None
    else
      var size := 4 + (payload[3] as int);
      Prepend(Descriptor(payload[0], payload[1], payload[2], payload[4..size]), Split(payload[size..]))
  }

  function Prepend(d: Descriptor, rest: Option<seq<Descriptor>>): Option<seq<Descriptor>> {
    if rest.None? then None else Some([d] + rest.value)
  }

  /** A payload that begins with a printed descriptor. */
  lemma {:induction false} SplitFirst(d: Descriptor, rest: Bytes)
    requires WellFormed(d)
    ensures Split(Print(d) + rest) == Prepend(d, Split(rest))
  {
    var payload := Print(d) + rest;
    var size := 4 + (payload[3] as int);
    assert payload[4..size] == d.value && payload[size..] == rest;
  }

  /** Printing a list and splitting it gives the list back. */
  lemma {:induction false} SplitPrinted(list: seq<Descriptor>)
    requires AllWellFormed(list)
    ensures Split(PrintAll(list)) == Some(list)
  {
    if list != [] {
      var d, rest := list[0], list[1..];
      assert WellFormed(d) && AllWellFormed(rest);
      SplitPrinted(rest);
      SplitFirst(d, PrintAll(rest));
      assert list == [d] + rest;
    }
  }

  predicate Begins(payload: Bytes, offset: nat) {
    offset + 4 <= |payload| && 0 < (payload[offset + 3] as int) <= |payload| - offset - 4
  }

  /** The descriptor at the offset. */
  function At(payload: Bytes, offset: nat): (d: Descriptor)
    requires Begins(payload, offset)
    ensures WellFormed(d) && |d.value| == payload[offset + 3]
  {
    Descriptor(payload[offset], payload[offset + 1], payload[offset + 2],
               payload[offset + 4..offset + 4 + (payload[offset + 3] as int)])
  }

  lemma AtPrints(payload: Bytes, offset: nat)
    requires Begins(payload, offset)
    ensures payload[offset..] == Print(At(payload, offset)) + payload[offset + 4 + |At(payload, offset).value|..]
  {
    var d, rest := At(payload, offset), payload[offset..];
    assert rest[..4] == [d.first, d.second, d.third, |d.value|];
    assert rest[4..4 + |d.value|] == d.value;
    assert rest[4 + |d.value|..] == payload[offset + 4 + |d.value|..];
    assert rest == rest[..4] + rest[4..4 + |d.value|] + rest[4 + |d.value|..];
  }

  lemma SplitAt(payload: Bytes, offset: nat)
    requires offset < |payload|
    ensures !Begins(payload, offset) ==> Split(payload[offset..]).None?
    ensures Begins(payload, offset) ==>
              var d := At(payload, offset);
              Split(payload[offset..]) ==
                  Prepend(d, Split(payload[offset + 4 + |d.value|..]))
  {
    if Begins(payload, offset) {
      AtPrints(payload, offset);
      SplitFirst(At(payload, offset), payload[offset + 4 + |At(payload, offset).value|..]);
    }
  }

  lemma {:induction false} PrintCons(d: Descriptor, rest: seq<Descriptor>)
    requires WellFormed(d) && AllWellFormed(rest)
    ensures AllWellFormed([d] + rest) && PrintAll([d] + rest) == Print(d) + PrintAll(rest)
  {
    assert ([d] + rest)[1..] == rest;
  }

  /** A payload that splits is the printed list, and no other list prints it. */
  lemma {:induction false} PrintSplit(payload: Bytes)
    requires Split(payload).Some?
    ensures AllWellFormed(Split(payload).value) && PrintAll(Split(payload).value) == payload
    decreases |payload|
  {
    if payload != [] {
      assert payload[0..] == payload;
      SplitAt(payload, 0);
      AtPrints(payload, 0);
      var d := At(payload, 0);
      var rest := payload[4 + |d.value|..];
      PrintSplit(rest);
      PrintCons(d, Split(rest).value);
    }
  }

  // -- Meaning ---------------------------------------------------------------------------------------

  /** A binary NAA designator of the logical unit. */
  predicate IsLogicalUnitNaa(d: Descriptor) {
    d.first % 16 == 1 && (d.second / 16) % 4 == 0 && d.second % 16 == 3
  }

  predicate AllZero(value: Bytes) {
    forall i :: 0 <= i < |value| ==> value[i] == 0
  }

  predicate NaaFits(value: Bytes)
    requires value != []
  {
    var naa := value[0] / 16;
    (((naa == 2 || naa == 3 || naa == 5) && |value| == 8) || (naa == 6 && |value| == 16)) && !AllZero(value)
  }

  predicate Unfit(d: Descriptor)
    requires WellFormed(d)
  {
    IsLogicalUnitNaa(d) && !NaaFits(d.value)
  }

  /** The bits of a descriptor header: code set 1 is binary, association 0 the logical unit, type 3 NAA; protocol
      and validity bits do not matter. */
  lemma HeaderBits(protocol: int, codeSet: int, upper: int, association: int, kind: int, d: Descriptor)
    requires 0 <= protocol < 16 && 0 <= codeSet < 16 && 0 <= upper < 4 && 0 <= association < 4 && 0 <= kind < 16
    requires d.first == 16 * protocol + codeSet && d.second == 64 * upper + 16 * association + kind
    ensures IsLogicalUnitNaa(d) <==> codeSet == 1 && association == 0 && kind == 3
  {
  }

  /** The NAA formats: 2, 3 and 5 in eight bytes, 6 in sixteen. No such designator is all zero. */
  lemma NaaFormats(naa: int, low: int, rest: Bytes, value: Bytes)
    requires 0 <= naa < 16 && 0 <= low < 16 && value == [16 * naa + low] + rest
    ensures NaaFits(value) <==> (naa in {2, 3, 5} && |rest| == 7) || (naa == 6 && |rest| == 15)
  {
    assert value[0] == 16 * naa + low;
  }

  /** The distinct logical-unit designators. */
  function Designators(list: seq<Descriptor>): set<Bytes> {
    set i | 0 <= i < |list| && IsLogicalUnitNaa(list[i]) :: list[i].value
  }

  datatype Outcome = Outcome(value: string, status: IdentityStatus)

  const INVALID := Outcome("", Invalid)

  /** What a descriptor list says: one designator is an identity, none or several are not. */
  ghost predicate Says(list: seq<Descriptor>, r: Outcome)
    requires AllWellFormed(list)
  {
    if exists i :: 0 <= i < |list| && Unfit(list[i]) then r == INVALID
    else if Designators(list) == {} then r == Outcome("", Unavailable)
    else if exists v :: Designators(list) == {v} then
      exists v :: Designators(list) == {v} && r == Outcome("naa." + Hex(v), Present)
    else r == Outcome("", Ambiguous)
  }

  function Digit(x: int): char
    requires 0 <= x < 16
  {
    if x < 10 then (('0' as int) + x) as char else (('a' as int) + x - 10) as char
  }

  function Hex(value: Bytes): string {
    if value == [] then "" else [Digit(value[0] / 16), Digit(value[0] % 16)] + Hex(value[1..])
  }

  /** The value of a lower-case hexadecimal digit. */
  function DigitValue(c: char): int {
    if '0' <= c <= '9' then c as int - '0' as int else if 'a' <= c <= 'f' then c as int - 'a' as int + 10 else -1
  }

  /** A designator prints two lower-case digits for every byte, the higher half first. */
  lemma {:induction false} HexReads(value: Bytes, i: nat)
    requires i < |value|
    ensures |Hex(value)| == 2 * |value|
    ensures 0 <= DigitValue(Hex(value)[2 * i]) < 16 && 0 <= DigitValue(Hex(value)[2 * i + 1]) < 16
    ensures DigitValue(Hex(value)[2 * i]) * 16 + DigitValue(Hex(value)[2 * i + 1]) == value[i]
  {
    HexLength(value);
    if i > 0 {
      HexReads(value[1..], i - 1);
      HexLength(value[1..]);
    }
  }

  lemma {:induction false} HexLength(value: Bytes)
    ensures |Hex(value)| == 2 * |value|
  {
    if value != [] {
      HexLength(value[1..]);
    }
  }

  /** Different designators print differently, so counting texts counts designators. */
  lemma {:induction false} HexInjective(a: Bytes, b: Bytes)
    requires Hex(a) == Hex(b)
    ensures a == b
    decreases |a|
  {
    if a != [] {
      assert b != [];
      assert Hex(a)[0] == Digit(a[0] / 16) && Hex(a)[1] == Digit(a[0] % 16);
      assert Hex(b)[0] == Digit(b[0] / 16) && Hex(b)[1] == Digit(b[0] % 16);
      DigitInjective(a[0] / 16, b[0] / 16);
      DigitInjective(a[0] % 16, b[0] % 16);
      assert Hex(a)[2..] == Hex(a[1..]) && Hex(b)[2..] == Hex(b[1..]);
      HexInjective(a[1..], b[1..]);
      assert a == [a[0]] + a[1..] && b == [b[0]] + b[1..];
    }
  }

  lemma DigitInjective(x: int, y: int)
    requires 0 <= x < 16 && 0 <= y < 16 && Digit(x) == Digit(y)
    ensures x == y
  {
  }

  // -- The parser ------------------------------------------------------------------------------------

  function Payload(page: Bytes, code: Uint8): Option<Bytes> {
    if |page| < 4 || |page| > MAX_PAGE_BYTES || page[1] != code
        || (page[2] as int) * 0x100 + (page[3] as int) != |page| - 4 then None
    else Some(page[4..])
  }

  /** The page is a printed descriptor list. */
  ghost predicate Prints(page: Bytes, list: seq<Descriptor>) {
    && AllWellFormed(list) && |PrintAll(list)| <= MAX_PAGE_BYTES - 4
    && page != [] && page == PrintPage(page[0], list)
  }

  lemma {:induction false} PrintedPayload(peripheral: Uint8, list: seq<Descriptor>)
    requires AllWellFormed(list) && |PrintAll(list)| <= MAX_PAGE_BYTES - 4
    ensures Payload(PrintPage(peripheral, list), 0x83) == Some(PrintAll(list))
  {
    var page := PrintPage(peripheral, list);
    assert page[4..] == PrintAll(list);
  }

  lemma PayloadPage(page: Bytes)
    requires Payload(page, 0x83).Some?
    ensures var payload := Payload(page, 0x83).value;
            |payload| <= MAX_PAGE_BYTES - 4 && page == [page[0], 0x83, |payload| / 0x100, |payload| % 0x100] + payload
  {
    assert page == [page[0], page[1], page[2], page[3]] + page[4..];
  }

  lemma PayloadPrints(page: Bytes, list: seq<Descriptor>)
    ensures Prints(page, list) <==> Payload(page, 0x83).Some? && Split(Payload(page, 0x83).value) == Some(list)
  {
    if Prints(page, list) {
      PrintedPayload(page[0], list);
      SplitPrinted(list);
    }
    if Payload(page, 0x83).Some? && Split(Payload(page, 0x83).value) == Some(list) {
      PrintSplit(Payload(page, 0x83).value);
      PayloadPage(page);
    }
  }

  /** A page prints at most one list. */
  lemma PrintedOnce(page: Bytes, a: seq<Descriptor>, b: seq<Descriptor>)
    requires Prints(page, a) && Prints(page, b)
    ensures a == b
  {
    PayloadPrints(page, a);
    PayloadPrints(page, b);
  }

  /** The designators seen so far, as texts. */
  function HexOf(values: set<Bytes>): set<string> {
    set v | v in values :: Hex(v)
  }

  lemma {:induction false} HexCounts(values: set<Bytes>)
    ensures |HexOf(values)| == |values|
  {
    if values != {} {
      var v :| v in values;
      HexCounts(values - {v});
      assert HexOf(values) == HexOf(values - {v}) + {Hex(v)};
      if Hex(v) in HexOf(values - {v}) {
        var w :| w in values - {v} && Hex(w) == Hex(v);
        HexInjective(v, w);
        assert false;
      }
    }
  }

  /** What has been read: good descriptors, and a rest that decides the whole. */
  ghost predicate Reading(payload: Bytes, offset: nat, done: seq<Descriptor>, identifiers: set<string>) {
    && offset <= |payload| && AllWellFormed(done)
    && (forall i :: 0 <= i < |done| ==> !Unfit(done[i]))
    && identifiers == HexOf(Designators(done))
    && Split(payload) == Joined(done, Split(payload[offset..]))
  }

  ghost function Joined(done: seq<Descriptor>, rest: Option<seq<Descriptor>>): Option<seq<Descriptor>> {
    if rest.None? then None else Some(done + rest.value)
  }

  lemma DesignatorsStep(done: seq<Descriptor>, d: Descriptor)
    ensures Designators(done + [d]) == Designators(done) + if IsLogicalUnitNaa(d) then {d.value} else {}
  {
    var more := done + [d];
    assert forall i :: 0 <= i < |done| ==> more[i] == done[i];
    assert more[|done|] == d;
  }

  lemma {:induction false} ReadStep(payload: Bytes, offset: nat, done: seq<Descriptor>, identifiers: set<string>)
    requires Reading(payload, offset, done, identifiers) && offset < |payload|
    ensures !Begins(payload, offset) ==> Split(payload).None?
    ensures Begins(payload, offset) ==>
              var d := At(payload, offset);
              && Split(payload) == Joined(done + [d], Split(payload[offset + 4 + |d.value|..]))
              && (!Unfit(d) ==> Reading(payload, offset + 4 + |d.value|, done + [d],
                                        if IsLogicalUnitNaa(d) then identifiers + {Hex(d.value)} else identifiers))
  {
    SplitAt(payload, offset);
    if Begins(payload, offset) {
      var d := At(payload, offset);
      JoinedStep(done, d, Split(payload[offset + 4 + |d.value|..]));
      DesignatorsStep(done, d);
    }
  }

  lemma JoinedStep(done: seq<Descriptor>, d: Descriptor, rest: Option<seq<Descriptor>>)
    ensures Joined(done, Prepend(d, rest)) == Joined(done + [d], rest)
  {
    if rest.Some? {
      assert done + ([d] + rest.value) == (done + [d]) + rest.value;
    }
  }

  /** Every page gets the outcome of the one list it prints; a page that prints none is invalid. */
  method ParseNaaPage(page: Bytes) returns (r: Outcome)
    ensures r == INVALID || exists list :: Prints(page, list)
    ensures forall list :: Prints(page, list) ==> Says(list, r)
  {
    var payload := Payload(page, 0x83);
    forall list ensures Prints(page, list) <==> payload.Some? && Split(payload.value) == Some(list) {
      PayloadPrints(page, list);
    }
    if payload.None? {
      return INVALID;
    }
    r := ParsePayload(payload.value);
    if Split(payload.value).Some? {
      assert Prints(page, Split(payload.value).value);
    }
  }

  /** Nothing was read that could be valid. */
  ghost predicate IsInvalid(payload: Bytes) {
    Split(payload).Some? ==> AllWellFormed(Split(payload).value) && Says(Split(payload).value, INVALID)
  }

  /** One descriptor: the offset behind it and the identifiers with its own, or nothing when it settles the page. */
  method ReadDescriptor(payload: Bytes, offset: nat, identifiers: set<string>, ghost done: seq<Descriptor>)
    returns (next: Option<(nat, set<string>)>, ghost more: seq<Descriptor>)
    requires Reading(payload, offset, done, identifiers) && offset < |payload|
    ensures next.None? ==> IsInvalid(payload)
    ensures next.Some? ==> offset < next.value.0 && Reading(payload, next.value.0, more, next.value.1)
  {
    more := done;
    if |payload| - offset < 4 || payload[offset + 3] == 0 || payload[offset + 3] > |payload| - offset - 4 {
      NoDescriptor(payload, offset, done, identifiers);
      return None, more;
    }
    var d := At(payload, offset);
    more := done + [d];
    next := Judge(payload, offset, identifiers, done, d);
  }

  lemma NoDescriptor(payload: Bytes, offset: nat, done: seq<Descriptor>, identifiers: set<string>)
    requires Reading(payload, offset, done, identifiers) && offset < |payload| && !Begins(payload, offset)
    ensures IsInvalid(payload)
  {
    ReadStep(payload, offset, done, identifiers);
  }

  method Judge(payload: Bytes, offset: nat, identifiers: set<string>, ghost done: seq<Descriptor>, d: Descriptor)
    returns (next: Option<(nat, set<string>)>)
    requires Reading(payload, offset, done, identifiers) && Begins(payload, offset) && d == At(payload, offset)
    ensures next.None? ==> IsInvalid(payload)
    ensures next.Some? ==> offset < next.value.0 && Reading(payload, next.value.0, done + [d], next.value.1)
  {
    ReadStep(payload, offset, done, identifiers);
    var size := 4 + |d.value|;
    if !IsLogicalUnitNaa(d) {
      return Some((offset + size, identifiers));
    }
    if !NaaFits(d.value) {
      UnfitDecides(payload, done, d, Split(payload[offset + size..]));
      return None;
    }
    next := Some((offset + size, identifiers + {Hex(d.value)}));
  }

  method ParsePayload(payload: Bytes) returns (r: Outcome)
    ensures Split(payload).None? ==> r == INVALID
    ensures Split(payload).Some? ==> AllWellFormed(Split(payload).value) && Says(Split(payload).value, r)
  {
    var identifiers: set<string> := {};
    var offset: nat := 0;
    ghost var done: seq<Descriptor> := [];
    StartsReading(payload);
    while offset < |payload|
      invariant Reading(payload, offset, done, identifiers)
      decreases |payload| - offset
    {
      var next;
      next, done := ReadDescriptor(payload, offset, identifiers, done);
      if next.None? {
        return INVALID;
      }
      offset, identifiers := next.value.0, next.value.1;
    }
    AllRead(payload, offset, done, identifiers);
    r := Conclude(identifiers, done);
  }

  lemma StartsReading(payload: Bytes)
    ensures Reading(payload, 0, [], {})
  {
    assert payload[0..] == payload && HexOf(Designators([])) == {};
    JoinedNone(Split(payload));
  }

  lemma {:induction false} AllRead(payload: Bytes, offset: nat, done: seq<Descriptor>, identifiers: set<string>)
    requires Reading(payload, offset, done, identifiers) && offset == |payload|
    ensures Split(payload) == Some(done) && |identifiers| == |Designators(done)|
  {
    assert payload[offset..] == [];
    assert done + [] == done;
    HexCounts(Designators(done));
  }

  lemma JoinedNone(rest: Option<seq<Descriptor>>)
    ensures Joined([], rest) == rest
  {
    if rest.Some? {
      assert [] + rest.value == rest.value;
    }
  }

  lemma {:induction false} UnfitDecides(payload: Bytes, done: seq<Descriptor>, d: Descriptor,
                                        rest: Option<seq<Descriptor>>)
    requires WellFormed(d) && Unfit(d) && Split(payload) == Joined(done + [d], rest)
    ensures IsInvalid(payload)
  {
    if rest.Some? {
      PrintSplit(payload);
      var list := Split(payload).value;
      assert list[|done|] == d;
    }
  }

  /** Zero, one or several identifiers. */
  method Conclude(identifiers: set<string>, ghost done: seq<Descriptor>) returns (r: Outcome)
    requires AllWellFormed(done) && (forall i :: 0 <= i < |done| ==> !Unfit(done[i]))
    requires identifiers == HexOf(Designators(done)) && |identifiers| == |Designators(done)|
    ensures Says(done, r)
  {
    if |identifiers| == 0 {
      return Outcome("", Unavailable);
    }
    if |identifiers| > 1 {
      return Outcome("", Ambiguous);
    }
    var text :| text in identifiers;
    ghost var v :| v in Designators(done) && Hex(v) == text;
    OnlyElement(Designators(done), v);
    r := Outcome("naa." + text, Present);
  }

  lemma OnlyElement<T>(s: set<T>, v: T)
    requires |s| == 1 && v in s
    ensures s == {v}
  {
    assert |s - {v}| == 0;
  }
}
