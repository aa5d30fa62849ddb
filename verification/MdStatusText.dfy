/** The kernel's MD status text as lines of fields: what the parser makes of every field, and that it reads back
    whatever is printed in its form. */
module MdStatusTexts {
  import opened Basics
  import opened BlockInventory
  import opened MdIdentity
  import opened MdHealth

  // A line comes split at white space, with the sync progress found in it.
  datatype Progress = NoProgress | MalformedProgress | InProgress(action: Action)

  datatype Line = Line(fields: seq<string>, progress: Progress)

  /** What a parser makes of a field that may be none of its business. */
  datatype Parse<T> = Skipped | Bad | Read(value: T)

  // -- Numbers ---------------------------------------------------------------------------------------

  predicate AllDigits(text: string) {
    forall i :: 0 <= i < |text| ==> '0' <= text[i] <= '9'
  }

  function Value(text: string): nat
    requires AllDigits(text)
  {
    if text == "" then 0 else 10 * Value(text[..|text| - 1]) + (text[|text| - 1] as int - '0' as int)
  }

  function ParseNumber(text: string): Option<Uint32> {
    if Digits(text) && Value(text) < 0x1_0000_0000 then Some(Value(text)) else None
  }

  function DigitChar(d: nat): (c: char)
    requires d < 10
    ensures '0' <= c <= '9' && c as int - '0' as int == d
  {
    ('0' as int + d) as char
  }

  function Print(n: nat): (text: string)
    ensures Digits(text) && Value(text) == n
  {
    if n < 10 then
      assert [DigitChar(n)][..0] == "";
      [DigitChar(n)]
    else
      var text := Print(n / 10) + [DigitChar(n % 10)];
      assert text[..|text| - 1] == Print(n / 10);
      text
  }

  // -- Places of a character -------------------------------------------------------------------------

  function LastOf(text: string, c: char): (r: Option<nat>)
    ensures r.None? ==> c !in text
    ensures r.Some? ==> r.value < |text| && text[r.value] == c && c !in text[r.value + 1..]
  {
    if text == "" then None
    else if text[|text| - 1] == c then Some(|text| - 1)
    else
      var r := LastOf(text[..|text| - 1], c);
      assert text == text[..|text| - 1] + [text[|text| - 1]];
      assert r.Some? ==> text[r.value + 1..] == text[..|text| - 1][r.value + 1..] + [text[|text| - 1]];
      r
  }

  function FirstOf(text: string, c: char): (r: Option<nat>)
    ensures r.None? ==> c !in text
    ensures r.Some? ==> r.value < |text| && text[r.value] == c && c !in text[..r.value]
  {
    if text == "" then None
    else if text[0] == c then Some(0)
    else
      var r := FirstOf(text[1..], c);
      assert text == [text[0]] + text[1..];
      assert r.Some? ==> text[..r.value + 1] == [text[0]] + text[1..][..r.value];
      if r.None? then None else Some(r.value + 1)
  }

  lemma InTail(text: string, i: nat, j: nat)
    ensures i < j < |text| ==> text[j] in text[i + 1..] && text[i] in text[..j]
  {
    if i < j < |text| {
      assert text[j] == text[i + 1..][j - i - 1] && text[i] == text[..j][i];
    }
  }

  lemma {:induction false} LastAt(text: string, c: char, k: nat)
    requires k < |text| && text[k] == c && c !in text[k + 1..]
    ensures LastOf(text, c) == Some(k)
  {
    var r := LastOf(text, c);
    assert text[k] in text;
    InTail(text, r.value, k);
    InTail(text, k, r.value);
  }

  lemma {:induction false} FirstAt(text: string, c: char, k: nat)
    requires k < |text| && text[k] == c && c !in text[..k]
    ensures FirstOf(text, c) == Some(k)
  {
    var r := FirstOf(text, c);
    assert text[k] in text;
    InTail(text, r.value, k);
    InTail(text, k, r.value);
  }

  lemma SplitAround(a: string, c: char, b: string)
    ensures (a + [c] + b)[..|a|] == a && (a + [c] + b)[|a|] == c && (a + [c] + b)[|a| + 1..] == b
  {
  }

  lemma {:induction false} LastInJoin(a: string, c: char, b: string)
    requires c !in b
    ensures LastOf(a + [c] + b, c) == Some(|a|)
  {
    SplitAround(a, c, b);
    LastAt(a + [c] + b, c, |a|);
  }

  lemma {:induction false} FirstInJoin(a: string, c: char, b: string)
    requires c !in a
    ensures FirstOf(a + [c] + b, c) == Some(|a|)
  {
    SplitAround(a, c, b);
    FirstAt(a + [c] + b, c, |a|);
  }

  lemma NoDigit(text: string, c: char)
    requires AllDigits(text) && !('0' <= c <= '9')
    ensures c !in text
  {
  }

  // -- Members ---------------------------------------------------------------------------------------

  function SuffixState(text: string): Option<MemberState> {
    if text == "" || text == "(A)" then Some(ActiveMember)
    else if text == "(S)" then Some(SpareMember)
    else if text == "(F)" then Some(FaultyMember)
    else None
  }

  function Suffix(state: MemberState): (text: string)
    ensures SuffixState(text) == Some(state) && '[' !in text
  {
    match state
    case ActiveMember => ""
    case SpareMember => "(S)"
    case FaultyMember => "(F)"
  }

  /** `name[index]` with a state behind it; a field without a bracket is no member. */
  function ParseMember(field: string): Parse<Member> {
    var open := LastOf(field, '[');
    if open.None? then Skipped else MemberFrom(field[..open.value], field[open.value + 1..])
  }

  function MemberFrom(name: string, rest: string): Parse<Member> {
    var close := FirstOf(rest, ']');
    if close.None? then Bad else MemberWith(name, rest[..close.value], rest[close.value + 1..])
  }

  function MemberWith(name: string, index: string, suffix: string): Parse<Member> {
    if !ValidBlockName(name) || ParseNumber(index).None? || SuffixState(suffix).None? then Bad
    else Read(Member(name, SuffixState(suffix).value))
  }

  function PrintMember(m: Member, index: Uint32): string {
    PrintWith(m.name, index, Suffix(m.state))
  }

  function PrintWith(name: string, index: Uint32, suffix: string): string {
    name + ['['] + PrintPlace(index, suffix)
  }

  function PrintPlace(index: Uint32, suffix: string): string {
    Print(index) + [']'] + suffix
  }

  lemma PlaceRoundTrip(m: Member, index: Uint32, suffix: string)
    requires ValidBlockName(m.name) && SuffixState(suffix) == Some(m.state) && '[' !in suffix
    ensures MemberFrom(m.name, PrintPlace(index, suffix)) == Read(m) && '[' !in PrintPlace(index, suffix)
  {
    var number, rest := Print(index), PrintPlace(index, suffix);
    NoDigit(number, '[');
    NoDigit(number, ']');
    FirstInJoin(number, ']', suffix);
    assert rest[..|number|] == number && rest[|number| + 1..] == suffix;
  }

  /** A member is read back with any index and any suffix for its state. */
  lemma MemberRoundTrip(m: Member, index: Uint32, suffix: string)
    requires ValidBlockName(m.name) && SuffixState(suffix) == Some(m.state)
    ensures ParseMember(PrintWith(m.name, index, suffix)) == Read(m)
  {
    SuffixIsShort(suffix);
    var rest := PrintPlace(index, suffix);
    PlaceRoundTrip(m, index, suffix);
    LastInJoin(m.name, '[', rest);
    SplitAround(m.name, '[', rest);
  }

  /** The suffixes: none or `(A)` for an active member, `(S)` for a spare and `(F)` for a faulty one. */
  lemma SuffixMeans(text: string, state: MemberState)
    ensures SuffixState(text) == Some(state) <==>
              match state
              case ActiveMember => text in {"", "(A)"}
              case SpareMember => text == "(S)"
              case FaultyMember => text == "(F)"
  {
  }

  lemma SuffixIsShort(text: string)
    requires SuffixState(text).Some?
    ensures '[' !in text
  {
  }

  /** The members among the fields; nothing when one of them is malformed. */
  function ParseMembers(fields: seq<string>): Option<seq<Member>> {
    Collected(seq(|fields|, i requires 0 <= i < |fields| => ParseMember(fields[i])))
  }

  function Collected(parses: seq<Parse<Member>>): Option<seq<Member>> {
    if parses == [] then Some([])
    else
      var before, m := Collected(parses[..|parses| - 1]), parses[|parses| - 1];
      if before.None? || m.Bad? then None
      else Some(before.value + if m.Read? then [m.value] else [])
  }

  function PrintMembers(members: seq<Member>): (fields: seq<string>)
    requires |members| <= MAX_MEMBERS
    ensures |fields| == |members| && forall i :: 0 <= i < |fields| ==> fields[i] == PrintMember(members[i], i)
  {
    seq(|members|, i requires 0 <= i < |members| => PrintMember(members[i], i))
  }

  predicate MembersNamed(members: seq<Member>) {
    forall i :: 0 <= i < |members| ==> ValidBlockName(members[i].name)
  }

  lemma {:induction false} CollectRead(parses: seq<Parse<Member>>, members: seq<Member>)
    requires |parses| == |members| && forall i :: 0 <= i < |parses| ==> parses[i] == Read(members[i])
    ensures Collected(parses) == Some(members)
  {
    if parses != [] {
      var n := |parses| - 1;
      CollectRead(parses[..n], members[..n]);
      assert members == members[..n] + [members[n]];
    }
  }

  lemma MembersRoundTrip(members: seq<Member>)
    requires |members| <= MAX_MEMBERS && MembersNamed(members)
    ensures ParseMembers(PrintMembers(members)) == Some(members)
  {
    var fields := PrintMembers(members);
    var parses := seq(|fields|, i requires 0 <= i < |fields| => ParseMember(fields[i]));
    forall i | 0 <= i < |parses| ensures parses[i] == Read(members[i]) {
      MemberRoundTrip(members[i], i, Suffix(members[i].state));
    }
    CollectRead(parses, members);
  }

  lemma {:induction false} CollectedExactly(parses: seq<Parse<Member>>)
    ensures Collected(parses).None? <==> exists i :: 0 <= i < |parses| && parses[i].Bad?
  {
    if parses != [] {
      var n := |parses| - 1;
      CollectedExactly(parses[..n]);
      assert forall i :: 0 <= i < n ==> parses[..n][i] == parses[i];
      if Collected(parses[..n]).None? {
        var i :| 0 <= i < n && parses[..n][i].Bad?;
        assert parses[i].Bad?;
      }
    }
  }

  /** The members of a header are refused exactly when one of its fields is malformed. */
  lemma MembersRefused(fields: seq<string>)
    ensures ParseMembers(fields).None? <==> exists i :: 0 <= i < |fields| && ParseMember(fields[i]).Bad?
  {
    var parses := seq(|fields|, i requires 0 <= i < |fields| => ParseMember(fields[i]));
    CollectedExactly(parses);
    if i :| 0 <= i < |parses| && parses[i].Bad? {
      assert ParseMember(fields[i]).Bad?;
    }
    if i :| 0 <= i < |fields| && ParseMember(fields[i]).Bad? {
      assert parses[i].Bad?;
    }
  }

  predicate NamedIfRead(parse: Parse<Member>) {
    parse.Read? ==> ValidBlockName(parse.value.name)
  }

  lemma {:induction false} CollectedNamed(parses: seq<Parse<Member>>)
    requires Collected(parses).Some? && forall i :: 0 <= i < |parses| ==> NamedIfRead(parses[i])
    ensures MembersNamed(Collected(parses).value)
  {
    if parses != [] {
      CollectedNamed(parses[..|parses| - 1]);
      assert NamedIfRead(parses[|parses| - 1]);
    }
  }

  lemma ParsedMembersNamed(fields: seq<string>)
    requires ParseMembers(fields).Some?
    ensures MembersNamed(ParseMembers(fields).value)
  {
    var parses := seq(|fields|, i requires 0 <= i < |fields| => ParseMember(fields[i]));
    forall i | 0 <= i < |parses| ensures NamedIfRead(parses[i]) {
      assert NamedIfRead(ParseMember(fields[i]));
    }
    CollectedNamed(parses);
  }

  // -- Counts and slots ------------------------------------------------------------------------------

  predicate Bracketed(field: string, least: nat) {
    |field| >= least && |field| >= 2 && field[0] == '[' && field[|field| - 1] == ']'
  }

  /** `[expected/active]`; anything but two numbers around one slash in brackets is no count or a malformed one. */
  function ParseCounts(field: string): Parse<(Uint32, Uint32)> {
    if !Bracketed(field, 5) then Skipped else CountsFrom(field[1..|field| - 1])
  }

  function CountsFrom(inside: string): Parse<(Uint32, Uint32)> {
    var slash := FirstOf(inside, '/');
    if slash.None? || '/' in inside[slash.value + 1..] then Skipped
    else CountsWith(inside[..slash.value], inside[slash.value + 1..])
  }

  function CountsWith(first: string, second: string): Parse<(Uint32, Uint32)> {
    var expected, active := ParseNumber(first), ParseNumber(second);
    if expected.None? || active.None? || expected.value == 0 || expected.value > MAX_MEMBERS then Bad
    else Read((expected.value, active.value))
  }

  function PrintPair(expected: Uint32, active: Uint32): string {
    Print(expected) + ['/'] + Print(active)
  }

  function PrintCounts(expected: Uint32, active: Uint32): string {
    ['['] + PrintPair(expected, active) + [']']
  }

  lemma PairRoundTrip(expected: Uint32, active: Uint32)
    requires 0 < expected <= MAX_MEMBERS
    ensures CountsFrom(PrintPair(expected, active)) == Read((expected, active))
    ensures |PrintPair(expected, active)| >= 3 && !SlotText(PrintPair(expected, active))
  {
    var first, second := Print(expected), Print(active);
    NoDigit(first, '/');
    NoDigit(second, '/');
    FirstInJoin(first, '/', second);
    SplitAround(first, '/', second);
    assert PrintPair(expected, active)[|first|] == '/';
  }

  lemma CountsRoundTrip(expected: Uint32, active: Uint32)
    requires 0 < expected <= MAX_MEMBERS
    ensures ParseCounts(PrintCounts(expected, active)) == Read((expected, active))
    ensures ParseSlots(PrintCounts(expected, active)).None?
  {
    var field := PrintCounts(expected, active);
    PairRoundTrip(expected, active);
    assert field[1..|field| - 1] == PrintPair(expected, active);
  }

  /** Two texts around one slash are counts exactly when both are 32-bit numbers and the first is from one to
      thirty-two, and malformed otherwise. */
  lemma CountsExactly(first: string, second: string)
    requires '/' !in first && '/' !in second && |first| + |second| >= 2
    ensures ParseCounts(['['] + (first + ['/'] + second) + [']']) ==
              if ParseNumber(first).Some? && ParseNumber(second).Some? && 1 <= ParseNumber(first).value <= 32
              then Read((ParseNumber(first).value, ParseNumber(second).value)) else Bad
  {
    var inside := first + ['/'] + second;
    var field := ['['] + inside + [']'];
    FirstInJoin(first, '/', second);
    SplitAround(first, '/', second);
    assert field[1..|field| - 1] == inside;
  }

  function ParseSlots(field: string): Option<string> {
    if Bracketed(field, 3) && SlotText(field[1..|field| - 1]) then Some(field[1..|field| - 1]) else None
  }

  function PrintSlots(text: string): string {
    ['['] + text + [']']
  }

  lemma SlotsRoundTrip(text: string)
    requires SlotText(text)
    ensures ParseSlots(PrintSlots(text)) == Some(text) && ParseCounts(PrintSlots(text)).Skipped?
  {
    var field := PrintSlots(text);
    assert field[1..|field| - 1] == text;
  }

  // -- Headers ---------------------------------------------------------------------------------------

  function LevelOf(text: string): Option<Level> {
    if text == "linear" then Some(Linear)
    else if text == "multipath" then Some(Multipath)
    else if text == "faulty" then Some(FaultyLevel)
    else if text == "container" then Some(Container)
    else if text == "raid0" then Some(Raid0)
    else if text == "raid1" then Some(Raid1)
    else if text == "raid4" then Some(Raid4)
    else if text == "raid5" then Some(Raid5)
    else if text == "raid6" then Some(Raid6)
    else if text == "raid10" then Some(Raid10)
    else None
  }

  function LevelName(level: Level): (text: string)
    requires ValidLevel(level)
    ensures LevelOf(text) == Some(level) && !Parenthesised(text)
  {
    match level
    case Linear => "linear"
    case Multipath => "multipath"
    case FaultyLevel => "faulty"
    case Container => "container"
    case Raid0 => "raid0"
    case Raid1 => "raid1"
    case Raid4 => "raid4"
    case Raid5 => "raid5"
    case Raid6 => "raid6"
    case Raid10 => "raid10"
  }

  lemma LevelHasNoBracket(text: string)
    requires LevelOf(text).Some?
    ensures '[' !in text && ValidLevel(LevelOf(text).value)
  {
  }

  predicate Parenthesised(field: string) {
    field != "" && field[0] == '(' && field[|field| - 1] == ')'
  }

  predicate IsHeader(fields: seq<string>) {
    |fields| >= 2 && fields[1] == ":" && "md" <= fields[0]
  }

  /** The fields after the state: a remark in parentheses, a level, then the members. */
  function AfterRemark(fields: seq<string>): seq<string> {
    if fields != [] && Parenthesised(fields[0]) then fields[1..] else fields
  }

  function ParseHeader(fields: seq<string>): Option<Token>
    requires IsHeader(fields)
  {
    if !ValidMdName(fields[0]) || |fields| < 3 || (fields[2] != "active" && fields[2] != "inactive") then None
    else
      HeaderWith(fields[0], fields[2] == "active", AfterRemark(fields[3..]))
  }

  function HeaderWith(name: string, running: bool, rest: seq<string>): Option<Token> {
    var level := if rest == [] then None else LevelOf(rest[0]);
    var members := ParseMembers(if level.Some? then rest[1..] else rest);
    if members.None? then None else Some(Header(name, running, level, members.value))
  }

  predicate WellFormed(t: Token) {
    match t
    case Header(name, _, level, members) =>
      ValidMdName(name) && (level.Some? ==> ValidLevel(level.value)) && MembersNamed(members)
    case Counts(expected, _) => 0 < expected <= MAX_MEMBERS
    case Slots(text) => SlotText(text)
    case Sync(_) => true
  }

  predicate RemarkOk(remark: Option<string>) {
    remark.Some? ==> Parenthesised(remark.value)
  }

  function PrintHeader(t: Token, remark: Option<string>): seq<string>
    requires t.Header? && WellFormed(t) && |t.members| <= MAX_MEMBERS
  {
    [t.name, ":", if t.running then "active" else "inactive"]
    + ((if remark.Some? then [remark.value] else []) + PrintRest(t.level, t.members))
  }

  function PrintRest(level: Option<Level>, members: seq<Member>): seq<string>
    requires (level.Some? ==> ValidLevel(level.value)) && |members| <= MAX_MEMBERS
  {
    (if level.Some? then [LevelName(level.value)] else []) + PrintMembers(members)
  }

  lemma PrintedMemberIsPlain(members: seq<Member>)
    requires 0 < |members| <= MAX_MEMBERS && MembersNamed(members)
    ensures !Parenthesised(PrintMembers(members)[0]) && LevelOf(PrintMembers(members)[0]).None?
  {
    var field := PrintMember(members[0], 0);
    assert field[0] == members[0].name[0] && BlockNameChar(field[0]);
    assert field[|members[0].name|] == '[';
    if LevelOf(field).Some? {
      LevelHasNoBracket(field);
    }
  }

  lemma MdNameStarts(name: string)
    requires ValidMdName(name)
    ensures "md" <= name
  {
    if "md_d" <= name {
      assert name[..2] == "md";
    }
  }

  lemma RestRoundTrip(t: Token)
    requires t.Header? && WellFormed(t) && |t.members| <= MAX_MEMBERS
    ensures var rest := PrintRest(t.level, t.members);
            AfterRemark(rest) == rest && HeaderWith(t.name, t.running, rest) == Some(t)
  {
    var rest := PrintRest(t.level, t.members);
    if t.members != [] {
      PrintedMemberIsPlain(t.members);
    }
    MembersRoundTrip(t.members);
    if t.level.Some? {
      assert rest[0] == LevelName(t.level.value) && rest[1..] == PrintMembers(t.members);
    } else {
      assert rest == PrintMembers(t.members);
    }
  }

  lemma RemarkIsSkipped(remark: Option<string>, rest: seq<string>)
    requires RemarkOk(remark) && AfterRemark(rest) == rest
    ensures AfterRemark((if remark.Some? then [remark.value] else []) + rest) == rest
  {
    if remark.Some? {
      assert ([remark.value] + rest)[1..] == rest;
    } else {
      assert [] + rest == rest;
    }
  }

  /** The fields of a header: name, colon, state, and the rest behind an optional remark. */
  lemma HeaderFrom(fields: seq<string>, t: Token, rest: seq<string>)
    requires t.Header? && ValidMdName(t.name) && "md" <= t.name && |fields| >= 3
    requires fields[0] == t.name && fields[1] == ":" && fields[2] == if t.running then "active" else "inactive"
    requires AfterRemark(fields[3..]) == rest && HeaderWith(t.name, t.running, rest) == Some(t)
    ensures IsHeader(fields) && ParseHeader(fields) == Some(t)
  {
  }

  /** A printed header is read back, with or without a remark behind its state. */
  lemma HeaderRoundTrip(t: Token, remark: Option<string>)
    requires t.Header? && WellFormed(t) && |t.members| <= MAX_MEMBERS && RemarkOk(remark)
    ensures IsHeader(PrintHeader(t, remark)) && ParseHeader(PrintHeader(t, remark)) == Some(t)
  {
    MdNameStarts(t.name);
    RestRoundTrip(t);
    var rest := PrintRest(t.level, t.members);
    RemarkIsSkipped(remark, rest);
    var fields := PrintHeader(t, remark);
    assert fields[3..] == (if remark.Some? then [remark.value] else []) + rest;
    HeaderFrom(fields, t, rest);
  }

  // -- Lines -----------------------------------------------------------------------------------------

  /** The tokens of a field: counts, and then slots. */
  function FieldTokens(field: string): Option<seq<Token>> {
    var counts, slots := ParseCounts(field), ParseSlots(field);
    if counts.Bad? then None
    else Some((if counts.Read? then [Counts(counts.value.0, counts.value.1)] else [])
              + if slots.Some? then [Slots(slots.value)] else [])
  }

  function Joined(a: Option<seq<Token>>, b: Option<seq<Token>>): Option<seq<Token>> {
    if a.None? || b.None? then None else Some(a.value + b.value)
  }

  function FieldsTokens(fields: seq<string>): Option<seq<Token>> {
    if fields == [] then Some([])
    else Joined(FieldsTokens(fields[..|fields| - 1]), FieldTokens(fields[|fields| - 1]))
  }

  /** The fields of a line are refused exactly when one of them is malformed as counts. */
  lemma {:induction false} FieldsRefused(fields: seq<string>)
    ensures FieldsTokens(fields).None? <==> exists i :: 0 <= i < |fields| && ParseCounts(fields[i]).Bad?
  {
    if fields != [] {
      var n := |fields| - 1;
      FieldsRefused(fields[..n]);
      assert forall i :: 0 <= i < n ==> fields[..n][i] == fields[i];
      FieldRefused(fields[n]);
      if FieldsTokens(fields[..n]).None? {
        var i :| 0 <= i < n && ParseCounts(fields[..n][i]).Bad?;
        assert ParseCounts(fields[i]).Bad?;
      }
    }
  }

  lemma FieldRefused(field: string)
    ensures FieldTokens(field).None? <==> ParseCounts(field).Bad?
  {
  }

  function ProgressTokens(p: Progress): Option<seq<Token>> {
    match p
    case NoProgress => Some([])
    case MalformedProgress => None
    case InProgress(action) => Some([Sync(action)])
  }

  /** What a line says: one header, or tokens that count only behind a header. */
  datatype Content = Content(header: bool, tokens: Option<seq<Token>>)

  function ContentOf(line: Line): Content {
    if IsHeader(line.fields) then
      var t := ParseHeader(line.fields);
      Content(true, if t.None? then None else Some([t.value]))
    else Content(false, Joined(FieldsTokens(line.fields), ProgressTokens(line.progress)))
  }

  function Counting(c: Content, started: bool): Option<seq<Token>> {
    if started || c.header then c.tokens else Some([])
  }

  function Flattened(contents: seq<Content>): Option<seq<Token>> {
    if contents == [] then Some([])
    else
      var before := Flattened(contents[..|contents| - 1]);
      if before.None? then None else Joined(before, Counting(contents[|contents| - 1], before.value != []))
  }

  function Contents(lines: seq<Line>): (contents: seq<Content>)
    ensures |contents| == |lines| && forall i :: 0 <= i < |contents| ==> contents[i] == ContentOf(lines[i])
  {
    seq(|lines|, i requires 0 <= i < |lines| => ContentOf(lines[i]))
  }

  /** The tokens of a text, in order; nothing when a line that counts is malformed. */
  function TextTokens(lines: seq<Line>): Option<seq<Token>> {
    Flattened(Contents(lines))
  }

  lemma {:induction false} MalformedStays(contents: seq<Content>, k: nat)
    requires k <= |contents| && Flattened(contents[..k]).None?
    ensures Flattened(contents).None?
  {
    if k < |contents| {
      var n := |contents| - 1;
      assert contents[..n][..k] == contents[..k];
      MalformedStays(contents[..n], k);
    } else {
      assert contents[..k] == contents;
    }
  }

  lemma {:induction false} FlattenedMore(contents: seq<Content>, k: nat, tokens: seq<Token>)
    requires k < |contents| && Flattened(contents[..k]) == Some(tokens)
    ensures Flattened(contents[..k + 1]) == Joined(Some(tokens), Counting(contents[k], tokens != []))
  {
    assert contents[..k + 1][..k] == contents[..k];
  }

  method Tokenise(lines: seq<Line>) returns (r: Option<seq<Token>>)
    ensures r == TextTokens(lines)
  {
    var tokens: seq<Token> := [];
    ghost var contents := Contents(lines);
    assert contents[..0] == [];
    for k := 0 to |lines|
      invariant Flattened(contents[..k]) == Some(tokens)
    {
      FlattenedMore(contents, k, tokens);
      var more := Counting(ContentOf(lines[k]), tokens != []);
      if more.None? {
        MalformedStays(contents, k + 1);
        return None;
      }
      tokens := tokens + more.value;
    }
    assert contents[..|lines|] == contents;
    r := Some(tokens);
  }

  /** The records of a text, exactly when every line parses, nothing conflicts, and counts and slots agree. */
  method ParseText(lines: seq<Line>) returns (r: Option<seq<Record>>)
    ensures r.Some? <==>
              && TextTokens(lines).Some?
              && var tokens := TextTokens(lines).value;
                 && Taken(tokens, |tokens|).Some?
                 && forall i ::
                      0 <= i < |Taken(tokens, |tokens|).value| ==> Consistent(Taken(tokens, |tokens|).value[i])
    ensures r.Some? ==> r == Taken(TextTokens(lines).value, |TextTokens(lines).value|) && RecordsFit(r.value)
  {
    var tokens := Tokenise(lines);
    if tokens.None? {
      return None;
    }
    r := ParseRecords(tokens.value);
  }

  // -- Printing and reading back ---------------------------------------------------------------------

  /** A field of a line behind a header: a word that says nothing, or a mark. */
  datatype Item = Word(text: string) | Mark(token: Token)

  predicate ItemOk(item: Item) {
    match item
    case Word(text) => text == "" || text[0] != '[' || text[|text| - 1] != ']'
    case Mark(t) => (t.Counts? || t.Slots?) && WellFormed(t)
  }

  function PrintItem(item: Item): string
    requires ItemOk(item)
  {
    match item
    case Word(text) => text
    case Mark(Counts(expected, active)) => PrintCounts(expected, active)
    case Mark(Slots(text)) => PrintSlots(text)
  }

  function ItemTokens(item: Item): seq<Token> {
    if item.Mark? then [item.token] else []
  }

  function ItemsTokens(items: seq<Item>): seq<Token> {
    if items == [] then [] else ItemsTokens(items[..|items| - 1]) + ItemTokens(items[|items| - 1])
  }

  predicate ItemsOk(items: seq<Item>) {
    forall i :: 0 <= i < |items| ==> ItemOk(items[i])
  }

  function PrintItems(items: seq<Item>): (fields: seq<string>)
    requires ItemsOk(items)
    ensures |fields| == |items| && forall i :: 0 <= i < |fields| ==> fields[i] == PrintItem(items[i])
  {
    seq(|items|, i requires 0 <= i < |items| => PrintItem(items[i]))
  }

  /** One printed line: a header with its remark, or fields and the sync in progress. */
  datatype Printed = HeadLine(token: Token, remark: Option<string>) | BodyLine(items: seq<Item>, sync: Option<Action>)

  /** Not the beginning of a header: no array name, or no colon behind it. */
  predicate BodyFields(fields: seq<string>) {
    |fields| < 2 || fields[1] != ":" || |fields[0]| < 2 || fields[0][0] != 'm' || fields[0][1] != 'd'
  }

  predicate LineOk(line: Printed) {
    match line
    case HeadLine(t, remark) => t.Header? && WellFormed(t) && |t.members| <= MAX_MEMBERS && RemarkOk(remark)
    case BodyLine(items, _) => ItemsOk(items) && BodyFields(PrintItems(items))
  }

  function PrintLine(line: Printed): Line
    requires LineOk(line)
  {
    match line
    case HeadLine(t, remark) => Line(PrintHeader(t, remark), NoProgress)
    case BodyLine(items, sync) => Line(PrintItems(items), if sync.Some? then InProgress(sync.value) else NoProgress)
  }

  function Said(line: Printed): seq<Token> {
    match line
    case HeadLine(t, _) => [t]
    case BodyLine(items, sync) => ItemsTokens(items) + if sync.Some? then [Sync(sync.value)] else []
  }

  function Concat(lists: seq<seq<Token>>): seq<Token> {
    if lists == [] then [] else Concat(lists[..|lists| - 1]) + lists[|lists| - 1]
  }

  function SaidBy(text: seq<Printed>): (lists: seq<seq<Token>>)
    ensures |lists| == |text| && forall i :: 0 <= i < |lists| ==> lists[i] == Said(text[i])
  {
    seq(|text|, i requires 0 <= i < |text| => Said(text[i]))
  }

  function AllSaid(text: seq<Printed>): seq<Token> {
    Concat(SaidBy(text))
  }

  /** A text that can be printed: its lines are well formed, and the first is a header. */
  predicate Printable(text: seq<Printed>) {
    && (forall i :: 0 <= i < |text| ==> LineOk(text[i]))
    && (text != [] ==> text[0].HeadLine?)
  }

  function PrintText(text: seq<Printed>): (lines: seq<Line>)
    requires Printable(text)
    ensures |lines| == |text| && forall i :: 0 <= i < |lines| ==> lines[i] == PrintLine(text[i])
  {
    seq(|text|, i requires 0 <= i < |text| => PrintLine(text[i]))
  }

  lemma WordSaysNothing(text: string)
    requires text == "" || text[0] != '[' || text[|text| - 1] != ']'
    ensures FieldTokens(text) == Some([])
  {
    var none: seq<Token> := [];
    assert ParseCounts(text).Skipped? && ParseSlots(text).None?;
    assert none + none == none;
  }

  lemma ItemRoundTrip(item: Item)
    requires ItemOk(item)
    ensures FieldTokens(PrintItem(item)) == Some(ItemTokens(item))
  {
    match item
    case Word(text) => WordSaysNothing(text);
    case Mark(Counts(expected, active)) =>
      CountsRoundTrip(expected, active);
      assert [item.token] + [] == [item.token];
    case Mark(Slots(text)) =>
      SlotsRoundTrip(text);
      assert [] + [item.token] == [item.token];
  }

  /** The fields of a line say what their tokens say, one after the other. */
  lemma {:induction false} FieldsSay(fields: seq<string>, items: seq<Item>)
    requires |fields| == |items|
    requires forall i :: 0 <= i < |fields| ==> FieldTokens(fields[i]) == Some(ItemTokens(items[i]))
    ensures FieldsTokens(fields) == Some(ItemsTokens(items))
  {
    if fields != [] {
      var n := |fields| - 1;
      FieldsSay(fields[..n], items[..n]);
    }
  }

  /** Every printed line is read back as what it says. */
  lemma LineRoundTrip(line: Printed)
    requires LineOk(line)
    ensures ContentOf(PrintLine(line)) == Content(line.HeadLine?, Some(Said(line)))
  {
    match line
    case HeadLine(t, remark) => HeaderRoundTrip(t, remark);
    case BodyLine(items, sync) =>
      var fields := PrintItems(items);
      forall i | 0 <= i < |fields| ensures FieldTokens(fields[i]) == Some(ItemTokens(items[i])) {
        ItemRoundTrip(items[i]);
      }
      FieldsSay(fields, items);
  }

  lemma {:induction false} FlattenRead(contents: seq<Content>, lists: seq<seq<Token>>)
    requires |contents| == |lists| && (contents != [] ==> contents[0].header && lists[0] != [])
    requires forall i :: 0 <= i < |contents| ==> contents[i].tokens == Some(lists[i])
    ensures Flattened(contents) == Some(Concat(lists))
    ensures contents != [] ==> Concat(lists) != []
  {
    if contents != [] {
      var n := |contents| - 1;
      FlattenRead(contents[..n], lists[..n]);
    }
  }

  /** Whatever is printed is read back. */
  lemma {:induction false} TextRoundTrip(text: seq<Printed>)
    requires Printable(text)
    ensures TextTokens(PrintText(text)) == Some(AllSaid(text))
  {
    var contents := Contents(PrintText(text));
    var lists := SaidBy(text);
    forall i | 0 <= i < |contents| ensures contents[i] == Content(text[i].HeadLine?, Some(lists[i])) {
      LineRoundTrip(text[i]);
    }
    FlattenRead(contents, lists);
  }

  // -- Whatever is accepted can be printed -----------------------------------------------------------

  predicate AllWellFormed(tokens: seq<Token>) {
    forall i :: 0 <= i < |tokens| ==> WellFormed(tokens[i])
  }

  predicate NoHeader(tokens: seq<Token>) {
    forall i :: 0 <= i < |tokens| ==> !tokens[i].Header?
  }

  lemma CountsBound(field: string)
    requires ParseCounts(field).Read?
    ensures WellFormed(Counts(ParseCounts(field).value.0, ParseCounts(field).value.1))
  {
  }

  lemma SlotsBound(field: string)
    requires ParseSlots(field).Some?
    ensures WellFormed(Slots(ParseSlots(field).value))
  {
  }

  lemma FieldIsWellFormed(field: string)
    requires FieldTokens(field).Some?
    ensures AllWellFormed(FieldTokens(field).value) && NoHeader(FieldTokens(field).value)
  {
    if ParseCounts(field).Read? {
      CountsBound(field);
    }
    if ParseSlots(field).Some? {
      SlotsBound(field);
    }
  }

  lemma JoinIsWellFormed(a: seq<Token>, b: seq<Token>)
    requires AllWellFormed(a) && AllWellFormed(b)
    ensures AllWellFormed(a + b) && (NoHeader(a) && NoHeader(b) ==> NoHeader(a + b))
  {
  }

  lemma {:induction false} FieldsAreWellFormed(fields: seq<string>)
    requires FieldsTokens(fields).Some?
    ensures AllWellFormed(FieldsTokens(fields).value) && NoHeader(FieldsTokens(fields).value)
  {
    if fields != [] {
      var n := |fields| - 1;
      FieldsAreWellFormed(fields[..n]);
      FieldIsWellFormed(fields[n]);
      JoinIsWellFormed(FieldsTokens(fields[..n]).value, FieldTokens(fields[n]).value);
    }
  }

  lemma HeaderIsWellFormed(fields: seq<string>)
    requires IsHeader(fields) && ParseHeader(fields).Some?
    ensures WellFormed(ParseHeader(fields).value) && ParseHeader(fields).value.Header?
  {
    RestIsWellFormed(fields[0], fields[2] == "active", AfterRemark(fields[3..]));
  }

  lemma RestIsWellFormed(name: string, running: bool, rest: seq<string>)
    requires ValidMdName(name) && HeaderWith(name, running, rest).Some?
    ensures WellFormed(HeaderWith(name, running, rest).value) && HeaderWith(name, running, rest).value.Header?
  {
    if rest != [] && LevelOf(rest[0]).Some? {
      LevelHasNoBracket(rest[0]);
      ParsedMembersNamed(rest[1..]);
    } else {
      ParsedMembersNamed(rest);
    }
  }

  predicate SaysWell(c: Content) {
    c.tokens.Some? ==> AllWellFormed(c.tokens.value) && (c.header ==> c.tokens.value != [] && c.tokens.value[0].Header?)
  }

  lemma LineSaysWell(line: Line)
    ensures SaysWell(ContentOf(line))
  {
    var c := ContentOf(line);
    if c.tokens.Some? {
      if c.header {
        HeaderIsWellFormed(line.fields);
      } else {
        FieldsAreWellFormed(line.fields);
        JoinIsWellFormed(FieldsTokens(line.fields).value, ProgressTokens(line.progress).value);
      }
    }
  }

  lemma {:induction false} FlattenedIsWellFormed(contents: seq<Content>)
    requires Flattened(contents).Some? && forall i :: 0 <= i < |contents| ==> SaysWell(contents[i])
    ensures AllWellFormed(Flattened(contents).value)
    ensures Flattened(contents).value != [] ==> Flattened(contents).value[0].Header?
  {
    if contents != [] {
      var n := |contents| - 1;
      var before := Flattened(contents[..n]).value;
      FlattenedIsWellFormed(contents[..n]);
      assert SaysWell(contents[n]);
      JoinIsWellFormed(before, Counting(contents[n], before != []).value);
    }
  }

  lemma AcceptedIsWellFormed(lines: seq<Line>)
    requires TextTokens(lines).Some?
    ensures AllWellFormed(TextTokens(lines).value)
    ensures TextTokens(lines).value != [] ==> TextTokens(lines).value[0].Header?
  {
    forall i | 0 <= i < |lines| ensures SaysWell(Contents(lines)[i]) {
      LineSaysWell(lines[i]);
    }
    FlattenedIsWellFormed(Contents(lines));
  }

  lemma {:induction false} TakenHeadersFit(tokens: seq<Token>, n: nat)
    requires n <= |tokens| && Taken(tokens, n).Some?
    ensures forall i :: 0 <= i < n && tokens[i].Header? ==> |tokens[i].members| <= MAX_MEMBERS
  {
    if n > 0 {
      TakenHeadersFit(tokens, n - 1);
    }
  }

  /** One line for every token. */
  function LineOf(t: Token): Printed {
    match t
    case Header(_, _, _, _) => HeadLine(t, None)
    case Sync(action) => BodyLine([], Some(action))
    case _ => BodyLine([Mark(t)], None)
  }

  function LinesOf(tokens: seq<Token>): (text: seq<Printed>)
    ensures |text| == |tokens| && forall i :: 0 <= i < |text| ==> text[i] == LineOf(tokens[i])
  {
    seq(|tokens|, i requires 0 <= i < |tokens| => LineOf(tokens[i]))
  }

  lemma LineSays(t: Token)
    ensures Said(LineOf(t)) == [t]
    ensures WellFormed(t) && (t.Header? ==> |t.members| <= MAX_MEMBERS) ==> LineOk(LineOf(t))
  {
    if !t.Header? && !t.Sync? {
      assert ItemsTokens([Mark(t)][..0]) == [];
      assert ItemsTokens([Mark(t)]) == [] + [t];
    }
  }

  lemma {:induction false} OneByOne(lists: seq<seq<Token>>, tokens: seq<Token>)
    requires |lists| == |tokens| && forall i :: 0 <= i < |lists| ==> lists[i] == [tokens[i]]
    ensures Concat(lists) == tokens
  {
    if lists != [] {
      var n := |lists| - 1;
      OneByOne(lists[..n], tokens[..n]);
      assert tokens == tokens[..n] + [tokens[n]];
    }
  }

  lemma LinesSay(tokens: seq<Token>)
    ensures AllSaid(LinesOf(tokens)) == tokens
  {
    var lists := SaidBy(LinesOf(tokens));
    forall i | 0 <= i < |lists| ensures lists[i] == [tokens[i]] {
      LineSays(tokens[i]);
    }
    OneByOne(lists, tokens);
  }

  /** The tokens of an accepted text can be printed, and reading them again gives the same tokens. */
  lemma {:induction false} AcceptedPrintsBack(lines: seq<Line>)
    requires TextTokens(lines).Some? && Taken(TextTokens(lines).value, |TextTokens(lines).value|).Some?
    ensures Printable(LinesOf(TextTokens(lines).value))
    ensures TextTokens(PrintText(LinesOf(TextTokens(lines).value))) == TextTokens(lines)
  {
    var tokens := TextTokens(lines).value;
    AcceptedIsWellFormed(lines);
    TakenHeadersFit(tokens, |tokens|);
    var text := LinesOf(tokens);
    forall i | 0 <= i < |text| ensures LineOk(text[i]) {
      LineSays(tokens[i]);
    }
    LinesSay(tokens);
    TextRoundTrip(text);
  }
}
