/** MD array health: the records of the kernel's status text, the sysfs attributes of the same array, and when
    the two together are called healthy. */
module MdHealth {
  import opened Basics
  import opened BlockInventory
  import opened Sorting
  import opened MdIdentity

  const MAX_MEMBERS: nat := 32

  datatype MemberState = ActiveMember | SpareMember | FaultyMember

  datatype Member = Member(name: string, state: MemberState)

  datatype Action = Idle | Frozen | Resync | Recover | Check | Repair | Reshape

  datatype RecordState = ActiveRecord | InactiveRecord | NoRecord

  // The level of a record: the word for none recognised, a level, or no text at all, which only the record of an
  // array outside the status text has.
  datatype LevelText = Unrecognised | Stated(level: Level) | Blank

  datatype Record = Record(
    name: string,
    state: RecordState,
    level: LevelText,
    expected: Uint32,
    active: Uint32,
    countsKnown: bool,
    members: seq<Member>,
    action: Option<Action>,
    slots: string)

  // -- The status text -------------------------------------------------------------------------------

  /** The tokens of the status text that matter. */
  datatype Token =
    | Header(name: string, running: bool, level: Option<Level>, members: seq<Member>)
    | Counts(expected: Uint32, active: Uint32)
    | Slots(text: string)
    | Sync(action: Action)

  predicate SlotText(text: string) {
    text != "" && forall i :: 0 <= i < |text| ==> text[i] == 'U' || text[i] == '_'
  }

  function CountUp(text: string): nat {
    if text == "" then 0 else CountUp(text[1..]) + if text[0] == 'U' then 1 else 0
  }

  /** What the last check of the parser leaves: active within expected, and slots that say the same. */
  predicate Consistent(r: Record) {
    r.countsKnown ==>
      && r.active <= r.expected
      && (r.slots != "" ==> |r.slots| == r.expected && CountUp(r.slots) == r.active)
  }

  predicate NamesApart(records: seq<Record>) {
    forall i, j :: 0 <= i < j < |records| ==> records[i].name != records[j].name
  }

  /** A token of the current record, or nothing when it conflicts with an earlier one. */
  function Extend(r: Record, t: Token): Option<Record>
    requires !t.Header?
  {
    match t
    case Counts(expected, active) =>
      if expected == 0 || expected > MAX_MEMBERS
          || (r.countsKnown && (r.expected != expected || r.active != active)) then None
      else Some(r.(expected := expected, active := active, countsKnown := true))
    case Slots(text) =>
      if !SlotText(text) then Some(r)
      else if r.slots != "" && r.slots != text then None
      else Some(r.(slots := text))
    case Sync(action) => Some(r.(action := Some(action)))
  }

  function NewRecord(t: Token): Record
    requires t.Header?
  {
    var level := if t.level.Some? then Stated(t.level.value) else Unrecognised;
    Record(t.name, if t.running then ActiveRecord else InactiveRecord, level, 0, 0, false, t.members, Some(Idle), "")
  }

  predicate HeaderFits(records: seq<Record>, t: Token)
    requires t.Header?
  {
    && ValidMdName(t.name) && |records| < MAX_ARRAYS && |t.members| <= MAX_MEMBERS
    && forall i :: 0 <= i < |records| ==> records[i].name != t.name
  }

  predicate RecordsFit(records: seq<Record>) {
    |records| <= MAX_ARRAYS && NamesApart(records)
    && forall i :: 0 <= i < |records| ==> ValidMdName(records[i].name) && |records[i].members| <= MAX_MEMBERS
  }

  /** One token; those before the first header are skipped. */
  function Take(records: seq<Record>, t: Token): Option<seq<Record>> {
    if t.Header? then
      if !HeaderFits(records, t) then None
      else Some(records + [NewRecord(t)])
    else if records == [] then Some(records)
    else
      var last := |records| - 1;
      var next := Extend(records[last], t);
      if next.None? then None else Some(records[last := next.value])
  }

  function Taken(tokens: seq<Token>, n: nat): Option<seq<Record>>
    requires n <= |tokens|
  {
    if n == 0 then Some([])
    else if Taken(tokens, n - 1).None? then None
    else Take(Taken(tokens, n - 1).value, tokens[n - 1])
  }

  lemma {:induction false} FailureStays(tokens: seq<Token>, k: nat, n: nat)
    requires k <= n <= |tokens| && Taken(tokens, k).None?
    ensures Taken(tokens, n).None?
  {
    if k < n {
      FailureStays(tokens, k, n - 1);
    }
  }

  lemma TakeFits(records: seq<Record>, t: Token)
    requires RecordsFit(records) && Take(records, t).Some?
    ensures RecordsFit(Take(records, t).value)
  {
  }

  method ParseRecords(tokens: seq<Token>) returns (r: Option<seq<Record>>)
    ensures r.Some? <==>
              Taken(tokens, |tokens|).Some?
              && forall i :: 0 <= i < |Taken(tokens, |tokens|).value| ==> Consistent(Taken(tokens, |tokens|).value[i])
    ensures r.Some? ==> r == Taken(tokens, |tokens|) && RecordsFit(r.value)
  {
    var records: seq<Record> := [];
    for k := 0 to |tokens|
      invariant Taken(tokens, k) == Some(records) && RecordsFit(records)
    {
      var next := Take(records, tokens[k]);
      if next.None? {
        FailureStays(tokens, k + 1, |tokens|);
        return None;
      }
      TakeFits(records, tokens[k]);
      records := next.value;
    }
    for i := 0 to |records|
      invariant forall j :: 0 <= j < i ==> Consistent(records[j])
    {
      if !Consistent(records[i]) {
        return None;
      }
    }
    r := Some(records);
  }

  /** What later tokens leave of a record: its header for good, its counts and slots once they are given. */
  predicate Keeps(r: Record, s: Record) {
    && s.name == r.name && s.state == r.state && s.level == r.level && s.members == r.members
    && (r.countsKnown ==> s.countsKnown && s.expected == r.expected && s.active == r.active)
    && (r.slots != "" ==> s.slots == r.slots)
  }

  lemma {:induction false} RecordsKept(tokens: seq<Token>, k: nat, n: nat, j: nat)
    requires k <= n <= |tokens| && Taken(tokens, n).Some? && Taken(tokens, k).Some? && j < |Taken(tokens, k).value|
    ensures j < |Taken(tokens, n).value| && Keeps(Taken(tokens, k).value[j], Taken(tokens, n).value[j])
  {
    if k < n {
      RecordsKept(tokens, k, n - 1, j);
    }
  }

  /** The record a token belongs to: the one of the last header before it. */
  predicate Belongs(tokens: seq<Token>, k: nat, j: nat)
    requires k <= |tokens|
  {
    Taken(tokens, k).Some? && |Taken(tokens, k).value| == j + 1
  }

  lemma {:induction false} TakenBefore(tokens: seq<Token>, k: nat, n: nat)
    requires k <= n <= |tokens| && Taken(tokens, n).Some?
    ensures Taken(tokens, k).Some?
  {
    if Taken(tokens, k).None? {
      FailureStays(tokens, k, n);
    }
  }

  /** Every count given anywhere for an array is the count of its record in the result: repetitions must agree. */
  lemma {:induction false} CountsAgree(tokens: seq<Token>, k: nat, n: nat, j: nat)
    requires k < n <= |tokens| && tokens[k].Counts? && Taken(tokens, n).Some? && Belongs(tokens, k, j)
    ensures j < |Taken(tokens, n).value|
    ensures var r := Taken(tokens, n).value[j];
            r.countsKnown && r.expected == tokens[k].expected && r.active == tokens[k].active
  {
    TakenBefore(tokens, k + 1, n);
    RecordsKept(tokens, k + 1, n, j);
  }

  /** And so is every slot text. */
  lemma {:induction false} SlotsAgree(tokens: seq<Token>, k: nat, n: nat, j: nat)
    requires k < n <= |tokens| && tokens[k].Slots? && SlotText(tokens[k].text) && Taken(tokens, n).Some?
    requires Belongs(tokens, k, j)
    ensures j < |Taken(tokens, n).value| && Taken(tokens, n).value[j].slots == tokens[k].text
  {
    TakenBefore(tokens, k + 1, n);
    RecordsKept(tokens, k + 1, n, j);
  }

  /** Every header starts the record that keeps its name, state, level and members for good. */
  lemma {:induction false} HeaderAgrees(tokens: seq<Token>, k: nat, n: nat)
    requires k < n <= |tokens| && tokens[k].Header? && Taken(tokens, n).Some?
    ensures Taken(tokens, k).Some?
    ensures var j := |Taken(tokens, k).value|;
            && j < |Taken(tokens, n).value|
            && var r, t := Taken(tokens, n).value[j], tokens[k];
               && r.name == t.name && r.members == t.members
               && r.state == (if t.running then ActiveRecord else InactiveRecord)
               && r.level == (match t.level case None => Unrecognised case Some(level) => Stated(level))
  {
    TakenBefore(tokens, k, n);
    TakenBefore(tokens, k + 1, n);
    RecordsKept(tokens, k + 1, n, |Taken(tokens, k).value|);
  }

  /** The token starts a sync line of the record. */
  predicate SyncOf(tokens: seq<Token>, k: nat, j: nat)
    requires k < |tokens|
  {
    tokens[k].Sync? && Belongs(tokens, k, j)
  }

  lemma {:induction false} RecordsGrow(tokens: seq<Token>, k: nat, n: nat)
    requires k <= n <= |tokens| && Taken(tokens, n).Some? && Taken(tokens, k).Some?
    ensures |Taken(tokens, k).value| <= |Taken(tokens, n).value|
  {
    if k < n {
      RecordsGrow(tokens, k, n - 1);
    }
  }

  /** The action of a record is idle until its first sync line, and then what the last one says. */
  lemma {:induction false} ActionAgrees(tokens: seq<Token>, n: nat, j: nat)
    requires n <= |tokens| && Taken(tokens, n).Some? && j < |Taken(tokens, n).value|
    ensures (forall k :: 0 <= k < n ==> !SyncOf(tokens, k, j)) ==> Taken(tokens, n).value[j].action == Some(Idle)
    ensures forall k :: 0 <= k < n && SyncOf(tokens, k, j) && (forall l :: k < l < n ==> !SyncOf(tokens, l, j)) ==>
              Taken(tokens, n).value[j].action == Some(tokens[k].action)
  {
    var m := n - 1;
    assert Taken(tokens, m).Some?;
    if j < |Taken(tokens, m).value| {
      ActionAgrees(tokens, m, j);
      ActionStep(tokens, m, j);
    } else {
      forall k | 0 <= k < n ensures !SyncOf(tokens, k, j) {
        if Taken(tokens, k).Some? && k < m {
          RecordsGrow(tokens, k, m);
        }
      }
    }
  }

  lemma ActionStep(tokens: seq<Token>, n: nat, j: nat)
    requires n < |tokens| && Taken(tokens, n).Some? && Taken(tokens, n + 1).Some? && j < |Taken(tokens, n).value|
    ensures j < |Taken(tokens, n + 1).value|
    ensures Taken(tokens, n + 1).value[j].action ==
              if SyncOf(tokens, n, j) then Some(tokens[n].action) else Taken(tokens, n).value[j].action
  {
  }

  // -- The sysfs side --------------------------------------------------------------------------------

  datatype ArrayState =
    | Clear | InactiveArray | Suspended | ReadonlyArray | ReadAuto | Clean | ActiveArray | WritePending | ActiveIdle

  datatype Attr<T> = Missing | Malformed | Value(value: T)

  datatype Attributes = Attributes(
    level: Attr<Level>,
    state: Attr<ArrayState>,
    degraded: Attr<Uint32>,
    raidDisks: Attr<Uint32>,
    action: Attr<Action>,
    progress: Attr<()>,
    slaves: Attr<seq<string>>)

  datatype Health = Healthy | Degraded | Syncing | Paused | InactiveHealth | UnknownHealth

  datatype HealthReport = HealthReport(
    name: string,
    level: LevelText,
    state: Option<ArrayState>,
    health: Health,
    expected: Uint32,
    active: Uint32,
    degraded: Uint32,
    action: Option<Action>,
    members: seq<string>)

  predicate HealthyLevel(level: Level) {
    level.Linear? || level.Multipath? || level.Raid0? || level.Raid1? || level.Raid4? || level.Raid5? || level.Raid6?
    || level.Raid10?
  }

  predicate RunningState(s: ArrayState) {
    s.Clean? || s.ActiveArray? || s.ActiveIdle? || s.ReadAuto?
  }

  predicate StoppedState(s: ArrayState) {
    s.InactiveArray? || s.Clear? || s.Suspended?
  }

  function Classify(state: ArrayState, action: Action, level: Level, raidDisks: Uint32, degraded: Uint32,
                    consistent: bool): Health
  {
    if !consistent then UnknownHealth
    else if state.InactiveArray? then InactiveHealth
    else if raidDisks == 0 then UnknownHealth
    else if degraded > 0 || degraded >= raidDisks then Degraded
    else if action.Frozen? then Paused
    else if !action.Idle? then Syncing
    else if !HealthyLevel(level) then UnknownHealth
    else if RunningState(state) then Healthy
    else UnknownHealth
  }

  // 32-bit subtraction as the machine does it.
  function Minus(a: Uint32, b: Uint32): Uint32 {
    if a >= b then a - b else a - b + 0x1_0000_0000
  }

  function MemberNames(members: seq<Member>): (names: seq<string>)
    ensures |names| == |members| && forall i :: 0 <= i < |names| ==> names[i] == members[i].name
  {
    seq(|members|, i requires 0 <= i < |members| => members[i].name)
  }

  predicate AnyFaulty(members: seq<Member>) {
    exists i :: 0 <= i < |members| && members[i].state.FaultyMember?
  }

  /** The state word of the status text, which sysfs replaces. */
  function RecordedState(r: Record): Option<ArrayState> {
    match r.state
    case ActiveRecord => Some(ActiveArray)
    case InactiveRecord => Some(InactiveArray)
    case NoRecord => None
  }

  /** All attributes could be read, and the member directory is within bounds. */
  predicate AllRead(a: Attributes) {
    && !a.level.Missing? && !a.state.Missing? && !a.degraded.Missing? && !a.raidDisks.Missing? && !a.action.Missing?
    && !a.progress.Missing? && a.slaves.Value? && |a.slaves.value| <= MAX_MEMBERS
  }

  predicate AllParsed(a: Attributes) {
    && a.level.Value? && ValidLevel(a.level.value) && a.state.Value? && a.action.Value?
    && a.degraded.Value? && a.degraded.value <= MAX_MEMBERS && a.raidDisks.Value? && a.raidDisks.value <= MAX_MEMBERS
    && a.degraded.value <= a.raidDisks.value
  }

  predicate SlavesNamed(names: seq<string>) {
    forall i :: 0 <= i < |names| ==> ValidBlockName(names[i])
  }

  /** An unrecognised level says nothing; a blank one never agrees. */
  predicate LevelAgrees(text: LevelText, level: Level) {
    text.Unrecognised? || text == Stated(level)
  }

  /** Both sources say the same wherever the status text says anything. */
  predicate Agrees(r: Record, a: Attributes)
    requires AllParsed(a) && a.slaves.Value?
  {
    && (r.members != [] ==> multiset(MemberNames(r.members)) == multiset(a.slaves.value))
    && (AnyFaulty(r.members) ==> a.degraded.value != 0)
    && (r.countsKnown ==> r.expected == a.raidDisks.value && Minus(r.expected, r.active) == a.degraded.value)
    && LevelAgrees(r.level, a.level.value)
    && (r.action.Some? ==> r.action.value == a.action.value)
    && (r.state.InactiveRecord? ==> StoppedState(a.state.value))
    && (r.state.ActiveRecord? ==> !StoppedState(a.state.value))
  }

  /** The conditions under which the sources are compared at all. */
  predicate Compared(present: bool, a: Attributes) {
    present && AllRead(a) && AllParsed(a) && a.progress.Value? && SlavesNamed(a.slaves.value)
  }

  method Compare(r: Record, a: Attributes) returns (complete: bool)
    requires AllParsed(a) && a.slaves.Value?
    ensures complete <==> Agrees(r, a)
  {
    complete := true;
    var same := SameNames(MemberNames(r.members), a.slaves.value);
    if r.members != [] && !same {
      complete := false;
    }
    if AnyFaulty(r.members) && a.degraded.value == 0 {
      complete := false;
    }
    if r.countsKnown && (r.expected != a.raidDisks.value || Minus(r.expected, r.active) != a.degraded.value) {
      complete := false;
    }
    if !r.level.Unrecognised? && r.level != Stated(a.level.value) {
      complete := false;
    }
    if r.action.Some? && r.action.value != a.action.value {
      complete := false;
    }
    if (r.state.InactiveRecord? && !StoppedState(a.state.value))
       || (r.state.ActiveRecord? && StoppedState(a.state.value)) {
      complete := false;
    }
  }

  function HealthOf(r: Record, present: bool, a: Attributes): Health {
    if !Compared(present, a) then UnknownHealth
    else Classify(a.state.value, a.action.value, a.level.value, a.raidDisks.value, a.degraded.value, Agrees(r, a))
  }

  method ReadArray(r: Record, present: bool, a: Attributes) returns (o: HealthReport, complete: bool)
    ensures complete <==> Compared(present, a) && Agrees(r, a)
    ensures o.name == r.name && o.health == HealthOf(r, present, a)
    ensures o.state == if present && AllRead(a) && AllParsed(a) then Some(a.state.value) else RecordedState(r)
    ensures present && AllRead(a) && AllParsed(a) ==>
              && o.expected == a.raidDisks.value && o.degraded == a.degraded.value
              && o.active + o.degraded == o.expected
              && o.level == Stated(a.level.value) && o.action == Some(a.action.value)
    ensures !(present && AllRead(a) && AllParsed(a)) ==>
              && o.level == r.level && o.action == r.action
              && o.expected == (if r.countsKnown then r.expected else 0)
              && o.active == (if r.countsKnown then r.active else 0)
              && o.degraded == (if o.active <= o.expected then o.expected - o.active else 0)
    ensures (a.level.Missing? || a.state.Missing? || a.degraded.Missing? || a.raidDisks.Missing? || a.action.Missing?
             || a.progress.Missing? || !a.slaves.Value?) ==> o.level == r.level && o.state == RecordedState(r)
    ensures a.slaves.Value? && |a.slaves.value| > 32 ==> o.level == r.level && o.state == RecordedState(r)
    ensures a.degraded.Value? && a.raidDisks.Value?
            && (a.degraded.value > 32 || a.raidDisks.value > 32 || a.degraded.value > a.raidDisks.value) ==>
              o.level == r.level && o.state == RecordedState(r)
    ensures Compared(present, a) && r.members == [] ==>
              && multiset(o.members) == multiset(a.slaves.value)
              && forall i, j :: 0 <= i < j < |o.members| ==> TextAtMost(o.members[i], o.members[j])
    ensures !(Compared(present, a) && r.members == []) ==> o.members == MemberNames(r.members)
  {
    o := HealthReport(r.name, r.level, RecordedState(r), UnknownHealth, 0, 0, 0, r.action, MemberNames(r.members));
    if r.countsKnown {
      o := o.(expected := r.expected, active := r.active);
      if r.expected >= r.active {
        o := o.(degraded := r.expected - r.active);
      }
    }
    if !present || !AllRead(a) || !AllParsed(a) {
      return o, false;
    }
    o := o.(level := Stated(a.level.value), state := Some(a.state.value), expected := a.raidDisks.value,
            degraded := a.degraded.value,
            active := a.raidDisks.value - a.degraded.value, action := Some(a.action.value));
    if !a.progress.Value? || !SlavesNamed(a.slaves.value) {
      return o, false;
    }
    complete := Compare(r, a);
    if r.members == [] {
      TextOrderIsTotal();
      SortSorts(TextAtMost, a.slaves.value);
      o := o.(members := Sort(TextAtMost, a.slaves.value));
    }
    o := o.(health :=
            Classify(a.state.value, a.action.value, a.level.value, a.raidDisks.value, a.degraded.value, complete));
  }

  // -- When an array is healthy ----------------------------------------------------------------------

  lemma {:induction false} CountUpBounds(text: string)
    ensures CountUp(text) <= |text|
    ensures CountUp(text) == |text| <==> forall i :: 0 <= i < |text| ==> text[i] == 'U'
  {
    if text != "" {
      CountUpBounds(text[1..]);
      assert forall i :: 0 < i < |text| ==> text[i] == text[1..][i - 1];
    }
  }

  /** Everything a healthy verdict rests on. */
  predicate Sound(r: Record, a: Attributes) {
    && AllRead(a) && AllParsed(a) && a.progress.Value? && SlavesNamed(a.slaves.value)
    && RunningState(a.state.value) && a.action.value.Idle? && HealthyLevel(a.level.value) && a.raidDisks.value > 0
    && a.degraded.value == 0
    && !AnyFaulty(r.members) && (r.members != [] ==> multiset(MemberNames(r.members)) == multiset(a.slaves.value))
    && (r.countsKnown ==> r.expected == r.active == a.raidDisks.value)
    && LevelAgrees(r.level, a.level.value)
    && (r.action.Some? ==> r.action.value.Idle?)
    && !r.state.InactiveRecord?
    && (r.countsKnown && r.slots != "" ==>
          |r.slots| == a.raidDisks.value && forall i :: 0 <= i < |r.slots| ==> r.slots[i] == 'U')
  }

  /** Both sources were read in full and agree. */
  ghost predicate Matched(r: Record, present: bool, a: Attributes) {
    Compared(present, a) && Agrees(r, a)
  }

  /** What it takes for a record of the parser to match sysfs: the same members if any are given, a degraded array for
      every faulty member, counts that add up, the same level unless it is unrecognised, the same action, and a state
      that stands still exactly when the record is inactive. */
  lemma MatchedMeans(r: Record, present: bool, a: Attributes)
    requires Consistent(r)
    ensures Matched(r, present, a) <==>
              && Compared(present, a)
              && (r.members == [] || multiset(MemberNames(r.members)) == multiset(a.slaves.value))
              && ((exists m :: m in r.members && m.state == FaultyMember) ==> a.degraded.value > 0)
              && (r.countsKnown ==> r.expected == a.raidDisks.value && r.active + a.degraded.value == r.expected)
              && (r.level == Unrecognised || r.level == Stated(a.level.value))
              && (r.action.None? || r.action == Some(a.action.value))
              && (r.state == InactiveRecord ==> a.state.value in {InactiveArray, Clear, Suspended})
              && (r.state == ActiveRecord ==> a.state.value !in {InactiveArray, Clear, Suspended})
  {
    assert AnyFaulty(r.members) <==> exists m :: m in r.members && m.state == FaultyMember by {
      if AnyFaulty(r.members) {
        var i :| 0 <= i < |r.members| && r.members[i].state.FaultyMember?;
        assert r.members[i] in r.members;
      }
    }
  }

  /** The exact condition of every verdict. */
  ghost predicate HealthMeans(r: Record, present: bool, a: Attributes, h: Health) {
    if !Matched(r, present, a) then h == UnknownHealth
    else
      var running := a.state.value != InactiveArray && a.raidDisks.value != 0;
      var whole := running && a.degraded.value == 0;
      var quiet := whole && a.action.value == Idle;
      match h
      case InactiveHealth => a.state.value == InactiveArray
      case Degraded => running && a.degraded.value != 0
      case Paused => whole && a.action.value == Frozen
      case Syncing => whole && a.action.value in {Resync, Recover, Check, Repair, Reshape}
      case Healthy => quiet && a.level.value !in {FaultyLevel, Container}
                      && a.state.value in {Clean, ActiveArray, ActiveIdle, ReadAuto}
      case UnknownHealth =>
        || (a.state.value != InactiveArray && a.raidDisks.value == 0)
        || (quiet && (a.level.value in {FaultyLevel, Container}
                      || a.state.value in {Clear, Suspended, ReadonlyArray, WritePending}))
  }

  lemma EveryVerdict(r: Record, present: bool, a: Attributes, h: Health)
    ensures HealthOf(r, present, a) == h <==> HealthMeans(r, present, a, h)
  {
  }

  /** For a record of the parser, healthy means exactly this, and no count wraps around. */
  lemma HealthyExactly(r: Record, present: bool, a: Attributes)
    requires Consistent(r)
    ensures HealthOf(r, present, a) == Healthy <==> present && Sound(r, a)
    ensures r.countsKnown ==> Minus(r.expected, r.active) == r.expected - r.active
  {
    CountUpBounds(r.slots);
  }

  // -- The collector ---------------------------------------------------------------------------------

  /** The report of an array the status text does not show: its blank level never agrees, so it is never complete. */
  method SysfsOnly(name: string, a: Attributes) returns (o: HealthReport, complete: bool)
    ensures OnlyInSysfs(name, a, o) && !complete
  {
    o, complete := ReadArray(Record(name, NoRecord, Blank, 0, 0, false, [], None, ""), true, a);
    o := o.(health := if o.state == Some(InactiveArray) then InactiveHealth else UnknownHealth);
  }

  predicate OnlyInSysfs(name: string, a: Attributes, o: HealthReport) {
    o.name == name && o.health == if AllRead(a) && AllParsed(a) && a.state.value.InactiveArray? then InactiveHealth
                                  else UnknownHealth
  }

  predicate Reported(r: Record, present: set<string>, attrs: string -> Attributes, o: HealthReport) {
    o.name == r.name && o.health == HealthOf(r, r.name in present, attrs(r.name))
  }

  /** Both sources show the array and agree on it. */
  predicate Settled(r: Record, present: set<string>, attrs: string -> Attributes) {
    Compared(r.name in present, attrs(r.name)) && Agrees(r, attrs(r.name))
  }

  datatype StatusText = NoText | UnreadableText | MalformedText | Parsed(records: seq<Record>)

  function RecordsOf(text: StatusText): seq<Record> {
    if text.Parsed? then text.records else []
  }

  /** The MD arrays among the block names, in order, and at most sixteen of them. */
  ghost predicate ArrayNames(present: set<string>, names: seq<string>, cut: bool) {
    exists all :: ListsSet(all, set n | n in present && ValidMdName(n)) && names <= all
                  && (cut <==> |all| > MAX_ARRAYS) && |names| == if cut then MAX_ARRAYS else |all|
  }

  method SelectArrays(present: set<string>) returns (names: seq<string>, cut: bool)
    ensures ArrayNames(present, names, cut)
  {
    var all := SortSet(set n | n in present && ValidMdName(n));
    cut := |all| > MAX_ARRAYS;
    names := if cut then all[..MAX_ARRAYS] else all;
  }

  predicate Named(records: seq<Record>, name: string) {
    exists i :: 0 <= i < |records| && records[i].name == name
  }

  /** The arrays of sysfs that no record names. */
  function Unnamed(records: seq<Record>, names: seq<string>): seq<string> {
    if names == [] then []
    else
      var last := names[|names| - 1];
      Unnamed(records, names[..|names| - 1]) + if Named(records, last) then [] else [last]
  }

  ghost function ReportedAt(records: seq<Record>, present: set<string>, attrs: string -> Attributes)
    : (nat, HealthReport) -> bool
  {
    (i: nat, o: HealthReport) => i < |records| && Reported(records[i], present, attrs, o)
  }

  ghost function OtherAt(others: seq<string>, attrs: string -> Attributes): (nat, HealthReport) -> bool {
    (i: nat, o: HealthReport) => i < |others| && OnlyInSysfs(others[i], attrs(others[i]), o)
  }

  /** One report for every record, then one for every array of sysfs that no record names. */
  ghost predicate ReportsHold(text: StatusText, names: seq<string>, present: set<string>, attrs: string -> Attributes,
                              reports: seq<HealthReport>)
  {
    var records, others := RecordsOf(text), Unnamed(RecordsOf(text), names);
    && |reports| == |records| + |others|
    && Each(reports[..|records|], ReportedAt(records, present, attrs))
    && Each(reports[|records|..], OtherAt(others, attrs))
  }

  /** The status: available means that both sources show the same arrays and agree on every one of them. */
  ghost function StatusOf(text: StatusText, names: seq<string>, cut: bool, present: set<string>,
                          attrs: string -> Attributes)
    : InventoryStatus
  {
    match text
    case NoText => if names == [] then NotSupported else Partial
    case UnreadableText => if names == [] then NoInventory else Partial
    case MalformedText => Partial
    case Parsed(records) =>
      if !cut && Unnamed(records, names) == []
         && (forall i {:trigger records[i]} :: 0 <= i < |records| ==> Settled(records[i], present, attrs))
      then Available else Partial
  }

  method ReportRecords(records: seq<Record>, present: set<string>, attrs: string -> Attributes)
    returns (reports: seq<HealthReport>, settled: bool)
    ensures |reports| == |records| && Each(reports, ReportedAt(records, present, attrs))
    ensures settled <==> forall i {:trigger records[i]} :: 0 <= i < |records| ==> Settled(records[i], present, attrs)
  {
    reports, settled := [], true;
    for i := 0 to |records|
      invariant |reports| == i && Each(reports, ReportedAt(records, present, attrs))
      invariant settled <==> forall j {:trigger records[j]} :: 0 <= j < i ==> Settled(records[j], present, attrs)
    {
      var r := records[i];
      var o, complete := ReadArray(r, r.name in present, attrs(r.name));
      EachMore(reports, ReportedAt(records, present, attrs), o);
      reports := reports + [o];
      settled := settled && complete;
    }
  }

  lemma {:induction false} UnnamedGrows(records: seq<Record>, names: seq<string>, i: nat)
    requires i < |names|
    ensures Unnamed(records, names[..i + 1]) == Unnamed(records, names[..i]) +
              if Named(records, names[i]) then [] else [names[i]]
    ensures Unnamed(records, names[..i + 1]) <= Unnamed(records, names)
    decreases |names|
  {
    assert names[..i + 1][..i] == names[..i];
    var n := |names| - 1;
    if i < n {
      UnnamedGrows(records, names[..n], i);
      assert names[..n][..i + 1] == names[..i + 1];
    } else {
      assert names[..i + 1] == names;
    }
  }

  method ReportOthers(records: seq<Record>, names: seq<string>, attrs: string -> Attributes)
    returns (reports: seq<HealthReport>)
    ensures |reports| == |Unnamed(records, names)| && Each(reports, OtherAt(Unnamed(records, names), attrs))
  {
    reports := [];
    ghost var others := Unnamed(records, names);
    assert names[..0] == [];
    for i := 0 to |names|
      invariant |reports| == |Unnamed(records, names[..i])| && Each(reports, OtherAt(others, attrs))
    {
      UnnamedGrows(records, names, i);
      if !Named(records, names[i]) {
        var o, complete := SysfsOnly(names[i], attrs(names[i]));
        assert others[|reports|] == names[i];
        EachMore(reports, OtherAt(others, attrs), o);
        reports := reports + [o];
      }
    }
    assert names[..|names|] == names;
  }

  predicate InOrder(a: HealthReport, b: HealthReport) {
    TextAtMost(a.name, b.name)
  }

  /** At most sixteen of the reports, the first ones by name, in order. */
  ghost predicate Finishes(all: seq<HealthReport>, reports: seq<HealthReport>) {
    && |reports| == (if |all| > MAX_ARRAYS then MAX_ARRAYS else |all|)
    && exists rest :: multiset(reports + rest) == multiset(all) && SortedBy(InOrder, reports + rest)
  }

  lemma NameOrderIsTotal()
    ensures TotalOrder(InOrder)
  {
    TextOrderIsTotal();
  }

  method Finish(all: seq<HealthReport>) returns (reports: seq<HealthReport>)
    ensures Finishes(all, reports)
  {
    var sorted := Sort(InOrder, all);
    NameOrderIsTotal();
    SortSorts(InOrder, all);
    reports := if |sorted| > MAX_ARRAYS then sorted[..MAX_ARRAYS] else sorted;
    assert reports + sorted[|reports|..] == sorted;
  }

  method Gather(present: set<string>, text: StatusText, attrs: string -> Attributes)
    returns (all: seq<HealthReport>, status: InventoryStatus, names: seq<string>, cut: bool)
    ensures ArrayNames(present, names, cut) && ReportsHold(text, names, present, attrs, all)
    ensures status == StatusOf(text, names, cut, present, attrs)
  {
    names, cut := SelectArrays(present);
    var known, settled := ReportRecords(RecordsOf(text), present, attrs);
    var others := ReportOthers(RecordsOf(text), names, attrs);
    all := known + others;
    assert all[..|known|] == known && all[|known|..] == others;
    status := Conclude(text, names, cut, present, attrs, settled, others == []);
  }

  /** All reports, finished, and the status, which a cut makes partial. */
  ghost predicate Concludes(present: set<string>, text: StatusText, attrs: string -> Attributes,
                            names: seq<string>, cut: bool, all: seq<HealthReport>,
                            reports: seq<HealthReport>, status: InventoryStatus)
  {
    && ArrayNames(present, names, cut) && ReportsHold(text, names, present, attrs, all) && Finishes(all, reports)
    && status == if |all| > MAX_ARRAYS then Partial else StatusOf(text, names, cut, present, attrs)
  }

  /** `blocks` is absent when the block directory is unreadable or too long. */
  method CollectHealth(blocks: Option<set<string>>, text: StatusText, attrs: string -> Attributes)
    returns (reports: seq<HealthReport>, status: InventoryStatus)
    ensures blocks.None? ==> reports == [] && status == NoInventory
    ensures blocks.Some? ==>
              exists names, cut, all :: Concludes(blocks.value, text, attrs, names, cut, all, reports, status)
  {
    reports, status := [], NoInventory;
    if blocks.Some? {
      var all, gathered, names, cut := Gather(blocks.value, text, attrs);
      reports := Finish(all);
      status := if |all| > MAX_ARRAYS then Partial else gathered;
      assert Concludes(blocks.value, text, attrs, names, cut, all, reports, status);
    }
  }

  method Conclude(text: StatusText, names: seq<string>, cut: bool, ghost present: set<string>,
                  ghost attrs: string -> Attributes,
                  settled: bool, complete: bool)
    returns (status: InventoryStatus)
    requires settled <==>
               forall i {:trigger RecordsOf(text)[i]} ::
                 0 <= i < |RecordsOf(text)| ==> Settled(RecordsOf(text)[i], present, attrs)
    requires complete <==> Unnamed(RecordsOf(text), names) == []
    ensures status == StatusOf(text, names, cut, present, attrs)
  {
    match text {
      case NoText => status := if names == [] then NotSupported else Partial;
      case UnreadableText => status := if names == [] then NoInventory else Partial;
      case MalformedText => status := Partial;
      case Parsed(_) => status := if cut || !complete || !settled then Partial else Available;
    }
  }

  lemma {:induction false} NamedOrListed(records: seq<Record>, names: seq<string>, n: string)
    requires n in names
    ensures Named(records, n) || n in Unnamed(records, names)
  {
    if names[|names| - 1] != n {
      NamedOrListed(records, names[..|names| - 1], n);
    }
  }

  /** A healthy report rests on a record of the status text that sysfs confirms. */
  lemma HealthyIsConfirmed(text: StatusText, names: seq<string>, present: set<string>, attrs: string -> Attributes,
                           all: seq<HealthReport>, reports: seq<HealthReport>, o: HealthReport)
    requires ReportsHold(text, names, present, attrs, all) && Finishes(all, reports)
    requires o in reports && o.health == Healthy
    requires forall i :: 0 <= i < |RecordsOf(text)| ==> Consistent(RecordsOf(text)[i])
    ensures o.name in present
    ensures exists r :: r in RecordsOf(text) && r.name == o.name && Sound(r, attrs(o.name))
  {
    FinishedIsReported(all, reports, o);
    var k :| 0 <= k < |all| && all[k] == o;
    HealthyHasRecord(text, names, present, attrs, all, k);
    assert RecordsOf(text)[k] in RecordsOf(text);
  }

  lemma FinishedIsReported(all: seq<HealthReport>, reports: seq<HealthReport>, o: HealthReport)
    requires Finishes(all, reports) && o in reports
    ensures o in all
  {
    var rest :| multiset(reports + rest) == multiset(all) && SortedBy(InOrder, reports + rest);
    assert o in multiset(reports + rest);
  }

  lemma HealthyHasRecord(text: StatusText, names: seq<string>, present: set<string>, attrs: string -> Attributes,
                         reports: seq<HealthReport>, k: nat)
    requires ReportsHold(text, names, present, attrs, reports) && k < |reports| && reports[k].health == Healthy
    requires forall i :: 0 <= i < |RecordsOf(text)| ==> Consistent(RecordsOf(text)[i])
    ensures k < |RecordsOf(text)| && reports[k].name == RecordsOf(text)[k].name
    ensures reports[k].name in present && Sound(RecordsOf(text)[k], attrs(reports[k].name))
  {
    if k >= |RecordsOf(text)| {
      OtherIsNotHealthy(text, names, present, attrs, reports, k);
    }
    assert k < |RecordsOf(text)|;
    var r := RecordsOf(text)[k];
    EachAt(reports[..|RecordsOf(text)|], ReportedAt(RecordsOf(text), present, attrs), k);
    HealthyExactly(r, r.name in present, attrs(r.name));
  }

  lemma OtherIsNotHealthy(text: StatusText, names: seq<string>, present: set<string>, attrs: string -> Attributes,
                          reports: seq<HealthReport>, k: nat)
    requires ReportsHold(text, names, present, attrs, reports) && |RecordsOf(text)| <= k < |reports|
    ensures reports[k].health != Healthy
  {
    var j := k - |RecordsOf(text)|;
    EachAt(reports[|RecordsOf(text)|..], OtherAt(Unnamed(RecordsOf(text), names), attrs), j);
  }

  // -- One report for every name ---------------------------------------------------------------------

  predicate ReportNamesApart(reports: seq<HealthReport>) {
    forall i, j :: 0 <= i < j < |reports| ==> reports[i].name != reports[j].name
  }

  lemma {:induction false} UnnamedApart(records: seq<Record>, names: seq<string>)
    requires forall i, j :: 0 <= i < j < |names| ==> names[i] != names[j]
    ensures var others := Unnamed(records, names);
            && (forall x :: x in others ==> x in names && !Named(records, x))
            && forall i, j :: 0 <= i < j < |others| ==> others[i] != others[j]
  {
    if names != [] {
      var n := |names| - 1;
      var before := Unnamed(records, names[..n]);
      UnnamedApart(records, names[..n]);
      assert names[n] !in names[..n];
      assert names[n] !in before;
    }
  }

  lemma {:induction false} ReportName(text: StatusText, names: seq<string>, present: set<string>,
                                      attrs: string -> Attributes, all: seq<HealthReport>, k: nat)
    requires ReportsHold(text, names, present, attrs, all) && k < |all|
    ensures var records := RecordsOf(text);
            all[k].name ==
              if k < |records| then records[k].name else Unnamed(records, names)[k - |records|]
  {
    var records := RecordsOf(text);
    if k < |records| {
      EachAt(all[..|records|], ReportedAt(records, present, attrs), k);
    } else {
      EachAt(all[|records|..], OtherAt(Unnamed(records, names), attrs), k - |records|);
    }
  }

  lemma CollectedNamesApart(text: StatusText, names: seq<string>, present: set<string>, attrs: string -> Attributes,
                            all: seq<HealthReport>)
    requires ReportsHold(text, names, present, attrs, all) && NamesApart(RecordsOf(text))
    requires forall i, j :: 0 <= i < j < |names| ==> names[i] != names[j]
    ensures ReportNamesApart(all)
  {
    var records, others := RecordsOf(text), Unnamed(RecordsOf(text), names);
    UnnamedApart(records, names);
    forall i, j | 0 <= i < j < |all| ensures all[i].name != all[j].name {
      ReportName(text, names, present, attrs, all, i);
      ReportName(text, names, present, attrs, all, j);
      if i < |records| <= j {
        assert others[j - |records|] in others && Named(records, records[i].name);
      }
    }
  }

  lemma ListedApart(present: set<string>, names: seq<string>, cut: bool)
    requires ArrayNames(present, names, cut)
    ensures forall i, j :: 0 <= i < j < |names| ==> names[i] != names[j]
  {
    forall i, j | 0 <= i < j < |names| ensures names[i] != names[j] {
      TextLessIrreflexive(names[i]);
    }
  }

  lemma ApartHasNoTies(all: seq<HealthReport>)
    requires ReportNamesApart(all)
    ensures NoTies(InOrder, all)
  {
    TextOrderIsTotal();
  }

  /** For distinct names the finished list is one and the same whatever the sort does, and it ascends. */
  lemma FinishedIsUnique(text: StatusText, present: set<string>, names: seq<string>, cut: bool,
                         attrs: string -> Attributes,
                         all: seq<HealthReport>, a: seq<HealthReport>, b: seq<HealthReport>)
    requires ArrayNames(present, names, cut) && NamesApart(RecordsOf(text))
    requires ReportsHold(text, names, present, attrs, all) && Finishes(all, a) && Finishes(all, b)
    ensures a == b
    ensures forall i, j :: 0 <= i < j < |a| ==> TextLess(a[i].name, a[j].name)
  {
    ListedApart(present, names, cut);
    CollectedNamesApart(text, names, present, attrs, all);
    FinishedOnce(all, a, b);
  }

  lemma FinishedOnce(all: seq<HealthReport>, a: seq<HealthReport>, b: seq<HealthReport>)
    requires ReportNamesApart(all) && Finishes(all, a) && Finishes(all, b)
    ensures a == b
    ensures forall i, j :: 0 <= i < j < |a| ==> TextLess(a[i].name, a[j].name)
  {
    var p :| multiset(a + p) == multiset(all) && SortedBy(InOrder, a + p);
    var q :| multiset(b + q) == multiset(all) && SortedBy(InOrder, b + q);
    PermutedApart(all, a + p);
    ApartHasNoTies(a + p);
    SortedUnique(InOrder, a + p, b + q);
    assert a == (a + p)[..|a|] && b == (b + q)[..|b|];
    forall i, j | 0 <= i < j < |a| ensures TextLess(a[i].name, a[j].name) {
      assert InOrder((a + p)[i], (a + p)[j]) && (a + p)[i].name != (a + p)[j].name;
    }
  }

  lemma PermutedApart(all: seq<HealthReport>, other: seq<HealthReport>)
    requires ReportNamesApart(all) && multiset(other) == multiset(all)
    ensures ReportNamesApart(other)
  {
    DistinctCounts(all);
    forall i, j | 0 <= i < j < |other| ensures other[i].name != other[j].name {
      assert other[i] in multiset(all) && other[j] in multiset(all);
      if other[i] == other[j] {
        TwiceCounts(other, i, j);
      }
      assert other[i] != other[j];
    }
  }

  /** An available inventory reports every listed array from both sources, in full agreement. */
  lemma AvailableIsAgreed(text: StatusText, names: seq<string>, cut: bool, present: set<string>,
                          attrs: string -> Attributes)
    requires StatusOf(text, names, cut, present, attrs) == Available
    ensures text.Parsed? && !cut
    ensures forall n :: n in names ==> Named(text.records, n)
    ensures forall i ::
              0 <= i < |text.records| ==> text.records[i].name in present && Settled(text.records[i], present, attrs)
  {
    forall n | n in names ensures Named(text.records, n) {
      NamedOrListed(text.records, names, n);
    }
    forall i | 0 <= i < |text.records|
      ensures text.records[i].name in present && Settled(text.records[i], present, attrs)
    {
      assert Settled(text.records[i], present, attrs);
    }
  }

  // -- The status, exactly ---------------------------------------------------------------------------

  predicate AnyMdBlock(present: set<string>) {
    exists n :: n in present && ValidMdName(n)
  }

  lemma NamesOrNone(present: set<string>, names: seq<string>, cut: bool)
    requires ArrayNames(present, names, cut)
    ensures names == [] <==> !AnyMdBlock(present)
    ensures cut ==> names != []
    ensures !cut ==> forall n :: n in names <==> n in present && ValidMdName(n)
  {
    var all :| ListsSet(all, set n | n in present && ValidMdName(n)) && names <= all
               && (cut <==> |all| > MAX_ARRAYS) && |names| == if cut then MAX_ARRAYS else |all|;
    assert !cut ==> names == all;
    if n :| n in present && ValidMdName(n) {
      assert n in all;
    }
    if all != [] {
      assert all[0] in all;
    }
  }

  lemma {:induction false} UnnamedNone(records: seq<Record>, names: seq<string>)
    ensures Unnamed(records, names) == [] <==> forall n :: n in names ==> Named(records, n)
  {
    if names != [] {
      var n := |names| - 1;
      UnnamedNone(records, names[..n]);
      assert names == names[..n] + [names[n]];
    }
  }

  /** When each status is reported: unsupported without a status text and without an MD block, unavailable without a
      readable text and without an MD block, and available when nothing was cut, every MD block has a record, and
      every record is confirmed by sysfs; everything else is partial. */
  lemma StatusExactly(present: set<string>, text: StatusText, attrs: string -> Attributes, names: seq<string>,
                      cut: bool,
                      all: seq<HealthReport>, reports: seq<HealthReport>, status: InventoryStatus)
    requires Concludes(present, text, attrs, names, cut, all, reports, status)
    ensures text.NoText? ==> (status == NotSupported <==> !AnyMdBlock(present) && |all| <= 16)
    ensures text.UnreadableText? ==> (status == NoInventory <==> !AnyMdBlock(present) && |all| <= 16)
    ensures status == Available <==>
              && text.Parsed? && !cut && |all| <= 16
              && (forall n :: n in present && ValidMdName(n) ==> Named(text.records, n))
              && forall r :: r in text.records ==> Settled(r, present, attrs)
    ensures status == NotSupported ==> text.NoText?
    ensures status == NoInventory ==> text.UnreadableText?
  {
    NamesOrNone(present, names, cut);
    if text.Parsed? {
      UnnamedNone(text.records, names);
      AllSettled(text.records, present, attrs);
    }
  }

  lemma AllSettled(records: seq<Record>, present: set<string>, attrs: string -> Attributes)
    ensures (forall i {:trigger records[i]} :: 0 <= i < |records| ==> Settled(records[i], present, attrs)) <==>
            (forall r :: r in records ==> Settled(r, present, attrs))
  {
    if forall r :: r in records ==> Settled(r, present, attrs) {
      assert forall i {:trigger records[i]} :: 0 <= i < |records| ==> records[i] in records;
    }
  }

  /** An array that only sysfs shows is reported inactive when it says so, and unknown otherwise. */
  lemma {:induction false} OtherReported(text: StatusText, names: seq<string>, present: set<string>,
                                         attrs: string -> Attributes, all: seq<HealthReport>, n: string)
    requires ReportsHold(text, names, present, attrs, all) && n in names && !Named(RecordsOf(text), n)
    ensures exists o :: o in all && o.name == n
                        && o.health == if AllRead(attrs(n)) && AllParsed(attrs(n))
                                          && attrs(n).state == Value(InactiveArray)
                                       then InactiveHealth else UnknownHealth
  {
    var records, others := RecordsOf(text), Unnamed(RecordsOf(text), names);
    NamedOrListed(records, names, n);
    var k :| 0 <= k < |others| && others[k] == n;
    EachAt(all[|records|..], OtherAt(others, attrs), k);
    assert all[|records| + k] in all;
  }
}
