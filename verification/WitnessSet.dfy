/** The life of a retained witness set: all-or-nothing retention, checks with a sticky review, and a release that
    happens at most once. Calls exclude each other through a gate that turns a second caller away. */
module WitnessSets {
  import opened Basics

  type Witness = nat

  /** What the gate and the caller's context allow. */
  datatype Entry = Entered | GateBusy | Cancelled

  datatype Outcome = Done | BusyError | CancelledError | ClosedError | ReviewError | UnsafeError

  datatype State = State(witnesses: seq<Witness>, review: bool, closed: bool, uncertain: bool, released: seq<Witness>)

  /** One check: the two censuses around the witness checks, as the environment answers them. */
  datatype Probe = Probe(censusBefore: bool, witnessHolds: Witness -> bool, censusAfter: bool)

  datatype Call =
    | CheckCall(entry: Entry, probe: Probe)
    | CloseCall(entry: Entry, releases: Witness -> bool)

  function Refused(entry: Entry): Outcome {
    if entry.GateBusy? then BusyError else CancelledError
  }

  predicate Passes(witnesses: seq<Witness>, p: Probe) {
    p.censusBefore && (forall w :: w in witnesses ==> p.witnessHolds(w)) && p.censusAfter
  }

  // -- Calls on values -------------------------------------------------------------------------------

  function Checked(s: State, entry: Entry, p: Probe): (State, Outcome) {
    if !entry.Entered? then (s, Refused(entry))
    else if s.closed then (s, ClosedError)
    else if s.review then (s, ReviewError)
    else if Passes(s.witnesses, p) then (s, Done)
    else (s.(review := true), UnsafeError)
  }

  function Released(s: State, entry: Entry, releases: Witness -> bool): (State, Outcome) {
    if !entry.Entered? then (s, Refused(entry))
    else if s.uncertain then (s, ReviewError)
    else if s.closed then (s, Done)
    else
      var tried := s.(released := s.released + s.witnesses);
      if forall w :: w in s.witnesses ==> releases(w) then (tried.(closed := true, witnesses := []), Done)
      else (tried.(uncertain := true, review := true), ReviewError)
  }

  function Step(s: State, c: Call): (State, Outcome) {
    match c
    case CheckCall(entry, probe) => Checked(s, entry, probe)
    case CloseCall(entry, releases) => Released(s, entry, releases)
  }

  function Run(s: State, calls: seq<Call>): State {
    if calls == [] then s else Step(Run(s, calls[..|calls| - 1]), calls[|calls| - 1]).0
  }

  function Fresh(witnesses: seq<Witness>): State {
    State(witnesses, false, false, false, [])
  }

  // -- The object ------------------------------------------------------------------------------------

  class WitnessSet {
    var witnesses: seq<Witness>
    var review: bool
    var closed: bool
    var uncertain: bool
    ghost var released: seq<Witness>

    ghost function View(): State
      reads this
    {
      State(witnesses, review, closed, uncertain, released)
    }

    constructor ()
      ensures View() == Fresh([])
    {
      witnesses, review, closed, uncertain, released := [], false, false, false, [];
    }

    method Check(entry: Entry, p: Probe) returns (r: Outcome)
      modifies this
      ensures (View(), r) == Checked(old(View()), entry, p)
    {
      if !entry.Entered? {
        return Refused(entry);
      } else if closed {
        return ClosedError;
      } else if review {
        return ReviewError;
      }
      if !p.censusBefore {
        review := true;
        return UnsafeError;
      }
      for i := 0 to |witnesses|
        invariant View() == old(View())
        invariant forall j :: 0 <= j < i ==> p.witnessHolds(witnesses[j])
      {
        if !p.witnessHolds(witnesses[i]) {
          assert witnesses[i] in witnesses;
          review := true;
          return UnsafeError;
        }
      }
      if !p.censusAfter {
        review := true;
        return UnsafeError;
      }
      r := Done;
    }

    /** Every release is attempted, whatever the earlier ones gave. */
    method Close(entry: Entry, releases: Witness -> bool) returns (r: Outcome)
      modifies this
      ensures (View(), r) == Released(old(View()), entry, releases)
    {
      if !entry.Entered? {
        return Refused(entry);
      } else if uncertain {
        return ReviewError;
      } else if closed {
        return Done;
      }
      for i := 0 to |witnesses|
        invariant witnesses == old(witnesses) && closed == old(closed)
        invariant released == old(released) + witnesses[..i]
        invariant uncertain <==> exists j :: 0 <= j < i && !releases(witnesses[j])
        invariant review <==> old(review) || uncertain
      {
        released := released + [witnesses[i]];
        assert witnesses[..i + 1] == witnesses[..i] + [witnesses[i]];
        if !releases(witnesses[i]) {
          uncertain, review := true, true;
        }
      }
      assert witnesses[..|witnesses|] == witnesses;
      if uncertain {
        return ReviewError;
      }
      closed, witnesses := true, [];
      r := Done;
    }

    method Hold(w: Witness)
      modifies this
      ensures View() == old(View()).(witnesses := old(View()).witnesses + [w])
    {
      witnesses := witnesses + [w];
    }
  }

  /** Retains a witness for every source, in order, or releases those it had and returns nothing. `retain` gives
      the witness of a source, if the kernel grants it. */
  method Retain(sources: Option<seq<nat>>, retain: nat -> Option<Witness>, p: Probe, releases: Witness -> bool)
    returns (held: WitnessSet?, ghost kept: seq<Witness>, ghost given: seq<Witness>)
    ensures held != null <==> sources.Some? && (forall x :: x in sources.value ==> retain(x).Some?) && Passes(kept, p)
    ensures held != null ==>
              fresh(held) && held.View() == Fresh(kept) && Granted(sources.value, retain, |sources.value|, kept)
    ensures held == null ==> given == kept
    ensures sources.Some? ==>
              (exists n: nat ::
                 Granted(sources.value, retain, n, kept) && (n < |sources.value| ==> retain(sources.value[n]).None?))
  {
    kept, given := [], [];
    if sources.None? {
      return null, kept, given;
    }
    var s := new WitnessSet();
    for i := 0 to |sources.value|
      invariant fresh(s) && s.View() == Fresh(kept) && Granted(sources.value, retain, i, kept)
      invariant forall j :: 0 <= j < i ==> retain(sources.value[j]).Some?
    {
      var w := retain(sources.value[i]);
      if w.None? {
        assert sources.value[i] in sources.value;
        var r := s.Close(Entered, releases);
        given := s.released;
        return null, kept, given;
      }
      s.Hold(w.value);
      kept := kept + [w.value];
    }
    var r := s.Check(Entered, p);
    if r != Done {
      r := s.Close(Entered, releases);
      given := s.released;
      return null, kept, given;
    }
    held := s;
  }

  /** The witnesses of the first `n` sources. */
  predicate Granted(sources: seq<nat>, retain: nat -> Option<Witness>, n: nat, kept: seq<Witness>) {
    n <= |sources| && |kept| == n && forall i :: 0 <= i < n ==> retain(sources[i]) == Some(kept[i])
  }

  // -- Whole runs ------------------------------------------------------------------------------------

  /** Nothing released yet, or everything released once and for all. */
  ghost predicate Orderly(start: seq<Witness>, s: State) {
    && (s.released == [] || s.released == start) && (s.uncertain ==> s.review)
    && !(s.closed && s.uncertain)
    && (s.closed ==> s.witnesses == [] && s.released == start)
    && (!s.closed ==> s.witnesses == start)
    && (!s.closed && !s.uncertain ==> s.released == [])
    && (s.uncertain ==> s.released == start)
  }

  lemma StepIsOrderly(start: seq<Witness>, s: State, c: Call)
    requires Orderly(start, s)
    ensures Orderly(start, Step(s, c).0)
    ensures s.review ==> Step(s, c).0.review
    ensures s.uncertain ==> Step(s, c).0.uncertain
    ensures s.closed ==> Step(s, c).0.closed
  {
    assert [] + start == start;
  }

  lemma {:induction false} RunIsOrderly(start: seq<Witness>, calls: seq<Call>)
    ensures Orderly(start, Run(Fresh(start), calls))
  {
    if calls != [] {
      RunIsOrderly(start, calls[..|calls| - 1]);
      StepIsOrderly(start, Run(Fresh(start), calls[..|calls| - 1]), calls[|calls| - 1]);
    }
  }

  /** Over any calls each witness is released at most once, and exactly once when the set is closed. */
  lemma {:induction false} ReleasedAtMostOnce(start: seq<Witness>, calls: seq<Call>, w: Witness)
    requires forall i, j :: 0 <= i < j < |start| ==> start[i] != start[j]
    ensures multiset(Run(Fresh(start), calls).released)[w] <= 1
    ensures Run(Fresh(start), calls).closed && w in start ==> multiset(Run(Fresh(start), calls).released)[w] == 1
  {
    RunIsOrderly(start, calls);
    OnceEach(start, w);
  }

  lemma {:induction false} OnceEach(list: seq<Witness>, w: Witness)
    requires forall i, j :: 0 <= i < j < |list| ==> list[i] != list[j]
    ensures multiset(list)[w] == if w in list then 1 else 0
  {
    if list != [] {
      OnceEach(list[1..], w);
      assert list == [list[0]] + list[1..];
    }
  }

  /** What a later moment keeps of an earlier one. */
  lemma {:induction false} LaterKeeps(start: seq<Witness>, s: State, calls: seq<Call>)
    requires Orderly(start, s)
    ensures Orderly(start, Run(s, calls))
    ensures s.review ==> Run(s, calls).review
    ensures s.uncertain ==> Run(s, calls).uncertain
    ensures s.closed ==> Run(s, calls).closed
  {
    if calls != [] {
      LaterKeeps(start, s, calls[..|calls| - 1]);
      StepIsOrderly(start, Run(s, calls[..|calls| - 1]), calls[|calls| - 1]);
    }
  }

  /** Once review is set no check succeeds again. */
  lemma {:induction false} ReviewIsSticky(start: seq<Witness>, s: State, calls: seq<Call>, entry: Entry, p: Probe)
    requires Orderly(start, s) && s.review
    ensures Checked(Run(s, calls), entry, p).1 != Done
  {
    LaterKeeps(start, s, calls);
  }

  /** An uncertain release never becomes a successful close, and releases nothing again. */
  lemma {:induction false} UncertainStaysUncertain(start: seq<Witness>, s: State, calls: seq<Call>, entry: Entry,
                                                   releases: Witness -> bool)
    requires Orderly(start, s) && s.uncertain
    ensures Released(Run(s, calls), entry, releases).1 != Done
    ensures Released(Run(s, calls), entry, releases).0.released == s.released
  {
    LaterKeeps(start, s, calls);
  }

  /** A close succeeds exactly when the set is closed already, or every release it attempts is certain. */
  lemma {:induction false} CloseSucceedsExactly(start: seq<Witness>, calls: seq<Call>, releases: Witness -> bool)
    ensures var s := Run(Fresh(start), calls);
            Released(s, Entered, releases).1 == Done <==>
                s.closed || (!s.uncertain && forall w :: w in start ==> releases(w))
  {
    RunIsOrderly(start, calls);
  }

  /** A check succeeds exactly when it enters a set that is open and not in review, and both censuses and every
      witness hold. */
  lemma {:induction false} CheckSucceedsExactly(start: seq<Witness>, calls: seq<Call>, entry: Entry, p: Probe)
    ensures var s := Run(Fresh(start), calls);
            Checked(s, entry, p).1 == Done <==>
              && entry == Entered && !s.closed && !s.review
              && p.censusBefore && p.censusAfter && forall w :: w in start ==> p.witnessHolds(w)
  {
    RunIsOrderly(start, calls);
  }

  /** A call that must put an open set under review. */
  predicate Fails(start: seq<Witness>, s: State, c: Call) {
    && c.entry == Entered && !s.closed
    && match c
       case CheckCall(_, p) =>
         !p.censusBefore || !p.censusAfter || exists w :: w in start && !p.witnessHolds(w)
       case CloseCall(_, releases) => exists w :: w in start && !releases(w)
  }

  lemma StepReviews(start: seq<Witness>, s: State, c: Call)
    requires Orderly(start, s)
    ensures Step(s, c).0.review <==> s.review || Fails(start, s, c)
  {
  }

  /** A set is under review exactly when an earlier call found a census or a witness that did not hold, or a release
      that was not certain. */
  lemma {:induction false} ReviewExactly(start: seq<Witness>, calls: seq<Call>)
    ensures Run(Fresh(start), calls).review <==>
              exists k :: 0 <= k < |calls| && Fails(start, Run(Fresh(start), calls[..k]), calls[k])
  {
    if calls != [] {
      var n := |calls| - 1;
      var before := calls[..n];
      ReviewExactly(start, before);
      RunIsOrderly(start, before);
      StepReviews(start, Run(Fresh(start), before), calls[n]);
      forall k | 0 <= k < n ensures before[..k] == calls[..k] && before[k] == calls[k] {
      }
      if Run(Fresh(start), before).review {
        var k :| 0 <= k < n && Fails(start, Run(Fresh(start), before[..k]), before[k]);
        assert Fails(start, Run(Fresh(start), calls[..k]), calls[k]);
      }
      if k :| 0 <= k < |calls| && Fails(start, Run(Fresh(start), calls[..k]), calls[k]) {
        if k < n {
          assert Fails(start, Run(Fresh(start), before[..k]), before[k]);
        }
      }
    }
  }
}
