/** The login and password-change limiters: five calls per window, and what that means over any stretch of time. */
module RateLimits {
  import opened Basics

  // Nanoseconds.
  const WINDOW: int := 60_000_000_000
  const MAX_ATTEMPTS: nat := 5

  // -- One call --------------------------------------------------------------------------------------

  datatype Limit = Limit(windowAt: Option<int>, attempts: nat)

  const FRESH := Limit(None, 0)

  predicate Reopens(l: Limit, now: int) {
    l.windowAt.None? || now - l.windowAt.value >= WINDOW || now < l.windowAt.value
  }

  function Opened(l: Limit, now: int): Limit {
    if Reopens(l, now) then Limit(Some(now), 0) else l
  }

  function Next(l: Limit, now: int): Limit {
    var o := Opened(l, now);
    if o.attempts >= MAX_ATTEMPTS then o else o.(attempts := o.attempts + 1)
  }

  predicate Admits(l: Limit, now: int) {
    Opened(l, now).attempts < MAX_ATTEMPTS
  }

  class Limiter {
    var windowAt: Option<int>
    var attempts: nat

    function View(): Limit
      reads this
    {
      Limit(windowAt, attempts)
    }

    constructor ()
      ensures View() == FRESH
    {
      windowAt, attempts := None, 0;
    }

    /** After a call the window holds its time, and a refusal means that the window was already used up. */
    method Allow(now: int) returns (ok: bool)
      modifies this
      ensures windowAt.Some? && windowAt.value <= now < windowAt.value + WINDOW
      ensures !ok ==> View() == old(View()) && attempts >= MAX_ATTEMPTS
      ensures ok ==>
                1 <= attempts <= MAX_ATTEMPTS && (windowAt != old(windowAt) ==> windowAt == Some(now) && attempts == 1)
      ensures ok == Admits(old(View()), now) && View() == Next(old(View()), now)
    {
      if windowAt.None? || now - windowAt.value >= WINDOW || now < windowAt.value {
        windowAt, attempts := Some(now), 0;
      }
      if attempts >= MAX_ATTEMPTS {
        return false;
      }
      attempts := attempts + 1;
      return true;
    }
  }

  // -- Runs ------------------------------------------------------------------------------------------

  function After(times: seq<int>): Limit {
    if times == [] then FRESH else Next(After(times[..|times| - 1]), times[|times| - 1])
  }

  /** An admitted call and the window it was admitted in. */
  datatype Call = Call(time: int, window: int)

  function Admitted(times: seq<int>): seq<Call> {
    if times == [] then []
    else
      var before, now := times[..|times| - 1], times[|times| - 1];
      var call := Call(now, Opened(After(before), now).windowAt.value);
      Admitted(before) + if Admits(After(before), now) then [call] else []
  }

  predicate Nondecreasing(times: seq<int>) {
    forall i, j :: 0 <= i < j < |times| ==> times[i] <= times[j]
  }

  function InWindow(calls: seq<Call>, window: int): nat {
    if calls == [] then 0
    else InWindow(calls[..|calls| - 1], window) + if calls[|calls| - 1].window == window then 1 else 0
  }

  /** The admitted calls of the half-open interval of one window's length. */
  function InInterval(calls: seq<Call>, from: int): nat {
    if calls == [] then 0
    else InInterval(calls[..|calls| - 1], from) + if from <= calls[|calls| - 1].time < from + WINDOW then 1 else 0
  }

  /** How many calls of the window lie in the interval. */
  function Both(calls: seq<Call>, window: int, from: int): nat {
    if calls == [] then 0
    else
      var c := calls[|calls| - 1];
      Both(calls[..|calls| - 1], window, from) + if c.window == window && from <= c.time < from + WINDOW then 1 else 0
  }

  // -- The invariant of a run ------------------------------------------------------------------------

  /** A call lies in its window, and that window is the given one or ended before it. */
  predicate Settled(c: Call, window: int) {
    c.window <= c.time < c.window + WINDOW && (c.window == window || c.window + WINDOW <= window)
  }

  predicate AllSettled(calls: seq<Call>, window: int) {
    forall i :: 0 <= i < |calls| ==> Settled(calls[i], window)
  }

  predicate WindowsApart(a: Call, b: Call) {
    a.window == b.window || a.window + WINDOW <= b.window || b.window + WINDOW <= a.window
  }

  /** Different windows do not overlap. */
  predicate AllApart(calls: seq<Call>) {
    forall i, j {:trigger WindowsApart(calls[i], calls[j])} ::
      0 <= i < |calls| && 0 <= j < |calls| ==> WindowsApart(calls[i], calls[j])
  }

  /** No window admits more than five calls. */
  ghost predicate AllBounded(calls: seq<Call>) {
    forall w {:trigger InWindow(calls, w)} :: InWindow(calls, w) <= MAX_ATTEMPTS
  }

  /** Every window starts with an admitted call. */
  predicate AllLed(calls: seq<Call>) {
    forall i {:trigger Led(calls, calls[i].window)} :: 0 <= i < |calls| ==> Led(calls, calls[i].window)
  }

  predicate Led(calls: seq<Call>, window: int) {
    exists k :: 0 <= k < |calls| && calls[k] == Call(window, window)
  }

  /** What has been admitted and how the limiter stands, given the time of the last call. */
  ghost predicate Stands(calls: seq<Call>, l: Limit, last: int) {
    && l.windowAt.Some? && l.windowAt.value <= last && 1 <= l.attempts <= MAX_ATTEMPTS
    && AllSettled(calls, l.windowAt.value) && AllApart(calls) && AllBounded(calls) && AllLed(calls)
    && InWindow(calls, l.windowAt.value) == l.attempts && Led(calls, l.windowAt.value)
  }

  lemma {:induction false} NoneInWindow(calls: seq<Call>, window: int)
    requires forall i :: 0 <= i < |calls| ==> calls[i].window != window
    ensures InWindow(calls, window) == 0
  {
    if calls != [] {
      NoneInWindow(calls[..|calls| - 1], window);
    }
  }

  lemma {:induction false} CountMore(calls: seq<Call>, c: Call, w: int)
    ensures InWindow(calls + [c], w) == InWindow(calls, w) + if c.window == w then 1 else 0
  {
    assert (calls + [c])[..|calls|] == calls;
  }

  lemma LedMore(calls: seq<Call>, c: Call, w: int)
    requires Led(calls, w) || c == Call(w, w)
    ensures Led(calls + [c], w)
  {
    if Led(calls, w) {
      var k :| 0 <= k < |calls| && calls[k] == Call(w, w);
      assert (calls + [c])[k] == Call(w, w);
    } else {
      assert (calls + [c])[|calls|] == Call(w, w);
    }
  }

  /** One more admitted call in the current or in a later window. */
  lemma {:induction false} AdmitStep(calls: seq<Call>, c: Call)
    requires AllSettled(calls, c.window) && c.window <= c.time < c.window + WINDOW && AllApart(calls)
    requires AllBounded(calls) && AllLed(calls)
    requires InWindow(calls, c.window) < MAX_ATTEMPTS && (Led(calls, c.window) || c.time == c.window)
    ensures Stands(calls + [c], Limit(Some(c.window), InWindow(calls, c.window) + 1), c.time)
  {
    var more := calls + [c];
    forall i, j | 0 <= i < |more| && 0 <= j < |more| ensures WindowsApart(more[i], more[j]) {
      if i < |calls| && j < |calls| {
        assert WindowsApart(calls[i], calls[j]);
      }
    }
    forall w ensures InWindow(more, w) <= MAX_ATTEMPTS {
      CountMore(calls, c, w);
    }
    CountMore(calls, c, c.window);
    LedMore(calls, c, c.window);
    forall i | 0 <= i < |more| ensures Led(more, more[i].window) {
      if i < |calls| {
        assert Led(calls, calls[i].window);
        LedMore(calls, c, calls[i].window);
      }
    }
  }

  lemma FirstCall(now: int)
    ensures Stands([Call(now, now)], Limit(Some(now), 1), now)
  {
    AdmitStep([], Call(now, now));
    assert [] + [Call(now, now)] == [Call(now, now)];
  }

  lemma NextCall(calls: seq<Call>, l: Limit, last: int, now: int)
    requires Stands(calls, l, last) && last <= now
    ensures var c := Call(now, Opened(l, now).windowAt.value);
            Stands(if Admits(l, now) then calls + [c] else calls, Next(l, now), now)
  {
    var w := l.windowAt.value;
    if Reopens(l, now) {
      forall i | 0 <= i < |calls| ensures calls[i].window != now && Settled(calls[i], now) {
        assert Settled(calls[i], w);
      }
      NoneInWindow(calls, now);
      AdmitStep(calls, Call(now, now));
    } else if Admits(l, now) {
      AdmitStep(calls, Call(now, w));
    }
  }

  /** Over every run with a clock that does not go back. */
  lemma {:induction false} RunStands(times: seq<int>)
    requires Nondecreasing(times) && times != []
    ensures Stands(Admitted(times), After(times), times[|times| - 1])
  {
    var n := |times| - 1;
    var before, now := times[..n], times[n];
    if before == [] {
      FirstCall(now);
      assert Admitted(times) == [Call(now, now)];
    } else {
      RunStands(before);
      assert before[n - 1] == times[n - 1] <= times[n];
      NextCall(Admitted(before), After(before), before[n - 1], now);
      assert Admitted(before) + [] == Admitted(before);
    }
  }

  // -- The bounds ------------------------------------------------------------------------------------

  /** At most five admitted calls per window. */
  lemma {:induction false} FivePerWindow(times: seq<int>, window: int)
    requires Nondecreasing(times)
    ensures InWindow(Admitted(times), window) <= MAX_ATTEMPTS
  {
    if times != [] {
      RunStands(times);
    }
  }

  lemma {:induction false} BothBounds(calls: seq<Call>, window: int, from: int)
    ensures Both(calls, window, from) <= InWindow(calls, window)
  {
    if calls != [] {
      BothBounds(calls[..|calls| - 1], window, from);
    }
  }

  /** The call that opened a window before the interval is one the interval misses. */
  lemma {:induction false} OpeningIsOutside(calls: seq<Call>, window: int, from: int, k: nat)
    requires k < |calls| && calls[k] == Call(window, window) && window < from
    ensures Both(calls, window, from) < InWindow(calls, window)
  {
    var rest := calls[..|calls| - 1];
    if k < |rest| {
      OpeningIsOutside(rest, window, from, k);
    } else {
      BothBounds(rest, window, from);
    }
  }

  /** Only two windows reach into an interval: one that began before it, one that begins in it. */
  ghost predicate Reaching(calls: seq<Call>, from: int, elder: int, young: int) {
    forall i :: 0 <= i < |calls| && from <= calls[i].time < from + WINDOW ==>
      calls[i].window == if calls[i].window < from then elder else young
  }

  lemma {:induction false} CountsSplit(calls: seq<Call>, from: int, elder: int, young: int)
    requires Reaching(calls, from, elder, young) && elder < from <= young
    ensures InInterval(calls, from) <= Both(calls, elder, from) + Both(calls, young, from)
  {
    if calls != [] {
      CountsSplit(calls[..|calls| - 1], from, elder, young);
    }
  }

  lemma {:induction false} NoneBoth(calls: seq<Call>, window: int, from: int)
    requires forall i :: 0 <= i < |calls| && from <= calls[i].time < from + WINDOW ==> calls[i].window != window
    ensures Both(calls, window, from) == 0
  {
    if calls != [] {
      NoneBoth(calls[..|calls| - 1], window, from);
    }
  }

  /** Two calls of the interval whose windows began on the same side of it share their window. */
  lemma SameSide(a: Call, b: Call, from: int)
    requires WindowsApart(a, b) && a.window <= a.time < a.window + WINDOW && b.window <= b.time < b.window + WINDOW
    requires from <= a.time < from + WINDOW && from <= b.time < from + WINDOW && (a.window < from <==> b.window < from)
    ensures a.window == b.window
  {
  }

  predicate Inside(c: Call, from: int) {
    from <= c.time < from + WINDOW
  }

  lemma ElderWindow(calls: seq<Call>, l: Limit, last: int, from: int) returns (elder: int)
    requires Stands(calls, l, last)
    ensures elder < from && Both(calls, elder, from) <= MAX_ATTEMPTS - 1
    ensures forall i ::
              0 <= i < |calls| && Inside(calls[i], from) && calls[i].window < from ==> calls[i].window == elder
  {
    if i :| 0 <= i < |calls| && Inside(calls[i], from) && calls[i].window < from {
      elder := calls[i].window;
      assert Led(calls, elder);
      var k :| 0 <= k < |calls| && calls[k] == Call(elder, elder);
      OpeningIsOutside(calls, elder, from, k);
      forall j | 0 <= j < |calls| && Inside(calls[j], from) && calls[j].window < from ensures calls[j].window == elder {
        assert WindowsApart(calls[j], calls[i]);
        SameSide(calls[j], calls[i], from);
      }
    } else {
      elder := from - 1;
      NoneBoth(calls, elder, from);
    }
  }

  lemma YoungWindow(calls: seq<Call>, l: Limit, last: int, from: int) returns (young: int)
    requires Stands(calls, l, last)
    ensures from <= young && Both(calls, young, from) <= MAX_ATTEMPTS
    ensures forall i ::
              0 <= i < |calls| && Inside(calls[i], from) && calls[i].window >= from ==> calls[i].window == young
  {
    young := from;
    if i :| 0 <= i < |calls| && Inside(calls[i], from) && calls[i].window >= from {
      young := calls[i].window;
      forall j | 0 <= j < |calls| && Inside(calls[j], from) && calls[j].window >= from
        ensures calls[j].window == young
      {
        assert WindowsApart(calls[j], calls[i]);
        SameSide(calls[j], calls[i], from);
      }
    }
    BothBounds(calls, young, from);
  }

  /** In any half-open interval of one window's length at most nine calls are admitted. */
  lemma {:induction false} NinePerInterval(times: seq<int>, from: int)
    requires Nondecreasing(times)
    ensures InInterval(Admitted(times), from) <= 2 * MAX_ATTEMPTS - 1
  {
    if times != [] {
      RunStands(times);
      var calls, l := Admitted(times), After(times);
      var elder := ElderWindow(calls, l, times[|times| - 1], from);
      var young := YoungWindow(calls, l, times[|times| - 1], from);
      CountsSplit(calls, from, elder, young);
    }
  }

  /** A window of five admitted calls that is still open. */
  predicate UsedUp(calls: seq<Call>, now: int, w: int) {
    InWindow(calls, w) >= 5 && w <= now < w + WINDOW
  }

  lemma {:induction false} SomeInWindow(calls: seq<Call>, w: int) returns (i: nat)
    requires InWindow(calls, w) > 0
    ensures i < |calls| && calls[i].window == w
  {
    i := |calls| - 1;
    if calls[i].window != w {
      i := SomeInWindow(calls[..i], w);
    }
  }

  lemma StandingRefuses(calls: seq<Call>, l: Limit, last: int, now: int)
    requires Stands(calls, l, last) && last <= now
    ensures !Admits(l, now) <==> exists w :: UsedUp(calls, now, w)
  {
    var at := l.windowAt.value;
    if w :| UsedUp(calls, now, w) {
      var i := SomeInWindow(calls, w);
      assert Settled(calls[i], at);
    }
    if !Admits(l, now) {
      assert UsedUp(calls, now, at);
    }
  }

  /** A call is refused exactly when five were admitted in a window that is still open. */
  lemma {:induction false} RefusedExactly(times: seq<int>, now: int)
    requires Nondecreasing(times + [now])
    ensures |Admitted(times + [now])| == |Admitted(times)| <==> exists w :: UsedUp(Admitted(times), now, w)
  {
    OneMore(times, now);
    if times != [] {
      var n := |times| - 1;
      forall i, j | 0 <= i < j < |times| ensures times[i] <= times[j] {
        assert (times + [now])[i] <= (times + [now])[j];
      }
      assert (times + [now])[n] <= (times + [now])[n + 1];
      RunStands(times);
      StandingRefuses(Admitted(times), After(times), times[n], now);
    }
  }

  /** A limiter called at these times admits exactly these calls, and so keeps both bounds. */
  method Serve(times: seq<int>) returns (admitted: seq<Call>)
    ensures admitted == Admitted(times)
    ensures Nondecreasing(times) ==> forall w {:trigger InWindow(admitted, w)} :: InWindow(admitted, w) <= MAX_ATTEMPTS
    ensures Nondecreasing(times) ==>
              forall from {:trigger InInterval(admitted, from)} :: InInterval(admitted, from) <= 2 * MAX_ATTEMPTS - 1
  {
    var limiter := new Limiter();
    admitted := [];
    assert times[..0] == [];
    for k := 0 to |times|
      invariant limiter.View() == After(times[..k]) && admitted == Admitted(times[..k])
    {
      OneMore(times[..k], times[k]);
      assert times[..k + 1] == times[..k] + [times[k]];
      var ok := limiter.Allow(times[k]);
      if ok {
        admitted := admitted + [Call(times[k], limiter.windowAt.value)];
      }
    }
    assert times[..|times|] == times;
    if Nondecreasing(times) {
      forall w ensures InWindow(admitted, w) <= MAX_ATTEMPTS {
        FivePerWindow(times, w);
      }
      forall from ensures InInterval(admitted, from) <= 2 * MAX_ATTEMPTS - 1 {
        NinePerInterval(times, from);
      }
    }
  }

  // -- The bounds are met ----------------------------------------------------------------------------

  lemma {:induction false} OneMore(times: seq<int>, now: int)
    ensures After(times + [now]) == Next(After(times), now)
    ensures var call := Call(now, Opened(After(times), now).windowAt.value);
            Admitted(times + [now]) == Admitted(times) + if Admits(After(times), now) then [call] else []
  {
    assert (times + [now])[..|times|] == times;
  }

  lemma {:induction false} IntervalMore(calls: seq<Call>, c: Call, from: int)
    ensures InInterval(calls + [c], from) == InInterval(calls, from) + if from <= c.time < from + WINDOW then 1 else 0
  {
    assert (calls + [c])[..|calls|] == calls;
  }

  /** The run with the same call repeated at its end. */
  function Then(times: seq<int>, now: int, n: nat): seq<int> {
    if n == 0 then times else Then(times, now, n - 1) + [now]
  }

  lemma {:induction false} AdmitOne(times: seq<int>, now: int, w: int, k: nat, from: int)
    requires Opened(After(times), now) == Limit(Some(w), k) && k < MAX_ATTEMPTS
    ensures After(times + [now]) == Limit(Some(w), k + 1)
    ensures InInterval(Admitted(times + [now]), from) ==
            InInterval(Admitted(times), from) + if from <= now < from + WINDOW then 1 else 0
  {
    OneMore(times, now);
    IntervalMore(Admitted(times), Call(now, w), from);
  }

  lemma {:induction false} Burst(times: seq<int>, now: int, n: nat, w: int, k: nat, from: int)
    requires Opened(After(times), now) == Limit(Some(w), k) && k + n <= MAX_ATTEMPTS && w <= now < w + WINDOW
    ensures n > 0 ==> After(Then(times, now, n)) == Limit(Some(w), k + n)
    ensures InInterval(Admitted(Then(times, now, n)), from) ==
            InInterval(Admitted(times), from) + if from <= now < from + WINDOW then n else 0
  {
    if n > 0 {
      Burst(times, now, n - 1, w, k, from);
      AdmitOne(Then(times, now, n - 1), now, w, k + n - 1, from);
    }
  }

  lemma {:induction false} ThenOrdered(times: seq<int>, now: int, n: nat)
    requires Nondecreasing(times) && forall i :: 0 <= i < |times| ==> times[i] <= now
    ensures Nondecreasing(Then(times, now, n))
            && forall i :: 0 <= i < |Then(times, now, n)| ==> Then(times, now, n)[i] <= now
  {
    if n > 0 {
      ThenOrdered(times, now, n - 1);
    }
  }

  /** Nine is reached: one call opens a window, four follow, and the next window admits five. */
  lemma NineIsReached() returns (times: seq<int>)
    ensures Nondecreasing(times) && InInterval(Admitted(times), 1) == 2 * MAX_ATTEMPTS - 1
  {
    var first := Then([], 0, 1);
    var second := Then(first, 1, 4);
    times := Then(second, WINDOW, 5);
    Burst([], 0, 1, 0, 0, 1);
    Burst(first, 1, 4, 0, 1, 1);
    Burst(second, WINDOW, 5, WINDOW, 0, 1);
    ThenOrdered([], 0, 1);
    ThenOrdered(first, 1, 4);
    ThenOrdered(second, WINDOW, 5);
  }

  function Swings(n: nat): seq<int> {
    if n == 0 then [] else Swings(n - 1) + [WINDOW] + [0]
  }

  lemma {:induction false} SwingOnce(before: seq<int>)
    requires After(before) == FRESH || After(before) == Limit(Some(0), 1)
    ensures After(before + [WINDOW] + [0]) == Limit(Some(0), 1)
    ensures InInterval(Admitted(before + [WINDOW] + [0]), 0) == InInterval(Admitted(before), 0) + 1
  {
    AdmitOne(before, WINDOW, WINDOW, 0, 0);
    AdmitOne(before + [WINDOW], 0, 0, 0, 0);
  }

  ghost predicate Swung(times: seq<int>, n: nat) {
    && (After(times) == if n == 0 then FRESH else Limit(Some(0), 1))
    && InInterval(Admitted(times), 0) == n
  }

  lemma {:induction false} SwungMore(times: seq<int>, n: nat)
    requires Swung(times, n)
    ensures Swung(times + [WINDOW] + [0], n + 1)
  {
    SwingOnce(times);
  }

  lemma NotSwung(times: seq<int>)
    requires times == []
    ensures Swung(times, 0)
  {
  }

  lemma {:induction false} AllSwing(n: nat)
    ensures Swung(Swings(n), n)
  {
    if n == 0 {
      NotSwung(Swings(n));
    } else {
      AllSwing(n - 1);
      SwungMore(Swings(n - 1), n - 1);
    }
  }

  /** The clock matters: when it swings back and forth by one window every call opens a window of its own, so
      one interval holds any number of admitted calls. */
  lemma {:induction false} EveryCallReopens(n: nat)
    ensures After(Swings(n)) == if n == 0 then FRESH else Limit(Some(0), 1)
    ensures InInterval(Admitted(Swings(n)), 0) == n
  {
    AllSwing(n);
  }
}
