/**
 * The scheduling-constraint records and the validators that check one proposed call
 * against a physician's availability and call history. Days are date ordinals (see
 * module Calendar); FTE is an exact rational.
 */
module ConstraintValidator {
  import opened Wrappers

  /** The global limits; `userGroupMaxCalls` maps an employment group to its monthly cap. */
  datatype SchedulingConstraints = SchedulingConstraints(
    maxCallsPerMonth: int,
    minDaysBetweenCalls: int,
    maxConsecutiveCalls: int,
    weekendCallWeight: real,
    userGroupMaxCalls: map<string, int>)

  /** The group caps filled in when the caller supplies none. */
  function DefaultGroupCaps(): map<string, int> {
    map["Full Time" := 10, "Part Time" := 6, "Part Time + Self Select" := 6, "PRN (Call Only)" := 12]
  }

  /**
   * The dataclass constructor with its post-initialisation step: every field is taken
   * as given, except that a missing group map becomes the default caps.
   */
  function NewSchedulingConstraints(
    maxCallsPerMonth: int, minDaysBetweenCalls: int, maxConsecutiveCalls: int,
    weekendCallWeight: real, userGroupMaxCalls: Option<map<string, int>>): (c: SchedulingConstraints)
    ensures c.maxCallsPerMonth == maxCallsPerMonth && c.minDaysBetweenCalls == minDaysBetweenCalls
    ensures c.maxConsecutiveCalls == maxConsecutiveCalls && c.weekendCallWeight == weekendCallWeight
    ensures userGroupMaxCalls.Some? ==> c.userGroupMaxCalls == userGroupMaxCalls.value
    ensures userGroupMaxCalls.None? ==> c.userGroupMaxCalls == DefaultGroupCaps()
  {
    SchedulingConstraints(maxCallsPerMonth, minDaysBetweenCalls, maxConsecutiveCalls, weekendCallWeight,
                          userGroupMaxCalls.GetOr(DefaultGroupCaps()))
  }

  /** `SchedulingConstraints()` with every default. */
  function DefaultConstraints(): (c: SchedulingConstraints)
    ensures c.maxCallsPerMonth == 10 && c.minDaysBetweenCalls == 2 && c.maxConsecutiveCalls == 2
    ensures c.weekendCallWeight == 1.5
    ensures c.userGroupMaxCalls.Keys == {"Full Time", "Part Time", "Part Time + Self Select", "PRN (Call Only)"}
    ensures c.userGroupMaxCalls["Full Time"] == 10 && c.userGroupMaxCalls["PRN (Call Only)"] == 12
    ensures c.userGroupMaxCalls["Part Time"] == 6 && c.userGroupMaxCalls["Part Time + Self Select"] == 6
  {
    NewSchedulingConstraints(10, 2, 2, 1.5, None)
  }

  /** One physician's availability record: blocked dates, part-time dates and FTE. */
  datatype UserAvailability = UserAvailability(
    userId: int,
    userName: string,
    userGroup: string,
    fte: real,
    vacationDates: set<int>,
    noCallDates: set<int>,
    partTimeDates: set<int>,
    currentCallCount: int)

  /** The dataclass constructor with its post-initialisation step: missing date sets become empty. */
  function NewUserAvailability(
    userId: int, userName: string, userGroup: string, fte: real,
    vacationDates: Option<set<int>>, noCallDates: Option<set<int>>, partTimeDates: Option<set<int>>,
    currentCallCount: int): (u: UserAvailability)
    ensures u.userId == userId && u.userName == userName && u.userGroup == userGroup && u.fte == fte
    ensures u.currentCallCount == currentCallCount
    ensures u.vacationDates == (if vacationDates.Some? then vacationDates.value else {})
    ensures u.noCallDates == (if noCallDates.Some? then noCallDates.value else {})
    ensures u.partTimeDates == (if partTimeDates.Some? then partTimeDates.value else {})
  {
    UserAvailability(userId, userName, userGroup, fte,
                     vacationDates.GetOr({}), noCallDates.GetOr({}), partTimeDates.GetOr({}), currentCallCount)
  }

  /** `is_available`: the date is neither a vacation date nor a no-call date. */
  predicate IsAvailable(u: UserAvailability, d: int) {
    d !in u.vacationDates && d !in u.noCallDates
  }

  /** Part-time dates never make a physician unavailable. */
  lemma PartTimeDatesIrrelevant(u: UserAvailability, d: int, partTime: set<int>)
    ensures IsAvailable(u.(partTimeDates := partTime), d) == IsAvailable(u, d)
    ensures d in u.partTimeDates && d !in u.vacationDates && d !in u.noCallDates ==> IsAvailable(u, d)
  {
  }

  /** Why `validate_user_availability` answers as it does. */
  datatype AvailabilityReason = OnVacation | NoCallRequested | Available

  /**
   * `validate_user_availability`: accepted exactly when the physician is available; a
   * vacation date is reported as such even when it is also a no-call date.
   */
  function ValidateUserAvailability(u: UserAvailability, d: int): (verdict: (bool, AvailabilityReason))
    ensures verdict.0 <==> IsAvailable(u, d)
    ensures verdict.0 <==> verdict.1 == Available
    ensures d in u.vacationDates ==> verdict.1 == OnVacation
    ensures d !in u.vacationDates && d in u.noCallDates ==> verdict.1 == NoCallRequested
  {
    if d in u.vacationDates then (false, OnVacation)
    else if d in u.noCallDates then (false, NoCallRequested)
    else (true, Available)
  }

  /** Python's `int(x)` on a number: truncation toward zero. */
  function Trunc(x: real): (r: int)
    ensures 0.0 <= x ==> r as real <= x < r as real + 1.0
    ensures x < 0.0 ==> r as real - 1.0 < x <= r as real
  {
    if x >= 0.0 then x.Floor else -((-x).Floor)
  }

  /** The monthly cap before FTE scaling: the group's cap, or the global cap for an unknown group. */
  function BaseMaxCalls(u: UserAvailability, c: SchedulingConstraints): int {
    if u.userGroup in c.userGroupMaxCalls then c.userGroupMaxCalls[u.userGroup] else c.maxCallsPerMonth
  }

  /** `get_max_calls_for_period`: the base cap scaled by FTE and truncated. */
  function MaxCallsForPeriod(u: UserAvailability, c: SchedulingConstraints): int {
    Trunc(BaseMaxCalls(u, c) as real * u.fte)
  }

  /**
   * The cap is the group's cap (or the global one) at full FTE, and a fractional FTE in
   * [0, 1] scales a non-negative base down to a value between 0 and the base.
   */
  lemma MaxCallsForPeriodBounds(u: UserAvailability, c: SchedulingConstraints)
    ensures u.fte == 1.0 ==> MaxCallsForPeriod(u, c) == BaseMaxCalls(u, c)
    ensures u.userGroup in c.userGroupMaxCalls ==> BaseMaxCalls(u, c) == c.userGroupMaxCalls[u.userGroup]
    ensures u.userGroup !in c.userGroupMaxCalls ==> BaseMaxCalls(u, c) == c.maxCallsPerMonth
    ensures 0.0 <= u.fte <= 1.0 && 0 <= BaseMaxCalls(u, c) ==> 0 <= MaxCallsForPeriod(u, c) <= BaseMaxCalls(u, c)
  {
    var b := BaseMaxCalls(u, c) as real;
    if 0.0 <= u.fte <= 1.0 && 0.0 <= b {
      var x := b * u.fte;
      assert 0.0 <= x by {
        assert b * u.fte >= b * 0.0;
      }
      assert x <= b by {
        assert b * u.fte <= b * 1.0;
      }
      assert Trunc(x) as real <= x;
    }
  }

  // ---------------------------------------------------------------------------
  // Sorting the call dates (Python's `sorted`)

  predicate Sorted(s: seq<int>) {
    forall i, j :: 0 <= i < j < |s| ==> s[i] <= s[j]
  }

  /** Inserts `x` before the first element that is not smaller. */
  function Insert(x: int, s: seq<int>): seq<int> {
    if s == [] || x <= s[0] then [x] + s else [s[0]] + Insert(x, s[1..])
  }

  /** Insertion sort. */
  function SortDates(s: seq<int>): seq<int> {
    if s == [] then [] else Insert(s[0], SortDates(s[1..]))
  }

  /** Putting a lower bound in front of a sorted sequence keeps it sorted. */
  lemma PrependSorted(x: int, t: seq<int>)
    requires Sorted(t)
    requires forall v :: v in t ==> x <= v
    ensures Sorted([x] + t)
  {
    forall j | 0 <= j < |t| ensures x <= t[j] {
      assert t[j] in t;
    }
  }

  /** Inserting a date no larger than the first one puts it in front. */
  lemma InsertAtFront(x: int, s: seq<int>)
    requires Sorted(s)
    requires s == [] || x <= s[0]
    ensures Sorted(Insert(x, s))
    ensures multiset(Insert(x, s)) == multiset(s) + multiset{x}
  {
    forall v | v in s ensures x <= v {
      var k :| 0 <= k < |s| && s[k] == v;
      assert s[0] <= s[k];
    }
    PrependSorted(x, s);
  }

  /** Inserting a date larger than the first one keeps the first one in front of the rest's insertion. */
  lemma InsertBehindHead(x: int, s: seq<int>)
    requires Sorted(s)
    requires s != [] && s[0] < x
    requires Sorted(Insert(x, s[1..]))
    requires multiset(Insert(x, s[1..])) == multiset(s[1..]) + multiset{x}
    ensures Sorted(Insert(x, s))
    ensures multiset(Insert(x, s)) == multiset(s) + multiset{x}
  {
    var rest := s[1..];
    assert s == [s[0]] + rest;
    var t := Insert(x, rest);
    forall v | v in t ensures s[0] <= v {
      assert v in multiset(t);
      if v != x {
        assert v in multiset(rest);
        var k :| 0 <= k < |rest| && rest[k] == v;
        assert s[k + 1] == v;
      }
    }
    PrependSorted(s[0], t);
  }

  /** Inserting into a sorted sequence keeps it sorted and adds exactly the inserted date. */
  lemma {:induction false} InsertCorrect(x: int, s: seq<int>)
    requires Sorted(s)
    ensures Sorted(Insert(x, s))
    ensures multiset(Insert(x, s)) == multiset(s) + multiset{x}
  {
    if s == [] || x <= s[0] {
      InsertAtFront(x, s);
    } else {
      assert Sorted(s[1..]);
      InsertCorrect(x, s[1..]);
      InsertBehindHead(x, s);
    }
  }

  /** `sorted(s)` is sorted and holds the same dates, with the same multiplicities. */
  lemma {:induction false} SortDatesCorrect(s: seq<int>)
    ensures Sorted(SortDates(s))
    ensures multiset(SortDates(s)) == multiset(s)
    ensures |SortDates(s)| == |s|
  {
    if s != [] {
      SortDatesCorrect(s[1..]);
      InsertCorrect(s[0], SortDates(s[1..]));
      assert s == [s[0]] + s[1..];
    }
    assert |multiset(SortDates(s))| == |SortDates(s)|;
  }

  // ---------------------------------------------------------------------------
  // Consecutive calls

  /** Positions `i..j` of `s` hold adjacent calendar days, each one day after the one before. */
  ghost predicate IsRun(s: seq<int>, i: int, j: int) {
    0 <= i <= j < |s| && forall k :: i < k <= j ==> s[k] - s[k - 1] == 1
  }

  /** Every run of adjacent days in `s` has at most `limit` days. */
  ghost predicate RunsWithin(s: seq<int>, limit: int) {
    forall i, j :: IsRun(s, i, j) ==> j - i + 1 <= limit
  }

  /** Two equal dates next to each other never belong to one run. */
  lemma DuplicateBreaksRun(s: seq<int>, i: int, j: int, k: int)
    requires IsRun(s, i, j)
    requires i < k <= j
    ensures s[k] != s[k - 1]
  {
  }

  /** `s` contains a run of exactly `n` adjacent days. */
  ghost predicate HasRunOfLength(s: seq<int>, n: int) {
    exists i, j :: IsRun(s, i, j) && j - i + 1 == n
  }

  /** A run that cannot be extended to the left bounds the start of every run ending where it ends. */
  lemma RunStartsNoEarlier(s: seq<int>, start: int, a: int, e: int)
    requires IsRun(s, start, e) && IsRun(s, a, e)
    requires start == 0 || s[start] - s[start - 1] != 1
    ensures start <= a
  {
  }

  /**
   * `_count_consecutive_calls`: the length of the longest run of adjacent calendar days
   * in the sorted list of the existing dates plus the new one; at least 1, at most the
   * number of dates.
   */
  method CountConsecutiveCalls(existing: seq<int>, newDate: int) returns (longest: int)
    ensures 1 <= longest <= |existing| + 1
    ensures RunsWithin(SortDates(existing + [newDate]), longest)
    ensures HasRunOfLength(SortDates(existing + [newDate]), longest)
  {
    var all := SortDates(existing + [newDate]);
    SortDatesCorrect(existing + [newDate]);
    longest := LongestRun(all);
  }

  /** The counting loop of `_count_consecutive_calls`, over the sorted dates. */
  method LongestRun(all: seq<int>) returns (longest: int)
    requires all != []
    ensures 1 <= longest <= |all|
    ensures RunsWithin(all, longest)
    ensures HasRunOfLength(all, longest)
  {
    longest := 1;
    var current := 1;
    ghost var start, best, bestEnd := 0, 0, 0;
    var i := 1;
    while i < |all|
      invariant 1 <= i <= |all|
      invariant start == i - current
      invariant 1 <= current <= i && current <= longest <= i
      invariant IsRun(all, start, i - 1)
      invariant start == 0 || all[start] - all[start - 1] != 1
      invariant IsRun(all, best, bestEnd) && bestEnd - best + 1 == longest
      invariant forall a, b :: b < i && IsRun(all, a, b) ==> b - a + 1 <= longest
    {
      if all[i] - all[i - 1] == 1 {
        current := current + 1;
        if current > longest {
          longest := current;
          best, bestEnd := start, i;
        }
        forall a | IsRun(all, a, i) ensures i - a + 1 <= longest {
          RunStartsNoEarlier(all, start, a, i);
        }
      } else {
        current := 1;
        start := i;
        assert forall a :: IsRun(all, a, i) ==> a == i;
      }
      i := i + 1;
    }
  }

  // ---------------------------------------------------------------------------
  // Call frequency

  /** Why `validate_call_frequency` answers as it does. */
  datatype FrequencyReason =
    | TooManyCalls(count: int, maxCalls: int)
    | TooClose(existingDate: int, daysApart: int)
    | TooManyConsecutive(limit: int)
    | ValidFrequency

  function Abs(x: int): int { if x < 0 then -x else x }

  /** No existing date is strictly fewer than `minDays` days from the new date, in either direction. */
  predicate Spaced(existing: seq<int>, newDate: int, minDays: int) {
    forall k :: 0 <= k < |existing| ==> Abs(newDate - existing[k]) >= minDays
  }

  /**
   * `validate_call_frequency`: the checks run in order and the first that fails decides.
   * The cap on the number of calls comes first; then every existing date must be at least
   * `minDaysBetweenCalls` days away (the first offender, in list order, is reported);
   * then no run of adjacent days, counting the new one, may exceed `maxConsecutiveCalls`.
   */
  method ValidateCallFrequency(c: SchedulingConstraints, u: UserAvailability, existing: seq<int>, newDate: int)
    returns (ok: bool, reason: FrequencyReason)
    ensures ok <==> reason == ValidFrequency
    ensures |existing| >= MaxCallsForPeriod(u, c) ==> reason == TooManyCalls(|existing|, MaxCallsForPeriod(u, c))
    ensures reason.TooClose? <==> |existing| < MaxCallsForPeriod(u, c) && !Spaced(existing, newDate, c.minDaysBetweenCalls)
    ensures reason.TooClose? ==>
      exists k :: 0 <= k < |existing| && existing[k] == reason.existingDate
        && reason.daysApart == Abs(newDate - existing[k]) < c.minDaysBetweenCalls
        && Spaced(existing[..k], newDate, c.minDaysBetweenCalls)
    ensures reason.TooManyConsecutive? <==>
      |existing| < MaxCallsForPeriod(u, c) && Spaced(existing, newDate, c.minDaysBetweenCalls)
        && !RunsWithin(SortDates(existing + [newDate]), c.maxConsecutiveCalls)
    ensures ok <==>
      |existing| < MaxCallsForPeriod(u, c) && Spaced(existing, newDate, c.minDaysBetweenCalls)
        && RunsWithin(SortDates(existing + [newDate]), c.maxConsecutiveCalls)
  {
    var maxCalls := MaxCallsForPeriod(u, c);
    if |existing| >= maxCalls {
      return false, TooManyCalls(|existing|, maxCalls);
    }
    var k := 0;
    while k < |existing|
      invariant 0 <= k <= |existing|
      invariant Spaced(existing[..k], newDate, c.minDaysBetweenCalls)
    {
      var daysApart := Abs(newDate - existing[k]);
      if daysApart < c.minDaysBetweenCalls {
        return false, TooClose(existing[k], daysApart);
      }
      assert existing[..k + 1] == existing[..k] + [existing[k]];
      k := k + 1;
    }
    assert existing[..k] == existing;
    var consecutive := CountConsecutiveCalls(existing, newDate);
    if consecutive > c.maxConsecutiveCalls {
      ghost var all := SortDates(existing + [newDate]);
      ghost var i, j :| IsRun(all, i, j) && j - i + 1 == consecutive;
      assert !RunsWithin(all, c.maxConsecutiveCalls);
      return false, TooManyConsecutive(c.maxConsecutiveCalls);
    }
    return true, ValidFrequency;
  }

  /** A new call exactly `minDaysBetweenCalls` days from every existing one passes the spacing check. */
  lemma ExactMinimumGapIsSpaced(existing: seq<int>, newDate: int, minDays: int)
    requires forall k :: 0 <= k < |existing| ==> existing[k] == newDate - minDays || existing[k] == newDate + minDays
    requires minDays >= 0
    ensures Spaced(existing, newDate, minDays)
  {
  }
}
