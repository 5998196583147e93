/**
 * The optimizer's constraint model: the inclusive date range, the constraints posted over
 * the (user, day, call type) variables, the fairness objective, and what the constraints
 * do and do not forbid. The CP-SAT search itself is not modelled; module OptimizerRun
 * treats it as an oracle whose answer satisfies `Posted`.
 */
module CallOptimizer {
  import opened Wrappers
  import opened Calendar
  import opened Text
  import opened ScheduleCounts
  import opened WeekendRules
  import opened ConstraintValidator

  // ---------------------------------------------------------------------------
  // The date range

  /** The days from `start` to `end`, both included, in calendar order. */
  function DateRange(start: int, end: int): (dates: seq<int>)
    ensures |dates| == if start <= end then end - start + 1 else 0
    ensures forall d :: d in dates <==> start <= d <= end
    ensures forall i, j :: 0 <= i <= j < |dates| ==> dates[j] - dates[i] == j - i
    ensures dates != [] ==> dates[0] == start && dates[|dates| - 1] == end
  {
    var n := if start <= end then end - start + 1 else 0;
    var dates := seq(n, k requires 0 <= k < n => start + k);
    assert forall d :: start <= d <= end ==> d in dates by {
      forall d | start <= d <= end ensures d in dates {
        assert dates[d - start] == d;
      }
    }
    dates
  }

  /** Days `j - i` apart in the list are `j - i` days apart in the calendar, so no day repeats. */
  lemma DateRangeDistinct(start: int, end: int)
    ensures Distinct(DateRange(start, end))
  {
    var dates := DateRange(start, end);
    forall i, j | 0 <= i < j < |dates| ensures dates[i] != dates[j] {
      assert dates[j] - dates[i] == j - i;
    }
  }

  /** `_generate_date_range`: starting from `start`, append each day and step to the next until past `end`. */
  method GenerateDateRange(start: int, end: int) returns (dates: seq<int>)
    ensures dates == DateRange(start, end)
  {
    dates := [];
    var current := start;
    while current <= end
      invariant start <= current && (start <= end ==> current <= end + 1)
      invariant start > end ==> current == start
      invariant dates == DateRange(start, current - 1)
      decreases end - current
    {
      assert DateRange(start, current) == DateRange(start, current - 1) + [current];
      dates := dates + [current];
      current := current + 1;
    }
    assert DateRange(start, current - 1) == DateRange(start, end);
  }

  // ---------------------------------------------------------------------------
  // The posted constraints, one predicate per constraint loop

  /** The solver only sets variables the model created: a listed user, day and call type. */
  predicate WithinModel(s: Schedule, dates: seq<int>, types: seq<string>, users: seq<int>) {
    forall a :: a in s ==> a.user in users && a.day in dates && a.callType in types
  }

  /** Constraint 1: on every day, every call type is taken by exactly one user. */
  predicate EachSlotCovered(s: Schedule, dates: seq<int>, types: seq<string>, users: seq<int>) {
    forall d, ct :: d in dates && ct in types ==> SlotCount(s, users, d, ct) == 1
  }

  /** Constraint 2: no user takes more than one call type on a day. */
  predicate OneCallPerDay(s: Schedule, dates: seq<int>, types: seq<string>, users: seq<int>) {
    forall u, d :: u in users && d in dates ==> DayCount(s, u, d, types) <= 1
  }

  /** Constraint 3: a user with an availability record takes nothing on a vacation or no-call date. */
  predicate BlockedDatesRespected(s: Schedule, dates: seq<int>, types: seq<string>, users: seq<int>,
                                  avail: map<int, UserAvailability>) {
    forall u, d, ct ::
      u in users && u in avail && d in dates && ct in types
        && (d in avail[u].vacationDates || d in avail[u].noCallDates)
      ==> Assignment(u, d, ct) !in s
  }

  /**
   * The positions the rest-gap loop links: `i` is an anchor, one of the positions of
   * `dates[:-minGap]`, and `k` is one of the `minGap` positions after it that exist.
   */
  predicate RestGapPair(n: int, minGap: int, i: int, k: int) {
    minGap > 0 && 0 <= i < n - minGap && i < k <= i + minGap && k < n
  }

  /** Constraint 4, as written: a call at an anchor excludes every call at the linked positions. */
  ghost predicate RestGapKept(s: Schedule, dates: seq<int>, types: seq<string>, users: seq<int>, minGap: int) {
    forall u, i, k, ct1, ct2 ::
      u in users && RestGapPair(|dates|, minGap, i, k) && ct1 in types && ct2 in types
      ==> !(Assignment(u, dates[i], ct1) in s && Assignment(u, dates[k], ct2) in s)
  }

  /** The implication the Friday branch posts for one user and one Friday call type, if any. */
  predicate FridayImplication(s: Schedule, dates: seq<int>, types: seq<string>, i: int, u: int, ct: string)
    requires 0 <= i < |dates| - 2
  {
    var weekend := FirstMatch(RuleTable(), ct, Friday);
    weekend.Some? && weekend.value != "" && weekend.value in types && Assignment(u, dates[i], ct) in s
    ==>
      if ContainsText(Lower(weekend.value), "saturday") then Assignment(u, dates[i + 1], weekend.value) in s
      else if ContainsText(Lower(weekend.value), "sunday") then Assignment(u, dates[i + 2], weekend.value) in s
      else true
  }

  /** The implication the Saturday branch posts for one user and one Saturday call type, if any. */
  predicate SaturdayImplication(s: Schedule, dates: seq<int>, types: seq<string>, i: int, u: int, ct: string)
    requires 0 <= i < |dates| - 1
  {
    var sunday := FirstMatch(RuleTable(), ct, Saturday);
    sunday.Some? && sunday.value != "" && sunday.value in types && Assignment(u, dates[i], ct) in s
    ==> Assignment(u, dates[i + 1], sunday.value) in s
  }

  /**
   * Constraint 5, the weekend sandwich rules: at a Friday with two more days in the range,
   * and at a Saturday with one more day in the range.
   */
  predicate WeekendRulesKept(s: Schedule, dates: seq<int>, types: seq<string>, users: seq<int>) {
    (forall i, u, ct ::
       0 <= i < |dates| - 2 && Weekday(dates[i]) == 4 && u in users && ct in types
       ==> FridayImplication(s, dates, types, i, u, ct))
    && (forall i, u, ct ::
          0 <= i < |dates| - 1 && Weekday(dates[i]) == 5 && u in users && ct in types
          ==> SaturdayImplication(s, dates, types, i, u, ct))
  }

  /**
   * The cap of constraint 6: the average number of slots per user, scaled by FTE and a 20%
   * buffer, truncated toward zero.
   */
  function FteCap(slots: int, userCount: int, fte: real): int
    requires userCount > 0
  {
    Trunc(slots as real / userCount as real * fte * (12 as real / 10 as real))
  }

  /** Constraint 6: a user with an availability record takes at most their FTE cap of calls. */
  predicate FteCapsKept(s: Schedule, dates: seq<int>, types: seq<string>, users: seq<int>,
                        avail: map<int, UserAvailability>) {
    users != [] ==>
      forall u :: u in users && u in avail ==>
        UserTotal(s, u, dates, types) <= FteCap(|types| * |dates|, |users|, avail[u].fte)
  }

  /** Every constraint the optimizer posts, with `minGap` the minimum number of days between calls. */
  ghost predicate Posted(s: Schedule, dates: seq<int>, types: seq<string>, users: seq<int>,
                   avail: map<int, UserAvailability>, minGap: int) {
    WithinModel(s, dates, types, users)
    && EachSlotCovered(s, dates, types, users)
    && OneCallPerDay(s, dates, types, users)
    && BlockedDatesRespected(s, dates, types, users, avail)
    && RestGapKept(s, dates, types, users, minGap)
    && WeekendRulesKept(s, dates, types, users)
    && FteCapsKept(s, dates, types, users, avail)
  }

  // ---------------------------------------------------------------------------
  // Coverage and one call per day

  /** In an accepted schedule every (day, call type) slot has exactly one user. */
  lemma SlotHasOneUser(s: Schedule, dates: seq<int>, types: seq<string>, users: seq<int>,
                       avail: map<int, UserAvailability>, minGap: int, d: int, ct: string)
    requires Distinct(users)
    requires Posted(s, dates, types, users, avail, minGap)
    requires d in dates && ct in types
    ensures exists u ::
      u in users && Assignment(u, d, ct) in s && forall v :: v in users && Assignment(v, d, ct) in s ==> v == u
  {
    SlotCountOne(s, users, d, ct);
  }

  /**
   * An accepted schedule over at least one day lists no call type twice: the slot of a
   * repeated type has a holder, whose day count is then 2.
   */
  lemma PostedTypesDistinct(s: Schedule, dates: seq<int>, types: seq<string>, users: seq<int>,
                            avail: map<int, UserAvailability>, minGap: int)
    requires Posted(s, dates, types, users, avail, minGap)
    requires dates != []
    ensures Distinct(types)
  {
    var d := dates[0];
    forall j, k | 0 <= j < k < |types|
      ensures types[j] != types[k]
    {
      if types[j] == types[k] {
        assert SlotCount(s, users, d, types[k]) == 1;
        SlotCountZero(s, users, d, types[k]);
        var v :| v in users && Assignment(v, d, types[k]) in s;
        DayCountRepeated(s, v, d, types, j, k);
        assert false;
      }
    }
  }

  /** In an accepted schedule no user holds two call types on one day. */
  lemma OneCallTypePerUserPerDay(s: Schedule, dates: seq<int>, types: seq<string>, users: seq<int>,
                                 avail: map<int, UserAvailability>, minGap: int, u: int, d: int, ct1: string, ct2: string)
    requires Posted(s, dates, types, users, avail, minGap)
    requires Assignment(u, d, ct1) in s && Assignment(u, d, ct2) in s
    ensures ct1 == ct2
  {
    PostedTypesDistinct(s, dates, types, users, avail, minGap);
    var i :| 0 <= i < |types| && types[i] == ct1;
    var j :| 0 <= j < |types| && types[j] == ct2;
    DayCountAtMostOne(s, u, d, types);
    assert DayCount(s, u, d, types) <= 1;
  }

  // ---------------------------------------------------------------------------
  // Availability

  /** In an accepted schedule a user with a record takes no call on a date they are unavailable. */
  lemma UnavailableDatesFree(s: Schedule, dates: seq<int>, types: seq<string>, users: seq<int>,
                             avail: map<int, UserAvailability>, minGap: int, u: int, d: int)
    requires Posted(s, dates, types, users, avail, minGap)
    requires u in avail && !IsAvailable(avail[u], d)
    ensures forall ct :: Assignment(u, d, ct) !in s
  {
  }

  /** Part-time dates play no part in constraint 3. */
  lemma BlockedDatesIgnorePartTime(s: Schedule, dates: seq<int>, types: seq<string>, users: seq<int>,
                                   avail: map<int, UserAvailability>, u: int, partTime: set<int>)
    requires u in avail
    ensures BlockedDatesRespected(s, dates, types, users, avail[u := avail[u].(partTimeDates := partTime)])
        <==> BlockedDatesRespected(s, dates, types, users, avail)
  {
    var avail' := avail[u := avail[u].(partTimeDates := partTime)];
    assert forall v :: v in avail' <==> v in avail;
    assert forall v :: v in avail ==>
      avail'[v].vacationDates == avail[v].vacationDates && avail'[v].noCallDates == avail[v].noCallDates;
  }

  /** A user's total counts only that user's calls. */
  lemma {:induction false} UserTotalOfOthers(s: Schedule, extra: Schedule, u: int, v: int, dates: seq<int>, types: seq<string>)
    requires forall a :: a in extra ==> a.user == u
    requires v != u
    ensures UserTotal(s + extra, v, dates, types) == UserTotal(s, v, dates, types)
  {
    if dates != [] {
      UserTotalOfOthers(s, extra, u, v, dates[..|dates| - 1], types);
      DayCountOfOthers(s, extra, u, v, dates[|dates| - 1], types);
    }
  }

  /** A user's day count counts only that user's calls. */
  lemma {:induction false} DayCountOfOthers(s: Schedule, extra: Schedule, u: int, v: int, d: int, types: seq<string>)
    requires forall a :: a in extra ==> a.user == u
    requires v != u
    ensures DayCount(s + extra, v, d, types) == DayCount(s, v, d, types)
  {
    if types != [] {
      DayCountOfOthers(s, extra, u, v, d, types[..|types| - 1]);
    }
  }

  /**
   * A user without an availability record is constrained by neither constraint 3 nor
   * constraint 6: giving them more calls never breaks either.
   */
  lemma UnrecordedUserUnconstrained(s: Schedule, extra: Schedule, dates: seq<int>, types: seq<string>, users: seq<int>,
                                    avail: map<int, UserAvailability>, u: int)
    requires u !in avail
    requires forall a :: a in extra ==> a.user == u
    requires BlockedDatesRespected(s, dates, types, users, avail)
    requires FteCapsKept(s, dates, types, users, avail)
    ensures BlockedDatesRespected(s + extra, dates, types, users, avail)
    ensures FteCapsKept(s + extra, dates, types, users, avail)
  {
    forall v | v in users && v in avail
      ensures UserTotal(s + extra, v, dates, types) == UserTotal(s, v, dates, types)
    {
      UserTotalOfOthers(s, extra, u, v, dates, types);
    }
  }

  // ---------------------------------------------------------------------------
  // The rest gap, as written

  /** A call at an anchor position forbids every call at the `minGap` positions after it. */
  lemma RestGapAfterAnchor(s: Schedule, dates: seq<int>, types: seq<string>, users: seq<int>,
                           avail: map<int, UserAvailability>, minGap: int, u: int, i: int, j: int, ct1: string, ct2: string)
    requires Posted(s, dates, types, users, avail, minGap)
    requires minGap > 0 && 0 <= i < |dates| - minGap && 1 <= j <= minGap
    requires Assignment(u, dates[i], ct1) in s
    ensures Assignment(u, dates[i + j], ct2) !in s
  {
    assert RestGapPair(|dates|, minGap, i, i + j);
  }

  /** With a minimum gap of zero or less the rest-gap loop posts nothing. */
  lemma RestGapOffWhenZero(s: Schedule, dates: seq<int>, types: seq<string>, users: seq<int>, minGap: int)
    requires minGap <= 0
    ensures RestGapKept(s, dates, types, users, minGap)
  {
  }

  /**
   * The last `minGap` positions are never anchors: calls confined to them satisfy the rest
   * gap however close together they are.
   */
  lemma RestGapIgnoresTail(s: Schedule, dates: seq<int>, types: seq<string>, users: seq<int>, minGap: int)
    requires Distinct(dates)
    requires forall a :: a in s ==> exists k :: 0 <= k < |dates| && |dates| - minGap <= k && a.day == dates[k]
    ensures RestGapKept(s, dates, types, users, minGap)
  {
  }

  /** The rest gap measured between every pair of calls, not only from anchors. */
  ghost predicate EveryPairRested(s: Schedule, dates: seq<int>, types: seq<string>, users: seq<int>, minGap: int) {
    forall u, i, k, ct1, ct2 ::
      u in users && 0 <= i < k < |dates| && k - i <= minGap && ct1 in types && ct2 in types
      ==> !(Assignment(u, dates[i], ct1) in s && Assignment(u, dates[k], ct2) in s)
  }

  /**
   * The anchored rest gap is strictly weaker than one measured between every pair of calls:
   * over a three-day range with a gap of two, one user may work the last two days.
   */
  lemma RestGapWeakerThanEveryPair(d0: int, u: int, ct: string)
    ensures RestGapKept({Assignment(u, d0 + 1, ct), Assignment(u, d0 + 2, ct)}, DateRange(d0, d0 + 2), [ct], [u], 2)
    ensures !EveryPairRested({Assignment(u, d0 + 1, ct), Assignment(u, d0 + 2, ct)}, DateRange(d0, d0 + 2), [ct], [u], 2)
  {
    var dates := DateRange(d0, d0 + 2);
    var s := {Assignment(u, d0 + 1, ct), Assignment(u, d0 + 2, ct)};
    DateRangeDistinct(d0, d0 + 2);
    assert dates[1] == d0 + 1 && dates[2] == d0 + 2;
    forall a | a in s ensures exists k :: 0 <= k < |dates| && |dates| - 2 <= k && a.day == dates[k] {
      if a.day == d0 + 1 {
        assert a.day == dates[1];
      } else {
        assert a.day == dates[2];
      }
    }
    RestGapIgnoresTail(s, dates, [ct], [u], 2);
    assert u in [u] && ct in [ct] && |dates| == 3;
  }

  /** Every anchored pair is a pair of positions at most `minGap` apart. */
  lemma EveryPairRestedImpliesRestGap(s: Schedule, dates: seq<int>, types: seq<string>, users: seq<int>, minGap: int)
    requires EveryPairRested(s, dates, types, users, minGap)
    ensures RestGapKept(s, dates, types, users, minGap)
  {
  }

  /**
   * The validator and the optimizer disagree at a gap of exactly `minGap`: the validator
   * accepts a call `minGap` days after an existing one, while the optimizer forbids it.
   */
  lemma ExactGapValidatorAcceptsOptimizerRejects(d0: int, minGap: int, u: int, ct: string)
    requires minGap > 0
    ensures Spaced([d0], d0 + minGap, minGap)
    ensures !RestGapKept({Assignment(u, d0, ct), Assignment(u, d0 + minGap, ct)},
                         DateRange(d0, d0 + 2 * minGap), [ct], [u], minGap)
  {
    var dates := DateRange(d0, d0 + 2 * minGap);
    var s := {Assignment(u, d0, ct), Assignment(u, d0 + minGap, ct)};
    assert dates[0] == d0 && dates[minGap] == d0 + minGap;
    assert RestGapPair(|dates|, minGap, 0, minGap);
    assert u in [u] && ct in [ct];
  }

  // ---------------------------------------------------------------------------
  // Weekend pairing

  /**
   * In an accepted schedule, a user holding a call type on a Saturday that is not the last
   * day also holds that type's Sunday result the next day, when the result is scheduled.
   */
  lemma SaturdayPairing(s: Schedule, dates: seq<int>, types: seq<string>, users: seq<int>,
                        avail: map<int, UserAvailability>, minGap: int, i: int, u: int, ct: string)
    requires Posted(s, dates, types, users, avail, minGap)
    requires 0 <= i < |dates| - 1 && Weekday(dates[i]) == 5
    requires u in users && Assignment(u, dates[i], ct) in s
    requires FirstMatch(RuleTable(), ct, Saturday).Some? && FirstMatch(RuleTable(), ct, Saturday).value in types
    ensures Assignment(u, dates[i + 1], FirstMatch(RuleTable(), ct, Saturday).value) in s
  {
    var w := FirstMatch(RuleTable(), ct, Saturday).value;
    assert ct in types;
    assert SaturdayImplication(s, dates, types, i, u, ct);
    FirstMatchIsFirstFiringRule(RuleTable(), ct, Saturday);
    var k :| 0 <= k < |RuleTable()| && Triggers(RuleTable()[k], ct, Saturday) && RuleTable()[k].resultCall == w
      && forall j :: 0 <= j < k ==> !Triggers(RuleTable()[j], ct, Saturday);
    assert w != "" by {
      assert |RuleTable()[k].resultCall| > 0 by { ResultCallsShort(); }
    }
  }

  /**
   * The Saturday rules and the rest gap clash: when a Saturday is an anchor of the rest gap
   * (not among the last `minGap` days) and a call type with a Saturday rule is scheduled
   * together with its Sunday result, whoever covers the Saturday must also work the Sunday,
   * which the rest gap forbids, so no schedule is accepted.
   */
  lemma SaturdayRuleClashesWithRestGap(s: Schedule, dates: seq<int>, types: seq<string>, users: seq<int>,
                                       avail: map<int, UserAvailability>, minGap: int, i: int, ct: string)
    requires minGap >= 1 && 0 <= i < |dates| - minGap && Weekday(dates[i]) == 5
    requires ct in types
    requires FirstMatch(RuleTable(), ct, Saturday).Some? && FirstMatch(RuleTable(), ct, Saturday).value in types
    ensures !Posted(s, dates, types, users, avail, minGap)
  {
    if Posted(s, dates, types, users, avail, minGap) {
      SlotCountZero(s, users, dates[i], ct);
      var u :| u in users && Assignment(u, dates[i], ct) in s;
      SaturdayPairing(s, dates, types, users, avail, minGap, i, u, ct);
      assert RestGapPair(|dates|, minGap, i, i + 1);
    }
  }

  /** In particular, scheduling `NE` with a rest gap of at least one day fails whenever a Saturday is an anchor. */
  lemma NeOnAnchoredSaturdayInfeasible(s: Schedule, dates: seq<int>, types: seq<string>, users: seq<int>,
                                       avail: map<int, UserAvailability>, minGap: int, i: int)
    requires minGap >= 1 && 0 <= i < |dates| - minGap && Weekday(dates[i]) == 5
    requires "NE" in types
    ensures !Posted(s, dates, types, users, avail, minGap)
  {
    SaturdayLookupNe();
    SaturdayRuleClashesWithRestGap(s, dates, types, users, avail, minGap, i, "NE");
  }

  /** Likewise for MCKT_D scheduled together with MCKG_D. */
  lemma MckOnAnchoredSaturdayInfeasible(s: Schedule, dates: seq<int>, types: seq<string>, users: seq<int>,
                                        avail: map<int, UserAvailability>, minGap: int, i: int)
    requires minGap >= 1 && 0 <= i < |dates| - minGap && Weekday(dates[i]) == 5
    requires "MCKT_D" in types && "MCKG_D" in types
    ensures !Posted(s, dates, types, users, avail, minGap)
  {
    SaturdayLookupMckt();
    SaturdayRuleClashesWithRestGap(s, dates, types, users, avail, minGap, i, "MCKT_D");
  }

  /** The shipped table: every result call is a non-empty name of at most six characters, at most five for Friday rules. */
  lemma ResultCallsShort()
    ensures forall k :: 0 <= k < |RuleTable()| ==> 0 < |RuleTable()[k].resultCall| <= 6
    ensures forall k :: 0 <= k < |RuleTable()| && RuleTable()[k].triggerDay == Friday ==> |RuleTable()[k].resultCall| <= 5
  {
  }

  /**
   * With the shipped table the Friday branch posts nothing: no Friday result call is long
   * enough to contain "saturday" or "sunday", so every schedule keeps the Friday half.
   */
  lemma FridayBranchPostsNothing(s: Schedule, dates: seq<int>, types: seq<string>, i: int, u: int, ct: string)
    requires 0 <= i < |dates| - 2
    ensures FridayImplication(s, dates, types, i, u, ct)
  {
    var weekend := FirstMatch(RuleTable(), ct, Friday);
    if weekend.Some? {
      FirstMatchIsFirstFiringRule(RuleTable(), ct, Friday);
      ResultCallsShort();
      var k :| 0 <= k < |RuleTable()| && Triggers(RuleTable()[k], ct, Friday) && RuleTable()[k].resultCall == weekend.value
        && forall j :: 0 <= j < k ==> !Triggers(RuleTable()[j], ct, Friday);
      ShortTextContainsNothing(Lower(weekend.value), "saturday");
      ShortTextContainsNothing(Lower(weekend.value), "sunday");
    }
  }

  // ---------------------------------------------------------------------------
  // The FTE cap

  /** In an accepted schedule a user with a record takes at most their FTE cap of calls. */
  lemma FteCapRespected(s: Schedule, dates: seq<int>, types: seq<string>, users: seq<int>,
                        avail: map<int, UserAvailability>, minGap: int, u: int)
    requires Posted(s, dates, types, users, avail, minGap)
    requires u in users && u in avail
    ensures UserTotal(s, u, dates, types) <= FteCap(|types| * |dates|, |users|, avail[u].fte)
  {
  }

  /** The sum of the FTE caps of the users (all of whom have a record). */
  function CapSum(users: seq<int>, avail: map<int, UserAvailability>, slots: int, userCount: int): int
    requires userCount > 0
    requires forall u :: u in users ==> u in avail
  {
    if users == [] then 0
    else
      var last := users[|users| - 1];
      assert last in users;
      assert forall u :: u in users[..|users| - 1] ==> u in users;
      CapSum(users[..|users| - 1], avail, slots, userCount) + FteCap(slots, userCount, avail[last].fte)
  }

  /** The users' totals, summed, stay within their summed caps. */
  lemma {:induction false} TotalsWithinCapSum(s: Schedule, dates: seq<int>, types: seq<string>, users: seq<int>,
                                              sub: seq<int>, avail: map<int, UserAvailability>)
    requires users != []
    requires forall u :: u in sub ==> u in users && u in avail
    requires FteCapsKept(s, dates, types, users, avail)
    ensures AllTotal(s, sub, dates, types) <= CapSum(sub, avail, |types| * |dates|, |users|)
  {
    if sub != [] {
      var n := |sub| - 1;
      assert forall u :: u in sub[..n] ==> u in sub;
      TotalsWithinCapSum(s, dates, types, users, sub[..n], avail);
      assert sub[n] in sub;
    }
  }

  /** In an accepted schedule the users' totals add up to the number of slots. */
  lemma PostedTotalIsSlots(s: Schedule, dates: seq<int>, types: seq<string>, users: seq<int>,
                           avail: map<int, UserAvailability>, minGap: int)
    requires Posted(s, dates, types, users, avail, minGap)
    ensures AllTotal(s, users, dates, types) == |dates| * |types|
  {
    AllTotalIsGridSlots(s, users, dates, types);
    FullGrid(s, users, dates, types);
  }

  /**
   * When every user has a record and their caps add up to fewer than the slots to fill,
   * no schedule satisfies the constraints: the solver can only report failure.
   */
  lemma CapsBelowSlotsInfeasible(s: Schedule, dates: seq<int>, types: seq<string>, users: seq<int>,
                                 avail: map<int, UserAvailability>, minGap: int)
    requires users != []
    requires forall u :: u in users ==> u in avail
    requires CapSum(users, avail, |types| * |dates|, |users|) < |dates| * |types|
    ensures !Posted(s, dates, types, users, avail, minGap)
  {
    if Posted(s, dates, types, users, avail, minGap) {
      PostedTotalIsSlots(s, dates, types, users, avail, minGap);
      TotalsWithinCapSum(s, dates, types, users, users, avail);
    }
  }

  /**
   * Five full-time users, one call type, three days: the average is 0.6 slots per user, so
   * every cap truncates to 0 and no schedule exists.
   */
  lemma FiveUsersThreeDaysInfeasible(s: Schedule, d0: int, ct: string, avail: map<int, UserAvailability>, minGap: int)
    requires forall u :: u in [1, 2, 3, 4, 5] ==> u in avail && avail[u].fte == 1.0
    ensures !Posted(s, DateRange(d0, d0 + 2), [ct], [1, 2, 3, 4, 5], avail, minGap)
  {
    var users := [1, 2, 3, 4, 5];
    assert FteCap(3, 5, 1.0) == 0;
    assert CapSum([1], avail, 3, 5) == 0 by {
      assert [1][..0] == [];
    }
    assert CapSum([1, 2], avail, 3, 5) == 0 by {
      assert [1, 2][..1] == [1];
    }
    assert CapSum([1, 2, 3], avail, 3, 5) == 0 by {
      assert [1, 2, 3][..2] == [1, 2];
    }
    assert CapSum([1, 2, 3, 4], avail, 3, 5) == 0 by {
      assert [1, 2, 3, 4][..3] == [1, 2, 3];
    }
    assert CapSum(users, avail, 3, 5) == 0 by {
      assert users[..4] == [1, 2, 3, 4];
    }
    CapsBelowSlotsInfeasible(s, DateRange(d0, d0 + 2), [ct], users, avail, minGap);
  }

  // ---------------------------------------------------------------------------
  // The fairness objective

  /** The largest user total, as `AddMaxEquality` defines `max_assignments`. */
  function MaxTotal(s: Schedule, users: seq<int>, dates: seq<int>, types: seq<string>): nat
    requires users != []
  {
    var t := UserTotal(s, users[|users| - 1], dates, types);
    if |users| == 1 then t
    else
      var m := MaxTotal(s, users[..|users| - 1], dates, types);
      if t > m then t else m
  }

  /** The smallest user total, as `AddMinEquality` defines `min_assignments`. */
  function MinTotal(s: Schedule, users: seq<int>, dates: seq<int>, types: seq<string>): nat
    requires users != []
  {
    var t := UserTotal(s, users[|users| - 1], dates, types);
    if |users| == 1 then t
    else
      var m := MinTotal(s, users[..|users| - 1], dates, types);
      if t < m then t else m
  }

  /** The fairness penalty: the largest user total minus the smallest. */
  function Spread(s: Schedule, users: seq<int>, dates: seq<int>, types: seq<string>): int
    requires users != []
  {
    MaxTotal(s, users, dates, types) - MinTotal(s, users, dates, types)
  }

  /** `max_assignments` is the total of some user and no user's total exceeds it. */
  lemma {:induction false} MaxTotalAttained(s: Schedule, users: seq<int>, dates: seq<int>, types: seq<string>)
    requires users != []
    ensures forall u :: u in users ==> UserTotal(s, u, dates, types) <= MaxTotal(s, users, dates, types)
    ensures exists u :: u in users && UserTotal(s, u, dates, types) == MaxTotal(s, users, dates, types)
  {
    var n := |users| - 1;
    var last := users[n];
    assert last in users;
    if n == 0 {
      forall u | u in users ensures UserTotal(s, u, dates, types) <= MaxTotal(s, users, dates, types) {
        assert u == users[0];
      }
    } else {
      var front := users[..n];
      MaxTotalAttained(s, front, dates, types);
      forall u | u in users ensures UserTotal(s, u, dates, types) <= MaxTotal(s, users, dates, types) {
        if u != last {
          var k :| 0 <= k < |users| && users[k] == u;
          assert front[k] == u;
        }
      }
      if UserTotal(s, last, dates, types) <= MaxTotal(s, front, dates, types) {
        var hi :| hi in front && UserTotal(s, hi, dates, types) == MaxTotal(s, front, dates, types);
        var k :| 0 <= k < n && front[k] == hi;
        assert users[k] == hi;
      }
    }
  }

  /** `min_assignments` is the total of some user and no user's total is below it. */
  lemma {:induction false} MinTotalAttained(s: Schedule, users: seq<int>, dates: seq<int>, types: seq<string>)
    requires users != []
    ensures forall u :: u in users ==> MinTotal(s, users, dates, types) <= UserTotal(s, u, dates, types)
    ensures exists u :: u in users && UserTotal(s, u, dates, types) == MinTotal(s, users, dates, types)
  {
    var n := |users| - 1;
    var last := users[n];
    assert last in users;
    if n == 0 {
      forall u | u in users ensures MinTotal(s, users, dates, types) <= UserTotal(s, u, dates, types) {
        assert u == users[0];
      }
    } else {
      var front := users[..n];
      MinTotalAttained(s, front, dates, types);
      forall u | u in users ensures MinTotal(s, users, dates, types) <= UserTotal(s, u, dates, types) {
        if u != last {
          var k :| 0 <= k < |users| && users[k] == u;
          assert front[k] == u;
        }
      }
      if UserTotal(s, last, dates, types) >= MinTotal(s, front, dates, types) {
        var lo :| lo in front && UserTotal(s, lo, dates, types) == MinTotal(s, front, dates, types);
        var k :| 0 <= k < n && front[k] == lo;
        assert users[k] == lo;
      }
    }
  }

  /**
   * The maximum and minimum are totals of some user and bound every user's total; the
   * penalty lies within the variables' domain `0..len(dates) * len(call_types)`, so the
   * objective's variables never exclude a schedule.
   */
  lemma FairnessBounds(s: Schedule, users: seq<int>, dates: seq<int>, types: seq<string>)
    requires users != []
    ensures forall u :: u in users ==>
      MinTotal(s, users, dates, types) <= UserTotal(s, u, dates, types) <= MaxTotal(s, users, dates, types)
    ensures exists u :: u in users && UserTotal(s, u, dates, types) == MaxTotal(s, users, dates, types)
    ensures exists u :: u in users && UserTotal(s, u, dates, types) == MinTotal(s, users, dates, types)
    ensures MaxTotal(s, users, dates, types) <= |dates| * |types|
    ensures 0 <= Spread(s, users, dates, types) <= |dates| * |types|
  {
    MaxTotalAttained(s, users, dates, types);
    MinTotalAttained(s, users, dates, types);
    var hi :| hi in users && UserTotal(s, hi, dates, types) == MaxTotal(s, users, dates, types);
    UserTotalBounds(s, hi, dates, types);
  }
}
