/**
 * One run of `optimize_schedule`: the defaults, the early exit when there is nobody to
 * schedule, the solver as an oracle, and the extraction of the assignment records and
 * statistics from the solver's answer. The eligible users, their availability records,
 * the call-type ids and the solver's answer are inputs.
 */
module OptimizerRun {
  import opened Wrappers
  import opened Calendar
  import opened ScheduleCounts
  import opened ConstraintValidator
  import opened CallOptimizer

  /** The status codes of the CP-SAT solver. */
  datatype SolverStatus = Optimal | Feasible | Infeasible | ModelInvalid | Unknown

  /** What the solver reports: a status, the variables it set to 1, and the wall time it took. */
  datatype SolverAnswer = SolverAnswer(status: SolverStatus, schedule: Schedule, wallTime: real)

  /** One extracted assignment (the user's display name is not modelled). */
  datatype AssignmentRecord = AssignmentRecord(date: int, userId: int, callType: string, callTypeId: int, weekday: DayName)

  /** The statistics of a successful run. */
  datatype Statistics = Statistics(
    totalAssignments: int,
    assignmentsPerUser: map<int, nat>,
    dateRangeDays: int,
    callTypesScheduled: seq<string>,
    fairnessScore: Option<int>,
    solveStatus: SolverStatus)

  /** Why a run failed. */
  datatype Violation = NoEligibleUsers | OptimizationFailed(status: SolverStatus)

  /** `ScheduleResult`; empty statistics are `None`. */
  datatype ScheduleResult = ScheduleResult(
    success: bool,
    assignments: seq<AssignmentRecord>,
    statistics: Option<Statistics>,
    violations: seq<Violation>,
    solveTimeSeconds: real)

  /** The call types scheduled when the caller names none. */
  function DefaultCallTypes(): seq<string> {
    ["CMCG", "CMCO", "LPG", "LPO", "MCKC_N"]
  }

  /** The call types of a run: the caller's list, or the defaults when none is given (an empty list stays empty). */
  function CallTypesOf(callTypes: Option<seq<string>>): (types: seq<string>)
    ensures callTypes.Some? ==> types == callTypes.value
    ensures callTypes.None? ==> types == DefaultCallTypes()
  {
    callTypes.GetOr(DefaultCallTypes())
  }

  /** The constraints of a run: the caller's, or the defaults when none are given. */
  function ConstraintsOf(constraints: Option<SchedulingConstraints>): (c: SchedulingConstraints)
    ensures constraints.None? ==> c == DefaultConstraints() && c.minDaysBetweenCalls == 2
    ensures constraints.Some? ==> c == constraints.value
  {
    constraints.GetOr(DefaultConstraints())
  }

  /** The solver found a schedule. */
  predicate Solved(status: SolverStatus) {
    status == Optimal || status == Feasible
  }

  /**
   * What is assumed of the solver: a schedule it reports satisfies every posted constraint,
   * and an optimal one has the smallest fairness penalty among all such schedules.
   */
  ghost predicate SolverContract(answer: SolverAnswer, dates: seq<int>, types: seq<string>, users: seq<int>,
                                 avail: map<int, UserAvailability>, minGap: int) {
    (Solved(answer.status) ==> Posted(answer.schedule, dates, types, users, avail, minGap))
    && (answer.status == Optimal && users != [] ==>
          forall t :: Posted(t, dates, types, users, avail, minGap) ==>
            Spread(answer.schedule, users, dates, types) <= Spread(t, users, dates, types))
  }

  // ---------------------------------------------------------------------------
  // The records, in the order of the extraction loops: user, then day, then call type

  /** The record of one assignment; an unknown call type gets id 0. */
  function Record(u: int, d: int, ct: string, callTypeIds: map<string, int>): AssignmentRecord {
    AssignmentRecord(d, u, ct, if ct in callTypeIds then callTypeIds[ct] else 0, DayNameOf(d))
  }

  function DayRecords(s: Schedule, u: int, d: int, types: seq<string>, callTypeIds: map<string, int>): seq<AssignmentRecord> {
    if types == [] then []
    else
      var ct := types[|types| - 1];
      DayRecords(s, u, d, types[..|types| - 1], callTypeIds)
        + (if Assignment(u, d, ct) in s then [Record(u, d, ct, callTypeIds)] else [])
  }

  function UserRecords(s: Schedule, u: int, dates: seq<int>, types: seq<string>, callTypeIds: map<string, int>): seq<AssignmentRecord> {
    if dates == [] then []
    else UserRecords(s, u, dates[..|dates| - 1], types, callTypeIds) + DayRecords(s, u, dates[|dates| - 1], types, callTypeIds)
  }

  function Extracted(s: Schedule, users: seq<int>, dates: seq<int>, types: seq<string>, callTypeIds: map<string, int>): seq<AssignmentRecord> {
    if users == [] then []
    else Extracted(s, users[..|users| - 1], dates, types, callTypeIds) + UserRecords(s, users[|users| - 1], dates, types, callTypeIds)
  }

  /** A day's records are the day's count, and hold exactly the user's assignments of the listed types on that day. */
  lemma {:induction false} DayRecordsMeaning(s: Schedule, u: int, d: int, types: seq<string>, callTypeIds: map<string, int>)
    ensures |DayRecords(s, u, d, types, callTypeIds)| == DayCount(s, u, d, types)
    ensures forall r :: r in DayRecords(s, u, d, types, callTypeIds) <==>
      r.callType in types && Assignment(u, d, r.callType) in s && r == Record(u, d, r.callType, callTypeIds)
  {
    if types != [] {
      var n := |types| - 1;
      DayRecordsMeaning(s, u, d, types[..n], callTypeIds);
      assert types == types[..n] + [types[n]];
    }
  }

  /** A user's records number the user's total, and hold exactly the user's assignments within the range and types. */
  lemma {:induction false} UserRecordsMeaning(s: Schedule, u: int, dates: seq<int>, types: seq<string>, callTypeIds: map<string, int>)
    ensures |UserRecords(s, u, dates, types, callTypeIds)| == UserTotal(s, u, dates, types)
    ensures forall r :: r in UserRecords(s, u, dates, types, callTypeIds) <==>
      r.date in dates && r.callType in types && Assignment(u, r.date, r.callType) in s
        && r == Record(u, r.date, r.callType, callTypeIds)
  {
    if dates != [] {
      var n := |dates| - 1;
      UserRecordsMeaning(s, u, dates[..n], types, callTypeIds);
      DayRecordsMeaning(s, u, dates[n], types, callTypeIds);
      assert dates == dates[..n] + [dates[n]];
    }
  }

  /**
   * The extracted records number the sum of the users' totals, and are exactly the records
   * of the assignments of listed users, days and call types.
   */
  lemma {:induction false} ExtractedMeaning(s: Schedule, users: seq<int>, dates: seq<int>, types: seq<string>, callTypeIds: map<string, int>)
    ensures |Extracted(s, users, dates, types, callTypeIds)| == AllTotal(s, users, dates, types)
    ensures forall r :: r in Extracted(s, users, dates, types, callTypeIds) <==>
      r.userId in users && r.date in dates && r.callType in types && Assignment(r.userId, r.date, r.callType) in s
        && r == Record(r.userId, r.date, r.callType, callTypeIds)
  {
    if users != [] {
      var n := |users| - 1;
      ExtractedMeaning(s, users[..n], dates, types, callTypeIds);
      UserRecordsMeaning(s, users[n], dates, types, callTypeIds);
      assert users == users[..n] + [users[n]];
    }
  }

  /**
   * From an accepted schedule the extraction yields one record per (day, call type) slot,
   * each on an available date of its user, with the weekday of its date.
   */
  lemma ExtractedFromPosted(s: Schedule, users: seq<int>, dates: seq<int>, types: seq<string>,
                            avail: map<int, UserAvailability>, minGap: int, callTypeIds: map<string, int>)
    requires Posted(s, dates, types, users, avail, minGap)
    ensures |Extracted(s, users, dates, types, callTypeIds)| == |dates| * |types|
    ensures forall r :: r in Extracted(s, users, dates, types, callTypeIds) ==>
      (r.userId in avail ==> IsAvailable(avail[r.userId], r.date)) && WeekdayNumber(r.weekday) == Weekday(r.date)
    ensures forall d, ct :: d in dates && ct in types ==>
      exists r :: r in Extracted(s, users, dates, types, callTypeIds) && r.date == d && r.callType == ct
  {
    ExtractedMeaning(s, users, dates, types, callTypeIds);
    PostedTotalIsSlots(s, dates, types, users, avail, minGap);
    forall d, ct | d in dates && ct in types
      ensures exists r :: r in Extracted(s, users, dates, types, callTypeIds) && r.date == d && r.callType == ct
    {
      SlotCountZero(s, users, d, ct);
      var u :| u in users && Assignment(u, d, ct) in s;
      assert Record(u, d, ct, callTypeIds) in Extracted(s, users, dates, types, callTypeIds);
    }
  }

  /** `assignments_per_user`: the users with at least one call, each with their total. */
  function PerUserTotals(s: Schedule, users: seq<int>, dates: seq<int>, types: seq<string>): (m: map<int, nat>)
    ensures forall u :: u in m <==> u in users && UserTotal(s, u, dates, types) > 0
    ensures forall u :: u in m ==> m[u] == UserTotal(s, u, dates, types)
  {
    map u | u in users && UserTotal(s, u, dates, types) > 0 :: UserTotal(s, u, dates, types)
  }

  /** Adding a user not yet counted adds their entry, when they have a call. */
  lemma PerUserTotalsAppend(s: Schedule, front: seq<int>, u: int, dates: seq<int>, types: seq<string>)
    requires u !in front
    ensures PerUserTotals(s, front + [u], dates, types) ==
      if UserTotal(s, u, dates, types) > 0 then PerUserTotals(s, front, dates, types)[u := UserTotal(s, u, dates, types)]
      else PerUserTotals(s, front, dates, types)
  {
    assert forall v :: v in front + [u] <==> v in front || v == u;
  }

  /** The per-user counts summed over the users (a user without an entry counts 0). */
  function SumOverUsers(m: map<int, nat>, users: seq<int>): nat {
    if users == [] then 0
    else
      var u := users[|users| - 1];
      SumOverUsers(m, users[..|users| - 1]) + (if u in m then m[u] else 0)
  }

  /** The per-user counts add up to the number of extracted records. */
  lemma {:induction false} PerUserTotalsSum(s: Schedule, users: seq<int>, sub: seq<int>, dates: seq<int>, types: seq<string>)
    requires forall u :: u in sub ==> u in users
    ensures SumOverUsers(PerUserTotals(s, users, dates, types), sub) == AllTotal(s, sub, dates, types)
  {
    if sub != [] {
      var n := |sub| - 1;
      assert forall u :: u in sub[..n] ==> u in sub;
      PerUserTotalsSum(s, users, sub[..n], dates, types);
      assert sub[n] in sub;
    }
  }

  // ---------------------------------------------------------------------------
  // The extraction loops

  /** The innermost extraction loop: one user, one day, every call type in order. */
  method ExtractDay(s: Schedule, u: int, d: int, types: seq<string>, callTypeIds: map<string, int>)
    returns (records: seq<AssignmentRecord>)
    ensures records == DayRecords(s, u, d, types, callTypeIds)
  {
    records := [];
    var k := 0;
    while k < |types|
      invariant 0 <= k <= |types|
      invariant records == DayRecords(s, u, d, types[..k], callTypeIds)
    {
      var ct := types[k];
      assert types[..k + 1][..k] == types[..k];
      if Assignment(u, d, ct) in s {
        records := records + [Record(u, d, ct, callTypeIds)];
      }
      k := k + 1;
    }
    assert types[..k] == types;
  }

  /** The middle extraction loop: one user, every day in order. */
  method ExtractUser(s: Schedule, u: int, dates: seq<int>, types: seq<string>, callTypeIds: map<string, int>)
    returns (records: seq<AssignmentRecord>)
    ensures records == UserRecords(s, u, dates, types, callTypeIds)
  {
    records := [];
    var k := 0;
    while k < |dates|
      invariant 0 <= k <= |dates|
      invariant records == UserRecords(s, u, dates[..k], types, callTypeIds)
    {
      var dayRecords := ExtractDay(s, u, dates[k], types, callTypeIds);
      assert dates[..k + 1][..k] == dates[..k];
      records := records + dayRecords;
      k := k + 1;
    }
    assert dates[..k] == dates;
  }

  /**
   * The extraction loops: every user in order, appending their records and counting them in
   * `assignments_per_user`, which gets an entry only for a user with at least one call.
   */
  method ExtractAssignments(s: Schedule, users: seq<int>, dates: seq<int>, types: seq<string>, callTypeIds: map<string, int>)
    returns (records: seq<AssignmentRecord>, perUser: map<int, nat>)
    requires Distinct(users)
    ensures records == Extracted(s, users, dates, types, callTypeIds)
    ensures perUser == PerUserTotals(s, users, dates, types)
  {
    records := [];
    perUser := map[];
    var k := 0;
    while k < |users|
      invariant 0 <= k <= |users|
      invariant records == Extracted(s, users[..k], dates, types, callTypeIds)
      invariant perUser == PerUserTotals(s, users[..k], dates, types)
    {
      var u := users[k];
      var userRecords := ExtractUser(s, u, dates, types, callTypeIds);
      UserRecordsMeaning(s, u, dates, types, callTypeIds);
      assert users[..k + 1] == users[..k] + [u];
      assert u !in users[..k];
      PerUserTotalsAppend(s, users[..k], u, dates, types);
      records := records + userRecords;
      if |userRecords| > 0 {
        // the user ids are distinct, so the counter starts from its default 0
        perUser := perUser[u := |userRecords|];
      }
      k := k + 1;
    }
    assert users[..k] == users;
  }

  // ---------------------------------------------------------------------------
  // The run

  /**
   * `optimize_schedule` over explicit inputs: the eligible users, their availability records,
   * the call-type ids and the solver's answer. With no eligible user the run stops before
   * building a model. Otherwise, when the solver finds a schedule, the result lists its
   * assignments (one per slot) and its statistics, with the fairness penalty reported only
   * for an optimal answer; any other status is a failure.
   */
  method OptimizeSchedule(start: int, end: int, callTypes: Option<seq<string>>, constraints: Option<SchedulingConstraints>,
                          users: seq<int>, avail: map<int, UserAvailability>, callTypeIds: map<string, int>,
                          answer: SolverAnswer)
    returns (result: ScheduleResult)
    requires Distinct(users)
    requires users != [] ==>
      SolverContract(answer, DateRange(start, end), CallTypesOf(callTypes), users, avail,
                     ConstraintsOf(constraints).minDaysBetweenCalls)
    ensures users == [] ==> result == ScheduleResult(false, [], None, [NoEligibleUsers], 0.0)
    ensures users != [] && !Solved(answer.status) ==>
      result == ScheduleResult(false, [], None, [OptimizationFailed(answer.status)], answer.wallTime)
    ensures users != [] && Solved(answer.status) ==>
      var dates := DateRange(start, end);
      var types := CallTypesOf(callTypes);
      && result.success && result.violations == [] && result.solveTimeSeconds == answer.wallTime
      && result.assignments == Extracted(answer.schedule, users, dates, types, callTypeIds)
      && |result.assignments| == |dates| * |types|
      && SumOverUsers(PerUserTotals(answer.schedule, users, dates, types), users) == |dates| * |types|
      && result.statistics == Some(Statistics(
           |dates| * |types|,
           PerUserTotals(answer.schedule, users, dates, types),
           |dates|,
           types,
           if answer.status == Optimal then Some(Spread(answer.schedule, users, dates, types)) else None,
           answer.status))
  {
    var types := CallTypesOf(callTypes);
    var c := ConstraintsOf(constraints);
    if users == [] {
      return ScheduleResult(false, [], None, [NoEligibleUsers], 0.0);
    }
    var dates := GenerateDateRange(start, end);
    if Solved(answer.status) {
      var records, perUser := ExtractAssignments(answer.schedule, users, dates, types, callTypeIds);
      ExtractedMeaning(answer.schedule, users, dates, types, callTypeIds);
      PostedTotalIsSlots(answer.schedule, dates, types, users, avail, c.minDaysBetweenCalls);
      PerUserTotalsSum(answer.schedule, users, users, dates, types);
      var fairness := if answer.status == Optimal then Some(Spread(answer.schedule, users, dates, types)) else None;
      var statistics := Statistics(|records|, perUser, |dates|, types, fairness, answer.status);
      return ScheduleResult(true, records, Some(statistics), [], answer.wallTime);
    }
    return ScheduleResult(false, [], None, [OptimizationFailed(answer.status)], answer.wallTime);
  }
}
