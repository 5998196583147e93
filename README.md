# Call-scheduling rules, modelled in Dafny

This project models the rule layer of an anesthesia call scheduler. The scheduler assigns
duty calls (call types such as `CMCG`, `LPG`, `NE`) to physicians over a date range. It has
four parts:

- **The optimizer's constraint model** (`src/call_optimizer.py`). This covers the inclusive
  date range and the constraints posted over the (user, day, call type) booleans:
  - coverage;
  - one call per day;
  - availability;
  - the rest gap;
  - weekend pairing;
  - the FTE cap.

  It also covers the max−min fairness penalty and the extraction of assignment records and
  statistics from the solver's answer. The CP-SAT solver is an oracle. It reports a status
  and a set of true variables, and that set is assumed to satisfy `CallOptimizer.Posted`. An
  optimal answer is also assumed to minimise the spread.
- **The weekend sandwich rules engine** (`src/weekend_rules_engine.py`). This is the fixed
  table of 17 rules, the first-match and all-matches lookups, and the validator that looks
  back to the trigger date.
- **The constraint validators** (`src/constraint_validator.py`). These are:
  - the default constraint record and its group caps;
  - availability;
  - the FTE-scaled monthly cap;
  - the ordered checks of `validate_call_frequency`;
  - the longest-run counter.
- **The credential mapping** (`credential_aware_optimizer.py`). This is the group-name →
  call-type table, the union over a user's groups, and the grouping of the first twenty
  roster users by call type.

Days are integers: the proleptic Gregorian ordinal of Python's `date.toordinal()`.
`Calendar.Weekday` follows Python's numbering: 0 = Monday, 4 = Friday, 5 = Saturday,
6 = Sunday. FTE is an exact real, and Python's `int()` on a number is `Trunc`, truncation
toward zero.

Loops that compute a result in the source are `method`s with loop invariants, specified in
one of three ways:
- Proved equal to a recursive specification function, about which lemmas state the
  properties. These are `GenerateDateRange` (`DateRange`), the three extraction loops
  (`DayRecords`, `UserRecords`, `Extracted`), the two rule-engine lookups (`FirstMatch`,
  `MatchingPairs`) and the credential grouping (`Listed`).
- Proved equal to a set comprehension: `GetUserCallCredentials` (`Granted`).
- Pinned down directly by their postconditions: `ValidateWeekendAssignment`, `LongestRun`,
  `ValidateCallFrequency` and `AppendToCredentialLists`.

The loops of `call_optimizer.py` that post constraints to the solver add no state of their own
to the program. Each one is a predicate over the schedule the solver returns, and `Posted`
is their conjunction.

The rules engine is a class whose rule list is fixed at construction.

Where the system's specification and its code disagree, the model follows the code:

- **Rest gap.** The description calls the rest gap symmetric and enforced from every date. The
  code anchors only on `dates[:-min_days_between_calls]`, so calls confined to the last
  `minGap` days are never constrained (`CallOptimizer.RestGapIgnoresTail`,
  `CallOptimizer.RestGapWeakerThanEveryPair`).
- **Friday pairing.** The description makes Friday pairing a hard implication. The code posts
  it only when the result call's name contains "saturday" or "sunday". No Friday result call
  in the shipped table does, so no Friday implication is ever posted
  (`CallOptimizer.FridayBranchPostsNothing`). A Friday `CMCG` therefore does not force a
  Sunday `CMCO`.
- **Rules per trigger.** The description allows several rules per trigger. The shipped table
  has no repeated (trigger call, trigger day) key, so both lookups return at most one pair
  (`WeekendRules.RuleTableLookupsAtMostOnePair`).

## Model

| member | source | states |
|---|---|---|
| Calendar.Weekday | src/call_optimizer.py:321 | `date.weekday()` of a day ordinal lies in 0..6 |
| Calendar.DayNameOf | src/call_optimizer.py:203 | the `%A` day name of a date has that date's weekday number |
| Calendar.PreviousWeekday | src/weekend_rules_engine.py:139-145 | stepping back k days within the week lowers `weekday()` by k |
| Text.Lower | src/call_optimizer.py:339-342 | `str.lower()` on ASCII: each upper-case letter becomes its lower-case letter, and every other character is kept |
| Text.ContainsText | src/call_optimizer.py:339-342 | Python's `pattern in text`: the pattern occurs at some position of the text |
| Text.ShortTextContainsNothing | src/call_optimizer.py:339-342 | a text shorter than a pattern never contains it (Python's `in` on strings) |
| WeekendRules.WeekendRulesEngine.constructor | src/weekend_rules_engine.py:23-24 | the engine's rule list is the fixed 17-rule table, in the order written |
| WeekendRules.WeekendRulesEngine.GetWeekendAssignment | src/weekend_rules_engine.py:77-91 | the linear search returns the first-match lookup's result: the first rule firing on both trigger call and day, or None |
| WeekendRules.WeekendRulesEngine.GetAllWeekendPairs | src/weekend_rules_engine.py:93-108 | the accumulator loop returns the (result day, result call) pairs of the firing rules, in table order |
| WeekendRules.RuleTable | src/weekend_rules_engine.py:26-75 | `_initialize_rules`: the 17 rules in source order: the LP, MCL, THD, THR and CMC series on Friday, then NE and the MCK pair on Saturday |
| WeekendRules.FirstMatch | src/weekend_rules_engine.py:77-91 | specification of `get_weekend_assignment`: the result call of the first rule firing on this call and day, or None |
| WeekendRules.MatchingPairs | src/weekend_rules_engine.py:93-108 | specification of `get_all_weekend_pairs`: the (result day, result call) pairs of the firing rules, in table order |
| WeekendRules.FirstMatchIsFirstFiringRule | src/weekend_rules_engine.py:88-91 | the first match is None iff no rule fires, otherwise the result call of a firing rule with no firing rule before it |
| WeekendRules.MatchingPairsAreFiringRules | src/weekend_rules_engine.py:104-108 | a pair is listed iff some rule that fires has that result day and call |
| WeekendRules.FirstMatchHeadsPairs | src/weekend_rules_engine.py:88-108 | the first match is None iff the pair list is empty, otherwise it is the first pair's call |
| WeekendRules.FirstMatchSkip | src/weekend_rules_engine.py:88-91 | rules that do not fire can be skipped: the first match lies beyond them |
| WeekendRules.UniqueTriggersGiveAtMostOnePair | src/weekend_rules_engine.py:104-108 | a table without repeated (trigger call, trigger day) keys yields at most one pair per lookup |
| WeekendRules.RuleTableDays | src/weekend_rules_engine.py:26-75 | Friday rules result on Saturday or Sunday; Saturday rules result on Sunday only |
| WeekendRules.TableRuleDays | src/weekend_rules_engine.py:26-75 | any one rule of the shipped table fires on Friday for a Saturday or Sunday result, or on Saturday for a Sunday result |
| WeekendRules.FridayRulesFirst | src/weekend_rules_engine.py:26-75 | the fourteen Friday rules come first, followed by the NE, MCKT_D and MCKG_D Saturday rules |
| WeekendRules.SaturdayLookupNe | src/weekend_rules_engine.py:65-67 | on a Saturday, NE calls for NE on the Sunday |
| WeekendRules.SaturdayLookupMckt | src/weekend_rules_engine.py:69-72 | on a Saturday, MCKT_D calls for MCKG_D on the Sunday |
| WeekendRules.SaturdayLookupMckg | src/weekend_rules_engine.py:69-73 | on a Saturday, MCKG_D calls for MCKT_D on the Sunday |
| WeekendRules.RuleTableUniqueTriggers | src/weekend_rules_engine.py:26-75 | no (trigger call, trigger day) key repeats in the shipped table |
| WeekendRules.RuleTableLookupsAtMostOnePair | src/weekend_rules_engine.py:26-108 | every lookup in the shipped table yields at most one pair, so the two lookups agree |
| WeekendRules.TriggeringRules | src/weekend_rules_engine.py:132-133 | a rule is selected iff it is in the table with this result call and result day |
| WeekendRules.TriggerCalls | src/weekend_rules_engine.py:153 | the error's trigger-call list has one entry per triggering rule, in order |
| WeekendRules.TriggerOffset | src/weekend_rules_engine.py:139-143 | the look-back is 1 day for Friday→Saturday, 2 for Friday→Sunday, 1 for Saturday→Sunday, and always 1 or 2 |
| WeekendRules.TriggerDateFallsOnTriggerDay | src/weekend_rules_engine.py:139-145 | for every shipped rule, stepping back from its result day lands on its trigger day |
| WeekendRules.HoldsTrigger | src/weekend_rules_engine.py:139-148 | the user holds the rule's trigger call on the date found by stepping back the rule's offset |
| WeekendRules.WeekendRulesEngine.ValidateWeekendAssignment | src/weekend_rules_engine.py:110-159 | no errors on weekdays or when no rule produces this call on this day; otherwise exactly one error iff the user holds no triggering rule's call on its trigger date, listing those trigger calls |
| ConstraintValidator.NewSchedulingConstraints | src/constraint_validator.py:11-29 | fields are kept as given; a missing group map becomes the default caps, a given one is kept unchanged |
| ConstraintValidator.DefaultConstraints | src/constraint_validator.py:14-29 | defaults are 10 calls a month, 2 days apart, 2 consecutive, weight 1.5; caps Full Time 10, Part Time 6, Part Time + Self Select 6, PRN (Call Only) 12 |
| ConstraintValidator.NewUserAvailability | src/constraint_validator.py:31-53 | missing vacation, no-call and part-time sets become empty; every other field is kept |
| ConstraintValidator.IsAvailable | src/constraint_validator.py:55-58 | `is_available`: the date is neither a vacation date nor a no-call date |
| ConstraintValidator.PartTimeDatesIrrelevant | src/constraint_validator.py:55-58 | availability does not depend on part-time dates, and a part-time date that is not blocked is available |
| ConstraintValidator.ValidateUserAvailability | src/constraint_validator.py:84-90 | accepted iff available, with reason Available exactly then; a vacation date reports vacation even when also a no-call date |
| ConstraintValidator.Trunc | src/constraint_validator.py:64 | `int(x)` truncates toward zero: within one below a non-negative x, within one above a negative x |
| ConstraintValidator.BaseMaxCalls | src/constraint_validator.py:62-63 | `user_group_max_calls.get(user_group, max_calls_per_month)`: the group's cap when the group is a key, else the monthly cap |
| ConstraintValidator.MaxCallsForPeriod | src/constraint_validator.py:60-64 | `get_max_calls_for_period`: the group's cap, or the monthly cap, times FTE, truncated |
| ConstraintValidator.MaxCallsForPeriodBounds | src/constraint_validator.py:60-64 | the base is the group cap or else the monthly cap; full FTE gives the base; for a non-negative base, FTE in [0,1] gives 0..base |
| ConstraintValidator.SortDatesCorrect | src/constraint_validator.py:127 | `sorted` yields a sorted permutation of the dates |
| ConstraintValidator.SortDates | src/constraint_validator.py:127 | `sorted` on integers, as insertion sort |
| ConstraintValidator.DuplicateBreaksRun | src/constraint_validator.py:133 | two equal adjacent dates never lie in one run of consecutive days |
| ConstraintValidator.LongestRun | src/constraint_validator.py:129-139 | the counting loop returns the length of a run present in the list that no run exceeds, between 1 and the list length |
| ConstraintValidator.CountConsecutiveCalls | src/constraint_validator.py:124-139 | the longest run of adjacent days in sorted(existing + [new]), at least 1 and at most len(existing) + 1 |
| ConstraintValidator.ValidateCallFrequency | src/constraint_validator.py:92-122 | the cap check comes first; then the first existing date fewer than min days away, in either direction, is reported; then a run longer than the consecutive limit; otherwise valid, iff all three hold |
| ConstraintValidator.Spaced | src/constraint_validator.py:111-115 | the spacing loop finds nothing: every existing date is at least `min_days_between_calls` days from the new one |
| ConstraintValidator.ExactMinimumGapIsSpaced | src/constraint_validator.py:111-115 | a gap of exactly `min_days_between_calls` passes the spacing check |
| Credentials.CredentialTable | credential_aware_optimizer.py:37-46 | `credential_mapping`: the eight credential groups and the call types each grants, in source order |
| Credentials.DeclaredCallTypes | credential_aware_optimizer.py:76-84 | the 18 keys of `call_type_users` |
| Credentials.Lookup | credential_aware_optimizer.py:51-52 | a table lookup finds an entry with that exact name, and finds nothing iff no key equals the name |
| Credentials.TableGrantsDeclaredCallTypes | credential_aware_optimizer.py:37-46 | the table grants exactly the 18 call types that get a list |
| Credentials.GrantedDependsOnGroupSet | credential_aware_optimizer.py:49-54 | credentials ignore group order and duplicates and stay within the table's call types |
| Credentials.UnknownGroupAddsNothing | credential_aware_optimizer.py:50-52 | a group name that is not a key, such as a case variant, adds no credential |
| Credentials.Granted | credential_aware_optimizer.py:49-54 | the union of the table entries of the group names that are table keys |
| Credentials.CredentialsOf | credential_aware_optimizer.py:11-58 | the credentials of a lookup outcome: `Granted` of the group names on success, empty on failure or exception |
| Credentials.CredentialsAreDeclared | credential_aware_optimizer.py:11-58 | whatever the group lookup answers, the credentials are among the 18 declared call types |
| Credentials.GetUserCallCredentials | credential_aware_optimizer.py:11-58 | the union loop returns the union of the user's table entries on success, and the empty set on failure or exception |
| Credentials.Considered | credential_aware_optimizer.py:86 | exactly the first min(len(roster), 20) roster users, as a prefix of the roster |
| Credentials.ListedMembers | credential_aware_optimizer.py:99-102 | a user id is listed under a call type iff a user with that id has that credential |
| Credentials.Listed | credential_aware_optimizer.py:86-102 | specification of the grouping: in roster order, the ids of the users whose credentials include the call type |
| Credentials.AppendToCredentialLists | credential_aware_optimizer.py:100-102 | the user's id is appended to the list of each of their credentials that has a list, and every other list is unchanged |
| Credentials.ListedStep | credential_aware_optimizer.py:99-102 | appending a user's id to the lists of their credentials extends every list exactly as listing that user does |
| Credentials.ListCredentialedUsers | credential_aware_optimizer.py:86-102 | from empty lists, the loop over the considered users leaves the keys unchanged and each list holding the ids of the users with that credential, in order |
| Credentials.GetCredentialedUsersByCallType | credential_aware_optimizer.py:61-110 | every one of the 18 declared call types has a list, holding in roster order the ids of the first twenty users credentialed for it |
| Credentials.ConsideredMembers | credential_aware_optimizer.py:86-102 | an id is listed iff one of the first twenty roster users with that id holds the credential |
| Credentials.ListedOnlyDeclared | credential_aware_optimizer.py:76-102 | only declared call types ever have a listed user |
| Credentials.CredentialedUsersMembership | credential_aware_optimizer.py:76-102 | an id is listed under a type iff one of the first twenty users with that id has that credential; only declared types are non-empty |
| CallOptimizer.DateRange | src/call_optimizer.py:303-314 | the range holds exactly the days start..end, ascending and consecutive, with length end−start+1, and is empty when start > end |
| CallOptimizer.DateRangeDistinct | src/call_optimizer.py:303-314 | no day repeats in the range |
| CallOptimizer.GenerateDateRange | src/call_optimizer.py:303-314 | the while loop builds exactly the date range |
| CallOptimizer.WithinModel | src/call_optimizer.py:92-100 | the solver's true variables are among the created ones: a listed user, day and call type |
| CallOptimizer.EachSlotCovered | src/call_optimizer.py:102-108 | constraint 1: every (day, call type) slot sums to exactly one user |
| CallOptimizer.OneCallPerDay | src/call_optimizer.py:110-116 | constraint 2: every user's sum over the call types of a day is at most one |
| CallOptimizer.BlockedDatesRespected | src/call_optimizer.py:118-127 | constraint 3: a user with a record holds nothing on a vacation or no-call date |
| CallOptimizer.RestGapPair | src/call_optimizer.py:130-136 | the index pairs the rest-gap loop links: an anchor below len − minGap and the existing positions up to minGap after it |
| CallOptimizer.RestGapKept | src/call_optimizer.py:129-142 | constraint 4 as written: no user holds any call type at an anchor and any call type at a linked position |
| CallOptimizer.FridayImplication | src/call_optimizer.py:324-344 | the implication the Friday branch posts, including its test of the result call's name for "saturday" or "sunday" |
| CallOptimizer.SaturdayImplication | src/call_optimizer.py:347-359 | the implication the Saturday branch posts: holding the call on Saturday implies holding its Sunday result on the next day, when that result is scheduled |
| CallOptimizer.WeekendRulesKept | src/call_optimizer.py:316-359 | constraint 5: every posted Friday implication (Friday with two more days) and Saturday implication (Saturday with one more day) |
| CallOptimizer.FteCap | src/call_optimizer.py:370-372 | the cap int(len(types)·len(dates)/len(users)·fte·1.2) |
| CallOptimizer.FteCapsKept | src/call_optimizer.py:361-380 | constraint 6: every user with a record has at most their FTE cap of calls |
| CallOptimizer.Posted | src/call_optimizer.py:102-149 | the conjunction of the six constraint groups and the variable domain |
| CallOptimizer.SlotHasOneUser | src/call_optimizer.py:102-108 | in an accepted schedule every (day, call type) slot has exactly one user |
| CallOptimizer.PostedTypesDistinct | src/call_optimizer.py:102-116 | an accepted schedule over at least one day lists no call type twice, since the covered slot of a repeated type would give its holder a day sum of 2 |
| CallOptimizer.OneCallTypePerUserPerDay | src/call_optimizer.py:110-116 | in an accepted schedule no user holds two call types on one day |
| CallOptimizer.UnavailableDatesFree | src/call_optimizer.py:118-127 | a user with a record gets no call on any vacation or no-call date |
| CallOptimizer.BlockedDatesIgnorePartTime | src/call_optimizer.py:118-127 | the availability constraint does not depend on part-time dates |
| CallOptimizer.UnrecordedUserUnconstrained | src/call_optimizer.py:119-121 | a user without a record is constrained by neither the availability constraint nor the FTE cap |
| CallOptimizer.RestGapAfterAnchor | src/call_optimizer.py:129-142 | a call at an anchor index i < len − minGap forbids any call at positions i+1..i+minGap |
| CallOptimizer.RestGapOffWhenZero | src/call_optimizer.py:130 | a minimum gap of 0 posts nothing |
| CallOptimizer.RestGapIgnoresTail | src/call_optimizer.py:132 | calls confined to the last minGap positions are never constrained by the rest gap |
| CallOptimizer.RestGapWeakerThanEveryPair | src/call_optimizer.py:132-135 | over three days with a gap of 2 one user may work the last two days, which a gap between every pair of calls forbids |
| CallOptimizer.EveryPairRestedImpliesRestGap | src/call_optimizer.py:129-142 | a gap between every pair of calls implies the anchored rest gap |
| CallOptimizer.ExactGapValidatorAcceptsOptimizerRejects | src/call_optimizer.py:134 | a call exactly minGap days after another passes the validator's spacing check but violates the optimizer's rest gap |
| CallOptimizer.SaturdayPairing | src/call_optimizer.py:346-359 | on a Saturday that is not the last day, a user holding a call type also holds its Sunday result on the next day, when that type is scheduled |
| CallOptimizer.ResultCallsShort | src/weekend_rules_engine.py:26-75 | every result call in the table has 1 to 6 characters, and at most 5 for Friday rules |
| CallOptimizer.FridayBranchPostsNothing | src/call_optimizer.py:337-344 | with the shipped table the Friday branch never constrains a schedule |
| CallOptimizer.FteCapRespected | src/call_optimizer.py:361-380 | a user with a record has at most trunc(len(types)·len(dates)/len(users)·fte·1.2) calls |
| CallOptimizer.TotalsWithinCapSum | src/call_optimizer.py:366-380 | summed user totals stay within the summed caps |
| CallOptimizer.PostedTotalIsSlots | src/call_optimizer.py:102-108 | in an accepted schedule the users' totals add up to len(dates)·len(types) |
| CallOptimizer.CapsBelowSlotsInfeasible | src/call_optimizer.py:361-380 | when every user has a record and the caps add up to fewer than the slots, no schedule is accepted |
| CallOptimizer.FiveUsersThreeDaysInfeasible | src/call_optimizer.py:370-372 | five full-FTE users, one call type and three days give caps of 0, so no schedule exists |
| CallOptimizer.SaturdayRuleClashesWithRestGap | src/call_optimizer.py:129-142 | when a Saturday is a rest-gap anchor, minGap ≥ 1, and a call type with a Saturday rule is scheduled with its Sunday result, no schedule satisfies the posted constraints |
| CallOptimizer.NeOnAnchoredSaturdayInfeasible | src/call_optimizer.py:346-359 | scheduling NE with a gap of at least one day is infeasible whenever a Saturday is a rest-gap anchor |
| CallOptimizer.MckOnAnchoredSaturdayInfeasible | src/call_optimizer.py:346-359 | scheduling MCKT_D with MCKG_D, with a gap of at least one day, is infeasible whenever a Saturday is a rest-gap anchor |
| CallOptimizer.MaxTotalAttained | src/call_optimizer.py:161-165 | `max_assignments` is some user's total, and no user's total exceeds it |
| CallOptimizer.MinTotalAttained | src/call_optimizer.py:162-166 | `min_assignments` is some user's total, and no user's total is below it |
| CallOptimizer.MaxTotal | src/call_optimizer.py:161-165 | `max_assignments` under `AddMaxEquality`: the largest user total |
| CallOptimizer.MinTotal | src/call_optimizer.py:162-166 | `min_assignments` under `AddMinEquality`: the smallest user total |
| CallOptimizer.Spread | src/call_optimizer.py:168-169 | `fairness_penalty`: the largest user total minus the smallest |
| CallOptimizer.FairnessBounds | src/call_optimizer.py:160-169 | the max and min are attained user totals that bound all the others; the max and max − min both lie in 0..len(dates)·len(types) |
| ScheduleCounts.DayCount | src/call_optimizer.py:110-116 | the sum of one user's variables over the call types of one day |
| ScheduleCounts.UserTotal | src/call_optimizer.py:152-158 | the sum of one user's variables over all days and call types, `total_assignments_per_user` and the sum at line 375 |
| ScheduleCounts.SlotCount | src/call_optimizer.py:102-108 | the sum over the eligible users of the variables of one day and call type |
| ScheduleCounts.DayCountMeaning | src/call_optimizer.py:113-116 | a user's day sum is positive iff they hold some listed type that day, and never exceeds the number of types |
| ScheduleCounts.DayCountAtMostOne | src/call_optimizer.py:113-116 | with distinct types, a day sum ≤ 1 iff no two listed types are both held |
| ScheduleCounts.SlotCountOne | src/call_optimizer.py:105-108 | with distinct users, a slot sum of 1 iff exactly one user holds the slot |
| ScheduleCounts.SlotCountZero | src/call_optimizer.py:105-108 | a slot sum is 0 iff nobody holds the slot |
| ScheduleCounts.UserTotalZero | src/call_optimizer.py:152-158 | a user's total is 0 iff they hold no listed type on any listed day |
| ScheduleCounts.UserTotalBounds | src/call_optimizer.py:161-162 | a user's total is at most len(dates)·len(types), and at most len(dates) under one call per day |
| ScheduleCounts.AllTotalIsGridSlots | src/call_optimizer.py:152-158 | summing per-user totals equals summing per-slot counts |
| ScheduleCounts.FullGrid | src/call_optimizer.py:102-108 | when every slot is covered once, the slot counts add up to len(dates)·len(types) |
| OptimizerRun.CallTypesOf | src/call_optimizer.py:63-64 | a missing call-type list becomes CMCG, CMCO, LPG, LPO, MCKC_N; a given one, even empty, is kept |
| OptimizerRun.ConstraintsOf | src/call_optimizer.py:67-68 | missing constraints become exactly the default record, with minimum gap 2; given ones are kept |
| OptimizerRun.SolverContract | src/call_optimizer.py:172-183 | what is assumed of the solver: a reported schedule satisfies every posted constraint, and an optimal one has the least spread |
| OptimizerRun.Record | src/call_optimizer.py:197-204 | one result record: date, user, call type, the call type's id or 0 when it has none, and the weekday name |
| OptimizerRun.Extracted | src/call_optimizer.py:187-205 | the records of the true variables, in user, date, call-type order |
| OptimizerRun.DayRecordsMeaning | src/call_optimizer.py:192-205 | one day's records number the day's sum and are exactly the user's held types that day |
| OptimizerRun.UserRecordsMeaning | src/call_optimizer.py:190-205 | one user's records number the user's total and are exactly the user's assignments in range |
| OptimizerRun.ExtractedMeaning | src/call_optimizer.py:187-205 | the records number the sum of the totals and are exactly the records of the true variables |
| OptimizerRun.ExtractedFromPosted | src/call_optimizer.py:187-209 | from an accepted schedule there are len(dates)·len(types) records and every (date, call type) slot has one, so over a date range (distinct days, as `DateRange` gives) exactly one record per slot; each is on an available date of its user, with its date's weekday |
| OptimizerRun.PerUserTotals | src/call_optimizer.py:188-205 | `assignments_per_user` has an entry exactly for the users with at least one call, and each entry is that user's number of calls |
| OptimizerRun.PerUserTotalsSum | src/call_optimizer.py:205-209 | the per-user counts add up to the number of records |
| OptimizerRun.ExtractDay | src/call_optimizer.py:192-205 | the innermost loop yields that day's records in call-type order |
| OptimizerRun.ExtractUser | src/call_optimizer.py:191-205 | the middle loop yields the user's records in date order |
| OptimizerRun.ExtractAssignments | src/call_optimizer.py:187-205 | the extraction loops yield the records in user, date, type order, and the per-user counts |
| OptimizerRun.OptimizeSchedule | src/call_optimizer.py:45-234 | described below the table |

`OptimizerRun.OptimizeSchedule` covers three cases:
- With no eligible users the run is unsuccessful: no assignments, empty statistics, the one
  violation NoEligibleUsers, and time 0.0.
- On OPTIMAL or FEASIBLE it succeeds with no violations. The total, the number of records and
  the sum of the per-user counts all equal len(dates)·len(types). The fairness score is the
  spread, and is present only when optimal.
- Any other status fails with one OptimizationFailed violation.

## Left out

- The CP-SAT search itself is an oracle: `CpModel`, `CpSolver.Solve`, the 300-second time
  limit and `StatusName`. Its answer, including the wall time, is an input.
  `OptimizerRun.SolverContract` states what is assumed of it: a reported schedule satisfies
  every posted constraint, and an optimal one minimises the spread.
- The objective's auxiliary variables (`max_assignments`, `min_assignments`,
  `fairness_penalty`) are not posted as constraints. `CallOptimizer.FairnessBounds` shows that
  their domains `0..len(dates)·len(types)` never exclude a schedule: the maximum and the
  spread both lie in that range.
- Network I/O:
  - `src/api_client.py` is not part of this model;
  - `_get_eligible_users`, `_get_call_type_mapping` and `_get_user_name` are not modelled;
  - the availability loader is not modelled either.

  The eligible users, the availability map and the call-type id map are parameters instead,
  and records carry no user name.
- The constructor wiring in `src/call_optimizer.py` (lines 33 and 78) is broken and is not
  modelled. Users, availability and constraints are passed in explicitly.
- Credential lookups: the user-groups response is an input, given as a success flag and group
  names, or an exception. Roster name fields are not modelled, and neither is the unused
  employment-group set.
- `validate_workload_fairness` is not modelled. It is float averaging and message formatting.
- Floating point:
  - FTE and the 1.2 buffer are exact rationals;
  - `int()` is exact truncation toward zero;
  - a float product just below an integer can truncate differently from the exact value.
- Dates are unbounded integer ordinals. Python's year range and the `YYYY-MM-DD` strings are
  not modelled, and a record's weekday is a day name rather than a string.
- `Text.Lower` lower-cases ASCII letters only. Python's `str.lower` also folds non-ASCII
  letters, and the shipped call-type names are ASCII.
- Messages and `print` output are not modelled. Rejection reasons and violations are tags that
  carry the values the messages interpolate.
- OptimizerRun.OptimizeSchedule: requires distinct user ids, which a roster provides. With
  repeated ids, the source's nested dictionaries would merge variables, and the model does not
  reproduce that merging.
- OptimizerRun.ExtractAssignments: requires distinct user ids, for the same reason.
- `weekend_call_weight` is carried in the constraint record but, as in the source, used
  nowhere.
- The scripts and test harnesses are not modelled: `data_analyzer.py`,
  `test_api_connection.py`, `test_import_after_init.py`, `test_optimizer` and
  `test_credential_aware_optimizer`.
