/**
 * The weekend "sandwich" rules: a fixed table saying which call a physician must
 * take on Saturday or Sunday when holding a given call on the Friday or Saturday
 * before, the two lookups over it, and the after-the-fact check of one weekend
 * assignment against it.
 */
module WeekendRules {
  import opened Wrappers
  import opened Calendar

  /** Holding `triggerCall` on `triggerDay` obliges the same person to hold `resultCall` on `resultDay`. */
  datatype WeekendRule = WeekendRule(triggerCall: string, triggerDay: DayName, resultCall: string, resultDay: DayName)

  /** The shipped rule table, in the order the engine builds it. */
  function RuleTable(): seq<WeekendRule> {
    [
      // LP series
      WeekendRule("LP7", Friday, "LPG", Saturday),
      WeekendRule("LPG", Friday, "LPO", Sunday),
      WeekendRule("LPO", Friday, "LPG", Sunday),
      // MCL series
      WeekendRule("MCL7", Friday, "MCLG", Saturday),
      WeekendRule("MCLG", Friday, "MCLO", Sunday),
      WeekendRule("MCLO", Friday, "MCLG", Sunday),
      // THD series
      WeekendRule("THDN7", Friday, "THDNG", Saturday),
      WeekendRule("THDNG", Friday, "THDNO", Sunday),
      WeekendRule("THDNO", Friday, "THDNG", Sunday),
      // THR series
      WeekendRule("THRW7", Friday, "THRWG", Saturday),
      WeekendRule("THRWG", Friday, "THROB", Sunday),
      WeekendRule("THROB", Friday, "THRWG", Sunday),
      // CMC series
      WeekendRule("CMCG", Friday, "CMCO", Sunday),
      WeekendRule("CMCO", Friday, "CMCG", Sunday),
      // NE series
      WeekendRule("NE", Saturday, "NE", Sunday),
      // MCK series
      WeekendRule("MCKT_D", Saturday, "MCKG_D", Sunday),
      WeekendRule("MCKG_D", Saturday, "MCKT_D", Sunday)
    ]
  }

  /** The rule fires for this call on this day. */
  predicate Triggers(r: WeekendRule, callType: string, day: DayName) {
    r.triggerCall == callType && r.triggerDay == day
  }

  /** The result call of the first rule, in table order, that fires; `None` when none does. */
  function FirstMatch(rules: seq<WeekendRule>, callType: string, day: DayName): Option<string> {
    if rules == [] then None
    else if Triggers(rules[0], callType, day) then Some(rules[0].resultCall)
    else FirstMatch(rules[1..], callType, day)
  }

  /** The (result day, result call) pairs of every rule that fires, in table order. */
  function MatchingPairs(rules: seq<WeekendRule>, callType: string, day: DayName): seq<(DayName, string)> {
    if rules == [] then []
    else if Triggers(rules[0], callType, day) then [(rules[0].resultDay, rules[0].resultCall)] + MatchingPairs(rules[1..], callType, day)
    else MatchingPairs(rules[1..], callType, day)
  }

  /**
   * The first-match lookup finds nothing exactly when no rule fires, and otherwise
   * returns the result call of a firing rule that no earlier rule precedes.
   */
  lemma {:induction false} FirstMatchIsFirstFiringRule(rules: seq<WeekendRule>, callType: string, day: DayName)
    ensures FirstMatch(rules, callType, day).None? <==> forall i :: 0 <= i < |rules| ==> !Triggers(rules[i], callType, day)
    ensures FirstMatch(rules, callType, day).Some? ==>
      exists i :: 0 <= i < |rules| && Triggers(rules[i], callType, day)
        && rules[i].resultCall == FirstMatch(rules, callType, day).value
        && forall j :: 0 <= j < i ==> !Triggers(rules[j], callType, day)
  {
    if rules != [] && !Triggers(rules[0], callType, day) {
      FirstMatchIsFirstFiringRule(rules[1..], callType, day);
      var r := FirstMatch(rules[1..], callType, day);
      if r.Some? {
        var i :| 0 <= i < |rules[1..]| && Triggers(rules[1..][i], callType, day)
          && rules[1..][i].resultCall == r.value
          && forall j :: 0 <= j < i ==> !Triggers(rules[1..][j], callType, day);
        assert Triggers(rules[i + 1], callType, day);
        assert forall j :: 0 <= j < i + 1 ==> !Triggers(rules[j], callType, day) by {
          forall j | 0 <= j < i + 1 ensures !Triggers(rules[j], callType, day) {
            if j > 0 { assert rules[j] == rules[1..][j - 1]; }
          }
        }
      } else {
        forall i | 0 <= i < |rules| ensures !Triggers(rules[i], callType, day) {
          if i > 0 { assert rules[i] == rules[1..][i - 1]; }
        }
      }
    }
  }

  /**
   * The all-matches lookup lists one pair per firing rule and nothing else: a pair is
   * listed exactly when some firing rule produces it.
   */
  lemma {:induction false} MatchingPairsAreFiringRules(rules: seq<WeekendRule>, callType: string, day: DayName, p: (DayName, string))
    ensures p in MatchingPairs(rules, callType, day) <==>
      exists i :: 0 <= i < |rules| && Triggers(rules[i], callType, day) && p == (rules[i].resultDay, rules[i].resultCall)
  {
    if rules != [] {
      MatchingPairsAreFiringRules(rules[1..], callType, day, p);
      if exists i :: 0 <= i < |rules| && Triggers(rules[i], callType, day) && p == (rules[i].resultDay, rules[i].resultCall) {
        var i :| 0 <= i < |rules| && Triggers(rules[i], callType, day) && p == (rules[i].resultDay, rules[i].resultCall);
        if i > 0 { assert rules[i] == rules[1..][i - 1]; }
      }
      if p in MatchingPairs(rules[1..], callType, day) {
        var i :| 0 <= i < |rules[1..]| && Triggers(rules[1..][i], callType, day) && p == (rules[1..][i].resultDay, rules[1..][i].resultCall);
        assert rules[1..][i] == rules[i + 1];
      }
    }
  }

  /** The first-match lookup is empty exactly when the all-matches list is, and otherwise gives the call of its first pair. */
  lemma {:induction false} FirstMatchHeadsPairs(rules: seq<WeekendRule>, callType: string, day: DayName)
    ensures FirstMatch(rules, callType, day).None? <==> MatchingPairs(rules, callType, day) == []
    ensures FirstMatch(rules, callType, day).Some? ==>
      FirstMatch(rules, callType, day).value == MatchingPairs(rules, callType, day)[0].1
  {
    if rules != [] && !Triggers(rules[0], callType, day) {
      FirstMatchHeadsPairs(rules[1..], callType, day);
    }
  }

  /** No two rules share a (trigger call, trigger day) key. */
  predicate UniqueTriggers(rules: seq<WeekendRule>) {
    forall i, j :: 0 <= i < j < |rules| ==>
      rules[i].triggerCall != rules[j].triggerCall || rules[i].triggerDay != rules[j].triggerDay
  }

  /** With unique trigger keys, every lookup yields at most one pair. */
  lemma {:induction false} UniqueTriggersGiveAtMostOnePair(rules: seq<WeekendRule>, callType: string, day: DayName)
    requires UniqueTriggers(rules)
    ensures |MatchingPairs(rules, callType, day)| <= 1
  {
    if rules != [] {
      assert UniqueTriggers(rules[1..]) by {
        forall i, j | 0 <= i < j < |rules[1..]|
          ensures rules[1..][i].triggerCall != rules[1..][j].triggerCall || rules[1..][i].triggerDay != rules[1..][j].triggerDay
        {
          assert rules[1..][i] == rules[i + 1] && rules[1..][j] == rules[j + 1];
        }
      }
      UniqueTriggersGiveAtMostOnePair(rules[1..], callType, day);
      if Triggers(rules[0], callType, day) {
        FirstMatchHeadsPairs(rules[1..], callType, day);
        FirstMatchIsFirstFiringRule(rules[1..], callType, day);
        forall i | 0 <= i < |rules[1..]| ensures !Triggers(rules[1..][i], callType, day) {
          assert rules[1..][i] == rules[i + 1];
        }
      }
    }
  }

  /**
   * The shape of the shipped table: every rule fires on Friday or Saturday; Friday rules
   * oblige a Saturday or Sunday call, Saturday rules a Sunday call.
   */
  lemma RuleTableDays()
    ensures forall i :: 0 <= i < |RuleTable()| ==>
      (RuleTable()[i].triggerDay == Friday && (RuleTable()[i].resultDay == Saturday || RuleTable()[i].resultDay == Sunday))
      || (RuleTable()[i].triggerDay == Saturday && RuleTable()[i].resultDay == Sunday)
  {
  }

  /**
   * A number computed from a call name; two names with different fingerprints differ.
   * Fingerprints, and the positions they give, exist only to prove `RuleTableUniqueTriggers`
   * within the verifier's resource limits: comparing numbers is far cheaper than comparing
   * the 136 pairs of names.
   */
  function Fingerprint(s: string): int {
    if s == [] then 0
    else |s| * 0x100_0000 + (s[0] as int) * 0x1_0000 + (s[|s| - 1] as int) * 0x100 + (if |s| > 3 then s[3] as int else 0)
  }

  /** The position in the shipped table of the rule whose trigger call has this fingerprint. */
  function PrintPosition(fingerprint: int): int {
    match fingerprint
    case 0x3_4C_37_00 => 0 case 0x3_4C_47_00 => 1 case 0x3_4C_4F_00 => 2
    case 0x4_4D_37_37 => 3 case 0x4_4D_47_47 => 4 case 0x4_4D_4F_4F => 5
    case 0x5_54_37_4E => 6 case 0x5_54_47_4E => 7 case 0x5_54_4F_4E => 8
    case 0x5_54_37_57 => 9 case 0x5_54_47_57 => 10 case 0x5_54_42_4F => 11
    case 0x4_43_47_47 => 12 case 0x4_43_4F_4F => 13
    case 0x2_4E_45_00 => 14
    case 0x6_4D_44_54 => 15 case 0x6_4D_44_47 => 16
    case _ => -1
  }

  /** The trigger calls of the LP, MCL and THD series are told apart by their fingerprints. */
  lemma FrontTriggerPositions()
    ensures forall i :: 0 <= i < 9 ==> PrintPosition(Fingerprint(RuleTable()[i].triggerCall)) == i
  {
    var t := RuleTable();
    assert PrintPosition(Fingerprint(t[0].triggerCall)) == 0;
    assert PrintPosition(Fingerprint(t[1].triggerCall)) == 1;
    assert PrintPosition(Fingerprint(t[2].triggerCall)) == 2;
    assert PrintPosition(Fingerprint(t[3].triggerCall)) == 3;
    assert PrintPosition(Fingerprint(t[4].triggerCall)) == 4;
    assert PrintPosition(Fingerprint(t[5].triggerCall)) == 5;
    assert PrintPosition(Fingerprint(t[6].triggerCall)) == 6;
    assert PrintPosition(Fingerprint(t[7].triggerCall)) == 7;
    assert PrintPosition(Fingerprint(t[8].triggerCall)) == 8;
  }

  /** The trigger calls of the THR, CMC, NE and MCK series are told apart by their fingerprints. */
  lemma BackTriggerPositions()
    ensures forall i :: 9 <= i < 17 ==> PrintPosition(Fingerprint(RuleTable()[i].triggerCall)) == i
  {
    var t := RuleTable();
    assert PrintPosition(Fingerprint(t[9].triggerCall)) == 9;
    assert PrintPosition(Fingerprint(t[10].triggerCall)) == 10;
    assert PrintPosition(Fingerprint(t[11].triggerCall)) == 11;
    assert PrintPosition(Fingerprint(t[12].triggerCall)) == 12;
    assert PrintPosition(Fingerprint(t[13].triggerCall)) == 13;
    assert PrintPosition(Fingerprint(t[14].triggerCall)) == 14;
    assert PrintPosition(Fingerprint(t[15].triggerCall)) == 15;
    assert PrintPosition(Fingerprint(t[16].triggerCall)) == 16;
  }

  /** No (trigger call, trigger day) key repeats in the shipped table. */
  lemma RuleTableUniqueTriggers()
    ensures UniqueTriggers(RuleTable())
  {
    FrontTriggerPositions();
    BackTriggerPositions();
    var t := RuleTable();
    forall i, j | 0 <= i < j < |t|
      ensures t[i].triggerCall != t[j].triggerCall || t[i].triggerDay != t[j].triggerDay
    {
      assert PrintPosition(Fingerprint(t[i].triggerCall)) != PrintPosition(Fingerprint(t[j].triggerCall));
    }
  }

  /** Every lookup in the shipped table yields at most one pair, so both lookups agree completely. */
  lemma RuleTableLookupsAtMostOnePair(callType: string, day: DayName)
    ensures |MatchingPairs(RuleTable(), callType, day)| <= 1
    ensures FirstMatch(RuleTable(), callType, day).None? <==> MatchingPairs(RuleTable(), callType, day) == []
  {
    RuleTableUniqueTriggers();
    UniqueTriggersGiveAtMostOnePair(RuleTable(), callType, day);
    FirstMatchHeadsPairs(RuleTable(), callType, day);
  }

  /** Rules that do not fire can be skipped: the first match lies beyond them. */
  lemma {:induction false} FirstMatchSkip(rules: seq<WeekendRule>, k: int, callType: string, day: DayName)
    requires 0 <= k <= |rules|
    requires forall j :: 0 <= j < k ==> !Triggers(rules[j], callType, day)
    ensures FirstMatch(rules, callType, day) == FirstMatch(rules[k..], callType, day)
  {
    if k > 0 {
      assert !Triggers(rules[0], callType, day);
      assert forall j :: 0 <= j < k - 1 ==> rules[1..][j] == rules[j + 1];
      FirstMatchSkip(rules[1..], k - 1, callType, day);
      assert rules[1..][k - 1..] == rules[k..];
    }
  }

  /** The shipped table lists its fourteen Friday rules before its three Saturday rules. */
  lemma FridayRulesFirst()
    ensures forall j :: 0 <= j < 14 ==> RuleTable()[j].triggerDay == Friday
    ensures RuleTable()[14..] == [WeekendRule("NE", Saturday, "NE", Sunday),
                                  WeekendRule("MCKT_D", Saturday, "MCKG_D", Sunday),
                                  WeekendRule("MCKG_D", Saturday, "MCKT_D", Sunday)]
  {
  }

  /** On a Saturday, NE calls for NE on the Sunday. */
  lemma SaturdayLookupNe()
    ensures FirstMatch(RuleTable(), "NE", Saturday) == Some("NE")
  {
    FridayRulesFirst();
    FirstMatchSkip(RuleTable(), 14, "NE", Saturday);
  }

  /** On a Saturday, MCKT_D calls for MCKG_D on the Sunday. */
  lemma SaturdayLookupMckt()
    ensures FirstMatch(RuleTable(), "MCKT_D", Saturday) == Some("MCKG_D")
  {
    FridayRulesFirst();
    var tail := RuleTable()[14..];
    FirstMatchSkip(RuleTable(), 14, "MCKT_D", Saturday);
    assert !Triggers(tail[0], "MCKT_D", Saturday);
    assert FirstMatch(tail, "MCKT_D", Saturday) == FirstMatch(tail[1..], "MCKT_D", Saturday);
    assert tail[1..][0] == WeekendRule("MCKT_D", Saturday, "MCKG_D", Sunday);
  }

  /** On a Saturday, MCKG_D calls for MCKT_D on the Sunday. */
  lemma SaturdayLookupMckg()
    ensures FirstMatch(RuleTable(), "MCKG_D", Saturday) == Some("MCKT_D")
  {
    FridayRulesFirst();
    var tail := RuleTable()[14..];
    FirstMatchSkip(tail, 2, "MCKG_D", Saturday);
    FirstMatchSkip(RuleTable(), 14, "MCKG_D", Saturday);
    assert tail[2..] == [WeekendRule("MCKG_D", Saturday, "MCKT_D", Sunday)];
  }

  /** A weekend assignment that is not backed by the call that should have triggered it. */
  datatype PairingError = MissingTrigger(callType: string, day: DayName, triggerCalls: seq<string>)

  /** The rules whose result is `callType` on `day`, in table order. */
  function TriggeringRules(rules: seq<WeekendRule>, callType: string, day: DayName): (t: seq<WeekendRule>)
    ensures forall r :: r in t <==> r in rules && r.resultCall == callType && r.resultDay == day
  {
    if rules == [] then []
    else if rules[0].resultCall == callType && rules[0].resultDay == day then [rules[0]] + TriggeringRules(rules[1..], callType, day)
    else TriggeringRules(rules[1..], callType, day)
  }

  /** The trigger calls of a list of rules, in order. */
  function TriggerCalls(rules: seq<WeekendRule>): (calls: seq<string>)
    ensures |calls| == |rules|
    ensures forall i :: 0 <= i < |rules| ==> calls[i] == rules[i].triggerCall
  {
    if rules == [] then [] else [rules[0].triggerCall] + TriggerCalls(rules[1..])
  }

  /**
   * How many days before a weekend assignment (on Python weekday 5 or 6) the validator
   * looks for the trigger call: one day for a Friday trigger of a Saturday call, two for
   * a Friday trigger of a Sunday call, one for a Saturday trigger of a Sunday call, and
   * two in every other combination.
   */
  function TriggerOffset(triggerDay: DayName, weekday: int): (offset: int)
    ensures triggerDay == Friday && weekday == 5 ==> offset == -1
    ensures triggerDay == Friday && weekday == 6 ==> offset == -2
    ensures triggerDay == Saturday && weekday == 6 ==> offset == -1
    ensures offset == -1 || offset == -2
  {
    var initial := if triggerDay == Friday && weekday == 5 then -1 else -2;
    if triggerDay == Friday && weekday == 6 then -2
    else if triggerDay == Saturday && weekday == 6 then -1
    else initial
  }

  /** The user holds the rule's trigger call on the rule's trigger date, as the validator computes it. */
  predicate HoldsTrigger(assignments: map<int, map<int, string>>, date: int, userId: int, r: WeekendRule) {
    var triggerDate := date + TriggerOffset(r.triggerDay, Weekday(date));
    triggerDate in assignments && userId in assignments[triggerDate] && assignments[triggerDate][userId] == r.triggerCall
  }

  /** The day shape of one rule of the shipped table. */
  lemma TableRuleDays(r: WeekendRule)
    requires r in RuleTable()
    ensures (r.triggerDay == Friday && (r.resultDay == Saturday || r.resultDay == Sunday))
      || (r.triggerDay == Saturday && r.resultDay == Sunday)
  {
    RuleTableDays();
    var k :| 0 <= k < |RuleTable()| && RuleTable()[k] == r;
  }

  /**
   * For every rule of the shipped table, the date the validator inspects lies on the
   * rule's trigger day: stepping back by the offset from the result day lands on the
   * Friday or Saturday the rule names.
   */
  lemma TriggerDateFallsOnTriggerDay(r: WeekendRule, date: int)
    requires r in RuleTable()
    requires r.resultDay == DayNameOf(date)
    ensures Weekday(date + TriggerOffset(r.triggerDay, Weekday(date))) == WeekdayNumber(r.triggerDay)
  {
    TableRuleDays(r);
    var w := Weekday(date);
    assert w == WeekdayNumber(r.resultDay);
    PreviousWeekday(date, -TriggerOffset(r.triggerDay, w));
  }

  /** The rule engine: the rule table, built once and only read afterwards. */
  class WeekendRulesEngine {
    const rules: seq<WeekendRule>

    constructor ()
      ensures rules == RuleTable()
    {
      rules := RuleTable();
    }

    /** `get_weekend_assignment`: a linear search returning the first firing rule's result call. */
    method GetWeekendAssignment(callType: string, day: DayName) returns (result: Option<string>)
      ensures result == FirstMatch(rules, callType, day)
    {
      var i := 0;
      while i < |rules|
        invariant 0 <= i <= |rules|
        invariant FirstMatch(rules[i..], callType, day) == FirstMatch(rules, callType, day)
      {
        assert rules[i..][1..] == rules[i + 1..];
        if Triggers(rules[i], callType, day) {
          return Some(rules[i].resultCall);
        }
        i := i + 1;
      }
      return None;
    }

    /** `get_all_weekend_pairs`: accumulates the (result day, result call) pair of every firing rule. */
    method GetAllWeekendPairs(callType: string, day: DayName) returns (pairs: seq<(DayName, string)>)
      ensures pairs == MatchingPairs(rules, callType, day)
    {
      pairs := [];
      var i := 0;
      while i < |rules|
        invariant 0 <= i <= |rules|
        invariant pairs + MatchingPairs(rules[i..], callType, day) == MatchingPairs(rules, callType, day)
      {
        assert rules[i..][1..] == rules[i + 1..];
        if Triggers(rules[i], callType, day) {
          pairs := pairs + [(rules[i].resultDay, rules[i].resultCall)];
        }
        i := i + 1;
      }
    }

    /**
     * `validate_weekend_assignment`: a Saturday or Sunday assignment of `callType` to
     * `userId` is in error when some rule has it as its result and the user holds none of
     * those rules' trigger calls on the corresponding trigger date. At most one error.
     */
    method ValidateWeekendAssignment(assignments: map<int, map<int, string>>, date: int, userId: int, callType: string)
      returns (errors: seq<PairingError>)
      ensures |errors| <= 1
      ensures Weekday(date) != 5 && Weekday(date) != 6 ==> errors == []
      ensures errors == [] <==>
        Weekday(date) < 5
        || (forall r :: r in rules ==> r.resultCall != callType || r.resultDay != DayNameOf(date))
        || (exists r :: r in rules && r.resultCall == callType && r.resultDay == DayNameOf(date)
                         && HoldsTrigger(assignments, date, userId, r))
      ensures errors != [] ==>
        errors == [MissingTrigger(callType, DayNameOf(date), TriggerCalls(TriggeringRules(rules, callType, DayNameOf(date))))]
    {
      errors := [];
      var weekday := Weekday(date);
      if weekday == 5 || weekday == 6 {
        var dayName := if weekday == 5 then Saturday else Sunday;
        assert dayName == DayNameOf(date);
        var triggering := TriggeringRules(rules, callType, dayName);
        if triggering != [] {
          var found := false;
          var i := 0;
          while i < |triggering|
            invariant 0 <= i <= |triggering|
            invariant !found
            invariant forall k :: 0 <= k < i ==> !HoldsTrigger(assignments, date, userId, triggering[k])
          {
            var r := triggering[i];
            var offset := -1;
            if !(r.triggerDay == Friday && weekday == 5) {
              offset := -2;
            }
            if r.triggerDay == Friday && weekday == 6 {
              offset := -2;
            } else if r.triggerDay == Saturday && weekday == 6 {
              offset := -1;
            }
            assert offset == TriggerOffset(r.triggerDay, weekday);
            var triggerDate := date + offset;
            if triggerDate in assignments && userId in assignments[triggerDate]
               && assignments[triggerDate][userId] == r.triggerCall {
              found := true;
              break;
            }
            i := i + 1;
          }
          if !found {
            assert forall r :: r in triggering ==> !HoldsTrigger(assignments, date, userId, r);
            errors := [MissingTrigger(callType, dayName, TriggerCalls(triggering))];
          } else {
            assert HoldsTrigger(assignments, date, userId, triggering[i]);
            assert triggering[i] in rules;
          }
        } else {
          assert forall r :: r in rules ==> r.resultCall != callType || r.resultDay != DayNameOf(date) by {
            forall r | r in rules ensures r.resultCall != callType || r.resultDay != DayNameOf(date) {
              assert r !in triggering;
            }
          }
        }
      }
    }
  }
}
