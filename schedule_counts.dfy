/**
 * The 0/1 decision variables of the optimizer and the sums it posts over them. A
 * schedule is the set of variables the solver set to 1; each sum runs over a list of
 * users, days or call types, in list order, as the source's generator expressions do.
 */
module ScheduleCounts {

  /** The variable `assignments[user][day][callType]`, set to 1. */
  datatype Assignment = Assignment(user: int, day: int, callType: string)

  type Schedule = set<Assignment>

  /** The value of one variable. */
  function Bit(s: Schedule, u: int, d: int, ct: string): nat {
    if Assignment(u, d, ct) in s then 1 else 0
  }

  /** Sum over the call types: how many of them the user holds on that day. */
  function DayCount(s: Schedule, u: int, d: int, types: seq<string>): nat {
    if types == [] then 0
    else DayCount(s, u, d, types[..|types| - 1]) + Bit(s, u, d, types[|types| - 1])
  }

  /** Sum over days and call types: the user's number of calls. */
  function UserTotal(s: Schedule, u: int, dates: seq<int>, types: seq<string>): nat {
    if dates == [] then 0
    else UserTotal(s, u, dates[..|dates| - 1], types) + DayCount(s, u, dates[|dates| - 1], types)
  }

  /** Sum over the users: how many of them hold this call type on this day. */
  function SlotCount(s: Schedule, users: seq<int>, d: int, ct: string): nat {
    if users == [] then 0
    else SlotCount(s, users[..|users| - 1], d, ct) + Bit(s, users[|users| - 1], d, ct)
  }

  /** Sum of the slot counts of one day. */
  function DaySlots(s: Schedule, users: seq<int>, d: int, types: seq<string>): nat {
    if types == [] then 0
    else DaySlots(s, users, d, types[..|types| - 1]) + SlotCount(s, users, d, types[|types| - 1])
  }

  /** Sum of the slot counts of every day. */
  function GridSlots(s: Schedule, users: seq<int>, dates: seq<int>, types: seq<string>): nat {
    if dates == [] then 0
    else GridSlots(s, users, dates[..|dates| - 1], types) + DaySlots(s, users, dates[|dates| - 1], types)
  }

  /** Sum of the users' totals. */
  function AllTotal(s: Schedule, users: seq<int>, dates: seq<int>, types: seq<string>): nat {
    if users == [] then 0
    else AllTotal(s, users[..|users| - 1], dates, types) + UserTotal(s, users[|users| - 1], dates, types)
  }

  /** No value occurs twice. */
  predicate Distinct<T(==)>(xs: seq<T>) {
    forall i, j :: 0 <= i < j < |xs| ==> xs[i] != xs[j]
  }

  // ---------------------------------------------------------------------------
  // What the sums mean

  /** A user's day count is positive exactly when they hold one of the call types that day, and never exceeds the number of types. */
  lemma {:induction false} DayCountMeaning(s: Schedule, u: int, d: int, types: seq<string>)
    ensures DayCount(s, u, d, types) > 0 <==> exists ct :: ct in types && Assignment(u, d, ct) in s
    ensures DayCount(s, u, d, types) <= |types|
  {
    if types != [] {
      var n := |types| - 1;
      DayCountMeaning(s, u, d, types[..n]);
      assert types == types[..n] + [types[n]];
    }
  }

  /** A call type listed twice is counted twice: holding it makes the day count at least 2. */
  lemma {:induction false} DayCountRepeated(s: Schedule, u: int, d: int, types: seq<string>, j: int, k: int)
    requires 0 <= j < k < |types| && types[j] == types[k]
    requires Assignment(u, d, types[k]) in s
    ensures DayCount(s, u, d, types) >= 2
  {
    var n := |types| - 1;
    if k == n {
      DayCountMeaning(s, u, d, types[..n]);
      assert types[..n][j] in types[..n];
    } else {
      DayCountRepeated(s, u, d, types[..n], j, k);
    }
  }

  /**
   * With distinct call types, a day count of at most one means the user holds at most one
   * of them that day.
   */
  lemma {:induction false} DayCountAtMostOne(s: Schedule, u: int, d: int, types: seq<string>)
    requires Distinct(types)
    ensures DayCount(s, u, d, types) <= 1 <==>
      forall i, j :: 0 <= i < j < |types| ==> !(Assignment(u, d, types[i]) in s && Assignment(u, d, types[j]) in s)
  {
    if types != [] {
      var n := |types| - 1;
      var front := types[..n];
      DayCountAtMostOne(s, u, d, front);
      DayCountMeaning(s, u, d, front);
      if Assignment(u, d, types[n]) in s && DayCount(s, u, d, front) > 0 {
        var ct :| ct in front && Assignment(u, d, ct) in s;
        var i :| 0 <= i < n && front[i] == ct;
        assert Assignment(u, d, types[i]) in s && Assignment(u, d, types[n]) in s;
      }
      if DayCount(s, u, d, types) <= 1 {
        forall i, j | 0 <= i < j < |types|
          ensures !(Assignment(u, d, types[i]) in s && Assignment(u, d, types[j]) in s)
        {
          if j < n {
            assert front[i] == types[i] && front[j] == types[j];
          } else if Assignment(u, d, types[i]) in s {
            assert front[i] == types[i];
          }
        }
      }
    }
  }

  /**
   * With distinct users, a slot count of one means exactly one user holds the slot.
   */
  lemma {:induction false} SlotCountOne(s: Schedule, users: seq<int>, d: int, ct: string)
    requires Distinct(users)
    ensures SlotCount(s, users, d, ct) == 1 <==>
      exists u :: u in users && Assignment(u, d, ct) in s
        && forall v :: v in users && Assignment(v, d, ct) in s ==> v == u
  {
    SlotCountZero(s, users, d, ct);
    if users != [] {
      var n := |users| - 1;
      var front := users[..n];
      assert users == front + [users[n]];
      assert Distinct(front);
      SlotCountOne(s, front, d, ct);
      SlotCountZero(s, front, d, ct);
      assert users[n] !in front;
    }
  }

  /** A slot count is zero exactly when nobody holds the slot. */
  lemma {:induction false} SlotCountZero(s: Schedule, users: seq<int>, d: int, ct: string)
    ensures SlotCount(s, users, d, ct) == 0 <==> forall u :: u in users ==> Assignment(u, d, ct) !in s
  {
    if users != [] {
      var n := |users| - 1;
      SlotCountZero(s, users[..n], d, ct);
      assert users == users[..n] + [users[n]];
    }
  }

  /** A user's total is zero exactly when they hold no call type on any of the days. */
  lemma {:induction false} UserTotalZero(s: Schedule, u: int, dates: seq<int>, types: seq<string>)
    ensures UserTotal(s, u, dates, types) == 0 <==>
      forall d, ct :: d in dates && ct in types ==> Assignment(u, d, ct) !in s
  {
    if dates != [] {
      var n := |dates| - 1;
      UserTotalZero(s, u, dates[..n], types);
      DayCountMeaning(s, u, dates[n], types);
      assert dates == dates[..n] + [dates[n]];
    }
  }

  /** A user never takes more calls than there are slots, nor more than one per day when limited to one. */
  lemma {:induction false} UserTotalBounds(s: Schedule, u: int, dates: seq<int>, types: seq<string>)
    ensures UserTotal(s, u, dates, types) <= |dates| * |types|
    ensures (forall d :: d in dates ==> DayCount(s, u, d, types) <= 1) ==> UserTotal(s, u, dates, types) <= |dates|
  {
    if dates != [] {
      var n := |dates| - 1;
      UserTotalBounds(s, u, dates[..n], types);
      DayCountMeaning(s, u, dates[n], types);
      assert |dates| * |types| == n * |types| + |types|;
      if forall d :: d in dates ==> DayCount(s, u, d, types) <= 1 {
        assert forall d :: d in dates[..n] ==> d in dates;
      }
    }
  }

  // ---------------------------------------------------------------------------
  // Exchanging the order of summation

  /** The slots of a day, split into the users before the last one and the last one's calls. */
  lemma {:induction false} DaySlotsLastUser(s: Schedule, users: seq<int>, d: int, types: seq<string>)
    requires users != []
    ensures DaySlots(s, users, d, types) ==
      DaySlots(s, users[..|users| - 1], d, types) + DayCount(s, users[|users| - 1], d, types)
  {
    if types != [] {
      DaySlotsLastUser(s, users, d, types[..|types| - 1]);
    }
  }

  /** The slots of every day, split the same way. */
  lemma {:induction false} GridSlotsLastUser(s: Schedule, users: seq<int>, dates: seq<int>, types: seq<string>)
    requires users != []
    ensures GridSlots(s, users, dates, types) ==
      GridSlots(s, users[..|users| - 1], dates, types) + UserTotal(s, users[|users| - 1], dates, types)
  {
    if dates != [] {
      GridSlotsLastUser(s, users, dates[..|dates| - 1], types);
      DaySlotsLastUser(s, users, dates[|dates| - 1], types);
    }
  }

  /** Summing the users' totals counts every slot once: the two orders of summation agree. */
  lemma {:induction false} AllTotalIsGridSlots(s: Schedule, users: seq<int>, dates: seq<int>, types: seq<string>)
    ensures AllTotal(s, users, dates, types) == GridSlots(s, users, dates, types)
  {
    if users == [] {
      EmptyGrid(s, dates, types);
    } else {
      AllTotalIsGridSlots(s, users[..|users| - 1], dates, types);
      GridSlotsLastUser(s, users, dates, types);
    }
  }

  /** With nobody to count, every slot count is zero. */
  lemma {:induction false} EmptyGrid(s: Schedule, dates: seq<int>, types: seq<string>)
    ensures GridSlots(s, [], dates, types) == 0
  {
    if dates != [] {
      EmptyGrid(s, dates[..|dates| - 1], types);
      EmptyDay(s, dates[|dates| - 1], types);
    }
  }

  /** With nobody to count, a day has no filled slot. */
  lemma {:induction false} EmptyDay(s: Schedule, d: int, types: seq<string>)
    ensures DaySlots(s, [], d, types) == 0
  {
    if types != [] {
      EmptyDay(s, d, types[..|types| - 1]);
    }
  }

  /** When every slot of every day is filled exactly once, the grid holds one call per slot. */
  lemma {:induction false} FullGrid(s: Schedule, users: seq<int>, dates: seq<int>, types: seq<string>)
    requires forall d, ct :: d in dates && ct in types ==> SlotCount(s, users, d, ct) == 1
    ensures GridSlots(s, users, dates, types) == |dates| * |types|
  {
    if dates != [] {
      var n := |dates| - 1;
      assert forall d :: d in dates[..n] ==> d in dates;
      FullGrid(s, users, dates[..n], types);
      FullDay(s, users, dates[n], types);
      assert |dates| * |types| == n * |types| + |types|;
    }
  }

  /** When every slot of a day is filled exactly once, the day holds one call per type. */
  lemma {:induction false} FullDay(s: Schedule, users: seq<int>, d: int, types: seq<string>)
    requires forall ct :: ct in types ==> SlotCount(s, users, d, ct) == 1
    ensures DaySlots(s, users, d, types) == |types|
  {
    if types != [] {
      var n := |types| - 1;
      assert forall ct :: ct in types[..n] ==> ct in types;
      FullDay(s, users, d, types[..n]);
    }
  }
}
