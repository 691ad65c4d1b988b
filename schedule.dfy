/** When `run` rebalances: on a date that is not before the next pending
    calendar date, unless the previous date rebalanced. Each rebalance
    consumes one calendar date. */
module Schedule {
  import opened Utils

  /** Whether a date rebalances, given whether the previous date did and
      how many calendar dates have been consumed. */
  predicate Fires(previous: bool, consumed: nat, date: Date, calendar: seq<Date>) {
    consumed < |calendar| && !previous && LessEq(calendar[consumed], date)
  }

  /** The rebalancing flags of the dates seen so far and the calendar
      dates they consumed. */
  datatype Plan = Plan(flags: seq<bool>, consumed: nat)

  /** The flag of the last date seen, false before the first. */
  function LastFlag(flags: seq<bool>): bool {
    |flags| > 0 && flags[|flags| - 1]
  }

  function Step(p: Plan, date: Date, calendar: seq<Date>): Plan {
    var fires := Fires(LastFlag(p.flags), p.consumed, date, calendar);
    Plan(p.flags + [fires], if fires then p.consumed + 1 else p.consumed)
  }

  /** The plan `run` follows over the panel's dates. */
  function PlanOf(dates: seq<Date>, calendar: seq<Date>): (p: Plan)
    ensures |p.flags| == |dates|
  {
    if |dates| == 0 then Plan([], 0)
    else Step(PlanOf(dates[..|dates| - 1], calendar), dates[|dates| - 1], calendar)
  }

  /** How many flags are set. */
  function Count(flags: seq<bool>): nat {
    if |flags| == 0 then 0
    else Count(flags[..|flags| - 1]) + (if flags[|flags| - 1] then 1 else 0)
  }

  /** The dates whose flag is set, in order. */
  function FlaggedDates(dates: seq<Date>, flags: seq<bool>): seq<Date>
    requires |flags| == |dates|
  {
    if |dates| == 0 then []
    else FlaggedDates(dates[..|dates| - 1], flags[..|flags| - 1])
         + (if flags[|flags| - 1] then [dates[|dates| - 1]] else [])
  }

  /** Each rebalance consumes exactly one calendar date, so no more
      rebalances happen than the calendar has dates. */
  lemma {:induction false} ConsumedCountsRebalances(dates: seq<Date>, calendar: seq<Date>)
    ensures PlanOf(dates, calendar).consumed == Count(PlanOf(dates, calendar).flags)
    ensures PlanOf(dates, calendar).consumed <= |calendar|
  {
    if |dates| > 0 {
      var n := |dates|;
      ConsumedCountsRebalances(dates[..n - 1], calendar);
      var p := PlanOf(dates[..n - 1], calendar);
      assert PlanOf(dates, calendar).flags[..n - 1] == p.flags;
    }
  }

  /** No two consecutive flags are both set. */
  predicate Spaced(flags: seq<bool>) {
    forall i :: 0 <= i < |flags| - 1 ==> !(flags[i] && flags[i + 1])
  }

  /** Two consecutive dates never both rebalance. */
  lemma {:induction false} NoBackToBack(dates: seq<Date>, calendar: seq<Date>)
    ensures Spaced(PlanOf(dates, calendar).flags)
  {
    if |dates| > 0 {
      var n := |dates|;
      NoBackToBack(dates[..n - 1], calendar);
      var p := PlanOf(dates[..n - 1], calendar);
      var f := PlanOf(dates, calendar).flags;
      assert f == p.flags + [Fires(LastFlag(p.flags), p.consumed, dates[n - 1], calendar)];
      forall i | 0 <= i < n - 1 ensures !(f[i] && f[i + 1]) {
        if i < n - 2 {
          assert f[i] == p.flags[i] && f[i + 1] == p.flags[i + 1];
        } else {
          assert f[i] == LastFlag(p.flags);
        }
      }
    }
  }

  /** Dates never pass before each other. */
  predicate Ascending(dates: seq<Date>) {
    forall i, j :: 0 <= i < j < |dates| ==> Less(dates[i], dates[j])
  }

  /** A calendar date that is due on some date is consumed on that date or
      the next one: a rebalance is delayed by at most one date. */
  lemma DueWithinTwo(dates: seq<Date>, calendar: seq<Date>, i: nat)
    requires i + 1 < |dates| && Ascending(dates)
    requires var p := PlanOf(dates[..i], calendar);
             p.consumed < |calendar| && LessEq(calendar[p.consumed], dates[i])
    ensures PlanOf(dates, calendar).flags[i] || PlanOf(dates, calendar).flags[i + 1]
  {
    var p := PlanOf(dates[..i], calendar);
    var p1 := PlanOf(dates[..i + 1], calendar);
    var p2 := PlanOf(dates[..i + 2], calendar);
    assert dates[..i + 1][..i] == dates[..i];
    assert dates[..i + 2][..i + 1] == dates[..i + 1];
    assert p1 == Step(p, dates[i], calendar);
    assert p2 == Step(p1, dates[i + 1], calendar);
    PrefixFlags(dates, calendar, i + 2);
    var f := PlanOf(dates, calendar).flags;
    assert f[i] == p2.flags[i] == p1.flags[i] && f[i + 1] == p2.flags[i + 1];
    assert Less(dates[i], dates[i + 1]);
    if !p1.flags[i] {
      assert p1.consumed == p.consumed && !LastFlag(p1.flags);
      assert LessEq(calendar[p.consumed], dates[i + 1]);
    }
  }

  /** The plan of a prefix of the dates is the prefix of the plan. */
  lemma {:induction false} PrefixFlags(dates: seq<Date>, calendar: seq<Date>, m: nat)
    requires m <= |dates|
    ensures PlanOf(dates, calendar).flags[..m] == PlanOf(dates[..m], calendar).flags
    decreases |dates| - m
  {
    if m < |dates| {
      var n := |dates|;
      PrefixFlags(dates[..n - 1], calendar, m);
      assert dates[..n - 1][..m] == dates[..m];
      assert PlanOf(dates, calendar).flags[..n - 1] == PlanOf(dates[..n - 1], calendar).flags;
    } else {
      assert dates[..m] == dates;
    }
  }

  /** The k-th rebalance happens on a date not before the k-th calendar
      date: calendar dates are consumed in order and never early. */
  lemma {:induction false} RebalanceNotEarly(dates: seq<Date>, calendar: seq<Date>)
    ensures var p := PlanOf(dates, calendar);
            var r := FlaggedDates(dates, p.flags);
            && |r| == p.consumed
            && forall k :: 0 <= k < |r| ==> k < |calendar| && LessEq(calendar[k], r[k])
  {
    if |dates| > 0 {
      var n := |dates|;
      RebalanceNotEarly(dates[..n - 1], calendar);
      var p := PlanOf(dates[..n - 1], calendar);
      var q := PlanOf(dates, calendar);
      assert q.flags[..n - 1] == p.flags;
      var r0 := FlaggedDates(dates[..n - 1], p.flags);
      assert FlaggedDates(dates, q.flags) == r0 + (if q.flags[n - 1] then [dates[n - 1]] else []);
      if q.flags[n - 1] {
        assert Fires(LastFlag(p.flags), p.consumed, dates[n - 1], calendar);
      }
    }
  }

  /** With increasing dates the rebalance dates increase too. */
  lemma {:induction false} RebalanceDatesIncrease(dates: seq<Date>, flags: seq<bool>)
    requires |flags| == |dates|
    requires Ascending(dates)
    ensures var r := FlaggedDates(dates, flags);
            && (forall x :: x in r ==> x in dates)
            && Ascending(r)
  {
    if |dates| > 0 {
      var n := |dates|;
      RebalanceDatesIncrease(dates[..n - 1], flags[..n - 1]);
      var r0 := FlaggedDates(dates[..n - 1], flags[..n - 1]);
      forall x | x in r0 ensures x in dates && Less(x, dates[n - 1]) {
        assert x in dates[..n - 1];
        var k :| 0 <= k < n - 1 && dates[k] == x;
      }
      var r := FlaggedDates(dates, flags);
      assert r == r0 + (if flags[n - 1] then [dates[n - 1]] else []);
      forall i, j | 0 <= i < j < |r| ensures Less(r[i], r[j]) {
        if j == |r0| {
          assert r[i] in r0;
        }
      }
    }
  }

  /** Extending the dates by one extends the plan by one step and the
      rebalance dates by the new date when it fires. */
  lemma PlanSnoc(dates: seq<Date>, calendar: seq<Date>, i: nat)
    requires i < |dates|
    ensures var p := PlanOf(dates[..i], calendar);
            var fires := Fires(LastFlag(p.flags), p.consumed, dates[i], calendar);
            && PlanOf(dates[..i + 1], calendar) == Step(p, dates[i], calendar)
            && FlaggedDates(dates[..i + 1], PlanOf(dates[..i + 1], calendar).flags) ==
                 FlaggedDates(dates[..i], p.flags) + (if fires then [dates[i]] else [])
  {
    var p := PlanOf(dates[..i], calendar);
    assert dates[..i + 1][..i] == dates[..i];
    assert (p.flags + [Fires(LastFlag(p.flags), p.consumed, dates[i], calendar)])[..i] == p.flags;
  }

  /** What `run` has logged after its first `n` dates: the flag of the last
      of them, the calendar dates consumed, the tracking dates and the
      rebalancing dates. */
  predicate Logged(dates: seq<Date>, calendar: seq<Date>, n: nat, previous: bool, consumed: nat,
                   tracked: seq<Date>, rebalanced: seq<Date>)
  {
    n <= |dates|
    && var p := PlanOf(dates[..n], calendar);
       && previous == LastFlag(p.flags)
       && consumed == p.consumed
       && tracked == dates[..n]
       && rebalanced == FlaggedDates(dates[..n], p.flags)
  }

  /** Nothing is logged before the first date. */
  lemma LoggedStart(dates: seq<Date>, calendar: seq<Date>)
    ensures Logged(dates, calendar, 0, false, 0, [], [])
  {
    assert dates[..0] == [];
  }

  /** The flag `Fires` decides for the next date is that date's flag in
      the plan of all the dates. */
  lemma PlanFlag(dates: seq<Date>, calendar: seq<Date>, n: nat)
    requires n < |dates|
    ensures var p := PlanOf(dates[..n], calendar);
            Fires(LastFlag(p.flags), p.consumed, dates[n], calendar) == PlanOf(dates, calendar).flags[n]
  {
    PlanSnoc(dates, calendar, n);
    PrefixFlags(dates, calendar, n + 1);
  }

  /** One more date: its flag is decided by `Fires`; it is tracked, and it
      is a rebalancing date exactly when it fires. */
  lemma LoggedStep(dates: seq<Date>, calendar: seq<Date>, n: nat, previous: bool, consumed: nat,
                   tracked: seq<Date>, rebalanced: seq<Date>)
    requires Logged(dates, calendar, n, previous, consumed, tracked, rebalanced) && n < |dates|
    ensures var fires := Fires(previous, consumed, dates[n], calendar);
            Logged(dates, calendar, n + 1, fires, if fires then consumed + 1 else consumed,
                   tracked + [dates[n]], rebalanced + (if fires then [dates[n]] else []))
  {
    PlanSnoc(dates, calendar, n);
    assert dates[..n + 1] == dates[..n] + [dates[n]];
  }
}
