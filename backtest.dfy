/** The backtest object: its book (cash, stock entries, last known prices),
    its logs, and the date-by-date loop that rebalances or marks the book
    and records the returns. */
module Backtest {
  import opened Wrappers
  import opened Utils
  import opened Ledger
  import opened Engine
  import opened Schedule
  import Metric

  /** The look-back before the first trading date and the forward period
      after the last, in days. */
  const LookBack: int := 252
  const ForwardPeriod: int := 40

  /** The risk-free return `run` passes to the Sharpe ratio. */
  const RiskFree: real := 0.03

  /** Why `run` raises: the asset it divides by is 0 on the date with this
      index, the final Sharpe ratio rejects its input, or its Decimal
      division is undefined. */
  datatype RunError = AssetIsZero(index: nat) | MetricFailed(error: Metric.MetricError) | UndefinedRatio

  /** The return from `before` to `after`. */
  function Growth(before: real, after: real): (g: real)
    requires before != 0.0
    ensures after == before * (1.0 + g)
  {
    after / before - 1.0
  }

  /** The asset history starts at the capital, and each period return and
      accumulated return is the one the next asset gives. */
  predicate Explained(capital: real, assets: seq<real>, periodReturns: seq<real>, acReturns: seq<real>) {
    |assets| == |periodReturns| + 1 && |acReturns| == |periodReturns|
    && assets[0] == capital
    && (forall i :: 0 <= i < |periodReturns| ==>
          assets[i] != 0.0 && periodReturns[i] == Growth(assets[i], assets[i + 1]))
    && (forall i :: 0 <= i < |acReturns| ==> capital != 0.0 && acReturns[i] == Growth(capital, assets[i + 1]))
  }

  function Last(s: seq<real>): (x: real)
    requires |s| > 0
    ensures x in s
  {
    s[|s| - 1]
  }

  /** Recording one more nonzero-based return keeps the history explained. */
  lemma ExplainedSnoc(capital: real, assets: seq<real>, periodReturns: seq<real>, acReturns: seq<real>, updated: real)
    requires Explained(capital, assets, periodReturns, acReturns) && Last(assets) != 0.0
    ensures capital != 0.0
    ensures Explained(capital, assets + [updated], periodReturns + [Growth(Last(assets), updated)],
                      acReturns + [Growth(capital, updated)])
  {
    if |periodReturns| > 0 {
      assert assets[0] != 0.0;
    }
  }

  lemma NothingToExplain(capital: real)
    ensures Explained(capital, [capital], [], [])
  {
  }

  lemma EmptyBook()
    ensures BookInvariant(NoStocks, map[])
  {
  }

  function DatesOf(days: seq<Day>): (dates: seq<Date>)
    ensures |dates| == |days|
  {
    seq(|days|, i requires 0 <= i < |days| => days[i].date)
  }

  /** The part of the backtest a date changes: the cash, the stock entries,
      the last known prices and the suspension and allocation logs. */
  datatype Book = Book(cash: real, holdings: Portfolio, oldPrice: map<string, real>,
                       suspended: seq<Suspension>, allocation: seq<Allocation>)

  /** A date's book and the asset `update_period_return` computes for it. */
  datatype Dated = Dated(book: Book, asset: real)

  /** One date of the run: a rebalance (logging its allocation) or a mark
      to market (logging the suspended stocks). Marking trades nothing. */
  function DayUpdate(b: Book, day: Day, rebalancing: bool, pe: Band, dy: Band, buyFee: real, sellFee: real): (r: Dated)
    requires BookInvariant(b.holdings, b.oldPrice) && WellFormedRows(day.rows) && buyFee > -1.0
    ensures BookInvariant(r.book.holdings, r.book.oldPrice)
    ensures |r.book.allocation| == |b.allocation| + (if rebalancing then 1 else 0)
    ensures |r.book.suspended| >= |b.suspended|
    ensures !rebalancing ==> r.book.cash == b.cash && r.book.holdings == b.holdings
    ensures rebalancing ==> r.book.suspended == b.suspended
  {
    if rebalancing then
      RebalanceKeepsBook(b.cash, b.holdings, b.oldPrice, day, pe, dy, buyFee, sellFee);
      var r := Rebalance(b.cash, b.holdings, b.oldPrice, day, pe, dy, buyFee, sellFee);
      Dated(Book(r.cash, r.holdings, r.oldPrice, b.suspended, b.allocation + [r.allocation]), r.newAsset)
    else
      DailyMarkKeepsBook(b.cash, b.holdings, b.oldPrice, b.suspended, day);
      MarkAllSuspensions(MarkState(b.cash, b.oldPrice, b.suspended), day, b.holdings, b.holdings.keys);
      var m := DailyMark(b.cash, b.holdings, b.oldPrice, b.suspended, day);
      Dated(Book(b.cash, b.holdings, m.oldPrice, m.suspended, b.allocation), m.asset)
  }

  predicate WellFormedDays(days: seq<Day>) {
    forall i :: 0 <= i < |days| ==> WellFormedRows(days[i].rows)
  }

  /** The book after some dates and the asset of each date. */
  datatype Replayed = Replayed(book: Book, assets: seq<real>)

  /** The date loop of `run` without its stop, over the first `n` dates:
      each date rebalances when its flag is set and is marked otherwise,
      and yields one asset. */
  function Replay(b: Book, days: seq<Day>, flags: seq<bool>, n: nat, pe: Band, dy: Band, buyFee: real, sellFee: real): (r: Replayed)
    requires BookInvariant(b.holdings, b.oldPrice) && WellFormedDays(days) && buyFee > -1.0
    requires |flags| == |days| && n <= |days|
    ensures BookInvariant(r.book.holdings, r.book.oldPrice)
    ensures |r.assets| == n
  {
    if n == 0 then Replayed(b, [])
    else
      var prev := Replay(b, days, flags, n - 1, pe, dy, buyFee, sellFee);
      var d := DayUpdate(prev.book, days[n - 1], flags[n - 1], pe, dy, buyFee, sellFee);
      Replayed(d.book, prev.assets + [d.asset])
  }

  /** Every rebalance logs one allocation: the allocation log grows by the
      number of flags set. */
  lemma {:induction false} ReplayAllocations(b: Book, days: seq<Day>, flags: seq<bool>, n: nat, pe: Band, dy: Band, buyFee: real, sellFee: real)
    requires BookInvariant(b.holdings, b.oldPrice) && WellFormedDays(days) && buyFee > -1.0
    requires |flags| == |days| && n <= |days|
    ensures |Replay(b, days, flags, n, pe, dy, buyFee, sellFee).book.allocation| == |b.allocation| + Count(flags[..n])
  {
    if n > 0 {
      ReplayAllocations(b, days, flags, n - 1, pe, dy, buyFee, sellFee);
      assert flags[..n][..n - 1] == flags[..n - 1];
    }
  }

  /** Without a rebalancing date every date is only marked: cash and stock
      entries never change and nothing is allocated. */
  lemma {:induction false} ReplayOnlyMarks(b: Book, days: seq<Day>, flags: seq<bool>, n: nat, pe: Band, dy: Band, buyFee: real, sellFee: real)
    requires BookInvariant(b.holdings, b.oldPrice) && WellFormedDays(days) && buyFee > -1.0
    requires |flags| == |days| && n <= |days|
    requires forall i :: 0 <= i < n ==> !flags[i]
    ensures var r := Replay(b, days, flags, n, pe, dy, buyFee, sellFee);
            r.book.cash == b.cash && r.book.holdings == b.holdings && r.book.allocation == b.allocation
  {
    if n > 0 {
      ReplayOnlyMarks(b, days, flags, n - 1, pe, dy, buyFee, sellFee);
    }
  }

  /** `books` holds the book before each date and after the last, and
      `trail` the asset of each date, when the dates run from the book `b`
      as their flags say. */
  predicate Follows(b: Book, days: seq<Day>, flags: seq<bool>, books: seq<Book>, trail: seq<real>,
                    pe: Band, dy: Band, buyFee: real, sellFee: real)
  {
    && |books| == |trail| + 1 && |trail| <= |days| == |flags| && books[0] == b
    && WellFormedDays(days) && buyFee > -1.0
    && forall i :: 0 <= i < |trail| ==> Stepped(books[i], days[i], flags[i], pe, dy, buyFee, sellFee, books[i + 1], trail[i])
  }

  /** The date `day` takes the book `before` to `after` and values it at `asset`. */
  predicate Stepped(before: Book, day: Day, rebalancing: bool, pe: Band, dy: Band, buyFee: real, sellFee: real,
                    after: Book, asset: real)
  {
    && BookInvariant(before.holdings, before.oldPrice) && WellFormedRows(day.rows) && buyFee > -1.0
    && DayUpdate(before, day, rebalancing, pe, dy, buyFee, sellFee) == Dated(after, asset)
  }

  /** Before any date the trail is empty. */
  lemma FollowsStart(b: Book, days: seq<Day>, flags: seq<bool>, pe: Band, dy: Band, buyFee: real, sellFee: real)
    requires BookInvariant(b.holdings, b.oldPrice) && WellFormedDays(days) && |flags| == |days| && buyFee > -1.0
    ensures Follows(b, days, flags, [b], [], pe, dy, buyFee, sellFee)
  {
  }

  /** The next date's update extends the trail. */
  lemma FollowsSnoc(b: Book, days: seq<Day>, flags: seq<bool>, books: seq<Book>, trail: seq<real>,
                    pe: Band, dy: Band, buyFee: real, sellFee: real, d: Dated)
    requires Follows(b, days, flags, books, trail, pe, dy, buyFee, sellFee) && |trail| < |days|
    requires BookInvariant(books[|trail|].holdings, books[|trail|].oldPrice)
    requires d == DayUpdate(books[|trail|], days[|trail|], flags[|trail|], pe, dy, buyFee, sellFee)
    ensures Follows(b, days, flags, books + [d.book], trail + [d.asset], pe, dy, buyFee, sellFee)
  {
    var books', trail' := books + [d.book], trail + [d.asset];
    forall i | 0 <= i < |trail'|
      ensures Stepped(books'[i], days[i], flags[i], pe, dy, buyFee, sellFee, books'[i + 1], trail'[i])
    {
      if i < |trail| {
        assert books'[i] == books[i] && books'[i + 1] == books[i + 1] && trail'[i] == trail[i];
      }
    }
  }

  /** Without its last date, a trail follows the dates before it, and the
      last date takes the book before it to the last book. */
  lemma FollowsPrefix(b: Book, days: seq<Day>, flags: seq<bool>, books: seq<Book>, trail: seq<real>,
                      pe: Band, dy: Band, buyFee: real, sellFee: real)
    requires Follows(b, days, flags, books, trail, pe, dy, buyFee, sellFee) && |trail| > 0
    ensures var n := |trail|;
            && Follows(b, days, flags, books[..n], trail[..n - 1], pe, dy, buyFee, sellFee)
            && Stepped(books[n - 1], days[n - 1], flags[n - 1], pe, dy, buyFee, sellFee, books[n], trail[n - 1])
  {
    var n := |trail|;
    var books', trail' := books[..n], trail[..n - 1];
    forall i | 0 <= i < |trail'|
      ensures Stepped(books'[i], days[i], flags[i], pe, dy, buyFee, sellFee, books'[i + 1], trail'[i])
    {
      assert Stepped(books[i], days[i], flags[i], pe, dy, buyFee, sellFee, books[i + 1], trail[i]);
    }
  }

  /** A trail is the replay of its dates. */
  lemma {:induction false} FollowsReplay(b: Book, days: seq<Day>, flags: seq<bool>, books: seq<Book>, trail: seq<real>,
                                         pe: Band, dy: Band, buyFee: real, sellFee: real)
    requires Follows(b, days, flags, books, trail, pe, dy, buyFee, sellFee) && BookInvariant(b.holdings, b.oldPrice)
    ensures Replay(b, days, flags, |trail|, pe, dy, buyFee, sellFee) == Replayed(books[|trail|], trail)
    decreases |trail|
  {
    var n := |trail|;
    if n > 0 {
      FollowsPrefix(b, days, flags, books, trail, pe, dy, buyFee, sellFee);
      FollowsReplay(b, days, flags, books[..n], trail[..n - 1], pe, dy, buyFee, sellFee);
      assert trail == trail[..n - 1] + [trail[n - 1]];
    }
  }

  /** The schedule, the trail and the book of the date loop of `run`
      after its first `n` dates: `tracked` and `rebalanced` are the dates
      it has logged, `books` and `trail` follow the dates from `start`,
      and `book` is the last of the books. */
  ghost predicate RunState(days: seq<Day>, calendar: seq<Date>, n: nat, previous: bool, consumed: nat,
                           tracked: seq<Date>, rebalanced: seq<Date>, start: Book,
                           books: seq<Book>, trail: seq<real>, pe: Band, dy: Band, buyFee: real, sellFee: real,
                           book: Book)
  {
    && |trail| == n
    && Logged(DatesOf(days), calendar, n, previous, consumed, tracked, rebalanced)
    && Follows(start, days, PlanOf(DatesOf(days), calendar).flags, books, trail, pe, dy, buyFee, sellFee)
    && book == books[n]
  }

  /** One more date: it fires as `Fires` decides, it is logged, and its
      update extends the trail. */
  lemma RunStateStep(days: seq<Day>, calendar: seq<Date>, n: nat, previous: bool, consumed: nat,
                     tracked: seq<Date>, rebalanced: seq<Date>, start: Book,
                     books: seq<Book>, trail: seq<real>, pe: Band, dy: Band, buyFee: real, sellFee: real,
                     book: Book, fires: bool, d: Dated)
    requires RunState(days, calendar, n, previous, consumed, tracked, rebalanced, start, books, trail,
                      pe, dy, buyFee, sellFee, book)
    requires n < |days| && BookInvariant(book.holdings, book.oldPrice)
    requires fires == Fires(previous, consumed, days[n].date, calendar)
    requires d == DayUpdate(book, days[n], fires, pe, dy, buyFee, sellFee)
    ensures RunState(days, calendar, n + 1, fires, if fires then consumed + 1 else consumed,
                     tracked + [days[n].date], rebalanced + (if fires then [days[n].date] else []), start,
                     books + [d.book], trail + [d.asset], pe, dy, buyFee, sellFee, d.book)
    ensures Follows(start, days, PlanOf(DatesOf(days), calendar).flags, books + [d.book], trail + [d.asset],
                    pe, dy, buyFee, sellFee)
  {
    var dates := DatesOf(days);
    assert days[n].date == dates[n];
    LoggedStep(dates, calendar, n, previous, consumed, tracked, rebalanced);
    PlanFlag(dates, calendar, n);
    FollowsSnoc(start, days, PlanOf(dates, calendar).flags, books, trail, pe, dy, buyFee, sellFee, d);
  }

  /** A log kept on top of `base` grows where the log does. */
  lemma Appended<T>(base: seq<T>, logged: seq<T>, more: seq<T>)
    ensures (base + logged) + more == base + (logged + more)
  {
  }

  /** `sharpe_ratio` on the Decimal period returns `run` passes it. numpy's
      sample variance divides a Decimal 0 by 0 for a single return, and a
      constant series makes the ratio divide by a Decimal 0; Decimal raises
      on both instead of giving NaN or infinity. */
  function DecimalSharpe(periodReturns: seq<real>, riskFree: real): (r: Result<Metric.Ratio, RunError>)
    ensures |periodReturns| == 0 ==> r == Err(MetricFailed(Metric.EmptyReturns))
    ensures r.Ok? <==> |periodReturns| >= 2 && exists i :: 0 <= i < |periodReturns| && periodReturns[i] != periodReturns[0]
    ensures r.Ok? ==> r.value.Quotient? && r.value.numerator == Metric.Mean(periodReturns) - riskFree
                      && r.value.variance > 0.0
  {
    var s := Metric.SharpeRatio(periodReturns, riskFree);
    if |periodReturns| < 2 then
      (match s
       case Err(e) => Err(MetricFailed(e))
       case Ok(_) => Err(UndefinedRatio))
    else
      Metric.SharpeZeroVariance(periodReturns, riskFree);
      if s.value.variance == 0.0 then Err(UndefinedRatio) else Ok(s.value)
  }

  class Backtesting {
    const buyFee: real
    const sellFee: real
    const capital: real
    const window: Window

    var cash: real
    var holdings: Portfolio
    var oldPrice: map<string, real>
    var suspended: seq<Suspension>
    var allocation: seq<Allocation>
    var periodReturns: seq<real>
    var acReturns: seq<real>
    var assets: seq<real>
    var rebalancingDates: seq<Date>
    var trackingDates: seq<Date>

    /** The book is a dict with a price for every held stock, and the asset
        history starts at the capital and explains both return series. */
    predicate Valid()
      reads this`holdings, this`oldPrice, this`assets, this`periodReturns, this`acReturns
    {
      buyFee > -1.0
      && BookInvariant(holdings, oldPrice)
      && Explained(capital, assets, periodReturns, acReturns)
    }

    /** A fresh backtest: all capital in cash, empty logs, the window around
        the trading dates. */
    constructor (capital: real, buyFee: real, sellFee: real, fromDay: int, toDay: int)
      requires buyFee > -1.0
      ensures Valid()
      ensures this.capital == capital && this.buyFee == buyFee && this.sellFee == sellFee
      ensures window == GetDate(fromDay, toDay, ForwardPeriod, LookBack)
      ensures cash == capital && holdings == NoStocks && oldPrice == map[]
      ensures suspended == [] && allocation == [] && periodReturns == [] && acReturns == []
      ensures assets == [capital] && rebalancingDates == [] && trackingDates == []
    {
      this.capital := capital;
      this.buyFee := buyFee;
      this.sellFee := sellFee;
      window := GetDate(fromDay, toDay, ForwardPeriod, LookBack);
      cash := capital;
      holdings := NoStocks;
      oldPrice := map[];
      suspended := [];
      allocation := [];
      periodReturns := [];
      acReturns := [];
      assets := [capital];
      rebalancingDates := [];
      trackingDates := [];
      EmptyBook();
      NothingToExplain(capital);
    }

    /** `total_asset`: the cash plus the given held rows at the previous
        close. */
    method TotalAsset(current: seq<Row>) returns (total: real)
      ensures total == cash + Valuation(current, holdings)
    {
      total := cash;
      for i := 0 to |current|
        invariant total == cash + Valuation(current[..i], holdings)
      {
        assert current[..i + 1][..i] == current[..i];
        total := total + current[i].prevClose * Qty(holdings, current[i].ticker) as real;
      }
      assert current[..|current|] == current;
    }

    /** `sell_stocks`: the sell loop, then the affordability filter. */
    method SellStocks(current: seq<Row>, targets: seq<Target>) returns (totalCash: real, stockAsset: real, orders: seq<Target>)
      requires buyFee > -1.0 && PricedTargets(targets) && DistinctTargets(targets)
      modifies this`holdings
      ensures var s := SellAll(SellState(cash, 0.0, old(holdings), targets), current, sellFee);
              && PricedTargets(s.targets)
              && totalCash == s.cash && stockAsset == s.stockAsset && holdings == s.holdings
              && orders == Affordable(s.targets, s.cash, buyFee)
    {
      var ts;
      totalCash, stockAsset, ts := SellLoop(current, targets);
      SellAllShape(SellState(cash, 0.0, old(holdings), targets), current, sellFee);
      orders := Affordable(ts, totalCash, buyFee);
    }

    /** The sell loop of `sell_stocks`, row by row. */
    method SellLoop(current: seq<Row>, targets: seq<Target>) returns (totalCash: real, stockAsset: real, ts: seq<Target>)
      modifies this`holdings
      ensures SellState(totalCash, stockAsset, holdings, ts) ==
              SellAll(SellState(cash, 0.0, old(holdings), targets), current, sellFee)
    {
      totalCash, stockAsset := cash, 0.0;
      ts := targets;
      for i := 0 to |current|
        invariant SellState(totalCash, stockAsset, holdings, ts) ==
                  SellAll(SellState(cash, 0.0, old(holdings), targets), current[..i], sellFee)
      {
        assert current[..i + 1][..i] == current[..i];
        ghost var before := SellState(totalCash, stockAsset, holdings, ts);
        var r := current[i];
        var held := Qty(holdings, r.ticker);
        var required := TargetOf(ts, r.ticker) - held;
        if required <= 0 {
          totalCash := totalCash + Proceeds(r.prevClose, -required, sellFee);
          holdings := Put(holdings, r.ticker, held + required);
          ts := Drop(ts, r.ticker);
          assert Qty(holdings, r.ticker) == held + required;
        } else {
          ts := SetQty(ts, r.ticker, required);
        }
        stockAsset := stockAsset + Worth(Qty(holdings, r.ticker), r.close);
        if Qty(holdings, r.ticker) == 0 {
          holdings := Remove(holdings, r.ticker);
        }
        assert SellState(totalCash, stockAsset, holdings, ts) == SellStep(before, r, sellFee);
      }
      assert current[..|current|] == current;
    }

    /** `rebalancing`: screen and size the qualified stocks, sell, buy the
        orders, and log the allocation. */
    method Rebalancing(day: Day, pe: Band, dy: Band) returns (newAsset: real)
      requires Valid() && WellFormedRows(day.rows)
      modifies this`cash, this`holdings, this`oldPrice, this`allocation
      ensures var r := Rebalance(old(cash), old(holdings), old(oldPrice), day, pe, dy, buyFee, sellFee);
              && newAsset == r.newAsset && cash == r.cash && holdings == r.holdings && oldPrice == r.oldPrice
              && allocation == old(allocation) + [r.allocation]
      ensures Valid()
    {
      var q := Qualified(day.rows, pe, dy);
      var current := HeldRows(day.rows, holdings);
      var total := TotalAsset(current);
      assert total == Engine.TotalAsset(cash, day.rows, holdings);
      QualifiedShape(day.rows, pe, dy);
      TargetsShape(q, total);
      var targets := Targets(q, total);
      assert targets == SizedTargets(cash, holdings, day.rows, pe, dy);
      var totalCash, stockAsset, orders := SellStocks(current, targets);
      ghost var s := SellPhase(old(cash), old(holdings), day.rows, pe, dy, sellFee);
      assert totalCash == s.cash && stockAsset == s.stockAsset && holdings == s.holdings;
      assert orders == Orders(old(cash), old(holdings), day.rows, pe, dy, buyFee, sellFee);
      var holdingCapital;
      totalCash, holdingCapital := BuyLoop(orders, totalCash, stockAsset);
      RebalanceFromPhases(old(cash), old(holdings), old(oldPrice), day, pe, dy, buyFee, sellFee);
      cash := totalCash;
      newAsset := holdingCapital + cash;
      allocation := allocation + [Allocation(holdingCapital, cash, day.date)];
      RebalanceKeepsBook(old(cash), old(holdings), old(oldPrice), day, pe, dy, buyFee, sellFee);
    }

    /** The buy loop of `rebalancing`, order by order, adding each order's
        close value to `holdingCapital`. */
    method BuyLoop(orders: seq<Target>, cashBefore: real, stockAsset: real) returns (cashAfter: real, holdingCapital: real)
      modifies this`holdings, this`oldPrice
      ensures BuyState(cashAfter, holdings, oldPrice, holdingCapital) ==
              BuyAll(BuyState(cashBefore, old(holdings), old(oldPrice), stockAsset), orders, sellFee)
    {
      cashAfter, holdingCapital := cashBefore, stockAsset;
      for i := 0 to |orders|
        invariant BuyState(cashAfter, holdings, oldPrice, holdingCapital) ==
                  BuyAll(BuyState(cashBefore, old(holdings), old(oldPrice), stockAsset), orders[..i], sellFee)
      {
        assert orders[..i + 1][..i] == orders[..i];
        var x := orders[i];
        oldPrice := oldPrice[x.ticker := x.close];
        cashAfter := cashAfter - PurchaseCost(x.qty, x.prevClose, sellFee);
        holdings := Put(holdings, x.ticker, Qty(holdings, x.ticker) + x.qty);
        holdingCapital := holdingCapital + x.qty as real * x.close;
      }
      assert orders[..|orders|] == orders;
    }

    /** `daily_update_asset`: the cash, plus every stock entry at its close
        when quoted and at its last known price (logged as suspended) when
        not. */
    method DailyUpdateAsset(day: Day) returns (asset: real)
      requires Valid()
      modifies this`oldPrice, this`suspended
      ensures forall t :: t in holdings.keys ==> Markable(day.rows, old(oldPrice), t)
      ensures var m := DailyMark(cash, holdings, old(oldPrice), old(suspended), day);
              asset == m.asset && oldPrice == m.oldPrice && suspended == m.suspended
      ensures Valid()
    {
      DailyMarkKeepsBook(cash, holdings, oldPrice, suspended, day);
      asset := cash;
      var keys := holdings.keys;
      for i := 0 to |keys|
        invariant forall t :: t in holdings.shares ==> t in oldPrice
        invariant MarkAll(MarkState(asset, oldPrice, suspended), day, holdings, keys[i..]) ==
                  DailyMark(cash, holdings, old(oldPrice), old(suspended), day)
      {
        assert keys[i..][1..] == keys[i + 1..];
        var t := keys[i];
        var value := holdings.shares[t];
        assert value == Qty(holdings, t);
        asset := MarkEntry(asset, day, t, value);
      }
    }

    /** One entry of the loop in `daily_update_asset`. */
    method MarkEntry(asset: real, day: Day, t: string, value: int) returns (next: real)
      requires Markable(day.rows, oldPrice, t)
      modifies this`oldPrice, this`suspended
      ensures MarkState(next, oldPrice, suspended) ==
              MarkStep(MarkState(asset, old(oldPrice), old(suspended)), day, t, value)
    {
      match Quote(day.rows, t) {
        case Some(price) =>
          next := asset + Worth(value, price);
          oldPrice := oldPrice[t := price];
        case None =>
          suspended := suspended + [Suspension(day.date, t, oldPrice[t])];
          next := asset + Worth(value, oldPrice[t]);
      }
    }

    /** `update_period_return`: rebalance or mark the book, then record the
        new asset and both returns. A last asset of 0 makes the division
        fail after the book has been updated, and nothing is recorded. */
    method UpdatePeriodReturn(day: Day, isRebalancing: bool, pe: Band, dy: Band) returns (recorded: bool, updated: real)
      requires Valid() && WellFormedRows(day.rows)
      modifies this`cash, this`holdings, this`oldPrice, this`allocation, this`suspended
      modifies this`periodReturns, this`acReturns, this`assets
      ensures Valid()
      ensures isRebalancing ==>
                var r := Rebalance(old(cash), old(holdings), old(oldPrice), day, pe, dy, buyFee, sellFee);
                && updated == r.newAsset && cash == r.cash && holdings == r.holdings && oldPrice == r.oldPrice
                && allocation == old(allocation) + [r.allocation] && suspended == old(suspended)
      ensures !isRebalancing ==>
                && (forall t :: t in old(holdings).keys ==> Markable(day.rows, old(oldPrice), t))
                && var m := DailyMark(old(cash), old(holdings), old(oldPrice), old(suspended), day);
                && updated == m.asset && oldPrice == m.oldPrice && suspended == m.suspended
                && cash == old(cash) && holdings == old(holdings) && allocation == old(allocation)
      ensures recorded <==> Last(old(assets)) != 0.0
      ensures recorded ==>
                && capital != 0.0
                && assets == old(assets) + [updated]
                && periodReturns == old(periodReturns) + [Growth(Last(old(assets)), updated)]
                && acReturns == old(acReturns) + [Growth(capital, updated)]
      ensures !recorded ==>
                assets == old(assets) && periodReturns == old(periodReturns) && acReturns == old(acReturns)
    {
      var current := assets[|assets| - 1];
      if isRebalancing {
        updated := Rebalancing(day, pe, dy);
      } else {
        updated := DailyUpdateAsset(day);
      }
      if current == 0.0 {
        return false, updated;
      }
      ExplainedSnoc(capital, assets, periodReturns, acReturns, updated);
      periodReturns := periodReturns + [Growth(current, updated)];
      acReturns := acReturns + [Growth(capital, updated)];
      assets := assets + [updated];
      recorded := true;
    }

    /** The book as a value. */
    function BookOf(): (b: Book)
      reads this`cash, this`holdings, this`oldPrice, this`suspended, this`allocation
    {
      Book(cash, holdings, oldPrice, suspended, allocation)
    }

    /** One date of `run`'s loop: decide whether it rebalances, update the
        book and the period return, and log the date unless the update
        raised. */
    method Advance(day: Day, calendar: seq<Date>, previous: bool, consumed: nat, pe: Band, dy: Band)
      returns (recorded: bool, fires: bool, next: nat)
      requires Valid() && WellFormedRows(day.rows)
      modifies this`cash, this`holdings, this`oldPrice, this`allocation, this`suspended
      modifies this`periodReturns, this`acReturns, this`assets, this`rebalancingDates, this`trackingDates
      ensures Valid()
      ensures fires == Fires(previous, consumed, day.date, calendar)
      ensures next == if recorded && fires then consumed + 1 else consumed
      ensures recorded <==> Last(old(assets)) != 0.0
      ensures var d := DayUpdate(old(BookOf()), day, fires, pe, dy, buyFee, sellFee);
              && BookOf() == d.book
              && assets == old(assets) + (if recorded then [d.asset] else [])
      ensures recorded ==> && trackingDates == old(trackingDates) + [day.date]
                           && rebalancingDates == old(rebalancingDates) + (if fires then [day.date] else [])
      ensures !recorded ==> && trackingDates == old(trackingDates)
                            && rebalancingDates == old(rebalancingDates)
    {
      fires := if consumed < |calendar| then !previous && LessEq(calendar[consumed], day.date) else false;
      next := consumed;
      var updated;
      recorded, updated := UpdatePeriodReturn(day, fires, pe, dy);
      if !recorded {
        return;
      }
      if fires {
        rebalancingDates := rebalancingDates + [day.date];
        next := consumed + 1;
      }
      trackingDates := trackingDates + [day.date];
    }

    /** `run`: the date loop, then the Sharpe ratio of all period returns.
        The rebalancing calendar is consumed from its head; `consumed` says
        how much of it. The book ends as the replay of the dates up to the
        one that raised, if any, and the recorded assets are the replay's. */
    method Run(days: seq<Day>, calendar: seq<Date>, pe: Band, dy: Band)
      returns (result: Result<Metric.Ratio, RunError>, processed: nat, consumed: nat)
      requires Valid() && WellFormedDays(days)
      modifies this
      ensures Valid()
      ensures processed <= |days|
      ensures var dates := DatesOf(days)[..processed];
              var plan := PlanOf(dates, calendar);
              && trackingDates == old(trackingDates) + dates
              && rebalancingDates == old(rebalancingDates) + FlaggedDates(dates, plan.flags)
              && consumed == plan.consumed
      ensures var done := if processed < |days| then processed + 1 else processed;
              var r := Replay(old(BookOf()), days, PlanOf(DatesOf(days), calendar).flags, done, pe, dy, buyFee, sellFee);
              && BookOf() == r.book
              && assets == old(assets) + r.assets[..processed]
      ensures processed < |days| ==> result == Err(AssetIsZero(processed)) && Last(assets) == 0.0
      ensures processed == |days| ==> result == DecimalSharpe(periodReturns, RiskFree)
    {
      ghost var books, trail;
      processed, consumed, books, trail := RunDates(days, calendar, pe, dy);
      assert old(BookInvariant(holdings, oldPrice));
      FollowsReplay(old(BookOf()), days, PlanOf(DatesOf(days), calendar).flags, books, trail, pe, dy, buyFee, sellFee);
      if processed < |days| {
        return Err(AssetIsZero(processed)), processed, consumed;
      }
      result := DecimalSharpe(periodReturns, RiskFree);
    }

    /** The state of the date loop of `run` after its first `n` dates,
        which ran from the book `start`, the asset history `before` and
        the logs `tracking` and `rebalancing`. */
    ghost predicate Running(days: seq<Day>, calendar: seq<Date>, n: nat, previous: bool, consumed: nat,
                            start: Book, before: seq<real>, tracking: seq<Date>, rebalancing: seq<Date>,
                            tracked: seq<Date>, rebalanced: seq<Date>, books: seq<Book>, trail: seq<real>,
                            pe: Band, dy: Band)
      reads this`cash, this`holdings, this`oldPrice, this`allocation, this`suspended
      reads this`periodReturns, this`acReturns, this`assets, this`rebalancingDates, this`trackingDates
    {
      && Valid() && assets == before + trail
      && trackingDates == tracking + tracked && rebalancingDates == rebalancing + rebalanced
      && RunState(days, calendar, n, previous, consumed, tracked, rebalanced, start, books, trail,
                  pe, dy, buyFee, sellFee, BookOf())
    }

    /** The date loop of `run`: decide whether the date rebalances, update
        the book and record the returns, log the date. It stops at the
        first date whose returns cannot be recorded; `books` and `trail`
        are the book before each date and each date's asset. */
    method RunDates(days: seq<Day>, calendar: seq<Date>, pe: Band, dy: Band)
      returns (processed: nat, consumed: nat, ghost books: seq<Book>, ghost trail: seq<real>)
      requires Valid() && WellFormedDays(days)
      modifies this`cash, this`holdings, this`oldPrice, this`allocation, this`suspended
      modifies this`periodReturns, this`acReturns, this`assets, this`rebalancingDates, this`trackingDates
      ensures Valid()
      ensures processed <= |days|
      ensures var dates := DatesOf(days)[..processed];
              var plan := PlanOf(dates, calendar);
              && trackingDates == old(trackingDates) + dates
              && rebalancingDates == old(rebalancingDates) + FlaggedDates(dates, plan.flags)
              && consumed == plan.consumed
      ensures Follows(old(BookOf()), days, PlanOf(DatesOf(days), calendar).flags, books, trail, pe, dy, buyFee, sellFee)
      ensures |trail| == if processed < |days| then processed + 1 else processed
      ensures BookOf() == books[|trail|] && assets == old(assets) + trail[..processed]
      ensures processed < |days| ==> Last(assets) == 0.0
    {
      ghost var tracked: seq<Date>, rebalanced: seq<Date> := [], [];
      books, trail := [BookOf()], [];
      var isRebalancing := false;
      processed, consumed := 0, 0;
      LoggedStart(DatesOf(days), calendar);
      FollowsStart(BookOf(), days, PlanOf(DatesOf(days), calendar).flags, pe, dy, buyFee, sellFee);
      while processed < |days|
        invariant Running(days, calendar, processed, isRebalancing, consumed, old(BookOf()), old(assets),
                          old(trackingDates), old(rebalancingDates), tracked, rebalanced, books, trail, pe, dy)
      {
        var recorded, fires;
        ghost var d;
        recorded, fires, consumed, d := Tick(days, calendar, processed, isRebalancing, consumed, pe, dy,
                                             old(BookOf()), old(assets), old(trackingDates), old(rebalancingDates),
                                             tracked, rebalanced, books, trail);
        books, trail := books + [d.book], trail + [d.asset];
        if !recorded {
          return;
        }
        tracked := tracked + [days[processed].date];
        rebalanced := rebalanced + (if fires then [days[processed].date] else []);
        isRebalancing := fires;
        processed := processed + 1;
      }
      assert trail[..processed] == trail;
    }

    /** One pass of the date loop of `run`: the date is logged as the
        schedule decides, and its update `d` extends the trail. When the
        returns cannot be recorded, the book has still been updated and
        nothing else changes. */
    method Tick(days: seq<Day>, calendar: seq<Date>, n: nat, previous: bool, consumed: nat, pe: Band, dy: Band,
                ghost start: Book, ghost before: seq<real>, ghost tracking: seq<Date>, ghost rebalancing: seq<Date>,
                ghost tracked: seq<Date>, ghost rebalanced: seq<Date>, ghost books: seq<Book>, ghost trail: seq<real>)
      returns (recorded: bool, fires: bool, next: nat, ghost d: Dated)
      requires n < |days|
      requires Running(days, calendar, n, previous, consumed, start, before, tracking, rebalancing,
                       tracked, rebalanced, books, trail, pe, dy)
      modifies this`cash, this`holdings, this`oldPrice, this`allocation, this`suspended
      modifies this`periodReturns, this`acReturns, this`assets, this`rebalancingDates, this`trackingDates
      ensures recorded ==> Running(days, calendar, n + 1, fires, next, start, before, tracking, rebalancing,
                                   tracked + [days[n].date], rebalanced + (if fires then [days[n].date] else []),
                                   books + [d.book], trail + [d.asset], pe, dy)
      ensures !recorded ==> && Valid() && next == consumed && Last(assets) == 0.0
                            && Follows(start, days, PlanOf(DatesOf(days), calendar).flags,
                                       books + [d.book], trail + [d.asset], pe, dy, buyFee, sellFee)
                            && BookOf() == d.book && assets == old(assets)
                            && trackingDates == old(trackingDates) && rebalancingDates == old(rebalancingDates)
    {
      ghost var book := BookOf();
      recorded, fires, next := Advance(days[n], calendar, previous, consumed, pe, dy);
      d := DayUpdate(book, days[n], fires, pe, dy, buyFee, sellFee);
      RunStateStep(days, calendar, n, previous, consumed, tracked, rebalanced, start, books, trail,
                   pe, dy, buyFee, sellFee, book, fires, d);
      if recorded {
        Appended(tracking, tracked, [days[n].date]);
        Appended(rebalancing, rebalanced, if fires then [days[n].date] else []);
        Appended(before, trail, [d.asset]);
      }
    }
  }
}
