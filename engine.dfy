/** What one trading date does to the book, as functions: the PE/DY
    screen, equal-weight target sizing, the sell phase, the affordability
    filter, the buy phase and the daily mark-to-market. The methods of
    `Backtesting` are proved to compute exactly these. */
module Engine {
  import opened Wrappers
  import opened Utils
  import opened Ledger

  /** One stock's line in a date's group of the price panel; `pe` and `dy`
      are absent where the panel holds NaN. */
  datatype Row = Row(ticker: string, close: real, prevClose: real, pe: Option<real>, dy: Option<real>)

  /** One date of the panel and its rows. */
  datatype Day = Day(date: Date, rows: seq<Row>)

  /** An inclusive [low, high] band, as `Series.between` uses it. */
  datatype Band = Band(low: real, high: real)

  /** The portfolio key under which cash is stored. */
  const CashKey: string := "CASH"

  function RowTickers(rows: seq<Row>): seq<string> {
    seq(|rows|, i requires 0 <= i < |rows| => rows[i].ticker)
  }

  predicate DistinctRows(rows: seq<Row>) {
    forall i, j :: 0 <= i < j < |rows| ==> rows[i].ticker != rows[j].ticker
  }

  /** A date's group: one row per ticker (the panel is grouped by date
      from one row per date and ticker), no stock named like the cash key,
      and positive previous closes, by which the sizing divides. */
  predicate WellFormedRows(rows: seq<Row>) {
    DistinctRows(rows)
    && forall i :: 0 <= i < |rows| ==> rows[i].ticker != CashKey && rows[i].prevClose > 0.0
  }

  // ---------------------------------------------------------------------
  // Screening

  /** `between` on a possibly missing value: NaN is never inside. */
  predicate InBand(v: Option<real>, b: Band) {
    v.Some? && b.low <= v.value <= b.high
  }

  predicate Qualifies(r: Row, pe: Band, dy: Band) {
    InBand(r.pe, pe) && InBand(r.dy, dy)
  }

  /** The qualified stocks, in the group's order. */
  function Qualified(rows: seq<Row>, pe: Band, dy: Band): (q: seq<Row>) {
    if |rows| == 0 then []
    else if Qualifies(rows[0], pe, dy) then [rows[0]] + Qualified(rows[1..], pe, dy)
    else Qualified(rows[1..], pe, dy)
  }

  /** `current_stocks`: the group's rows whose ticker is held, in the
      group's order. */
  function HeldRows(rows: seq<Row>, p: Portfolio): (held: seq<Row>) {
    if |rows| == 0 then []
    else if rows[0].ticker in p.shares then [rows[0]] + HeldRows(rows[1..], p)
    else HeldRows(rows[1..], p)
  }

  /** The screen keeps exactly the rows whose PE and DY both lie in their
      inclusive bands; a missing PE or DY never qualifies. */
  lemma {:induction false} QualifiedMembers(rows: seq<Row>, pe: Band, dy: Band)
    ensures forall r :: r in Qualified(rows, pe, dy) <==>
              r in rows && r.pe.Some? && r.dy.Some?
              && pe.low <= r.pe.value <= pe.high && dy.low <= r.dy.value <= dy.high
    ensures |Qualified(rows, pe, dy)| <= |rows|
  {
    if |rows| > 0 {
      QualifiedMembers(rows[1..], pe, dy);
      assert rows == [rows[0]] + rows[1..];
    }
  }

  /** `current_stocks` holds exactly the quoted rows of held stocks. */
  lemma {:induction false} HeldRowsMembers(rows: seq<Row>, p: Portfolio)
    ensures forall r :: r in HeldRows(rows, p) <==> r in rows && r.ticker in p.shares
  {
    if |rows| > 0 {
      HeldRowsMembers(rows[1..], p);
      assert rows == [rows[0]] + rows[1..];
    }
  }

  /** Putting the head of a table with unique tickers in front of rows
      drawn from its tail keeps the tickers unique. */
  lemma FilteredDistinct(rows: seq<Row>, rest: seq<Row>)
    requires DistinctRows(rows) && |rows| > 0 && DistinctRows(rest)
    requires forall r :: r in rest ==> r in rows[1..]
    ensures DistinctRows([rows[0]] + rest)
  {
    var s := [rows[0]] + rest;
    forall i, j | 0 <= i < j < |s| ensures s[i].ticker != s[j].ticker {
      if i == 0 {
        assert s[j] in rows[1..];
        var k :| 0 <= k < |rows| - 1 && rows[1..][k] == s[j];
        assert rows[k + 1] == s[j];
      }
    }
  }

  lemma {:induction false} QualifiedDistinct(rows: seq<Row>, pe: Band, dy: Band)
    requires DistinctRows(rows)
    ensures DistinctRows(Qualified(rows, pe, dy))
  {
    if |rows| > 0 {
      QualifiedDistinct(rows[1..], pe, dy);
      QualifiedMembers(rows[1..], pe, dy);
      FilteredDistinct(rows, Qualified(rows[1..], pe, dy));
    }
  }

  lemma {:induction false} HeldRowsDistinct(rows: seq<Row>, p: Portfolio)
    requires DistinctRows(rows)
    ensures DistinctRows(HeldRows(rows, p))
  {
    if |rows| > 0 {
      HeldRowsDistinct(rows[1..], p);
      HeldRowsMembers(rows[1..], p);
      FilteredDistinct(rows, HeldRows(rows[1..], p));
    }
  }

  // ---------------------------------------------------------------------
  // Equal-weight target sizing

  /** `total_asset` without the cash: the given rows' holdings valued at
      the previous close. */
  function Valuation(rows: seq<Row>, p: Portfolio): real {
    if |rows| == 0 then 0.0
    else Valuation(rows[..|rows| - 1], p) + rows[|rows| - 1].prevClose * Qty(p, rows[|rows| - 1].ticker) as real
  }

  lemma {:induction false} ValuationAppend(a: seq<Row>, b: seq<Row>, p: Portfolio)
    ensures Valuation(a + b, p) == Valuation(a, p) + Valuation(b, p)
    decreases |b|
  {
    if |b| == 0 {
      assert a + b == a;
    } else {
      var c := b[..|b| - 1];
      assert (a + b)[..|a + b| - 1] == a + c;
      ValuationAppend(a, c, p);
    }
  }

  /** Valuing only the held rows gives the value of the whole group at the
      held counts: a stock that is not held adds nothing. */
  lemma {:induction false} HeldValuation(rows: seq<Row>, p: Portfolio)
    ensures Valuation(HeldRows(rows, p), p) == Valuation(rows, p)
  {
    if |rows| > 0 {
      var r, rest := rows[0], rows[1..];
      HeldValuation(rest, p);
      assert rows == [r] + rest;
      assert [r][..0] == [];
      ValuationAppend([r], rest, p);
      if r.ticker in p.shares {
        ValuationAppend([r], HeldRows(rest, p), p);
      }
    }
  }

  lemma PositiveProduct(a: real, b: real)
    requires a > 0.0 && b > 0.0
    ensures a * b > 0.0
  {
  }

  /** A qualified stock's share count: the whole lots of an equal slice of
      the total asset at the previous close, rounded down. */
  function TargetQty(total: real, count: nat, prevClose: real): (qty: int)
    requires count > 0 && prevClose > 0.0
    ensures qty % LotSize == 0
    ensures count as real * prevClose > 0.0
    ensures qty as real <= total / (count as real * prevClose) < (qty + LotSize) as real
  {
    PositiveProduct(count as real, prevClose);
    RoundLot(total / (count as real * prevClose))
  }

  predicate PricedRows(q: seq<Row>) {
    forall i :: 0 <= i < |q| ==> q[i].prevClose > 0.0
  }

  /** The target frame: each qualified row with its target quantity. */
  function Targets(q: seq<Row>, total: real): seq<Target>
    requires PricedRows(q)
  {
    seq(|q|, i requires 0 <= i < |q| =>
      Target(q[i].ticker, q[i].close, q[i].prevClose, TargetQty(total, |q|, q[i].prevClose)))
  }

  lemma TargetsShape(q: seq<Row>, total: real)
    requires PricedRows(q) && DistinctRows(q)
    ensures DistinctTargets(Targets(q, total)) && PricedTargets(Targets(q, total))
  {
  }

  /** Every qualified stock gets a target row, whose lookup gives the
      sized quantity. */
  lemma {:induction false} TargetsFind(q: seq<Row>, total: real, i: nat)
    requires PricedRows(q) && DistinctRows(q) && i < |q|
    ensures FindTarget(Targets(q, total), q[i].ticker) == Some(TargetQty(total, |q|, q[i].prevClose))
  {
    var ts := Targets(q, total);
    FindFirst(ts, i);
  }

  // ---------------------------------------------------------------------
  // Sell phase

  /** The sell loop's state: cash, the value at close of what the scanned
      stocks end with, the portfolio's stock entries and the target frame. */
  /** What `qty` shares are worth at `price`. */
  function Worth(qty: int, price: real): real {
    qty as real * price
  }

  datatype SellState = SellState(cash: real, stockAsset: real, holdings: Portfolio, targets: seq<Target>)

  /** Cash received for selling `qty` shares at `prevClose`, net of fee. */
  function Proceeds(prevClose: real, qty: int, sellFee: real): real {
    prevClose * qty as real * (1.0 - sellFee)
  }

  /** A stock's target quantity: its target row's qty, 0 without one. */
  function TargetOf(ts: seq<Target>, t: string): int {
    FindTarget(ts, t).GetOr(0)
  }

  /** One held, quoted stock: sell down to its target (dropping the target
      row) or keep the holding and buy only the shortfall. A stock ending
      at 0 shares leaves the portfolio. */
  function SellStep(st: SellState, r: Row, sellFee: real): (next: SellState) {
    var held := Qty(st.holdings, r.ticker);
    var required := TargetOf(st.targets, r.ticker) - held;
    if required <= 0 then
      var kept := held + required;
      var h := Put(st.holdings, r.ticker, kept);
      SellState(st.cash + Proceeds(r.prevClose, -required, sellFee),
                st.stockAsset + Worth(kept, r.close),
                if kept == 0 then Remove(h, r.ticker) else h,
                Drop(st.targets, r.ticker))
    else
      SellState(st.cash,
                st.stockAsset + Worth(held, r.close),
                if held == 0 then Remove(st.holdings, r.ticker) else st.holdings,
                SetQty(st.targets, r.ticker, required))
  }

  /** The sell loop over `current_stocks`, one row after another. */
  function SellAll(st: SellState, rows: seq<Row>, sellFee: real): (sold: SellState) {
    if |rows| == 0 then st
    else SellStep(SellAll(st, rows[..|rows| - 1], sellFee), rows[|rows| - 1], sellFee)
  }

  /** What a stock that is scanned once ends with: its target when that
      does not exceed the holding, the holding otherwise. */
  function SettledQty(h: Portfolio, ts: seq<Target>, t: string): int {
    var held := Qty(h, t);
    var target := TargetOf(ts, t);
    if target - held <= 0 then target else held
  }

  /** A portfolio entry holding `q` shares, or none when `q` is 0. */
  function Entry(q: int): Option<int> {
    if q == 0 then None else Some(q)
  }

  /** What is left to buy of a scanned stock: the shortfall of a target
      row that exceeds the holding, nothing otherwise. */
  function StillToBuy(h: Portfolio, ts: seq<Target>, t: string): Option<int> {
    match FindTarget(ts, t)
    case None => None
    case Some(target) => if target - Qty(h, t) <= 0 then None else Some(target - Qty(h, t))
  }

  /** Cash the sell phase raises, computed from the holdings and targets
      it starts from. */
  function SaleProceeds(rows: seq<Row>, h: Portfolio, ts: seq<Target>, sellFee: real): real {
    if |rows| == 0 then 0.0
    else
      var r := rows[|rows| - 1];
      var sold := Qty(h, r.ticker) - TargetOf(ts, r.ticker);
      SaleProceeds(rows[..|rows| - 1], h, ts, sellFee)
        + (if sold >= 0 then Proceeds(r.prevClose, sold, sellFee) else 0.0)
  }

  /** The close value of what the scanned stocks end with. */
  function KeptValue(rows: seq<Row>, h: Portfolio, ts: seq<Target>): real {
    if |rows| == 0 then 0.0
    else
      var r := rows[|rows| - 1];
      KeptValue(rows[..|rows| - 1], h, ts) + Worth(SettledQty(h, ts, r.ticker), r.close)
  }

  /** The last row of a list with unique tickers is not among the rows
      before it. */
  lemma LastRowFresh(rows: seq<Row>)
    requires DistinctRows(rows) && |rows| > 0
    ensures DistinctRows(rows[..|rows| - 1])
    ensures rows[|rows| - 1].ticker !in RowTickers(rows[..|rows| - 1])
    ensures forall t :: t in RowTickers(rows) <==> t in RowTickers(rows[..|rows| - 1]) || t == rows[|rows| - 1].ticker
  {
    var n := |rows|;
    var p := rows[..n - 1];
    forall k | 0 <= k < n - 1 ensures RowTickers(p)[k] != rows[n - 1].ticker {
      assert RowTickers(p)[k] == rows[k].ticker;
    }
    assert RowTickers(rows) == RowTickers(p) + [rows[n - 1].ticker];
  }

  /** One sell step on a dict stays a dict and touches only its stock's
      entry and target row. */
  lemma SellStepEffect(st: SellState, r: Row, sellFee: real)
    requires WellKeyed(st.holdings)
    ensures var s := SellStep(st, r, sellFee);
            && WellKeyed(s.holdings)
            && Lookup(s.holdings, r.ticker) == Entry(SettledQty(st.holdings, st.targets, r.ticker))
            && (forall u :: u != r.ticker ==> Lookup(s.holdings, u) == Lookup(st.holdings, u))
            && (forall u :: FindTarget(s.targets, u) ==
                  if u == r.ticker then StillToBuy(st.holdings, st.targets, u) else FindTarget(st.targets, u))
  {
    var held := Qty(st.holdings, r.ticker);
    var required := TargetOf(st.targets, r.ticker) - held;
    if required <= 0 {
      PutWellKeyed(st.holdings, r.ticker, held + required);
      RemoveWellKeyed(Put(st.holdings, r.ticker, held + required), r.ticker);
      forall u ensures FindTarget(Drop(st.targets, r.ticker), u) ==
                         if u == r.ticker then StillToBuy(st.holdings, st.targets, u) else FindTarget(st.targets, u) {
        FindDrop(st.targets, r.ticker, u);
      }
    } else {
      RemoveWellKeyed(st.holdings, r.ticker);
      forall u ensures FindTarget(SetQty(st.targets, r.ticker, required), u) ==
                         if u == r.ticker then StillToBuy(st.holdings, st.targets, u) else FindTarget(st.targets, u) {
        FindSetQty(st.targets, r.ticker, required, u);
      }
    }
  }

  /** The sell phase settles each scanned stock on its own: its entry
      becomes the target if that does not exceed the holding (no entry if
      that is 0) and stays otherwise; its target row is dropped, or asks
      only for the shortfall. Unscanned stocks keep entry and row. */
  lemma {:induction false} SellAllEffect(st: SellState, rows: seq<Row>, sellFee: real)
    requires DistinctRows(rows) && WellKeyed(st.holdings)
    ensures var s := SellAll(st, rows, sellFee);
            && WellKeyed(s.holdings)
            && (forall t :: Lookup(s.holdings, t) ==
                  if t in RowTickers(rows) then Entry(SettledQty(st.holdings, st.targets, t))
                  else Lookup(st.holdings, t))
            && (forall t :: FindTarget(s.targets, t) ==
                  if t in RowTickers(rows) then StillToBuy(st.holdings, st.targets, t)
                  else FindTarget(st.targets, t))
  {
    if |rows| > 0 {
      var p, r := rows[..|rows| - 1], rows[|rows| - 1];
      LastRowFresh(rows);
      SellAllEffect(st, p, sellFee);
      var mid := SellAll(st, p, sellFee);
      SellStepEffect(mid, r, sellFee);
      var s := SellAll(st, rows, sellFee);
      assert s == SellStep(mid, r, sellFee);
      assert Qty(mid.holdings, r.ticker) == Qty(st.holdings, r.ticker);
      assert FindTarget(mid.targets, r.ticker) == FindTarget(st.targets, r.ticker);
      assert SettledQty(mid.holdings, mid.targets, r.ticker) == SettledQty(st.holdings, st.targets, r.ticker);
      assert StillToBuy(mid.holdings, mid.targets, r.ticker) == StillToBuy(st.holdings, st.targets, r.ticker);
    }
  }

  /** A stock the sell phase does not scan keeps its entry and target row. */
  lemma SellAllUntouched(st: SellState, rows: seq<Row>, sellFee: real, t: string)
    requires DistinctRows(rows) && WellKeyed(st.holdings) && t !in RowTickers(rows)
    ensures Qty(SellAll(st, rows, sellFee).holdings, t) == Qty(st.holdings, t)
    ensures TargetOf(SellAll(st, rows, sellFee).targets, t) == TargetOf(st.targets, t)
  {
    SellAllEffect(st, rows, sellFee);
    assert Lookup(SellAll(st, rows, sellFee).holdings, t) == Lookup(st.holdings, t);
    assert FindTarget(SellAll(st, rows, sellFee).targets, t) == FindTarget(st.targets, t);
  }

  /** The cash after the sell phase is the starting cash plus the
      proceeds of every sale, each computed from the starting book. */
  lemma {:induction false} SellAllCash(st: SellState, rows: seq<Row>, sellFee: real)
    requires DistinctRows(rows) && WellKeyed(st.holdings)
    ensures SellAll(st, rows, sellFee).cash == st.cash + SaleProceeds(rows, st.holdings, st.targets, sellFee)
  {
    if |rows| > 0 {
      var p, r := rows[..|rows| - 1], rows[|rows| - 1];
      LastRowFresh(rows);
      SellAllCash(st, p, sellFee);
      SellAllUntouched(st, p, sellFee, r.ticker);
      var mid := SellAll(st, p, sellFee);
      var sold := Qty(st.holdings, r.ticker) - TargetOf(st.targets, r.ticker);
      assert Qty(mid.holdings, r.ticker) - TargetOf(mid.targets, r.ticker) == sold;
      assert SellStep(mid, r, sellFee).cash == mid.cash + (if sold >= 0 then Proceeds(r.prevClose, sold, sellFee) else 0.0);
    }
  }

  lemma SellStepStockAsset(st: SellState, r: Row, sellFee: real)
    ensures SellStep(st, r, sellFee).stockAsset ==
              st.stockAsset + Worth(SettledQty(st.holdings, st.targets, r.ticker), r.close)
  {
  }

  /** The close value the sell phase reports is that of what each scanned
      stock ends with. */
  lemma {:induction false} SellAllStockAsset(st: SellState, rows: seq<Row>, sellFee: real)
    requires DistinctRows(rows) && WellKeyed(st.holdings)
    ensures SellAll(st, rows, sellFee).stockAsset == st.stockAsset + KeptValue(rows, st.holdings, st.targets)
  {
    if |rows| > 0 {
      var p, r := rows[..|rows| - 1], rows[|rows| - 1];
      LastRowFresh(rows);
      SellAllStockAsset(st, p, sellFee);
      SellAllUntouched(st, p, sellFee, r.ticker);
      var mid := SellAll(st, p, sellFee);
      SellStepStockAsset(mid, r, sellFee);
      assert SettledQty(mid.holdings, mid.targets, r.ticker) == SettledQty(st.holdings, st.targets, r.ticker);
    }
  }

  // ---------------------------------------------------------------------
  // Affordability filter

  lemma DividePositive(a: real, d: real)
    requires d > 0.0
    ensures a <= 0.0 ==> a / d <= 0.0
    ensures a > 0.0 ==> a / d > 0.0
  {
  }

  /** `adjusted_qty`: the whole lots an equal share of the cash buys at the
      previous close once the buy fee is added. */
  function AdjustedQty(cash: real, count: nat, prevClose: real, buyFee: real): (q: int)
    requires count > 0 && prevClose > 0.0 && buyFee > -1.0
    ensures q % LotSize == 0
    ensures count as real * prevClose * (1.0 + buyFee) > 0.0
    ensures q as real <= cash / (count as real * prevClose * (1.0 + buyFee)) < (q + LotSize) as real
  {
    PositiveProduct(count as real, prevClose);
    PositiveProduct(count as real * prevClose, 1.0 + buyFee);
    RoundLot(cash / (count as real * prevClose * (1.0 + buyFee)))
  }

  /** Target rows whose previous close is positive, as the sizing needs. */
  predicate PricedTargets(ts: seq<Target>) {
    forall x :: x in ts ==> x.prevClose > 0.0
  }

  /** The rows of `ts` whose adjusted quantity, out of `count` rows, is
      positive, in order. */
  function AffordableFrom(ts: seq<Target>, cash: real, count: nat, buyFee: real): seq<Target>
    requires PricedTargets(ts) && count > 0 && buyFee > -1.0
  {
    if |ts| == 0 then []
    else if AdjustedQty(cash, count, ts[0].prevClose, buyFee) > 0 then
      [ts[0]] + AffordableFrom(ts[1..], cash, count, buyFee)
    else AffordableFrom(ts[1..], cash, count, buyFee)
  }

  /** The target rows left after the sell phase that the cash can buy at
      least one lot of, sharing the cash equally among all of them. */
  function Affordable(ts: seq<Target>, cash: real, buyFee: real): seq<Target>
    requires PricedTargets(ts) && buyFee > -1.0
  {
    if |ts| == 0 then [] else AffordableFrom(ts, cash, |ts|, buyFee)
  }

  lemma {:induction false} AffordableFromMembers(ts: seq<Target>, cash: real, count: nat, buyFee: real)
    requires PricedTargets(ts) && count > 0 && buyFee > -1.0
    ensures forall x :: x in AffordableFrom(ts, cash, count, buyFee) <==>
              x in ts && AdjustedQty(cash, count, x.prevClose, buyFee) > 0
  {
    if |ts| > 0 {
      AffordableFromMembers(ts[1..], cash, count, buyFee);
      assert ts == [ts[0]] + ts[1..];
    }
  }

  /** A row is bought exactly when it is a remaining target row and its
      adjusted quantity is at least one lot. */
  lemma AffordableMembers(ts: seq<Target>, cash: real, buyFee: real)
    requires PricedTargets(ts) && buyFee > -1.0
    ensures forall x :: x in Affordable(ts, cash, buyFee) <==>
              x in ts && AdjustedQty(cash, |ts|, x.prevClose, buyFee) > 0
  {
    if |ts| > 0 {
      AffordableFromMembers(ts, cash, |ts|, buyFee);
    }
  }

  lemma {:induction false} NoCashNoneFrom(ts: seq<Target>, cash: real, count: nat, buyFee: real)
    requires PricedTargets(ts) && count > 0 && buyFee > -1.0 && cash <= 0.0
    ensures AffordableFrom(ts, cash, count, buyFee) == []
  {
    if |ts| > 0 {
      DividePositive(cash, count as real * ts[0].prevClose * (1.0 + buyFee));
      NoCashNoneFrom(ts[1..], cash, count, buyFee);
    }
  }

  /** Without positive cash nothing is bought. */
  lemma NoCashNoPurchase(ts: seq<Target>, cash: real, buyFee: real)
    requires PricedTargets(ts) && buyFee > -1.0 && cash <= 0.0
    ensures Affordable(ts, cash, buyFee) == []
  {
    if |ts| > 0 {
      NoCashNoneFrom(ts, cash, |ts|, buyFee);
    }
  }

  lemma {:induction false} AffordableFromDistinct(ts: seq<Target>, cash: real, count: nat, buyFee: real)
    requires PricedTargets(ts) && count > 0 && buyFee > -1.0 && DistinctTargets(ts)
    ensures DistinctTargets(AffordableFrom(ts, cash, count, buyFee))
  {
    if |ts| > 0 {
      AffordableFromDistinct(ts[1..], cash, count, buyFee);
      AffordableFromMembers(ts[1..], cash, count, buyFee);
      var rest := AffordableFrom(ts[1..], cash, count, buyFee);
      if AdjustedQty(cash, count, ts[0].prevClose, buyFee) > 0 {
        var s := [ts[0]] + rest;
        forall i, j | 0 <= i < j < |s| ensures s[i].ticker != s[j].ticker {
          if i == 0 {
            assert s[j] in ts[1..];
            var k :| 0 <= k < |ts| - 1 && ts[1..][k] == s[j];
            assert ts[k + 1] == s[j];
          } else {
            assert s[i] == rest[i - 1] && s[j] == rest[j - 1];
          }
        }
      }
    }
  }

  lemma AffordableDistinct(ts: seq<Target>, cash: real, buyFee: real)
    requires PricedTargets(ts) && buyFee > -1.0 && DistinctTargets(ts)
    ensures DistinctTargets(Affordable(ts, cash, buyFee))
  {
    if |ts| > 0 {
      AffordableFromDistinct(ts, cash, |ts|, buyFee);
    }
  }

  // ---------------------------------------------------------------------
  // Buy phase

  /** The buy loop's state: cash, the stock entries, the last known prices
      and the close value of what has been bought. */
  datatype BuyState = BuyState(cash: real, holdings: Portfolio, oldPrice: map<string, real>, bought: real)

  /** What buying `qty` shares at `prevClose` costs with fee `fee`. */
  function PurchaseCost(qty: int, prevClose: real, fee: real): real {
    qty as real * prevClose * (1.0 + fee)
  }

  /** One buy: the row's qty (the shortfall, or the whole target for a new
      stock) is added to the holding, paid at the previous close with the
      sell fee, and the close becomes the stock's last known price. */
  function BuyStep(st: BuyState, x: Target, sellFee: real): BuyState {
    BuyState(st.cash - PurchaseCost(x.qty, x.prevClose, sellFee),
             Put(st.holdings, x.ticker, Qty(st.holdings, x.ticker) + x.qty),
             st.oldPrice[x.ticker := x.close],
             st.bought + x.qty as real * x.close)
  }

  function BuyAll(st: BuyState, ts: seq<Target>, sellFee: real): (bought: BuyState) {
    if |ts| == 0 then st
    else BuyStep(BuyAll(st, ts[..|ts| - 1], sellFee), ts[|ts| - 1], sellFee)
  }

  /** What all the buys of `ts` cost. */
  function TotalCost(ts: seq<Target>, fee: real): real {
    if |ts| == 0 then 0.0
    else TotalCost(ts[..|ts| - 1], fee) + PurchaseCost(ts[|ts| - 1].qty, ts[|ts| - 1].prevClose, fee)
  }

  /** The close value of all the buys of `ts`. */
  function BoughtValue(ts: seq<Target>): real {
    if |ts| == 0 then 0.0
    else BoughtValue(ts[..|ts| - 1]) + ts[|ts| - 1].qty as real * ts[|ts| - 1].close
  }

  /** The buy phase pays for every order in full and adds its close value. */
  lemma {:induction false} BuyAllCash(st: BuyState, ts: seq<Target>, sellFee: real)
    ensures BuyAll(st, ts, sellFee).cash == st.cash - TotalCost(ts, sellFee)
    ensures BuyAll(st, ts, sellFee).bought == st.bought + BoughtValue(ts)
  {
    if |ts| > 0 {
      BuyAllCash(st, ts[..|ts| - 1], sellFee);
    }
  }

  lemma LastTargetFresh(ts: seq<Target>)
    requires DistinctTargets(ts) && |ts| > 0
    ensures DistinctTargets(ts[..|ts| - 1])
    ensures ts[|ts| - 1].ticker !in TargetTickers(ts[..|ts| - 1])
    ensures forall t :: t in TargetTickers(ts) <==> t in TargetTickers(ts[..|ts| - 1]) || t == ts[|ts| - 1].ticker
  {
    var n := |ts|;
    var p := ts[..n - 1];
    forall k | 0 <= k < n - 1 ensures TargetTickers(p)[k] != ts[n - 1].ticker {
      assert TargetTickers(p)[k] == ts[k].ticker;
    }
    assert TargetTickers(ts) == TargetTickers(p) + [ts[n - 1].ticker];
  }

  /** The buy phase keeps the entries a dict. */
  lemma {:induction false} BuyAllWellKeyed(st: BuyState, ts: seq<Target>, sellFee: real)
    requires WellKeyed(st.holdings)
    ensures WellKeyed(BuyAll(st, ts, sellFee).holdings)
  {
    if |ts| > 0 {
      var mid := BuyAll(st, ts[..|ts| - 1], sellFee);
      var x := ts[|ts| - 1];
      BuyAllWellKeyed(st, ts[..|ts| - 1], sellFee);
      PutWellKeyed(mid.holdings, x.ticker, Qty(mid.holdings, x.ticker) + x.qty);
    }
  }

  /** A stock without an order keeps its entry through the buy phase. */
  lemma {:induction false} BuyAllOthers(st: BuyState, ts: seq<Target>, sellFee: real, t: string)
    requires t !in TargetTickers(ts)
    ensures Lookup(BuyAll(st, ts, sellFee).holdings, t) == Lookup(st.holdings, t)
  {
    if |ts| > 0 {
      var n := |ts|;
      assert TargetTickers(ts) == TargetTickers(ts[..n - 1]) + [ts[n - 1].ticker];
      BuyAllOthers(st, ts[..n - 1], sellFee, t);
    }
  }

  /** An ordered stock's entry grows by its row's qty. */
  lemma {:induction false} BuyAllOrdered(st: BuyState, ts: seq<Target>, sellFee: real, i: nat)
    requires DistinctTargets(ts) && i < |ts|
    ensures Lookup(BuyAll(st, ts, sellFee).holdings, ts[i].ticker) == Some(Qty(st.holdings, ts[i].ticker) + ts[i].qty)
  {
    var n := |ts|;
    var p, x := ts[..n - 1], ts[n - 1];
    LastTargetFresh(ts);
    if i < n - 1 {
      assert ts[i] == p[i] && TargetTickers(p)[i] == p[i].ticker;
      BuyAllOrdered(st, p, sellFee, i);
    } else {
      BuyAllOthers(st, p, sellFee, x.ticker);
    }
  }

  /** Each ordered stock's entry grows by its row's qty; every other entry
      is kept. The entries stay a dict. */
  lemma BuyAllHoldings(st: BuyState, ts: seq<Target>, sellFee: real)
    requires DistinctTargets(ts) && WellKeyed(st.holdings)
    ensures var b := BuyAll(st, ts, sellFee);
            && WellKeyed(b.holdings)
            && (forall i :: 0 <= i < |ts| ==>
                  Lookup(b.holdings, ts[i].ticker) == Some(Qty(st.holdings, ts[i].ticker) + ts[i].qty))
            && (forall t :: t !in TargetTickers(ts) ==> Lookup(b.holdings, t) == Lookup(st.holdings, t))
  {
    BuyAllWellKeyed(st, ts, sellFee);
    forall i | 0 <= i < |ts| ensures Lookup(BuyAll(st, ts, sellFee).holdings, ts[i].ticker) == Some(Qty(st.holdings, ts[i].ticker) + ts[i].qty) {
      BuyAllOrdered(st, ts, sellFee, i);
    }
    forall t | t !in TargetTickers(ts) ensures Lookup(BuyAll(st, ts, sellFee).holdings, t) == Lookup(st.holdings, t) {
      BuyAllOthers(st, ts, sellFee, t);
    }
  }

  /** The last known prices after the buy phase: each ordered stock's
      close, and the earlier price of every other stock. */
  lemma {:induction false} BuyAllPrices(st: BuyState, ts: seq<Target>, sellFee: real)
    requires DistinctTargets(ts)
    ensures var b := BuyAll(st, ts, sellFee);
            && (forall i :: 0 <= i < |ts| ==> ts[i].ticker in b.oldPrice && b.oldPrice[ts[i].ticker] == ts[i].close)
            && (forall t :: t !in TargetTickers(ts) ==> (t in b.oldPrice <==> t in st.oldPrice))
            && (forall t :: t !in TargetTickers(ts) && t in st.oldPrice ==> b.oldPrice[t] == st.oldPrice[t])
  {
    if |ts| > 0 {
      var p, x := ts[..|ts| - 1], ts[|ts| - 1];
      LastTargetFresh(ts);
      BuyAllPrices(st, p, sellFee);
      forall i | 0 <= i < |p| ensures p[i].ticker != x.ticker && p[i] == ts[i] {
        assert TargetTickers(p)[i] == p[i].ticker;
      }
    }
  }

  /** A stock without an order keeps whether it has a last known price. */
  lemma {:induction false} BuyAllPriceOthers(st: BuyState, ts: seq<Target>, sellFee: real, t: string)
    requires t !in TargetTickers(ts)
    ensures t in BuyAll(st, ts, sellFee).oldPrice <==> t in st.oldPrice
  {
    if |ts| > 0 {
      var n := |ts|;
      assert TargetTickers(ts) == TargetTickers(ts[..n - 1]) + [ts[n - 1].ticker];
      BuyAllPriceOthers(st, ts[..n - 1], sellFee, t);
    }
  }

  /** An ordered stock has a last known price after the buy phase. */
  lemma {:induction false} BuyAllPriceOrdered(st: BuyState, ts: seq<Target>, sellFee: real, i: nat)
    requires i < |ts|
    ensures ts[i].ticker in BuyAll(st, ts, sellFee).oldPrice
  {
    var n := |ts|;
    if i < n - 1 {
      assert ts[i] == ts[..n - 1][i];
      BuyAllPriceOrdered(st, ts[..n - 1], sellFee, i);
    }
  }

  // ---------------------------------------------------------------------
  // Rebalance

  /** A row of a table has its ticker among the table's tickers. */
  lemma RowTickerOf(rows: seq<Row>, r: Row)
    requires r in rows
    ensures r.ticker in RowTickers(rows)
  {
    var k :| 0 <= k < |rows| && rows[k] == r;
    assert RowTickers(rows)[k] == r.ticker;
  }

  /** A stock is scanned by the sell phase exactly when it is quoted and
      held. */
  lemma {:induction false} HeldRowsTickers(rows: seq<Row>, p: Portfolio)
    ensures forall t :: t in RowTickers(HeldRows(rows, p)) <==> t in RowTickers(rows) && t in p.shares
  {
    if |rows| > 0 {
      HeldRowsTickers(rows[1..], p);
      assert RowTickers(rows) == [rows[0].ticker] + RowTickers(rows[1..]);
      if rows[0].ticker in p.shares {
        assert RowTickers(HeldRows(rows, p)) == [rows[0].ticker] + RowTickers(HeldRows(rows[1..], p));
      }
    }
  }

  lemma QualifiedShape(rows: seq<Row>, pe: Band, dy: Band)
    requires WellFormedRows(rows)
    ensures DistinctRows(Qualified(rows, pe, dy)) && PricedRows(Qualified(rows, pe, dy))
  {
    var q := Qualified(rows, pe, dy);
    QualifiedDistinct(rows, pe, dy);
    QualifiedMembers(rows, pe, dy);
    forall i | 0 <= i < |q| ensures q[i].prevClose > 0.0 {
      assert q[i] in rows;
    }
  }

  /** `total_asset`: the cash plus the held, quoted stocks valued at the
      previous close. Held stocks missing from the date's rows add nothing. */
  function TotalAsset(cash: real, rows: seq<Row>, h: Portfolio): (total: real) {
    cash + Valuation(HeldRows(rows, h), h)
  }

  /** The target frame of a rebalance: every qualified stock with its
      equal-weight share count. */
  function SizedTargets(cash: real, h: Portfolio, rows: seq<Row>, pe: Band, dy: Band): seq<Target>
    requires WellFormedRows(rows)
  {
    QualifiedShape(rows, pe, dy);
    Targets(Qualified(rows, pe, dy), TotalAsset(cash, rows, h))
  }

  lemma SizedTargetsShape(cash: real, h: Portfolio, rows: seq<Row>, pe: Band, dy: Band)
    requires WellFormedRows(rows)
    ensures DistinctTargets(SizedTargets(cash, h, rows, pe, dy)) && PricedTargets(SizedTargets(cash, h, rows, pe, dy))
    ensures forall t :: t in TargetTickers(SizedTargets(cash, h, rows, pe, dy)) <==> t in RowTickers(Qualified(rows, pe, dy))
  {
    var q := Qualified(rows, pe, dy);
    QualifiedShape(rows, pe, dy);
    assert TargetTickers(SizedTargets(cash, h, rows, pe, dy)) == RowTickers(q);
  }

  lemma SellStepShape(st: SellState, r: Row, sellFee: real)
    requires PricedTargets(st.targets) && DistinctTargets(st.targets)
    ensures PricedTargets(SellStep(st, r, sellFee).targets) && DistinctTargets(SellStep(st, r, sellFee).targets)
  {
    var held := Qty(st.holdings, r.ticker);
    var required := TargetOf(st.targets, r.ticker) - held;
    if required <= 0 {
      DropDistinct(st.targets, r.ticker);
      DropMembers(st.targets, r.ticker);
    } else {
      var ts := SetQty(st.targets, r.ticker, required);
      SetQtyDistinct(st.targets, r.ticker, required);
      forall x | x in ts ensures x.prevClose > 0.0 {
        var i :| 0 <= i < |ts| && ts[i] == x;
        assert st.targets[i] in st.targets;
      }
    }
  }

  lemma {:induction false} SellAllShape(st: SellState, rows: seq<Row>, sellFee: real)
    requires PricedTargets(st.targets) && DistinctTargets(st.targets)
    ensures PricedTargets(SellAll(st, rows, sellFee).targets) && DistinctTargets(SellAll(st, rows, sellFee).targets)
  {
    if |rows| > 0 {
      SellAllShape(st, rows[..|rows| - 1], sellFee);
      SellStepShape(SellAll(st, rows[..|rows| - 1], sellFee), rows[|rows| - 1], sellFee);
    }
  }

  /** `sell_stocks`: the sell loop over the held, quoted stocks, starting
      from the cash, no stock value, the portfolio and the sized targets. */
  function SellPhase(cash: real, h: Portfolio, rows: seq<Row>, pe: Band, dy: Band, sellFee: real): SellState
    requires WellFormedRows(rows)
  {
    SellAll(SellState(cash, 0.0, h, SizedTargets(cash, h, rows, pe, dy)), HeldRows(rows, h), sellFee)
  }

  lemma SellPhaseShape(cash: real, h: Portfolio, rows: seq<Row>, pe: Band, dy: Band, sellFee: real)
    requires WellFormedRows(rows)
    ensures PricedTargets(SellPhase(cash, h, rows, pe, dy, sellFee).targets)
    ensures DistinctTargets(SellPhase(cash, h, rows, pe, dy, sellFee).targets)
  {
    SizedTargetsShape(cash, h, rows, pe, dy);
    SellAllShape(SellState(cash, 0.0, h, SizedTargets(cash, h, rows, pe, dy)), HeldRows(rows, h), sellFee);
  }

  /** The frame `sell_stocks` returns: the remaining target rows the cash
      left after the sales can buy. */
  function Orders(cash: real, h: Portfolio, rows: seq<Row>, pe: Band, dy: Band, buyFee: real, sellFee: real): seq<Target>
    requires WellFormedRows(rows) && buyFee > -1.0
  {
    SellPhaseShape(cash, h, rows, pe, dy, sellFee);
    var s := SellPhase(cash, h, rows, pe, dy, sellFee);
    Affordable(s.targets, s.cash, buyFee)
  }

  /** The record appended to the allocation log. */
  datatype Allocation = Allocation(holdingCapital: real, cashRemaining: real, date: Date)

  /** The book after a rebalance, the orders filled and the new asset. */
  datatype Rebalanced = Rebalanced(cash: real, holdings: Portfolio, oldPrice: map<string, real>,
                                   orders: seq<Target>, newAsset: real, allocation: Allocation)

  /** `rebalancing`: screen, size, sell, buy, and value the result at the
      close. */
  function Rebalance(cash: real, h: Portfolio, oldPrice: map<string, real>, day: Day,
                     pe: Band, dy: Band, buyFee: real, sellFee: real): Rebalanced
    requires WellFormedRows(day.rows) && buyFee > -1.0
  {
    var s := SellPhase(cash, h, day.rows, pe, dy, sellFee);
    var orders := Orders(cash, h, day.rows, pe, dy, buyFee, sellFee);
    var b := BuyAll(BuyState(s.cash, s.holdings, oldPrice, 0.0), orders, sellFee);
    var capital := s.stockAsset + b.bought;
    Rebalanced(b.cash, b.holdings, b.oldPrice, orders, capital + b.cash, Allocation(capital, b.cash, day.date))
  }

  /** The holdings and orders of a rebalance are those of its buy phase. */
  lemma RebalanceParts(cash: real, h: Portfolio, oldPrice: map<string, real>, day: Day,
                       pe: Band, dy: Band, buyFee: real, sellFee: real)
    requires WellFormedRows(day.rows) && buyFee > -1.0
    ensures var s := SellPhase(cash, h, day.rows, pe, dy, sellFee);
            var orders := Orders(cash, h, day.rows, pe, dy, buyFee, sellFee);
            var r := Rebalance(cash, h, oldPrice, day, pe, dy, buyFee, sellFee);
            var b := BuyAll(BuyState(s.cash, s.holdings, oldPrice, 0.0), orders, sellFee);
            r.holdings == b.holdings && r.oldPrice == b.oldPrice && r.orders == orders
  {
  }

  /** The buy phase does not look at the running close value it adds to. */
  lemma {:induction false} BuyAllFromValue(st: BuyState, ts: seq<Target>, sellFee: real, start: real)
    ensures var a := BuyAll(st, ts, sellFee);
            var b := BuyAll(st.(bought := start), ts, sellFee);
            b.cash == a.cash && b.holdings == a.holdings && b.oldPrice == a.oldPrice
            && b.bought == start + (a.bought - st.bought)
  {
    if |ts| > 0 {
      BuyAllFromValue(st, ts[..|ts| - 1], sellFee, start);
    }
  }

  /** A rebalance is the buy phase run on what the sell phase leaves, with
      the close value of the kept stocks as the starting holding capital. */
  lemma RebalanceFromPhases(cash: real, h: Portfolio, oldPrice: map<string, real>, day: Day,
                            pe: Band, dy: Band, buyFee: real, sellFee: real)
    requires WellFormedRows(day.rows) && buyFee > -1.0
    ensures var s := SellPhase(cash, h, day.rows, pe, dy, sellFee);
            var orders := Orders(cash, h, day.rows, pe, dy, buyFee, sellFee);
            var b := BuyAll(BuyState(s.cash, s.holdings, oldPrice, s.stockAsset), orders, sellFee);
            Rebalance(cash, h, oldPrice, day, pe, dy, buyFee, sellFee) ==
              Rebalanced(b.cash, b.holdings, b.oldPrice, orders, b.bought + b.cash, Allocation(b.bought, b.cash, day.date))
  {
    var s := SellPhase(cash, h, day.rows, pe, dy, sellFee);
    var orders := Orders(cash, h, day.rows, pe, dy, buyFee, sellFee);
    BuyAllFromValue(BuyState(s.cash, s.holdings, oldPrice, 0.0), orders, sellFee, s.stockAsset);
  }

  /** What the sell phase and the order list know about each stock. */
  lemma PhaseFacts(cash: real, h: Portfolio, rows: seq<Row>, pe: Band, dy: Band, buyFee: real, sellFee: real)
    requires WellFormedRows(rows) && buyFee > -1.0 && WellKeyed(h)
    ensures var ts := SizedTargets(cash, h, rows, pe, dy);
            var s := SellPhase(cash, h, rows, pe, dy, sellFee);
            var orders := Orders(cash, h, rows, pe, dy, buyFee, sellFee);
            && WellKeyed(s.holdings)
            && DistinctTargets(s.targets) && DistinctTargets(orders)
            && (forall x :: x in orders ==> x in s.targets)
            && (forall t :: Lookup(s.holdings, t) ==
                  if t in RowTickers(rows) && t in h.shares then Entry(SettledQty(h, ts, t)) else Lookup(h, t))
            && (forall t :: FindTarget(s.targets, t) ==
                  if t in RowTickers(rows) && t in h.shares then StillToBuy(h, ts, t) else FindTarget(ts, t))
  {
    var ts := SizedTargets(cash, h, rows, pe, dy);
    var s := SellPhase(cash, h, rows, pe, dy, sellFee);
    var cur := HeldRows(rows, h);
    HeldRowsDistinct(rows, h);
    HeldRowsTickers(rows, h);
    SellAllEffect(SellState(cash, 0.0, h, ts), cur, sellFee);
    SellPhaseShape(cash, h, rows, pe, dy, sellFee);
    AffordableDistinct(s.targets, s.cash, buyFee);
    AffordableMembers(s.targets, s.cash, buyFee);
  }

  /** A ticker the order list holds has a remaining target row. */
  lemma OrderedHasTarget(ts: seq<Target>, orders: seq<Target>, t: string)
    requires DistinctTargets(ts) && forall x :: x in orders ==> x in ts
    requires FindTarget(ts, t).None?
    ensures t !in TargetTickers(orders)
  {
    forall k | 0 <= k < |orders| ensures orders[k].ticker != t {
      assert orders[k] in orders;
      FindMember(ts, orders[k]);
    }
  }

  /** The money of a rebalance: the cash is the starting cash plus the sale
      proceeds less the cost of the orders (paid with the sell fee); the
      holding capital is the close value of what was kept plus what was
      bought; the new asset is the holding capital plus the cash. */
  lemma RebalanceAccounting(cash: real, h: Portfolio, oldPrice: map<string, real>, day: Day,
                            pe: Band, dy: Band, buyFee: real, sellFee: real)
    requires WellFormedRows(day.rows) && buyFee > -1.0 && WellKeyed(h)
    ensures var r := Rebalance(cash, h, oldPrice, day, pe, dy, buyFee, sellFee);
            var cur := HeldRows(day.rows, h);
            var ts := SizedTargets(cash, h, day.rows, pe, dy);
            && r.cash == cash + SaleProceeds(cur, h, ts, sellFee) - TotalCost(r.orders, sellFee)
            && r.allocation == Allocation(KeptValue(cur, h, ts) + BoughtValue(r.orders), r.cash, day.date)
            && r.newAsset == r.allocation.holdingCapital + r.allocation.cashRemaining
  {
    var cur := HeldRows(day.rows, h);
    var ts := SizedTargets(cash, h, day.rows, pe, dy);
    var s := SellPhase(cash, h, day.rows, pe, dy, sellFee);
    var orders := Orders(cash, h, day.rows, pe, dy, buyFee, sellFee);
    HeldRowsDistinct(day.rows, h);
    SellAllCash(SellState(cash, 0.0, h, ts), cur, sellFee);
    SellAllStockAsset(SellState(cash, 0.0, h, ts), cur, sellFee);
    BuyAllCash(BuyState(s.cash, s.holdings, oldPrice, 0.0), orders, sellFee);
  }

  /** The target quantity of the i-th qualified stock. */
  function TargetOfQualified(cash: real, h: Portfolio, rows: seq<Row>, pe: Band, dy: Band, i: nat): int
    requires WellFormedRows(rows) && i < |Qualified(rows, pe, dy)|
  {
    QualifiedShape(rows, pe, dy);
    var q := Qualified(rows, pe, dy);
    TargetQty(TotalAsset(cash, rows, h), |q|, q[i].prevClose)
  }

  /** The sell phase and the order list, seen from one stock. */
  lemma PhaseAt(cash: real, h: Portfolio, rows: seq<Row>, pe: Band, dy: Band, buyFee: real, sellFee: real, t: string)
    requires WellFormedRows(rows) && buyFee > -1.0 && WellKeyed(h)
    ensures var ts := SizedTargets(cash, h, rows, pe, dy);
            var s := SellPhase(cash, h, rows, pe, dy, sellFee);
            var orders := Orders(cash, h, rows, pe, dy, buyFee, sellFee);
            var scanned := t in RowTickers(rows) && t in h.shares;
            && WellKeyed(s.holdings) && DistinctTargets(orders)
            && Lookup(s.holdings, t) == (if scanned then Entry(SettledQty(h, ts, t)) else Lookup(h, t))
            && FindTarget(s.targets, t) == (if scanned then StillToBuy(h, ts, t) else FindTarget(ts, t))
            && (FindTarget(orders, t).Some? ==> FindTarget(s.targets, t) == FindTarget(orders, t))
  {
    var s := SellPhase(cash, h, rows, pe, dy, sellFee);
    var orders := Orders(cash, h, rows, pe, dy, buyFee, sellFee);
    PhaseFacts(cash, h, rows, pe, dy, buyFee, sellFee);
    FindTargetSome(orders, t);
    if FindTarget(orders, t).Some? {
      var k :| 0 <= k < |orders| && TargetTickers(orders)[k] == t;
      FindFirst(orders, k);
      assert orders[k] in orders;
      FindMember(s.targets, orders[k]);
    }
  }

  /** The buy phase seen from one stock: an ordered stock's entry grows by
      its order, any other entry is kept. */
  lemma BuyAllAt(st: BuyState, ts: seq<Target>, sellFee: real, t: string)
    requires DistinctTargets(ts) && WellKeyed(st.holdings)
    ensures Lookup(BuyAll(st, ts, sellFee).holdings, t) ==
              match FindTarget(ts, t)
              case None => Lookup(st.holdings, t)
              case Some(q) => Some(Qty(st.holdings, t) + q)
  {
    FindTargetSome(ts, t);
    if FindTarget(ts, t).Some? {
      var k :| 0 <= k < |ts| && TargetTickers(ts)[k] == t;
      FindFirst(ts, k);
      BuyAllOrdered(st, ts, sellFee, k);
    } else {
      BuyAllOthers(st, ts, sellFee, t);
    }
  }

  /** How one target stock ends, from what the sell phase left of it and
      what the buy phase added. */
  lemma SettleOutcome(h: Portfolio, ts: seq<Target>, sold: Portfolio, left: seq<Target>,
                      orders: seq<Target>, bought: Portfolio, t: string, target: int)
    requires FindTarget(ts, t) == Some(target)
    requires Lookup(sold, t) == if t in h.shares then Entry(SettledQty(h, ts, t)) else Lookup(h, t)
    requires FindTarget(left, t) == if t in h.shares then StillToBuy(h, ts, t) else FindTarget(ts, t)
    requires FindTarget(orders, t).Some? ==> FindTarget(left, t) == FindTarget(orders, t)
    requires FindTarget(orders, t).Some? <==> t in TargetTickers(orders)
    requires Lookup(bought, t) == match FindTarget(orders, t)
                                  case None => Lookup(sold, t)
                                  case Some(q) => Some(Qty(sold, t) + q)
    ensures Lookup(bought, t) ==
              if t in TargetTickers(orders) then Some(target)
              else if t in h.shares then Entry(if target <= Qty(h, t) then target else Qty(h, t))
              else None
  {
  }

  /** Where a qualified stock ends up: at exactly its target when it was
      ordered; otherwise a held stock settles at its target if that does
      not exceed the holding, keeps the holding if it does (the entry goes
      when the result is 0), and an unheld stock stays out. */
  lemma RebalanceQualified(cash: real, h: Portfolio, oldPrice: map<string, real>, day: Day,
                           pe: Band, dy: Band, buyFee: real, sellFee: real, i: nat)
    requires WellFormedRows(day.rows) && buyFee > -1.0 && WellKeyed(h)
    requires i < |Qualified(day.rows, pe, dy)|
    ensures var q := Qualified(day.rows, pe, dy);
            var r := Rebalance(cash, h, oldPrice, day, pe, dy, buyFee, sellFee);
            var t := q[i].ticker;
            var target := TargetOfQualified(cash, h, day.rows, pe, dy, i);
            var held := Qty(h, t);
            Lookup(r.holdings, t) ==
              if t in TargetTickers(r.orders) then Some(target)
              else if t in h.shares then Entry(if target <= held then target else held)
              else None
  {
    var rows := day.rows;
    var q := Qualified(rows, pe, dy);
    var t := q[i].ticker;
    var held := Qty(h, t);
    var ts := SizedTargets(cash, h, rows, pe, dy);
    var s := SellPhase(cash, h, rows, pe, dy, sellFee);
    var orders := Orders(cash, h, rows, pe, dy, buyFee, sellFee);
    var target := TargetOfQualified(cash, h, rows, pe, dy, i);
    QualifiedShape(rows, pe, dy);
    TargetsFind(q, TotalAsset(cash, rows, h), i);
    assert FindTarget(ts, t) == Some(target);
    QualifiedMembers(rows, pe, dy);
    RowTickerOf(rows, q[i]);
    assert t in RowTickers(rows);
    PhaseAt(cash, h, rows, pe, dy, buyFee, sellFee, t);
    var b := BuyAll(BuyState(s.cash, s.holdings, oldPrice, 0.0), orders, sellFee);
    BuyAllAt(BuyState(s.cash, s.holdings, oldPrice, 0.0), orders, sellFee, t);
    FindTargetSome(orders, t);
    SettleOutcome(h, ts, s.holdings, s.targets, orders, b.holdings, t, target);
    RebalanceParts(cash, h, oldPrice, day, pe, dy, buyFee, sellFee);
  }

  /** A quoted stock outside the bands is never ordered; a held one is
      sold out (its entry goes), unless its count is negative, which no
      target of 0 lowers. */
  lemma RebalanceUnqualified(cash: real, h: Portfolio, oldPrice: map<string, real>, day: Day,
                             pe: Band, dy: Band, buyFee: real, sellFee: real, j: nat)
    requires WellFormedRows(day.rows) && buyFee > -1.0 && WellKeyed(h)
    requires j < |day.rows| && !Qualifies(day.rows[j], pe, dy)
    ensures var r := Rebalance(cash, h, oldPrice, day, pe, dy, buyFee, sellFee);
            var t := day.rows[j].ticker;
            && t !in TargetTickers(r.orders)
            && Lookup(r.holdings, t) == (if t in h.shares && Qty(h, t) < 0 then Some(Qty(h, t)) else None)
  {
    var rows := day.rows;
    var q := Qualified(rows, pe, dy);
    var t := rows[j].ticker;
    var ts := SizedTargets(cash, h, rows, pe, dy);
    var s := SellPhase(cash, h, rows, pe, dy, sellFee);
    var orders := Orders(cash, h, rows, pe, dy, buyFee, sellFee);
    QualifiedMembers(rows, pe, dy);
    forall k | 0 <= k < |q| ensures RowTickers(q)[k] != t {
      assert q[k] in q;
      var m :| 0 <= m < |rows| && rows[m] == q[k];
    }
    SizedTargetsShape(cash, h, rows, pe, dy);
    FindTargetSome(ts, t);
    RowTickerOf(rows, rows[j]);
    PhaseFacts(cash, h, rows, pe, dy, buyFee, sellFee);
    OrderedHasTarget(s.targets, orders, t);
    BuyAllHoldings(BuyState(s.cash, s.holdings, oldPrice, 0.0), orders, sellFee);
  }

  /** A stock missing from the date's rows is neither sold nor bought: its
      entry and last known price stay as they were. */
  lemma RebalanceUnquoted(cash: real, h: Portfolio, oldPrice: map<string, real>, day: Day,
                          pe: Band, dy: Band, buyFee: real, sellFee: real, t: string)
    requires WellFormedRows(day.rows) && buyFee > -1.0 && WellKeyed(h)
    requires t !in RowTickers(day.rows)
    ensures var r := Rebalance(cash, h, oldPrice, day, pe, dy, buyFee, sellFee);
            && t !in TargetTickers(r.orders)
            && Lookup(r.holdings, t) == Lookup(h, t)
            && (t in r.oldPrice <==> t in oldPrice)
            && (t in oldPrice ==> r.oldPrice[t] == oldPrice[t])
  {
    var rows := day.rows;
    var q := Qualified(rows, pe, dy);
    var ts := SizedTargets(cash, h, rows, pe, dy);
    var s := SellPhase(cash, h, rows, pe, dy, sellFee);
    var orders := Orders(cash, h, rows, pe, dy, buyFee, sellFee);
    QualifiedMembers(rows, pe, dy);
    forall k | 0 <= k < |q| ensures RowTickers(q)[k] != t {
      assert q[k] in q;
      RowTickerOf(rows, q[k]);
    }
    SizedTargetsShape(cash, h, rows, pe, dy);
    FindTargetSome(ts, t);
    PhaseFacts(cash, h, rows, pe, dy, buyFee, sellFee);
    OrderedHasTarget(s.targets, orders, t);
    BuyAllHoldings(BuyState(s.cash, s.holdings, oldPrice, 0.0), orders, sellFee);
    BuyAllPrices(BuyState(s.cash, s.holdings, oldPrice, 0.0), orders, sellFee);
  }

  /** Every order is for a qualified stock, and its close becomes that
      stock's last known price. */
  lemma RebalanceOrders(cash: real, h: Portfolio, oldPrice: map<string, real>, day: Day,
                        pe: Band, dy: Band, buyFee: real, sellFee: real)
    requires WellFormedRows(day.rows) && buyFee > -1.0 && WellKeyed(h)
    ensures var r := Rebalance(cash, h, oldPrice, day, pe, dy, buyFee, sellFee);
            forall k :: 0 <= k < |r.orders| ==>
              r.orders[k].ticker in RowTickers(Qualified(day.rows, pe, dy))
              && r.orders[k].ticker in r.oldPrice && r.oldPrice[r.orders[k].ticker] == r.orders[k].close
  {
    var rows := day.rows;
    var ts := SizedTargets(cash, h, rows, pe, dy);
    var s := SellPhase(cash, h, rows, pe, dy, sellFee);
    var orders := Orders(cash, h, rows, pe, dy, buyFee, sellFee);
    PhaseFacts(cash, h, rows, pe, dy, buyFee, sellFee);
    SizedTargetsShape(cash, h, rows, pe, dy);
    BuyAllPrices(BuyState(s.cash, s.holdings, oldPrice, 0.0), orders, sellFee);
    forall k | 0 <= k < |orders| ensures orders[k].ticker in RowTickers(Qualified(rows, pe, dy)) {
      assert orders[k] in orders;
      FindMember(s.targets, orders[k]);
      FindTargetSome(ts, orders[k].ticker);
    }
  }

  /** What the backtest keeps true of its book between dates: the stock
      entries form a dict without the cash key, and every held stock has a
      last known price. */
  predicate BookInvariant(h: Portfolio, oldPrice: map<string, real>) {
    WellKeyed(h) && CashKey !in h.shares && forall t :: t in h.shares ==> t in oldPrice
  }

  /** A stock held after a rebalance has a last known price. */
  lemma RebalancePricedAt(cash: real, h: Portfolio, oldPrice: map<string, real>, day: Day,
                          pe: Band, dy: Band, buyFee: real, sellFee: real, t: string)
    requires WellFormedRows(day.rows) && buyFee > -1.0 && BookInvariant(h, oldPrice)
    requires t in Rebalance(cash, h, oldPrice, day, pe, dy, buyFee, sellFee).holdings.shares
    ensures t in Rebalance(cash, h, oldPrice, day, pe, dy, buyFee, sellFee).oldPrice
  {
    var rows := day.rows;
    var s := SellPhase(cash, h, rows, pe, dy, sellFee);
    var orders := Orders(cash, h, rows, pe, dy, buyFee, sellFee);
    var st := BuyState(s.cash, s.holdings, oldPrice, 0.0);
    RebalanceParts(cash, h, oldPrice, day, pe, dy, buyFee, sellFee);
    if t in TargetTickers(orders) {
      var k :| 0 <= k < |orders| && TargetTickers(orders)[k] == t;
      BuyAllPriceOrdered(st, orders, sellFee, k);
    } else {
      PhaseAt(cash, h, rows, pe, dy, buyFee, sellFee, t);
      BuyAllOthers(st, orders, sellFee, t);
      assert t in s.holdings.shares;
      assert t in h.shares;
      BuyAllPriceOthers(st, orders, sellFee, t);
    }
  }

  lemma RebalanceKeepsBook(cash: real, h: Portfolio, oldPrice: map<string, real>, day: Day,
                           pe: Band, dy: Band, buyFee: real, sellFee: real)
    requires WellFormedRows(day.rows) && buyFee > -1.0 && BookInvariant(h, oldPrice)
    ensures var r := Rebalance(cash, h, oldPrice, day, pe, dy, buyFee, sellFee);
            BookInvariant(r.holdings, r.oldPrice)
  {
    var rows := day.rows;
    var s := SellPhase(cash, h, rows, pe, dy, sellFee);
    var orders := Orders(cash, h, rows, pe, dy, buyFee, sellFee);
    var r := Rebalance(cash, h, oldPrice, day, pe, dy, buyFee, sellFee);
    RebalanceParts(cash, h, oldPrice, day, pe, dy, buyFee, sellFee);
    PhaseAt(cash, h, rows, pe, dy, buyFee, sellFee, CashKey);
    BuyAllWellKeyed(BuyState(s.cash, s.holdings, oldPrice, 0.0), orders, sellFee);
    forall t | t in r.holdings.shares ensures t in r.oldPrice {
      RebalancePricedAt(cash, h, oldPrice, day, pe, dy, buyFee, sellFee, t);
    }
    assert CashKey !in RowTickers(rows);
    RebalanceUnquoted(cash, h, oldPrice, day, pe, dy, buyFee, sellFee, CashKey);
  }

  // ---------------------------------------------------------------------
  // Daily mark-to-market

  /** The close of the first row for `t`, none when `t` has no row. */
  function Quote(rows: seq<Row>, t: string): (close: Option<real>) {
    if |rows| == 0 then None
    else if rows[0].ticker == t then Some(rows[0].close)
    else Quote(rows[1..], t)
  }

  /** A stock is quoted exactly when it has a row, and with unique tickers
      the quote is that row's close. */
  lemma {:induction false} QuoteFind(rows: seq<Row>, t: string)
    ensures Quote(rows, t).Some? <==> t in RowTickers(rows)
    ensures DistinctRows(rows) ==> forall i :: 0 <= i < |rows| && rows[i].ticker == t ==> Quote(rows, t) == Some(rows[i].close)
  {
    if |rows| > 0 {
      QuoteFind(rows[1..], t);
      assert RowTickers(rows) == [rows[0].ticker] + RowTickers(rows[1..]);
      if DistinctRows(rows) {
        forall i | 1 <= i < |rows| && rows[i].ticker == t ensures Quote(rows, t) == Some(rows[i].close) {
          assert rows[1..][i - 1] == rows[i];
        }
      }
    }
  }

  /** A line of the suspension log: the date, the unquoted stock and the
      price it was marked at. */
  datatype Suspension = Suspension(date: Date, ticker: string, lastPrice: real)

  /** The mark loop's state: the asset so far, the last known prices and
      the suspension log. */
  datatype MarkState = MarkState(asset: real, oldPrice: map<string, real>, suspended: seq<Suspension>)

  /** Whether `t` can be marked: it is quoted, or has a last known price. */
  predicate Markable(rows: seq<Row>, oldPrice: map<string, real>, t: string) {
    Quote(rows, t).Some? || t in oldPrice
  }

  /** The price a stock is marked at: its close when quoted, its last
      known price otherwise. */
  function MarkPrice(rows: seq<Row>, oldPrice: map<string, real>, t: string): real
    requires Markable(rows, oldPrice, t)
  {
    match Quote(rows, t)
    case Some(price) => price
    case None => oldPrice[t]
  }

  /** One stock entry of `daily_update_asset`: a quoted stock is valued at
      its close, which becomes its last known price; an unquoted one at its
      last known price, and it is logged as suspended. */
  function MarkStep(st: MarkState, day: Day, t: string, qty: int): MarkState
    requires Markable(day.rows, st.oldPrice, t)
  {
    match Quote(day.rows, t)
    case Some(price) => MarkState(st.asset + Worth(qty, price), st.oldPrice[t := price], st.suspended)
    case None => MarkState(st.asset + Worth(qty, st.oldPrice[t]), st.oldPrice,
                           st.suspended + [Suspension(day.date, t, st.oldPrice[t])])
  }

  /** A mark step forgets no last known price. */
  lemma MarkStepGrows(st: MarkState, day: Day, t: string, qty: int)
    requires Markable(day.rows, st.oldPrice, t)
    ensures forall u :: Markable(day.rows, st.oldPrice, u) ==> Markable(day.rows, MarkStep(st, day, t, qty).oldPrice, u)
  {
  }

  /** The mark loop over the portfolio's stock entries, in key order. */
  function MarkAll(st: MarkState, day: Day, p: Portfolio, keys: seq<string>): MarkState
    requires forall t :: t in keys ==> Markable(day.rows, st.oldPrice, t)
    decreases |keys|
  {
    if |keys| == 0 then st
    else
      var next := MarkStep(st, day, keys[0], Qty(p, keys[0]));
      MarkStepGrows(st, day, keys[0], Qty(p, keys[0]));
      MarkAll(next, day, p, keys[1..])
  }

  /** The value of the stock entries of `keys`, each at its mark price. */
  function MarkValue(keys: seq<string>, p: Portfolio, rows: seq<Row>, oldPrice: map<string, real>): real
    requires forall t :: t in keys ==> Markable(rows, oldPrice, t)
  {
    if |keys| == 0 then 0.0
    else Worth(Qty(p, keys[0]), MarkPrice(rows, oldPrice, keys[0])) + MarkValue(keys[1..], p, rows, oldPrice)
  }

  /** The suspension lines of the unquoted stocks of `keys`, in key order. */
  function Unquoted(keys: seq<string>, day: Day, oldPrice: map<string, real>): seq<Suspension>
    requires forall t :: t in keys ==> Markable(day.rows, oldPrice, t)
  {
    if |keys| == 0 then []
    else if Quote(day.rows, keys[0]).Some? then Unquoted(keys[1..], day, oldPrice)
    else
      assert keys[0] in keys && Markable(day.rows, oldPrice, keys[0]);
      [Suspension(day.date, keys[0], oldPrice[keys[0]])] + Unquoted(keys[1..], day, oldPrice)
  }

  /** Mark prices and suspension lines only read the last known prices of
      unquoted stocks. */
  lemma {:induction false} MarkFrame(keys: seq<string>, p: Portfolio, day: Day, m1: map<string, real>, m2: map<string, real>)
    requires forall t :: t in keys ==> Quote(day.rows, t).Some? || (t in m1 && t in m2 && m1[t] == m2[t])
    ensures MarkValue(keys, p, day.rows, m1) == MarkValue(keys, p, day.rows, m2)
    ensures Unquoted(keys, day, m1) == Unquoted(keys, day, m2)
  {
    if |keys| > 0 {
      MarkFrame(keys[1..], p, day, m1, m2);
    }
  }

  lemma NoDuplicatesTail(keys: seq<string>)
    requires NoDuplicates(keys) && |keys| > 0
    ensures NoDuplicates(keys[1..]) && keys[0] !in keys[1..]
  {
    forall k | 0 <= k < |keys| - 1 ensures keys[1..][k] != keys[0] {
      assert keys[1..][k] == keys[k + 1];
    }
  }

  /** The mark loop adds the value of every entry at its mark price. */
  lemma {:induction false} MarkAllValue(st: MarkState, day: Day, p: Portfolio, keys: seq<string>)
    requires NoDuplicates(keys)
    requires forall t :: t in keys ==> Markable(day.rows, st.oldPrice, t)
    ensures MarkAll(st, day, p, keys).asset == st.asset + MarkValue(keys, p, day.rows, st.oldPrice)
    decreases |keys|
  {
    if |keys| > 0 {
      var t := keys[0];
      var next := MarkStep(st, day, t, Qty(p, t));
      NoDuplicatesTail(keys);
      MarkStepGrows(st, day, t, Qty(p, t));
      MarkAllValue(next, day, p, keys[1..]);
      MarkFrame(keys[1..], p, day, next.oldPrice, st.oldPrice);
      assert next.asset == st.asset + Worth(Qty(p, t), MarkPrice(day.rows, st.oldPrice, t));
    }
  }

  /** The mark loop logs exactly the unquoted entries, in key order, each
      at its last known price. */
  lemma {:induction false} MarkAllSuspensions(st: MarkState, day: Day, p: Portfolio, keys: seq<string>)
    requires NoDuplicates(keys)
    requires forall t :: t in keys ==> Markable(day.rows, st.oldPrice, t)
    ensures MarkAll(st, day, p, keys).suspended == st.suspended + Unquoted(keys, day, st.oldPrice)
    decreases |keys|
  {
    if |keys| > 0 {
      var t := keys[0];
      var next := MarkStep(st, day, t, Qty(p, t));
      NoDuplicatesTail(keys);
      MarkStepGrows(st, day, t, Qty(p, t));
      MarkAllSuspensions(next, day, p, keys[1..]);
      MarkFrame(keys[1..], p, day, next.oldPrice, st.oldPrice);
    }
  }

  /** The mark loop moves the last known price of every quoted entry to
      its close and leaves every other price alone. */
  lemma {:induction false} MarkAllPrices(st: MarkState, day: Day, p: Portfolio, keys: seq<string>)
    requires forall t :: t in keys ==> Markable(day.rows, st.oldPrice, t)
    ensures var m := MarkAll(st, day, p, keys);
            && (forall t :: t in m.oldPrice <==> t in st.oldPrice || (t in keys && Quote(day.rows, t).Some?))
            && (forall t :: t in m.oldPrice ==>
                  m.oldPrice[t] == if t in keys && Quote(day.rows, t).Some? then Quote(day.rows, t).value else st.oldPrice[t])
    decreases |keys|
  {
    if |keys| > 0 {
      var t := keys[0];
      var next := MarkStep(st, day, t, Qty(p, t));
      MarkStepGrows(st, day, t, Qty(p, t));
      MarkAllPrices(next, day, p, keys[1..]);
      assert keys == [t] + keys[1..];
    }
  }

  /** A date quoting every held stock logs no suspension. */
  lemma {:induction false} AllQuotedNoSuspension(keys: seq<string>, day: Day, oldPrice: map<string, real>)
    requires forall t :: t in keys ==> Quote(day.rows, t).Some?
    ensures Unquoted(keys, day, oldPrice) == []
  {
    if |keys| > 0 {
      AllQuotedNoSuspension(keys[1..], day, oldPrice);
    }
  }

  /** `daily_update_asset` on the whole book: the cash entry comes first in
      the dict, then the stock entries in key order. */
  function DailyMark(cash: real, h: Portfolio, oldPrice: map<string, real>, suspended: seq<Suspension>, day: Day): MarkState
    requires forall t :: t in h.keys ==> Markable(day.rows, oldPrice, t)
  {
    MarkAll(MarkState(cash, oldPrice, suspended), day, h, h.keys)
  }

  /** Marking keeps the book invariant: no entry changes, and prices only
      move. */
  lemma DailyMarkKeepsBook(cash: real, h: Portfolio, oldPrice: map<string, real>, suspended: seq<Suspension>, day: Day)
    requires BookInvariant(h, oldPrice)
    ensures forall t :: t in h.keys ==> Markable(day.rows, oldPrice, t)
    ensures BookInvariant(h, DailyMark(cash, h, oldPrice, suspended, day).oldPrice)
  {
    MarkAllPrices(MarkState(cash, oldPrice, suspended), day, h, h.keys);
  }
}
