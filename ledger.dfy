/** The two keyed tables the backtest edits in place: the stock entries of
    the portfolio dict, with their insertion order, and the target rows of
    a rebalance, in frame order. */
module Ledger {
  import opened Wrappers

  // ---------------------------------------------------------------------
  // Portfolio entries

  /** The stock entries of the portfolio dict: its keys in insertion order
      and the share count stored under each key. */
  datatype Portfolio = Portfolio(keys: seq<string>, shares: map<string, int>)

  predicate NoDuplicates(s: seq<string>) {
    forall i, j :: 0 <= i < j < |s| ==> s[i] != s[j]
  }

  /** A dict: unique keys, each holding exactly one count. */
  predicate WellKeyed(p: Portfolio) {
    NoDuplicates(p.keys)
    && (forall t :: t in p.shares ==> t in p.keys)
    && (forall t :: t in p.keys ==> t in p.shares)
  }

  const NoStocks: Portfolio := Portfolio([], map[])

  /** `portfolio.get(t)`. */
  function Lookup(p: Portfolio, t: string): Option<int> {
    if t in p.shares then Some(p.shares[t]) else None
  }

  /** The shares held of `t`, 0 when `t` is not a key. */
  function Qty(p: Portfolio, t: string): int {
    if t in p.shares then p.shares[t] else 0
  }

  /** `portfolio[t] = q`: an existing key keeps its place, a new key goes
      last. */
  function Put(p: Portfolio, t: string, q: int): Portfolio {
    Portfolio(if t in p.shares then p.keys else p.keys + [t], p.shares[t := q])
  }

  /** The keys other than `t`, in order. */
  function Without(s: seq<string>, t: string): seq<string> {
    if |s| == 0 then []
    else if s[0] == t then Without(s[1..], t)
    else [s[0]] + Without(s[1..], t)
  }

  /** `del portfolio[t]`. */
  function Remove(p: Portfolio, t: string): Portfolio {
    Portfolio(Without(p.keys, t), p.shares - {t})
  }

  lemma {:induction false} WithoutMembers(s: seq<string>, t: string)
    ensures forall u :: u in Without(s, t) <==> u in s && u != t
    ensures NoDuplicates(s) ==> NoDuplicates(Without(s, t))
  {
    if |s| > 0 {
      WithoutMembers(s[1..], t);
      if s[0] != t {
        var r := [s[0]] + Without(s[1..], t);
        if NoDuplicates(s) {
          assert s[0] !in s[1..] by {
            forall k | 0 <= k < |s| - 1 ensures s[1..][k] != s[0] {
              assert s[1..][k] == s[k + 1];
            }
          }
          forall i, j | 0 <= i < j < |r| ensures r[i] != r[j] {
            if i == 0 {
              assert r[j] in Without(s[1..], t);
            } else {
              assert r[i] == Without(s[1..], t)[i - 1] && r[j] == Without(s[1..], t)[j - 1];
            }
          }
        }
      }
    }
  }

  /** Setting a count keeps a dict a dict, and changes only that key. */
  lemma PutWellKeyed(p: Portfolio, t: string, q: int)
    requires WellKeyed(p)
    ensures WellKeyed(Put(p, t, q))
    ensures forall u :: Lookup(Put(p, t, q), u) == if u == t then Some(q) else Lookup(p, u)
  {
    var r := Put(p, t, q);
    if t !in p.shares {
      forall i, j | 0 <= i < j < |r.keys| ensures r.keys[i] != r.keys[j] {
        if j == |p.keys| {
          assert r.keys[i] == p.keys[i] && r.keys[i] in p.keys;
        }
      }
    }
  }

  /** Deleting a key keeps a dict a dict, and changes only that key. */
  lemma RemoveWellKeyed(p: Portfolio, t: string)
    requires WellKeyed(p)
    ensures WellKeyed(Remove(p, t))
    ensures forall u :: Lookup(Remove(p, t), u) == if u == t then None else Lookup(p, u)
  {
    WithoutMembers(p.keys, t);
  }

  /** A key deleted and then set again moves to the end of the dict: the
      other keys keep their order, and the key holds only the new count. */
  lemma ReinsertGoesLast(p: Portfolio, t: string, q: int)
    requires WellKeyed(p)
    ensures var r := Put(Remove(p, t), t, q);
            && r.keys == Without(p.keys, t) + [t]
            && r.keys[|r.keys| - 1] == t
            && (forall u :: u in r.keys <==> u in p.keys || u == t)
            && WellKeyed(r) && Lookup(r, t) == Some(q)
  {
    WithoutMembers(p.keys, t);
    RemoveWellKeyed(p, t);
    PutWellKeyed(Remove(p, t), t, q);
  }

  // ---------------------------------------------------------------------
  // Target rows of a rebalance

  /** A row of the target frame: a qualified stock, its prices and the
      quantity still to buy. */
  datatype Target = Target(ticker: string, close: real, prevClose: real, qty: int)

  function TargetTickers(ts: seq<Target>): seq<string> {
    seq(|ts|, i requires 0 <= i < |ts| => ts[i].ticker)
  }

  predicate DistinctTargets(ts: seq<Target>) {
    forall i, j :: 0 <= i < j < |ts| ==> ts[i].ticker != ts[j].ticker
  }

  /** The `qty` of the first row for `t` (`.iloc[0]` of the matching rows). */
  function FindTarget(ts: seq<Target>, t: string): Option<int> {
    if |ts| == 0 then None
    else if ts[0].ticker == t then Some(ts[0].qty)
    else FindTarget(ts[1..], t)
  }

  /** `ts.loc[ts.ticker == t, "qty"] = q`: every row for `t` gets `q`. */
  function SetQty(ts: seq<Target>, t: string, q: int): seq<Target> {
    seq(|ts|, i requires 0 <= i < |ts| => if ts[i].ticker == t then ts[i].(qty := q) else ts[i])
  }

  /** `ts.drop(rows for t)`: the other rows, in order. */
  function Drop(ts: seq<Target>, t: string): seq<Target> {
    if |ts| == 0 then []
    else if ts[0].ticker == t then Drop(ts[1..], t)
    else [ts[0]] + Drop(ts[1..], t)
  }

  /** A lookup finds a row exactly for the tickers the frame has. */
  lemma {:induction false} FindTargetSome(ts: seq<Target>, t: string)
    ensures FindTarget(ts, t).Some? <==> t in TargetTickers(ts)
  {
    if |ts| > 0 {
      FindTargetSome(ts[1..], t);
      assert TargetTickers(ts) == [ts[0].ticker] + TargetTickers(ts[1..]);
    }
  }

  /** After SetQty, a lookup of `t` finds `q` if there was a row for `t`;
      lookups of other tickers are unchanged. */
  lemma {:induction false} FindSetQty(ts: seq<Target>, t: string, q: int, u: string)
    ensures FindTarget(SetQty(ts, t, q), u) ==
              if u == t && FindTarget(ts, t).Some? then Some(q) else FindTarget(ts, u)
  {
    if |ts| > 0 {
      var r := SetQty(ts, t, q);
      assert r[1..] == SetQty(ts[1..], t, q);
      FindSetQty(ts[1..], t, q, u);
    }
  }

  /** After Drop, `t` is gone and the other lookups are unchanged. */
  lemma {:induction false} FindDrop(ts: seq<Target>, t: string, u: string)
    ensures FindTarget(Drop(ts, t), u) == if u == t then None else FindTarget(ts, u)
  {
    if |ts| > 0 {
      FindDrop(ts[1..], t, u);
      if ts[0].ticker != t {
        assert Drop(ts, t)[1..] == Drop(ts[1..], t);
      }
    }
  }

  /** Drop keeps exactly the rows of other tickers. */
  lemma {:induction false} DropMembers(ts: seq<Target>, t: string)
    ensures forall x :: x in Drop(ts, t) <==> x in ts && x.ticker != t
  {
    if |ts| > 0 {
      DropMembers(ts[1..], t);
    }
  }

  lemma SetQtyDistinct(ts: seq<Target>, t: string, q: int)
    requires DistinctTargets(ts)
    ensures DistinctTargets(SetQty(ts, t, q))
  {
  }

  lemma {:induction false} DropDistinct(ts: seq<Target>, t: string)
    requires DistinctTargets(ts)
    ensures DistinctTargets(Drop(ts, t))
  {
    if |ts| > 0 {
      DropDistinct(ts[1..], t);
      DropMembers(ts[1..], t);
      if ts[0].ticker != t {
        var r := Drop(ts, t);
        assert r == [ts[0]] + Drop(ts[1..], t);
        forall j | 1 <= j < |r| ensures r[j].ticker != ts[0].ticker {
          assert r[j] in ts[1..];
        }
      }
    }
  }

  /** In a frame with unique tickers, the lookup of a row's ticker finds
      that row's qty. */
  lemma {:induction false} FindFirst(ts: seq<Target>, i: nat)
    requires DistinctTargets(ts) && i < |ts|
    ensures FindTarget(ts, ts[i].ticker) == Some(ts[i].qty)
  {
    if i > 0 {
      assert ts[1..][i - 1] == ts[i];
      FindFirst(ts[1..], i - 1);
    }
  }

  /** A row of a frame with unique tickers is what a lookup of its ticker
      finds. */
  lemma FindMember(ts: seq<Target>, x: Target)
    requires DistinctTargets(ts) && x in ts
    ensures FindTarget(ts, x.ticker) == Some(x.qty)
  {
    var i :| 0 <= i < |ts| && ts[i] == x;
    FindFirst(ts, i);
  }
}
