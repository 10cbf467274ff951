/**
 * The feature builder of the training pipeline: epsilon-guarded ratios, the
 * per-row base columns, trailing time windows per `(serverId, token)` group,
 * the context streams (balances, gas, contract transactions) joined "as of"
 * each trade, and the final choice of feature and categorical columns.
 *
 * Times are whole seconds. Rolling standard deviations are not computed here:
 * where the source divides by one, the deviation is an input.
 */
module Features {
  import opened Wrappers
  import opened Frames
  import Strings
  import Sorting
  import Config
  import opened Arith

  // ---------------------------------------------------------------------------
  // _safe_ratio
  // ---------------------------------------------------------------------------

  /**
   * `numerator / (denominator + eps)`. A missing operand, or a divisor that is
   * exactly zero (a result pandas would give as infinite or `NaN`), gives `None`.
   */
  function SafeRatio(x: Option<real>, d: Option<real>, eps: real): (r: Option<real>)
    ensures r.Some? <==> x.Some? && d.Some? && d.value + eps != 0.0
    ensures r.Some? ==> r.value * (d.value + eps) == x.value
  {
    if x.Some? && d.Some? && d.value + eps != 0.0 then Some(x.value / (d.value + eps)) else None
  }

  /** A zero denominator divides by `eps` alone. */
  lemma SafeRatioZeroDenominator(x: real, eps: real)
    requires eps != 0.0
    ensures SafeRatio(Some(x), Some(0.0), eps) == Some(x / eps)
  {
  }

  // ---------------------------------------------------------------------------
  // _add_base_columns
  // ---------------------------------------------------------------------------

  /**
   * `pd.to_numeric(..., errors="coerce")` of a row's cell: a missing column
   * gives a missing value, text is parsed by `parse`.
   */
  function Numeric(row: Row, col: string, parse: string -> Option<real>): (v: Option<real>)
    ensures col !in row ==> v.None?
    ensures col in row && row[col].Num? ==> v == Some(row[col].n)
    ensures col in row && row[col].Text? ==> v == parse(row[col].s)
    ensures col in row && (row[col].Null? || row[col].Time?) ==> v.None?
  {
    ToNumber(Get(row, col), parse)
  }

  function OrZero(v: Option<real>): real {
    v.GetOr(0.0)
  }

  /** `qty.fillna(0) * price.fillna(0)`. */
  function Notional(qty: Option<real>, price: Option<real>): (n: real)
    ensures qty.Some? && price.Some? ==> n == qty.value * price.value
    ensures qty.None? || price.None? ==> n == 0.0
  {
    OrZero(qty) * OrZero(price)
  }

  /** A trade row after `_add_base_columns`. */
  datatype BaseRow = BaseRow(
    executedQtyDst: Option<real>,
    executedDstPrice: Option<real>,
    executedQtySrc: Option<real>,
    executedSrcPrice: Option<real>,
    buyDiffBps: Option<real>,
    sellDiffBps: Option<real>,
    cexVol: Option<real>,
    dexVolume: Option<real>,
    serverBuy: Option<real>,
    serverSell: Option<real>,
    netProfit: Option<real>,
    grossNotionalDst: real,
    grossNotionalSrc: real,
    tradePnLRatio: Option<real>,
    spreadMid: Option<real>,
    liquidityImbalance: Option<real>,
    hasRejectReason: nat)

  /**
   * The derived columns of one row. A numeric column the frame lacks is missing,
   * not an error; gross notionals count a missing quantity or price as 0.
   */
  function BaseColumns(row: Row, eps: real, parse: string -> Option<real>): (b: BaseRow)
    ensures "executedQtyDst" !in row ==> b.executedQtyDst == None
    ensures "netProfit" !in row ==> b.netProfit == None && b.tradePnLRatio == None
    ensures b.executedQtyDst.Some? && b.executedDstPrice.Some? ==>
      b.grossNotionalDst == b.executedQtyDst.value * b.executedDstPrice.value
    ensures b.executedQtyDst == None || b.executedDstPrice == None ==> b.grossNotionalDst == 0.0
    ensures b.executedQtySrc == None || b.executedSrcPrice == None ==> b.grossNotionalSrc == 0.0
    ensures b.tradePnLRatio == SafeRatio(b.netProfit, Some(b.grossNotionalDst), eps)
    ensures b.spreadMid.Some? <==> b.buyDiffBps.Some? && b.sellDiffBps.Some?
    ensures b.spreadMid.Some? ==> 2.0 * b.spreadMid.value == b.buyDiffBps.value + b.sellDiffBps.value
    ensures b.liquidityImbalance == SafeRatio(b.cexVol, b.dexVolume, eps)
    ensures b.hasRejectReason == 1 <==> Get(row, "rejectReason") != Null
    ensures b.hasRejectReason <= 1
  {
    var qd := Numeric(row, "executedQtyDst", parse);
    var pd := Numeric(row, "executedDstPrice", parse);
    var qs := Numeric(row, "executedQtySrc", parse);
    var ps := Numeric(row, "executedSrcPrice", parse);
    var buy := Numeric(row, "buyDiffBps", parse);
    var sell := Numeric(row, "sellDiffBps", parse);
    var cex := Numeric(row, "cexVol", parse);
    var dex := Numeric(row, "dexVolume", parse);
    var net := Numeric(row, "netProfit", parse);
    var gd := Notional(qd, pd);
    BaseRow(
      qd, pd, qs, ps, buy, sell, cex, dex,
      Numeric(row, "serverBuy", parse), Numeric(row, "serverSell", parse), net,
      gd, Notional(qs, ps),
      SafeRatio(net, Some(gd), eps),
      Mid(buy, sell),
      SafeRatio(cex, dex, eps),
      RejectFlag(row))
  }

  /** `(buyDiffBps + sellDiffBps) / 2`, missing when either side is. */
  function Mid(buy: Option<real>, sell: Option<real>): (m: Option<real>)
    ensures m.Some? <==> buy.Some? && sell.Some?
    ensures m.Some? ==> 2.0 * m.value == buy.value + sell.value
  {
    if buy.Some? && sell.Some? then Some((buy.value + sell.value) / 2.0) else None
  }

  /** `rejectReason.notna()` as 0 or 1. */
  function RejectFlag(row: Row): (f: nat)
    ensures f <= 1
    ensures f == 1 <==> Get(row, "rejectReason") != Null
  {
    if Get(row, "rejectReason") != Null then 1 else 0
  }

  function AddBaseColumns(rows: seq<Row>, eps: real, parse: string -> Option<real>): (out: seq<BaseRow>)
    ensures |out| == |rows|
    ensures forall i :: 0 <= i < |rows| ==> out[i] == BaseColumns(rows[i], eps, parse)
  {
    seq(|rows|, i requires 0 <= i < |rows| => BaseColumns(rows[i], eps, parse))
  }

  // ---------------------------------------------------------------------------
  // _apply_rolling_features
  // ---------------------------------------------------------------------------

  /** A trade as a rolling window sees it: its group key, its time and the rolled value. */
  datatype Obs = Obs(server: Option<string>, token: Option<string>, t: int, x: Option<real>)

  /** The same input before rows without a time are dropped. */
  datatype RawObs = RawObs(server: Option<string>, token: Option<string>, t: Option<int>, x: Option<real>)

  /** `groupby(["serverId", token])` drops rows with a missing key from every group. */
  predicate SameGroup(a: Obs, b: Obs) {
    a.server.Some? && a.token.Some? && a.server == b.server && a.token == b.token
  }

  predicate SortedByTime(rows: seq<Obs>) {
    forall i, j :: 0 <= i < j < |rows| ==> rows[i].t <= rows[j].t
  }

  /**
   * Row `j` is in row `i`'s trailing window of width `w`: same group, not
   * after `i` in the time-sorted frame, and time above `t_i - w`.
   */
  predicate InWindow(rows: seq<Obs>, i: nat, j: nat, w: nat)
    requires i < |rows| && j < |rows|
  {
    j <= i && SameGroup(rows[j], rows[i]) && rows[i].t - w < rows[j].t
  }

  /** Row `j` contributes a value to row `i`'s window. */
  predicate Counts(rows: seq<Obs>, i: nat, j: nat, w: nat)
    requires i < |rows| && j < |rows|
  {
    InWindow(rows, i, j, w) && rows[j].x.Some?
  }

  function WindowSum(rows: seq<Obs>, i: nat, w: nat, m: nat): real
    requires i < |rows| && m <= |rows|
  {
    if m == 0 then 0.0
    else WindowSum(rows, i, w, m - 1) + (if Counts(rows, i, m - 1, w) then rows[m - 1].x.value else 0.0)
  }

  function WindowCount(rows: seq<Obs>, i: nat, w: nat, m: nat): nat
    requires i < |rows| && m <= |rows|
  {
    if m == 0 then 0
    else WindowCount(rows, i, w, m - 1) + (if Counts(rows, i, m - 1, w) then 1 else 0)
  }

  function Max(a: Option<real>, v: real): real {
    if a.Some? && a.value >= v then a.value else v
  }

  function Min(a: Option<real>, v: real): real {
    if a.Some? && a.value <= v then a.value else v
  }

  function WindowMax(rows: seq<Obs>, i: nat, w: nat, m: nat): (r: Option<real>)
    requires i < |rows| && m <= |rows|
    ensures r.Some? <==> WindowCount(rows, i, w, m) > 0
  {
    if m == 0 then None
    else
      var pre := WindowMax(rows, i, w, m - 1);
      if Counts(rows, i, m - 1, w) then Some(Max(pre, rows[m - 1].x.value)) else pre
  }

  function WindowMin(rows: seq<Obs>, i: nat, w: nat, m: nat): (r: Option<real>)
    requires i < |rows| && m <= |rows|
    ensures r.Some? <==> WindowCount(rows, i, w, m) > 0
  {
    if m == 0 then None
    else
      var pre := WindowMin(rows, i, w, m - 1);
      if Counts(rows, i, m - 1, w) then Some(Min(pre, rows[m - 1].x.value)) else pre
  }

  /** `rolling(...).mean()` at row `i`: missing when no value of the window is present. */
  function RollingMean(rows: seq<Obs>, i: nat, w: nat): Option<real>
    requires i < |rows|
  {
    var n := WindowCount(rows, i, w, i + 1);
    if n == 0 then None else Some(WindowSum(rows, i, w, i + 1) / n as real)
  }

  /** Mean, maximum and minimum of one row's window. */
  datatype Aggregates = Aggregates(mean: Option<real>, max: Option<real>, min: Option<real>)

  /** The `_mean_`, `_max_` and `_min_` columns at row `i`, scanning the rows up to `i`. */
  method RollingAggregates(rows: seq<Obs>, i: nat, w: nat) returns (agg: Aggregates)
    requires i < |rows|
    ensures agg.mean == RollingMean(rows, i, w)
    ensures agg.max == WindowMax(rows, i, w, i + 1)
    ensures agg.min == WindowMin(rows, i, w, i + 1)
  {
    var sum, count := 0.0, 0;
    var hi, lo: Option<real> := None, None;
    var j := 0;
    while j <= i
      invariant 0 <= j <= i + 1
      invariant sum == WindowSum(rows, i, w, j) && count == WindowCount(rows, i, w, j)
      invariant hi == WindowMax(rows, i, w, j) && lo == WindowMin(rows, i, w, j)
    {
      var r := rows[j];
      if j <= i && SameGroup(r, rows[i]) && rows[i].t - w < r.t && r.x.Some? {
        sum := sum + r.x.value;
        count := count + 1;
        hi := Some(Max(hi, r.x.value));
        lo := Some(Min(lo, r.x.value));
      }
      j := j + 1;
    }
    agg := Aggregates(if count == 0 then None else Some(sum / count as real), hi, lo);
  }

  /** Every window member is an earlier-or-equal row of the same group within `w` before row `i`. */
  lemma WindowIsTrailing(rows: seq<Obs>, i: nat, j: nat, w: nat)
    requires i < |rows| && j < |rows| && SortedByTime(rows) && InWindow(rows, i, j, w)
    ensures j <= i && rows[i].t - w < rows[j].t <= rows[i].t
    ensures rows[j].server == rows[i].server && rows[j].token == rows[i].token
    ensures rows[i].server.Some? && rows[i].token.Some?
  {
  }

  lemma {:induction false} WindowIgnoresLaterPrefix(rows: seq<Obs>, other: seq<Obs>, i: nat, w: nat, m: nat)
    requires i < |rows| && i < |other| && rows[..i + 1] == other[..i + 1] && m <= i + 1
    ensures WindowSum(rows, i, w, m) == WindowSum(other, i, w, m)
    ensures WindowCount(rows, i, w, m) == WindowCount(other, i, w, m)
    ensures WindowMax(rows, i, w, m) == WindowMax(other, i, w, m)
    ensures WindowMin(rows, i, w, m) == WindowMin(other, i, w, m)
  {
    if m > 0 {
      WindowIgnoresLaterPrefix(rows, other, i, w, m - 1);
      assert rows[m - 1] == rows[..i + 1][m - 1] == other[m - 1];
      assert rows[i] == rows[..i + 1][i] == other[i];
    }
  }

  /** No later row influences a row's rolling aggregates: frames that agree up to row `i` give the same values there. */
  lemma RollingIgnoresLater(rows: seq<Obs>, other: seq<Obs>, i: nat, w: nat)
    requires i < |rows| && i < |other| && rows[..i + 1] == other[..i + 1]
    ensures RollingMean(rows, i, w) == RollingMean(other, i, w)
    ensures WindowMax(rows, i, w, i + 1) == WindowMax(other, i, w, i + 1)
    ensures WindowMin(rows, i, w, i + 1) == WindowMin(other, i, w, i + 1)
  {
    WindowIgnoresLaterPrefix(rows, other, i, w, i + 1);
  }

  /** Every value counted in the first `m` rows lies between the running minimum and maximum. */
  lemma {:induction false} WindowExtremes(rows: seq<Obs>, i: nat, w: nat, m: nat, j: nat)
    requires i < |rows| && j < m <= |rows| && Counts(rows, i, j, w)
    ensures WindowCount(rows, i, w, m) > 0
    ensures WindowMin(rows, i, w, m).value <= rows[j].x.value <= WindowMax(rows, i, w, m).value
  {
    if j < m - 1 {
      WindowExtremes(rows, i, w, m - 1, j);
    }
  }

  lemma {:induction false} WindowSumAtMost(rows: seq<Obs>, i: nat, w: nat, m: nat, b: real)
    requires i < |rows| && m <= |rows|
    requires forall j :: 0 <= j < m && Counts(rows, i, j, w) ==> rows[j].x.value <= b
    ensures WindowSum(rows, i, w, m) <= b * WindowCount(rows, i, w, m) as real
  {
    if m > 0 {
      WindowSumAtMost(rows, i, w, m - 1, b);
      var c := WindowCount(rows, i, w, m - 1) as real;
      assert b * (c + 1.0) == b * c + b;
    }
  }

  lemma {:induction false} WindowSumAtLeast(rows: seq<Obs>, i: nat, w: nat, m: nat, b: real)
    requires i < |rows| && m <= |rows|
    requires forall j :: 0 <= j < m && Counts(rows, i, j, w) ==> b <= rows[j].x.value
    ensures b * WindowCount(rows, i, w, m) as real <= WindowSum(rows, i, w, m)
  {
    if m > 0 {
      WindowSumAtLeast(rows, i, w, m - 1, b);
      var c := WindowCount(rows, i, w, m - 1) as real;
      assert b * (c + 1.0) == b * c + b;
    }
  }

  /** Every value counted in the first `m` rows lies between their minimum and maximum. */
  lemma WindowBounds(rows: seq<Obs>, i: nat, w: nat, m: nat)
    requires i < |rows| && m <= |rows| && WindowCount(rows, i, w, m) > 0
    ensures forall j :: 0 <= j < m && Counts(rows, i, j, w) ==>
      WindowMin(rows, i, w, m).value <= rows[j].x.value <= WindowMax(rows, i, w, m).value
  {
    forall j | 0 <= j < m && Counts(rows, i, j, w)
      ensures WindowMin(rows, i, w, m).value <= rows[j].x.value <= WindowMax(rows, i, w, m).value
    {
      WindowExtremes(rows, i, w, m, j);
    }
  }

  /** A present rolling mean lies between the window's minimum and maximum. */
  lemma RollingMeanBetween(rows: seq<Obs>, i: nat, w: nat)
    requires i < |rows| && RollingMean(rows, i, w).Some?
    ensures WindowMin(rows, i, w, i + 1).Some? && WindowMax(rows, i, w, i + 1).Some?
    ensures WindowMin(rows, i, w, i + 1).value <= RollingMean(rows, i, w).value <= WindowMax(rows, i, w, i + 1).value
  {
    var n := WindowCount(rows, i, w, i + 1) as real;
    var s := WindowSum(rows, i, w, i + 1);
    assert n > 0.0 && RollingMean(rows, i, w).value == s / n;
    var lo, hi := WindowMin(rows, i, w, i + 1).value, WindowMax(rows, i, w, i + 1).value;
    WindowBounds(rows, i, w, i + 1);
    WindowSumAtMost(rows, i, w, i + 1, hi);
    WindowSumAtLeast(rows, i, w, i + 1, lo);
    BelowQuotient(lo, s, n);
    AboveQuotient(hi, s, n);
  }

  /**
   * `(x - mean) / std.replace(0, nan)`: a zero rolling deviation gives a missing
   * z-score instead of a division by zero.
   */
  function ZScore(x: Option<real>, mean: Option<real>, std: Option<real>): (z: Option<real>)
    ensures z.Some? <==> x.Some? && mean.Some? && std.Some? && std.value != 0.0
    ensures z.Some? ==> z.value * std.value == x.value - mean.value
  {
    if x.Some? && mean.Some? && std.Some? && std.value != 0.0 then Some((x.value - mean.value) / std.value) else None
  }

  /** Rows with a time, in their original order (`df[df[time].notna()]`). */
  function DropMissingTime(raw: seq<RawObs>): (rows: seq<Obs>)
    ensures |rows| <= |raw|
    ensures forall r :: r in rows <==> exists q :: q in raw && q.t.Some? && r == Obs(q.server, q.token, q.t.value, q.x)
  {
    if raw == [] then []
    else
      var pre := DropMissingTime(raw[..|raw| - 1]);
      var q := raw[|raw| - 1];
      assert raw == raw[..|raw| - 1] + [q];
      pre + (if q.t.Some? then [Obs(q.server, q.token, q.t.value, q.x)] else [])
  }

  function TimeKey(o: Obs): real { o.t as real }

  /** The frame the windows run over: rows with a time, sorted by time. */
  function RollingFrame(raw: seq<RawObs>): (rows: seq<Obs>)
    ensures SortedByTime(rows)
    ensures multiset(rows) == multiset(DropMissingTime(raw))
  {
    Sorting.SortBy(DropMissingTime(raw), TimeKey)
  }

  /** One rolled column: the aggregates of every row of the rolling frame. */
  method ApplyRolling(raw: seq<RawObs>, w: nat) returns (rows: seq<Obs>, aggs: seq<Aggregates>)
    ensures rows == RollingFrame(raw) && |aggs| == |rows|
    ensures forall i :: 0 <= i < |rows| ==>
      aggs[i].mean == RollingMean(rows, i, w) &&
      aggs[i].max == WindowMax(rows, i, w, i + 1) &&
      aggs[i].min == WindowMin(rows, i, w, i + 1)
  {
    rows := RollingFrame(raw);
    aggs := [];
    for i := 0 to |rows|
      invariant |aggs| == i
      invariant forall k :: 0 <= k < i ==>
        aggs[k].mean == RollingMean(rows, k, w) &&
        aggs[k].max == WindowMax(rows, k, w, k + 1) &&
        aggs[k].min == WindowMin(rows, k, w, k + 1)
    {
      var a := RollingAggregates(rows, i, w);
      aggs := aggs + [a];
    }
  }

  // ---------------------------------------------------------------------------
  // Context streams: _prepare_balances_features, _prepare_gas_features,
  // _prepare_contract_features
  // ---------------------------------------------------------------------------

  /** Row `j` is the first row with its time (`drop_duplicates` keeps it). */
  predicate FirstOfTime<T>(rows: seq<T>, time: T -> int, j: nat)
    requires j < |rows|
  {
    forall k :: 0 <= k < j ==> time(rows[k]) != time(rows[j])
  }

  predicate IncreasingTimes<T>(rows: seq<T>, time: T -> int) {
    forall a, b :: 0 <= a < b < |rows| ==> time(rows[a]) < time(rows[b])
  }

  predicate NondecreasingTimes<T>(rows: seq<T>, time: T -> int) {
    forall a, b :: 0 <= a < b < |rows| ==> time(rows[a]) <= time(rows[b])
  }

  /** `drop_duplicates(subset="feature_ts")`: the first row of each time, in input order. */
  function KeepFirst<T>(rows: seq<T>, time: T -> int): seq<T> {
    if rows == [] then []
    else
      var pre := rows[..|rows| - 1];
      KeepFirst(pre, time) + (if FirstOfTime(rows, time, |rows| - 1) then [rows[|rows| - 1]] else [])
  }

  /** The kept rows are exactly the first rows of their times. */
  lemma {:induction false} KeepFirstMembers<T>(rows: seq<T>, time: T -> int)
    ensures forall j :: 0 <= j < |rows| && FirstOfTime(rows, time, j) ==> rows[j] in KeepFirst(rows, time)
    ensures forall x :: x in KeepFirst(rows, time) ==>
      exists j :: 0 <= j < |rows| && FirstOfTime(rows, time, j) && rows[j] == x
  {
    KeepFirstKeeps(rows, time);
    KeepFirstOnly(rows, time);
  }

  /** Dropping the last row leaves the first-of-time status of the others unchanged. */
  lemma FirstOfTimePrefix<T>(rows: seq<T>, time: T -> int, j: nat)
    requires j < |rows| - 1
    ensures FirstOfTime(rows[..|rows| - 1], time, j) <==> FirstOfTime(rows, time, j)
    ensures rows[..|rows| - 1][j] == rows[j]
  {
  }

  lemma {:induction false} KeepFirstKeeps<T>(rows: seq<T>, time: T -> int)
    ensures forall j :: 0 <= j < |rows| && FirstOfTime(rows, time, j) ==> rows[j] in KeepFirst(rows, time)
  {
    if rows != [] {
      var pre := rows[..|rows| - 1];
      KeepFirstKeeps(pre, time);
      forall j | 0 <= j < |rows| && FirstOfTime(rows, time, j)
        ensures rows[j] in KeepFirst(rows, time)
      {
        if j < |pre| {
          FirstOfTimePrefix(rows, time, j);
          assert pre[j] in KeepFirst(pre, time);
        }
      }
    }
  }

  lemma {:induction false} KeepFirstOnly<T>(rows: seq<T>, time: T -> int)
    ensures forall x :: x in KeepFirst(rows, time) ==>
      exists j :: 0 <= j < |rows| && FirstOfTime(rows, time, j) && rows[j] == x
  {
    if rows != [] {
      var pre := rows[..|rows| - 1];
      KeepFirstOnly(pre, time);
      forall x | x in KeepFirst(rows, time)
        ensures exists j :: 0 <= j < |rows| && FirstOfTime(rows, time, j) && rows[j] == x
      {
        if x in KeepFirst(pre, time) {
          var j :| 0 <= j < |pre| && FirstOfTime(pre, time, j) && pre[j] == x;
          FirstOfTimePrefix(rows, time, j);
        } else {
          assert FirstOfTime(rows, time, |rows| - 1) && rows[|rows| - 1] == x;
        }
      }
    }
  }

  /** No two kept rows share a time; from time-sorted rows they come out strictly increasing. */
  lemma {:induction false} KeepFirstDistinct<T>(rows: seq<T>, time: T -> int)
    ensures forall a, b :: 0 <= a < b < |KeepFirst(rows, time)| ==>
      time(KeepFirst(rows, time)[a]) != time(KeepFirst(rows, time)[b])
    ensures NondecreasingTimes(rows, time) ==> IncreasingTimes(KeepFirst(rows, time), time)
  {
    if rows != [] {
      var pre := rows[..|rows| - 1];
      var last := rows[|rows| - 1];
      var r0 := KeepFirst(pre, time);
      KeepFirstDistinct(pre, time);
      KeepFirstMembers(pre, time);
      if FirstOfTime(rows, time, |rows| - 1) {
        forall a | 0 <= a < |r0|
          ensures time(r0[a]) != time(last)
          ensures NondecreasingTimes(rows, time) ==> time(r0[a]) < time(last)
        {
          assert r0[a] in r0;
          var j :| 0 <= j < |pre| && FirstOfTime(pre, time, j) && pre[j] == r0[a];
          assert rows[j] == r0[a];
        }
        assert NondecreasingTimes(rows, time) ==> NondecreasingTimes(pre, time);
      }
    }
  }

  /** Times of a row of each context stream. */
  function BalanceTime(b: BalanceFeat): int { b.t }
  function GasTime(g: GasFeat): int { g.t }
  function ContractTime(c: ContractFeat): int { c.t }

  datatype BalanceRow = BalanceRow(t: int, totalUsdt: Option<real>, totalDexUsdt: Option<real>, totalCexUsdt: Option<real>)

  /** A balance snapshot with one `balanceDelta_<w>h` value per configured hour window. */
  datatype BalanceFeat = BalanceFeat(t: int, deltas: seq<real>, totalUsdt: Option<real>, totalDexUsdt: Option<real>, totalCexUsdt: Option<real>)

  /**
   * `total_usdt.diff(periods=p).fillna(0)` at row `i`: the change since the row
   * `p` positions earlier (a lag in rows, not in hours); 0 where either value
   * is missing or there is no such row.
   */
  function BalanceDelta(rows: seq<BalanceRow>, p: nat, i: nat): (d: real)
    requires i < |rows|
    ensures i < p ==> d == 0.0
    ensures i >= p && rows[i].totalUsdt.Some? && rows[i - p].totalUsdt.Some? ==>
      rows[i - p].totalUsdt.value + d == rows[i].totalUsdt.value
    ensures rows[i].totalUsdt.None? ==> d == 0.0
  {
    if i >= p && rows[i].totalUsdt.Some? && rows[i - p].totalUsdt.Some? then
      rows[i].totalUsdt.value - rows[i - p].totalUsdt.value
    else 0.0
  }

  function BalanceRowTime(b: BalanceRow): real { b.t as real }
  function BalanceRowT(b: BalanceRow): int { b.t }

  /** Rows whose times agree position by position have their first-of-time rows at the same positions. */
  lemma FirstOfTimeAcross<T, U>(a: seq<T>, ta: T -> int, b: seq<U>, tb: U -> int)
    requires |a| == |b| && forall k :: 0 <= k < |a| ==> ta(a[k]) == tb(b[k])
    ensures forall j :: 0 <= j < |a| ==> (FirstOfTime(a, ta, j) <==> FirstOfTime(b, tb, j))
  {
  }

  /** Row `i` of the time-sorted balances with its `balanceDelta_<w>h` values; the totals are copied. */
  function BalanceFeatAt(sorted: seq<BalanceRow>, windowsHours: seq<nat>, i: nat): (b: BalanceFeat)
    requires i < |sorted|
    ensures b.t == sorted[i].t && |b.deltas| == |windowsHours|
    ensures forall k :: 0 <= k < |windowsHours| ==> b.deltas[k] == BalanceDelta(sorted, windowsHours[k], i)
    ensures b.totalUsdt == sorted[i].totalUsdt && b.totalDexUsdt == sorted[i].totalDexUsdt && b.totalCexUsdt == sorted[i].totalCexUsdt
  {
    BalanceFeat(sorted[i].t, seq(|windowsHours|, k requires 0 <= k < |windowsHours| => BalanceDelta(sorted, windowsHours[k], i)),
                sorted[i].totalUsdt, sorted[i].totalDexUsdt, sorted[i].totalCexUsdt)
  }

  /**
   * The balance features of one server: `None` for no rows; otherwise, of the
   * rows sorted by time, exactly the first row of each time, carrying its
   * deltas (taken over the whole sorted frame) and its totals.
   */
  function PrepareBalances(rows: seq<BalanceRow>, windowsHours: seq<nat>): (r: Option<seq<BalanceFeat>>)
    ensures r.None? <==> rows == []
    ensures r.Some? ==> IncreasingTimes(r.value, BalanceTime)
    ensures r.Some? ==> forall b :: b in r.value ==> |b.deltas| == |windowsHours|
    ensures r.Some? ==> FirstBalanceRows(r.value, Sorting.SortBy(rows, BalanceRowTime), windowsHours)
  {
    if rows == [] then None
    else
      var sorted := Sorting.SortBy(rows, BalanceRowTime);
      BalanceSortedKept(sorted, windowsHours);
      Some(KeepFirst(BalanceFeats(sorted, windowsHours), BalanceTime))
  }

  function BalanceFeats(sorted: seq<BalanceRow>, windowsHours: seq<nat>): (f: seq<BalanceFeat>)
    ensures |f| == |sorted|
    ensures forall i :: 0 <= i < |sorted| ==> f[i] == BalanceFeatAt(sorted, windowsHours, i)
  {
    seq(|sorted|, i requires 0 <= i < |sorted| => BalanceFeatAt(sorted, windowsHours, i))
  }

  /** `feats` holds exactly the features of the first row of each time in `sorted`. */
  ghost predicate FirstBalanceRows(feats: seq<BalanceFeat>, sorted: seq<BalanceRow>, windowsHours: seq<nat>) {
    forall b :: b in feats <==>
      exists i :: 0 <= i < |sorted| && FirstOfTime(sorted, BalanceRowT, i) && b == BalanceFeatAt(sorted, windowsHours, i)
  }

  /** Of time-sorted balance rows, the kept features have increasing times and are the first rows of their times. */
  lemma BalanceSortedKept(sorted: seq<BalanceRow>, windowsHours: seq<nat>)
    requires Sorting.SortedBy(sorted, BalanceRowTime)
    ensures var kept := KeepFirst(BalanceFeats(sorted, windowsHours), BalanceTime);
      IncreasingTimes(kept, BalanceTime) &&
      (forall b :: b in kept ==> |b.deltas| == |windowsHours|) &&
      FirstBalanceRows(kept, sorted, windowsHours)
  {
    var feats := BalanceFeats(sorted, windowsHours);
    var kept := KeepFirst(feats, BalanceTime);
    assert NondecreasingTimes(feats, BalanceTime) by {
      forall a, b | 0 <= a < b < |feats| ensures BalanceTime(feats[a]) <= BalanceTime(feats[b]) {
        assert BalanceRowTime(sorted[a]) <= BalanceRowTime(sorted[b]);
      }
    }
    KeepFirstDistinct(feats, BalanceTime);
    KeepFirstMembers(feats, BalanceTime);
    FirstOfTimeAcross(feats, BalanceTime, sorted, BalanceRowT);
    forall b | b in kept
      ensures |b.deltas| == |windowsHours|
      ensures exists i :: 0 <= i < |sorted| && FirstOfTime(sorted, BalanceRowT, i) && b == BalanceFeatAt(sorted, windowsHours, i)
    {
      var j :| 0 <= j < |feats| && FirstOfTime(feats, BalanceTime, j) && feats[j] == b;
    }
    forall i | 0 <= i < |sorted| && FirstOfTime(sorted, BalanceRowT, i)
      ensures BalanceFeatAt(sorted, windowsHours, i) in kept
    {
      assert feats[i] == BalanceFeatAt(sorted, windowsHours, i);
    }
  }


  datatype GasRow = GasRow(t: int, gas: Option<real>, isLow: Option<real>)
  datatype GasFeat = GasFeat(t: int, gasBalance: Option<real>, isLowGas: Option<real>)

  function GasRowTime(g: GasRow): real { g.t as real }
  function GasRowT(g: GasRow): int { g.t }

  /** Row `i` of the time-sorted gas readings: `gas` as `gasBalance`, `is_low` (or 0) as `isLowGas`. */
  function GasFeatAt(sorted: seq<GasRow>, hasIsLow: bool, i: nat): (g: GasFeat)
    requires i < |sorted|
    ensures g.t == sorted[i].t && g.gasBalance == sorted[i].gas
    ensures hasIsLow ==> g.isLowGas == sorted[i].isLow
    ensures !hasIsLow ==> g.isLowGas == Some(0.0)
  {
    GasFeat(sorted[i].t, sorted[i].gas, if hasIsLow then sorted[i].isLow else Some(0.0))
  }

  /**
   * The gas features of one server: of the readings sorted by time, exactly
   * the first of each time. `isLowGas` copies `is_low`, or is 0 on every row
   * when the frame has no `is_low` column (`hasIsLow` false).
   */
  function PrepareGas(rows: seq<GasRow>, hasIsLow: bool): (r: Option<seq<GasFeat>>)
    ensures r.None? <==> rows == []
    ensures r.Some? ==> IncreasingTimes(r.value, GasTime)
    ensures r.Some? && !hasIsLow ==> forall g :: g in r.value ==> g.isLowGas == Some(0.0)
    ensures r.Some? ==> FirstGasReadings(r.value, Sorting.SortBy(rows, GasRowTime), hasIsLow)
  {
    if rows == [] then None
    else
      var sorted := Sorting.SortBy(rows, GasRowTime);
      GasSortedKept(sorted, hasIsLow);
      Some(KeepFirst(GasFeats(sorted, hasIsLow), GasTime))
  }

  /** `feats` holds exactly the features of the first reading of each time in `sorted`. */
  ghost predicate FirstGasReadings(feats: seq<GasFeat>, sorted: seq<GasRow>, hasIsLow: bool) {
    forall g :: g in feats <==>
      exists i :: 0 <= i < |sorted| && FirstOfTime(sorted, GasRowT, i) && g == GasFeatAt(sorted, hasIsLow, i)
  }

  /** Of time-sorted gas readings, the kept features have increasing times, and without `is_low` every flag is 0. */
  lemma GasSortedKept(sorted: seq<GasRow>, hasIsLow: bool)
    requires Sorting.SortedBy(sorted, GasRowTime)
    ensures var kept := KeepFirst(GasFeats(sorted, hasIsLow), GasTime);
      IncreasingTimes(kept, GasTime) &&
      (!hasIsLow ==> forall g :: g in kept ==> g.isLowGas == Some(0.0)) &&
      FirstGasReadings(kept, sorted, hasIsLow)
  {
    var feats := GasFeats(sorted, hasIsLow);
    var kept := KeepFirst(feats, GasTime);
    assert NondecreasingTimes(feats, GasTime) by {
      forall a, b | 0 <= a < b < |feats| ensures GasTime(feats[a]) <= GasTime(feats[b]) {
        assert GasRowTime(sorted[a]) <= GasRowTime(sorted[b]);
      }
    }
    KeepFirstDistinct(feats, GasTime);
    GasKept(sorted, hasIsLow);
    forall g | g in kept ensures !hasIsLow ==> g.isLowGas == Some(0.0) {
      var i :| 0 <= i < |sorted| && FirstOfTime(sorted, GasRowT, i) && g == GasFeatAt(sorted, hasIsLow, i);
    }
  }


  function GasFeats(sorted: seq<GasRow>, hasIsLow: bool): (f: seq<GasFeat>)
    ensures |f| == |sorted|
    ensures forall i :: 0 <= i < |sorted| ==> f[i] == GasFeatAt(sorted, hasIsLow, i)
  {
    seq(|sorted|, i requires 0 <= i < |sorted| => GasFeatAt(sorted, hasIsLow, i))
  }

  /** The kept gas rows are the first readings of their times. */
  lemma GasKept(sorted: seq<GasRow>, hasIsLow: bool)
    ensures forall g :: g in KeepFirst(GasFeats(sorted, hasIsLow), GasTime) <==>
      exists i :: 0 <= i < |sorted| && FirstOfTime(sorted, GasRowT, i) && g == GasFeatAt(sorted, hasIsLow, i)
  {
    var feats := GasFeats(sorted, hasIsLow);
    var kept := KeepFirst(feats, GasTime);
    KeepFirstMembers(feats, GasTime);
    FirstOfTimeAcross(feats, GasTime, sorted, GasRowT);
    forall g | g in kept
      ensures exists i :: 0 <= i < |sorted| && FirstOfTime(sorted, GasRowT, i) && g == GasFeatAt(sorted, hasIsLow, i)
    {
      var j :| 0 <= j < |feats| && FirstOfTime(feats, GasTime, j) && feats[j] == g;
    }
    forall i | 0 <= i < |sorted| && FirstOfTime(sorted, GasRowT, i)
      ensures GasFeatAt(sorted, hasIsLow, i) in kept
    {
      assert feats[i] == GasFeatAt(sorted, hasIsLow, i);
    }
  }

  /** The `rolling("1H")` window: a row at time `t` counts the rows in `(t - 3600, t]`. */
  const HourSeconds: nat := 3600

  datatype ContractRow = ContractRow(t: int, isError: int)
  datatype ContractFeat = ContractFeat(t: int, isError: int, errorCount1h: int)

  /** A contract row with its position in the input frame (its index label). */
  datatype Labelled = Labelled(index: nat, row: ContractRow)

  function LabelledTime(l: Labelled): real { l.row.t as real }

  function Label(rows: seq<ContractRow>): (ls: seq<Labelled>)
    ensures |ls| == |rows|
    ensures forall i :: 0 <= i < |rows| ==> ls[i] == Labelled(i, rows[i])
  {
    seq(|rows|, i requires 0 <= i < |rows| => Labelled(i, rows[i]))
  }

  /** The input rows sorted by time (`sort_values`), each still carrying its index label. */
  function SortedContracts(rows: seq<ContractRow>): (ls: seq<Labelled>)
    ensures |ls| == |rows|
    ensures forall i :: 0 <= i < |ls| ==> ls[i].index < |rows|
    ensures Sorting.SortedBy(ls, LabelledTime)
  {
    var ls := Sorting.SortBy(Label(rows), LabelledTime);
    Sorting.SortByMembers(Label(rows), LabelledTime);
    assert forall i :: 0 <= i < |ls| ==> ls[i].index < |rows| by {
      forall i | 0 <= i < |ls| ensures ls[i].index < |rows| {
        assert ls[i] in Label(rows);
      }
    }
    ls
  }

  /** `isError.rolling("1H").sum()` at sorted position `p`: errors at positions up to `p` within the hour. */
  function ErrorCountAt(ls: seq<Labelled>, p: nat, m: nat): int
    requires p < |ls| && m <= |ls|
  {
    if m == 0 then 0
    else
      ErrorCountAt(ls, p, m - 1) +
      (if m - 1 <= p && ls[p].row.t - HourSeconds < ls[m - 1].row.t then ls[m - 1].row.isError else 0)
  }

  /** Sorted rows with the rolling sum taken at the position named by each row's index label. */
  function MisalignedCounts(ls: seq<Labelled>): (f: seq<ContractFeat>)
    requires forall p :: 0 <= p < |ls| ==> ls[p].index < |ls|
    ensures |f| == |ls|
    ensures forall p :: 0 <= p < |ls| ==>
      f[p] == ContractFeat(ls[p].row.t, ls[p].row.isError, ErrorCountAt(ls, ls[p].index, |ls|))
  {
    seq(|ls|, p requires 0 <= p < |ls| => ContractFeat(ls[p].row.t, ls[p].row.isError, ErrorCountAt(ls, ls[p].index, |ls|)))
  }

  /** Sorted rows with the rolling sum taken at each row's own position. */
  function AlignedCounts(ls: seq<Labelled>): (f: seq<ContractFeat>)
    ensures |f| == |ls|
    ensures forall p :: 0 <= p < |ls| ==>
      f[p] == ContractFeat(ls[p].row.t, ls[p].row.isError, ErrorCountAt(ls, p, |ls|))
  {
    seq(|ls|, p requires 0 <= p < |ls| => ContractFeat(ls[p].row.t, ls[p].row.isError, ErrorCountAt(ls, p, |ls|)))
  }

  /**
   * `errorCount1h` as the source assigns it: the rolling sums are re-indexed
   * 0..n-1 in sorted order and then aligned with the frame by index label, so
   * the row with label `L` receives the sum computed at sorted position `L`.
   */
  function ContractFeaturesAsWritten(rows: seq<ContractRow>): (r: Option<seq<ContractFeat>>)
    ensures r.None? <==> rows == []
  {
    if rows == [] then None
    else
      Some(KeepFirst(MisalignedCounts(SortedContracts(rows)), ContractTime))
  }

  function LabelledT(l: Labelled): int { l.row.t }

  /**
   * `errorCount1h` aligned by sorted position: of the rows sorted by time,
   * exactly the first of each time, each with the errors of the hour up to and
   * including its own position.
   */
  function ContractFeatures(rows: seq<ContractRow>): (r: Option<seq<ContractFeat>>)
    ensures r.None? <==> rows == []
    ensures r.Some? ==> IncreasingTimes(r.value, ContractTime)
    ensures r.Some? ==> FirstContracts(r.value, SortedContracts(rows))
    ensures r.Some? && (forall i :: 0 <= i < |rows| ==> 0 <= rows[i].isError <= 1) ==>
      forall c :: c in r.value ==> c.isError <= c.errorCount1h
  {
    if rows == [] then None
    else
      ContractsKept(rows);
      Some(KeepFirst(AlignedCounts(SortedContracts(rows)), ContractTime))
  }

  /**
   * `feats` holds exactly the features of the first row of each time in the
   * labelled, time-sorted rows `ls`, each with its error count over `ls`.
   */
  ghost predicate FirstContracts(feats: seq<ContractFeat>, ls: seq<Labelled>) {
    forall c :: c in feats <==>
      exists p :: 0 <= p < |ls| && FirstOfTime(ls, LabelledT, p) &&
        c == ContractFeat(ls[p].row.t, ls[p].row.isError, ErrorCountAt(ls, p, |ls|))
  }

  /** The kept contract features have increasing times, are the first rows of their times and count their own error. */
  lemma ContractsKept(rows: seq<ContractRow>)
    ensures var kept := KeepFirst(AlignedCounts(SortedContracts(rows)), ContractTime);
      IncreasingTimes(kept, ContractTime) &&
      FirstContracts(kept, SortedContracts(rows)) &&
      ((forall i :: 0 <= i < |rows| ==> 0 <= rows[i].isError <= 1) ==> forall c :: c in kept ==> c.isError <= c.errorCount1h)
  {
    var ls := SortedContracts(rows);
    var feats := AlignedCounts(ls);
    assert NondecreasingTimes(feats, ContractTime);
    var kept := KeepFirst(feats, ContractTime);
    KeepFirstDistinct(feats, ContractTime);
    KeepFirstMembers(feats, ContractTime);
    FirstOfTimeAcross(feats, ContractTime, ls, LabelledT);
    forall c | c in kept
      ensures exists p :: 0 <= p < |ls| && FirstOfTime(ls, LabelledT, p) &&
                           c == ContractFeat(ls[p].row.t, ls[p].row.isError, ErrorCountAt(ls, p, |ls|))
    {
      var j :| 0 <= j < |feats| && FirstOfTime(feats, ContractTime, j) && feats[j] == c;
    }
    forall p | 0 <= p < |ls| && FirstOfTime(ls, LabelledT, p)
      ensures ContractFeat(ls[p].row.t, ls[p].row.isError, ErrorCountAt(ls, p, |ls|)) in kept
    {
      assert feats[p] == ContractFeat(ls[p].row.t, ls[p].row.isError, ErrorCountAt(ls, p, |ls|));
    }
    if forall i :: 0 <= i < |rows| ==> 0 <= rows[i].isError <= 1 {
      forall c | c in kept ensures c.isError <= c.errorCount1h {
        var j :| 0 <= j < |feats| && FirstOfTime(feats, ContractTime, j) && feats[j] == c;
        ErrorCountCoversOwn(rows, ls, j, |ls|);
      }
    }
  }


  /** With 0/1 error flags, a row's own error is counted in its own window. */
  lemma ErrorCountCoversOwn(rows: seq<ContractRow>, ls: seq<Labelled>, p: nat, m: nat)
    requires ls == SortedContracts(rows) && p < |ls| && m <= |ls|
    requires forall i :: 0 <= i < |rows| ==> 0 <= rows[i].isError <= 1
    ensures ErrorCountAt(ls, p, m) >= 0
    ensures p < m ==> ErrorCountAt(ls, p, m) >= ls[p].row.isError
  {
    SortedFlags(rows);
    OwnErrorCounted(ls, p, m);
  }

  /** Sorting keeps the error flags 0/1. */
  lemma SortedFlags(rows: seq<ContractRow>)
    requires forall i :: 0 <= i < |rows| ==> 0 <= rows[i].isError <= 1
    ensures var ls := SortedContracts(rows);
      forall q :: 0 <= q < |ls| ==> 0 <= ls[q].row.isError <= 1
  {
    var ls := SortedContracts(rows);
    Sorting.SortByMembers(Label(rows), LabelledTime);
    forall q | 0 <= q < |ls| ensures 0 <= ls[q].row.isError <= 1 {
      assert ls[q] in Label(rows);
    }
  }

  lemma OwnErrorCounted(ls: seq<Labelled>, p: nat, m: nat)
    requires p < |ls| && m <= |ls|
    requires forall q :: 0 <= q < |ls| ==> 0 <= ls[q].row.isError <= 1
    ensures ErrorCountAt(ls, p, m) >= 0
    ensures p < m ==> ErrorCountAt(ls, p, m) >= ls[p].row.isError
  {
    ErrorCountNonNegative(ls, p, m);
    if p < m {
      ErrorCountNonNegative(ls, p, p);
      CountMonotone(ls, p, p + 1, m);
    }
  }

  lemma {:induction false} ErrorCountNonNegative(ls: seq<Labelled>, p: nat, m: nat)
    requires p < |ls| && m <= |ls|
    requires forall q :: 0 <= q < |ls| ==> 0 <= ls[q].row.isError <= 1
    ensures ErrorCountAt(ls, p, m) >= 0
  {
    if m > 0 {
      ErrorCountNonNegative(ls, p, m - 1);
    }
  }

  lemma {:induction false} CountMonotone(ls: seq<Labelled>, p: nat, a: nat, b: nat)
    requires p < |ls| && a <= b <= |ls|
    requires forall q :: 0 <= q < |ls| ==> 0 <= ls[q].row.isError <= 1
    ensures ErrorCountAt(ls, p, a) <= ErrorCountAt(ls, p, b)
    decreases b - a
  {
    if a < b {
      CountMonotone(ls, p, a, b - 1);
    }
  }

  /** Rows already in strictly increasing time order are all kept. */
  lemma {:induction false} KeepFirstIncreasing<T>(rows: seq<T>, time: T -> int)
    requires IncreasingTimes(rows, time)
    ensures KeepFirst(rows, time) == rows
  {
    if rows != [] {
      var pre := rows[..|rows| - 1];
      KeepFirstIncreasing(pre, time);
      assert FirstOfTime(rows, time, |rows| - 1);
      assert pre + [rows[|rows| - 1]] == rows;
    }
  }

  lemma SortTwoSwapped(a: Labelled, b: Labelled)
    requires LabelledTime(b) < LabelledTime(a)
    ensures Sorting.SortBy([a, b], LabelledTime) == [b, a]
  {
    assert [a, b][..1] == [a];
    assert Sorting.SortBy([a], LabelledTime) == [a] by {
      assert [a][..0] == [];
    }
  }

  /** The two rows of the counterexample below, and their time-sorted, labelled order. */
  lemma TwoRowsSorted()
    ensures SortedContracts([ContractRow(7200, 0), ContractRow(0, 1)])
      == [Labelled(1, ContractRow(0, 1)), Labelled(0, ContractRow(7200, 0))]
  {
    var rows := [ContractRow(7200, 0), ContractRow(0, 1)];
    assert Label(rows) == [Labelled(0, rows[0]), Labelled(1, rows[1])];
    SortTwoSwapped(Labelled(0, rows[0]), Labelled(1, rows[1]));
  }

  /**
   * Two rows given out of time order: an error at time 0 listed second, and a
   * clean row two hours later listed first. As written, the clean row is
   * credited with the error and the erroneous row with none.
   */
  lemma ContractCountMisaligned()
    ensures ContractFeaturesAsWritten([ContractRow(7200, 0), ContractRow(0, 1)])
      == Some([ContractFeat(0, 1, 0), ContractFeat(7200, 0, 1)])
  {
    var ls := [Labelled(1, ContractRow(0, 1)), Labelled(0, ContractRow(7200, 0))];
    TwoRowsSorted();
    assert ErrorCountAt(ls, 0, 2) == 1;
    assert ErrorCountAt(ls, 1, 2) == 0;
    var feats := [ContractFeat(0, 1, 0), ContractFeat(7200, 0, 1)];
    assert MisalignedCounts(ls) == feats;
    KeepFirstIncreasing(feats, ContractTime);
  }

  /** Aligned by position, the same two rows each receive their own hour's count. */
  lemma ContractCountAligned()
    ensures ContractFeatures([ContractRow(7200, 0), ContractRow(0, 1)])
      == Some([ContractFeat(0, 1, 1), ContractFeat(7200, 0, 0)])
  {
    var ls := [Labelled(1, ContractRow(0, 1)), Labelled(0, ContractRow(7200, 0))];
    TwoRowsSorted();
    assert ErrorCountAt(ls, 0, 2) == 1;
    assert ErrorCountAt(ls, 1, 2) == 0;
    var fixed := [ContractFeat(0, 1, 1), ContractFeat(7200, 0, 0)];
    assert AlignedCounts(ls) == fixed;
    KeepFirstIncreasing(fixed, ContractTime);
  }

  // ---------------------------------------------------------------------------
  // _merge_context_features
  // ---------------------------------------------------------------------------

  /**
   * `merge_asof(..., direction="backward")` for one trade time: the last
   * context row whose time is at or before `t`, or `None`.
   */
  function AsOf<T(!new)>(ctx: seq<T>, time: T -> int, t: int): (r: Option<T>)
    ensures r.Some? ==> r.value in ctx && time(r.value) <= t
    ensures r.None? <==> forall x :: x in ctx ==> time(x) > t
    ensures r.Some? && IncreasingTimes(ctx, time) ==> forall x :: x in ctx && time(x) <= t ==> time(x) <= time(r.value)
  {
    if ctx == [] then None
    else
      var pre := ctx[..|ctx| - 1];
      var last := ctx[|ctx| - 1];
      assert forall x :: x in ctx <==> x in pre || x == last by {
        assert ctx == pre + [last];
      }
      if time(last) <= t then
        assert IncreasingTimes(ctx, time) ==> forall x :: x in ctx ==> time(x) <= time(last) by {
          if IncreasingTimes(ctx, time) {
            forall x | x in ctx ensures time(x) <= time(last) {
              var j :| 0 <= j < |ctx| && ctx[j] == x;
            }
          }
        }
        Some(last)
      else
        assert IncreasingTimes(ctx, time) ==> IncreasingTimes(pre, time);
        AsOf(pre, time, t)
  }

  /** A trade as the merge sees it: its server, its time and the position of the rest of its row. */
  datatype Trade = Trade(server: Option<string>, t: int, id: nat)

  datatype GasFrame = GasFrame(rows: seq<GasRow>, hasIsLow: bool)

  /** One server's context frames; a missing frame is `None`. */
  datatype ServerContext = ServerContext(
    balances: Option<seq<BalanceRow>>,
    gas: Option<GasFrame>,
    contracts: Option<seq<ContractRow>>)
  {
    /** `not context`: the server's context dictionary has no frames. */
    predicate Empty() { balances.None? && gas.None? && contracts.None? }
  }

  /** A trade with the context row joined to it from each stream, if any. */
  datatype Merged = Merged(trade: Trade, balance: Option<BalanceFeat>, gas: Option<GasFeat>, contract: Option<ContractFeat>)

  function TradeTime(x: Trade): real { x.t as real }

  function Unmerged(trades: seq<Trade>): (r: seq<Merged>)
    ensures |r| == |trades|
    ensures forall i :: 0 <= i < |r| ==> r[i] == Merged(trades[i], None, None, None)
  {
    seq(|trades|, i requires 0 <= i < |trades| => Merged(trades[i], None, None, None))
  }

  function Join<T(!new)>(feats: Option<seq<T>>, time: T -> int, t: int): Option<T> {
    if feats.Some? then AsOf(feats.value, time, t) else None
  }

  function PreparedBalances(c: ServerContext, windowsHours: seq<nat>): Option<seq<BalanceFeat>> {
    if c.balances.Some? then PrepareBalances(c.balances.value, windowsHours) else None
  }

  function PreparedGas(c: ServerContext): Option<seq<GasFeat>> {
    if c.gas.Some? then PrepareGas(c.gas.value.rows, c.gas.value.hasIsLow) else None
  }

  function PreparedContracts(c: ServerContext): Option<seq<ContractFeat>> {
    if c.contracts.Some? then ContractFeatures(c.contracts.value) else None
  }

  /** The three backward as-of joins of one server's time-sorted trades. */
  function MergeServer(group: seq<Trade>, c: ServerContext, windowsHours: seq<nat>): (r: seq<Merged>)
    ensures |r| == |group|
    ensures forall i :: 0 <= i < |r| ==> r[i].trade == group[i]
    ensures forall i :: 0 <= i < |r| ==>
      r[i].balance == Join(PreparedBalances(c, windowsHours), BalanceTime, group[i].t) &&
      r[i].gas == Join(PreparedGas(c), GasTime, group[i].t) &&
      r[i].contract == Join(PreparedContracts(c), ContractTime, group[i].t)
  {
    var b := PreparedBalances(c, windowsHours);
    var g := PreparedGas(c);
    var k := PreparedContracts(c);
    seq(|group|, i requires 0 <= i < |group| =>
      Merged(group[i], Join(b, BalanceTime, group[i].t), Join(g, GasTime, group[i].t), Join(k, ContractTime, group[i].t)))
  }

  /** A joined context row is the latest one of its stream at or before the trade. */
  lemma MergeServerBackward(group: seq<Trade>, c: ServerContext, windowsHours: seq<nat>, i: nat)
    requires i < |group|
    ensures var m := MergeServer(group, c, windowsHours)[i];
      (m.balance.Some? ==>
         (m.balance.value.t <= m.trade.t &&
          forall x :: x in PreparedBalances(c, windowsHours).value && x.t <= m.trade.t ==> x.t <= m.balance.value.t)) &&
      (m.gas.Some? ==>
         (m.gas.value.t <= m.trade.t &&
          forall x :: x in PreparedGas(c).value && x.t <= m.trade.t ==> x.t <= m.gas.value.t)) &&
      (m.contract.Some? ==>
         (m.contract.value.t <= m.trade.t &&
          forall x :: x in PreparedContracts(c).value && x.t <= m.trade.t ==> x.t <= m.contract.value.t))
  {
  }

  /** The server keys present among the trades. */
  function Servers(trades: seq<Trade>): (r: seq<string>)
    ensures forall s :: s in r <==> exists x :: x in trades && x.server == Some(s)
  {
    if trades == [] then []
    else
      var pre := trades[..|trades| - 1];
      var last := trades[|trades| - 1];
      assert forall x :: x in trades <==> x in pre || x == last by {
        assert trades == pre + [last];
      }
      Servers(pre) + (if last.server.Some? then [last.server.value] else [])
  }

  function OfServer(trades: seq<Trade>, s: string): (r: seq<Trade>)
    ensures forall x :: x in r <==> x in trades && x.server == Some(s)
  {
    if trades == [] then []
    else
      var pre := trades[..|trades| - 1];
      var last := trades[|trades| - 1];
      assert forall x :: x in trades <==> x in pre || x == last by {
        assert trades == pre + [last];
      }
      OfServer(pre, s) + (if last.server == Some(s) then [last] else [])
  }

  /** One group of `trades.groupby("serverId")`, sorted by time, joined or passed through. */
  function MergeGroup(trades: seq<Trade>, ctx: map<string, ServerContext>, windowsHours: seq<nat>, s: string): seq<Merged> {
    var group := Sorting.SortBy(OfServer(trades, s), TradeTime);
    if s !in ctx || ctx[s].Empty() then Unmerged(group) else MergeServer(group, ctx[s], windowsHours)
  }

  /** The groups of `servers[..k]`, one after the other, as `pd.concat` lays them out. */
  function Concat(servers: seq<string>, k: nat, part: string -> seq<Merged>): seq<Merged>
    requires k <= |servers|
  {
    if k == 0 then [] else Concat(servers, k - 1, part) + part(servers[k - 1])
  }

  lemma {:induction false} ConcatMembers(servers: seq<string>, k: nat, part: string -> seq<Merged>)
    requires k <= |servers|
    ensures forall m :: m in Concat(servers, k, part) <==> exists j :: 0 <= j < k && m in part(servers[j])
  {
    if k > 0 {
      ConcatMembers(servers, k - 1, part);
    }
  }

  /** What `_merge_context_features` returns. */
  function MergeContext(trades: seq<Trade>, ctx: map<string, ServerContext>, windowsHours: seq<nat>): seq<Merged> {
    if |ctx| == 0 then Unmerged(trades)
    else
      var servers := Strings.SortedDistinct(Servers(trades));
      Concat(servers, |servers|, s => MergeGroup(trades, ctx, windowsHours, s))
  }

  /** The per-server loop of `_merge_context_features`, appending each enriched group. */
  method MergeContextFeatures(trades: seq<Trade>, ctx: map<string, ServerContext>, windowsHours: seq<nat>) returns (out: seq<Merged>)
    ensures out == MergeContext(trades, ctx, windowsHours)
  {
    if |ctx| == 0 {
      return Unmerged(trades);
    }
    var servers := Strings.SortedDistinct(Servers(trades));
    var part := s => MergeGroup(trades, ctx, windowsHours, s);
    out := [];
    for k := 0 to |servers|
      invariant out == Concat(servers, k, part)
    {
      var s := servers[k];
      var working := Sorting.SortBy(OfServer(trades, s), TradeTime);
      var group;
      if s !in ctx || ctx[s].Empty() {
        group := Unmerged(working);
      } else {
        group := MergeServer(working, ctx[s], windowsHours);
      }
      assert group == part(s);
      out := out + group;
    }
  }

  /** With no context at all the trades come back as they were, in the same order. */
  lemma MergeWithoutContext(trades: seq<Trade>, windowsHours: seq<nat>)
    ensures |MergeContext(trades, map[], windowsHours)| == |trades|
    ensures forall i :: 0 <= i < |trades| ==> MergeContext(trades, map[], windowsHours)[i] == Merged(trades[i], None, None, None)
  {
  }

  /** One group holds exactly that server's trades, and nothing is joined when it has no context. */
  lemma MergeGroupMembers(trades: seq<Trade>, ctx: map<string, ServerContext>, windowsHours: seq<nat>, s: string)
    ensures forall m :: m in MergeGroup(trades, ctx, windowsHours, s) ==> m.trade in trades && m.trade.server == Some(s)
    ensures s !in ctx || ctx[s].Empty() ==>
      forall m :: m in MergeGroup(trades, ctx, windowsHours, s) ==> m.balance.None? && m.gas.None? && m.contract.None?
    ensures forall x :: x in trades && x.server == Some(s) ==> exists m :: m in MergeGroup(trades, ctx, windowsHours, s) && m.trade == x
  {
    var group := Sorting.SortBy(OfServer(trades, s), TradeTime);
    Sorting.SortByMembers(OfServer(trades, s), TradeTime);
    var g := MergeGroup(trades, ctx, windowsHours, s);
    forall m | m in g ensures m.trade in group && (s !in ctx || ctx[s].Empty() ==> m.balance.None? && m.gas.None? && m.contract.None?) {
      var i :| 0 <= i < |g| && g[i] == m;
    }
    forall x | x in group ensures exists m :: m in g && m.trade == x {
      var i :| 0 <= i < |group| && group[i] == x;
      assert g[i] in g;
    }
  }

  /** The position in the merged output of a trade that has a server. */
  lemma MergedPosition(trades: seq<Trade>, ctx: map<string, ServerContext>, windowsHours: seq<nat>, j: nat) returns (i: nat)
    requires |ctx| > 0 && j < |trades| && trades[j].server.Some?
    ensures i < |MergeContext(trades, ctx, windowsHours)| && MergeContext(trades, ctx, windowsHours)[i].trade == trades[j]
  {
    var merged := MergeContext(trades, ctx, windowsHours);
    MergeKeepsServerTrades(trades, ctx, windowsHours);
    assert trades[j] in trades;
    var m :| m in merged && m.trade == trades[j];
    i :| 0 <= i < |merged| && merged[i] == m;
  }

  /**
   * With some context, exactly the trades that have a server come back (the
   * grouping drops a missing `serverId`), and a server without context frames
   * passes through with nothing joined.
   */
  lemma MergeKeepsServerTrades(trades: seq<Trade>, ctx: map<string, ServerContext>, windowsHours: seq<nat>)
    requires |ctx| > 0
    ensures forall m :: m in MergeContext(trades, ctx, windowsHours) ==> m.trade in trades && m.trade.server.Some?
    ensures forall x :: x in trades && x.server.Some? ==> exists m :: m in MergeContext(trades, ctx, windowsHours) && m.trade == x
    ensures forall m :: m in MergeContext(trades, ctx, windowsHours) && (m.trade.server.value !in ctx || ctx[m.trade.server.value].Empty()) ==>
      m.balance.None? && m.gas.None? && m.contract.None?
  {
    var servers := Strings.SortedDistinct(Servers(trades));
    var part := s => MergeGroup(trades, ctx, windowsHours, s);
    var r := MergeContext(trades, ctx, windowsHours);
    assert r == Concat(servers, |servers|, part);
    ConcatMembers(servers, |servers|, part);
    forall m | m in r
      ensures m.trade in trades && m.trade.server.Some?
      ensures m.trade.server.value !in ctx || ctx[m.trade.server.value].Empty() ==> m.balance.None? && m.gas.None? && m.contract.None?
    {
      var j :| 0 <= j < |servers| && m in part(servers[j]);
      MergeGroupMembers(trades, ctx, windowsHours, servers[j]);
    }
    forall x | x in trades && x.server.Some?
      ensures exists m :: m in r && m.trade == x
    {
      assert x.server.value in servers;
      var j :| 0 <= j < |servers| && servers[j] == x.server.value;
      MergeGroupMembers(trades, ctx, windowsHours, servers[j]);
      var m :| m in part(servers[j]) && m.trade == x;
    }
  }

  // ---------------------------------------------------------------------------
  // build_feature_matrix: rows, feature columns and categorical columns
  // ---------------------------------------------------------------------------

  /** Columns that are never features, whatever the settings. */
  const AlwaysDropped: set<string> :=
    {"id_x", "id_y", "props", "raw_data", "creationTime", "openTime", "lastUpdateTime", "feature_ts"}

  /** Columns treated as categorical whenever the frame has them. */
  function KnownCategoricals(c: Config.TrainingConfig): seq<string> {
    ["serverId", c.tokenColumn, "status", "rejectReason", "propExecutionMode"]
  }

  /** The rows left by `dropna(subset=[target, time])`, in their order. */
  function DropMissing(rows: seq<Row>, target: string, time: string): (r: seq<Row>)
    ensures |r| <= |rows|
    ensures forall row :: row in r <==> row in rows && Get(row, target) != Null && Get(row, time) != Null
  {
    if rows == [] then []
    else
      assert forall row :: row in rows <==> row == rows[0] || row in rows[1..] by {
        assert rows == [rows[0]] + rows[1..];
      }
      (if Get(rows[0], target) != Null && Get(rows[0], time) != Null then [rows[0]] else []) + DropMissing(rows[1..], target, time)
  }

  /**
   * A column survives as a feature: not dropped by name, not the target or the
   * time column, not of datetime dtype, and holding at least one value in the
   * kept rows.
   */
  predicate IsFeature(col: Column, kept: seq<Row>, c: Config.TrainingConfig) {
    col.name !in AlwaysDropped && col.name != Config.Target(c) && col.name != c.timeColumn &&
    col.dtype != DateTime && Observed(kept, col.name)
  }

  /** The feature columns, in the frame's column order. */
  function FeatureColumns(cols: seq<Column>, kept: seq<Row>, c: Config.TrainingConfig, objectOnly: bool): (r: seq<string>)
    ensures |r| <= |cols|
    ensures forall n :: n in r <==> exists col :: col in cols && col.name == n && IsFeature(col, kept, c) && (objectOnly ==> col.dtype == Object)
  {
    if cols == [] then []
    else
      assert forall col :: col in cols <==> col == cols[0] || col in cols[1..] by {
        assert cols == [cols[0]] + cols[1..];
      }
      var keep := IsFeature(cols[0], kept, c) && (objectOnly ==> cols[0].dtype == Object);
      (if keep then [cols[0].name] else []) + FeatureColumns(cols[1..], kept, c, objectOnly)
  }

  /** The members of `xs` that are in `keep`, in the order of `xs`. */
  function KeepIn(xs: seq<string>, keep: seq<string>): (r: seq<string>)
    ensures forall n :: n in r <==> n in xs && n in keep
    ensures Strings.SortedStrict(xs) ==> Strings.SortedStrict(r)
  {
    if xs == [] then []
    else
      assert forall n :: n in xs <==> n == xs[0] || n in xs[1..] by {
        assert xs == [xs[0]] + xs[1..];
      }
      var rest := KeepIn(xs[1..], keep);
      assert Strings.SortedStrict(xs) ==> forall j :: 0 <= j < |rest| ==> Strings.Below(xs[0], rest[j]) by {
        if Strings.SortedStrict(xs) {
          forall j | 0 <= j < |rest| ensures Strings.Below(xs[0], rest[j]) {
            assert rest[j] in xs[1..];
            var i :| 0 <= i < |xs[1..]| && xs[1..][i] == rest[j];
            assert xs[i + 1] == rest[j];
          }
        }
      }
      if xs[0] in keep then [xs[0]] + rest else rest
  }

  /** The frame's columns as data, rows limited to the feature columns. */
  function Project(row: Row, names: seq<string>): (r: Row)
    ensures forall n :: n in names ==> Get(r, n) == Get(row, n)
    ensures forall n :: n in r ==> n in names
  {
    map n | n in row && n in names :: row[n]
  }

  /** `features = enriched[feature_columns]`: every kept row limited to the feature columns. */
  function FeatureRows(kept: seq<Row>, features: seq<string>): (rows: seq<Row>)
    ensures |rows| == |kept|
    ensures forall i, n :: 0 <= i < |kept| && n in features ==> Get(rows[i], n) == Get(kept[i], n)
    ensures forall n :: n in features && Observed(kept, n) ==> Observed(rows, n)
  {
    var rows := seq(|kept|, i requires 0 <= i < |kept| => Project(kept[i], features));
    assert forall n :: n in features && Observed(kept, n) ==> Observed(rows, n) by {
      forall n | n in features && Observed(kept, n) ensures Observed(rows, n) {
        var i :| 0 <= i < |kept| && Get(kept[i], n) != Null;
        assert Get(rows[i], n) == Get(kept[i], n);
      }
    }
    rows
  }

  /** One column's cells, row by row. */
  function Cells(rows: seq<Row>, col: string): (r: seq<Cell>)
    ensures |r| == |rows|
    ensures forall i :: 0 <= i < |rows| ==> r[i] == Get(rows[i], col)
  {
    seq(|rows|, i requires 0 <= i < |rows| => Get(rows[i], col))
  }

  /**
   * `sorted(set(known present) | inferred object features)`, limited to the
   * features that survived: each one once, in code-point order.
   */
  function Categoricals(cols: seq<Column>, kept: seq<Row>, c: Config.TrainingConfig): (r: seq<string>)
    ensures Strings.SortedStrict(r)
    ensures forall n :: n in r <==>
      n in FeatureColumns(cols, kept, c, false) &&
      (n in KnownCategoricals(c) ||
       exists col :: col in cols && col.name == n && col.dtype == Object && IsFeature(col, kept, c))
  {
    var features := FeatureColumns(cols, kept, c, false);
    var present := KeepIn(KnownCategoricals(c), Names(cols));
    var inferred := FeatureColumns(cols, kept, c, true);
    assert forall n :: n in features && n in KnownCategoricals(c) ==> n in present by {
      forall n | n in features && n in KnownCategoricals(c) ensures n in present {
        var col :| col in cols && col.name == n && IsFeature(col, kept, c);
        var j :| 0 <= j < |cols| && cols[j] == col;
        assert Names(cols)[j] == n;
      }
    }
    KeepIn(Strings.SortedDistinct(present + inferred), features)
  }

  datatype FeatureMatrix = FeatureMatrix(
    features: seq<Row>,
    target: seq<Cell>,
    featureColumns: seq<string>,
    categoricalColumns: seq<string>,
    timestamps: seq<Cell>)

  /**
   * Everything `build_feature_matrix` does after the enrichment steps: the
   * missing-target error, the row filter and the column choices.
   */
  function SelectFeatures(enriched: Frame, c: Config.TrainingConfig): (r: Result<FeatureMatrix, string>)
    ensures r.Err? <==> Config.Target(c) !in Names(enriched.columns)
    ensures r.Ok? ==>
      var m := r.value;
      var kept := DropMissing(enriched.rows, Config.Target(c), c.timeColumn);
      |m.features| == |m.target| == |m.timestamps| == |kept| <= |enriched.rows| &&
      (forall i :: 0 <= i < |kept| ==>
        m.target[i] == Get(kept[i], Config.Target(c)) != Null &&
        m.timestamps[i] == Get(kept[i], c.timeColumn) != Null) &&
      (forall n :: n in m.featureColumns <==> exists col :: col in enriched.columns && col.name == n && IsFeature(col, kept, c)) &&
      (forall n :: n in m.featureColumns ==> Observed(m.features, n)) &&
      Strings.SortedStrict(m.categoricalColumns) &&
      (forall n :: n in m.categoricalColumns <==>
        n in m.featureColumns &&
        (n in KnownCategoricals(c) ||
         exists col :: col in enriched.columns && col.name == n && col.dtype == Object && IsFeature(col, kept, c)))
  {
    var target := Config.Target(c);
    if target !in Names(enriched.columns) then
      Err("Target column " + target + " missing from dataset")
    else
      var kept := DropMissing(enriched.rows, target, c.timeColumn);
      var features := FeatureColumns(enriched.columns, kept, c, false);
      KeptPresent(enriched.rows, target, c.timeColumn);
      FeaturesObserved(enriched.columns, kept, c);
      Ok(FeatureMatrix(
        FeatureRows(kept, features),
        Cells(kept, target),
        features,
        Categoricals(enriched.columns, kept, c),
        Cells(kept, c.timeColumn)))
  }

  /** Every kept row has its target and its time. */
  lemma KeptPresent(rows: seq<Row>, target: string, time: string)
    ensures var kept := DropMissing(rows, target, time);
      forall i :: 0 <= i < |kept| ==> Get(kept[i], target) != Null && Get(kept[i], time) != Null
  {
    var kept := DropMissing(rows, target, time);
    assert forall i :: 0 <= i < |kept| ==> kept[i] in kept;
  }

  /** Every feature column has a value in some kept row. */
  lemma FeaturesObserved(cols: seq<Column>, kept: seq<Row>, c: Config.TrainingConfig)
    ensures forall n :: n in FeatureColumns(cols, kept, c, false) ==> Observed(kept, n)
  {
  }
}
