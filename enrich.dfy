/**
 * `build_feature_matrix` over whole frames: `_add_base_columns`, then
 * `_apply_rolling_features`, then `_merge_context_features` on each server's
 * raw context frames, then the feature selection.
 *
 * Conversions the model does not carry out are parameters: `parse` reads a
 * number in text, `toTime` is `pd.to_datetime(..., utc=True,
 * errors="coerce")` of a cell that is neither a timestamp nor missing, and
 * `std` is the rolling sample standard deviation of a window's values.
 */
module Enrichment {
  import opened Wrappers
  import opened Frames
  import Features
  import Strings
  import Sorting
  import Config

  // ---------------------------------------------------------------------------
  // _add_base_columns on a frame
  // ---------------------------------------------------------------------------

  /** The columns `_add_base_columns` assigns, in the order it assigns them. */
  const BaseNames: seq<string> := [
    "executedQtyDst", "executedDstPrice", "executedQtySrc", "executedSrcPrice",
    "buyDiffBps", "sellDiffBps", "cexVol", "dexVolume", "serverBuy", "serverSell", "netProfit",
    "grossNotionalDst", "grossNotionalSrc", "tradePnLRatio", "spreadMid", "liquidityImbalance",
    "hasRejectReason"]

  /** The cell a derived row holds in base column `name`. */
  function BaseCell(b: Features.BaseRow, name: string): Cell {
    if name == "executedQtyDst" then NumCell(b.executedQtyDst)
    else if name == "executedDstPrice" then NumCell(b.executedDstPrice)
    else if name == "executedQtySrc" then NumCell(b.executedQtySrc)
    else if name == "executedSrcPrice" then NumCell(b.executedSrcPrice)
    else if name == "buyDiffBps" then NumCell(b.buyDiffBps)
    else if name == "sellDiffBps" then NumCell(b.sellDiffBps)
    else if name == "cexVol" then NumCell(b.cexVol)
    else if name == "dexVolume" then NumCell(b.dexVolume)
    else if name == "serverBuy" then NumCell(b.serverBuy)
    else if name == "serverSell" then NumCell(b.serverSell)
    else if name == "netProfit" then NumCell(b.netProfit)
    else if name == "grossNotionalDst" then Num(b.grossNotionalDst)
    else if name == "grossNotionalSrc" then Num(b.grossNotionalSrc)
    else if name == "tradePnLRatio" then NumCell(b.tradePnLRatio)
    else if name == "spreadMid" then NumCell(b.spreadMid)
    else if name == "liquidityImbalance" then NumCell(b.liquidityImbalance)
    else if name == "hasRejectReason" then Num(b.hasRejectReason as real)
    else Null
  }

  /**
   * One row after `_add_base_columns`: the base columns hold the derived
   * values (`pd.to_numeric` of the inputs, the notionals and ratios), every
   * other cell stays.
   */
  function BaseRowOf(row: Row, eps: real, parse: string -> Option<real>): (r: Row)
    ensures forall n :: n in BaseNames ==> Get(r, n) == BaseCell(Features.BaseColumns(row, eps, parse), n)
    ensures forall n :: n !in BaseNames ==> Get(r, n) == Get(row, n)
  {
    var b := Features.BaseColumns(row, eps, parse);
    var m := map n | n in BaseNames :: BaseCell(b, n);
    assert forall n :: n in BaseNames ==> n in m && m[n] == BaseCell(b, n);
    row + m
  }

  /**
   * `_add_base_columns`: every row gets the derived base columns, the other
   * cells stay, and the base columns join the frame's columns as numeric.
   */
  function AddBaseFrame(f: Frame, eps: real, parse: string -> Option<real>): (r: Frame)
    ensures |r.rows| == |f.rows|
    ensures forall i :: 0 <= i < |f.rows| ==> r.rows[i] == BaseRowOf(f.rows[i], eps, parse)
    ensures forall n :: n in Names(r.columns) <==> n in Names(f.columns) || n in BaseNames
  {
    Frame(WithBaseColumns(f.columns), BaseRows(f.rows, eps, parse))
  }

  /** The column list once every base column is assigned. */
  function WithBaseColumns(cols: seq<Column>): (r: seq<Column>)
    ensures forall n :: n in Names(r) <==> n in Names(cols) || n in BaseNames
  {
    AddColumns(cols, BaseNames, Numeric)
  }

  function BaseRows(rows: seq<Row>, eps: real, parse: string -> Option<real>): (r: seq<Row>)
    ensures |r| == |rows|
    ensures forall i :: 0 <= i < |rows| ==> r[i] == BaseRowOf(rows[i], eps, parse)
  {
    seq(|rows|, i requires 0 <= i < |rows| => BaseRowOf(rows[i], eps, parse))
  }

  // ---------------------------------------------------------------------------
  // _apply_rolling_features on a frame
  // ---------------------------------------------------------------------------

  /** `ROLLING_NUMERIC_COLUMNS`: rolled over the minute windows. */
  const RollingNumericColumns: seq<string> := ["buyDiffBps", "sellDiffBps", "cexVol", "dexVolume", "serverBuy", "serverSell"]

  /** Rolled over the hour windows. */
  const HourlyColumns: seq<string> := ["spreadMid", "tradePnLRatio", "netProfit"]

  datatype Agg = Mean | Std | Max | Min | Z

  /** One assignment `df[name] = <aggregate of col over a trailing window of seconds>`. */
  datatype Spec = Spec(name: string, col: string, seconds: nat, agg: Agg)

  function AggName(a: Agg): string {
    match a
    case Mean => "mean"
    case Std => "std"
    case Max => "max"
    case Min => "min"
    case Z => "z"
  }

  /** `f"{col}_{agg}_{tag}"`. */
  function SpecOf(col: string, a: Agg, tag: string, seconds: nat): (s: Spec)
    ensures s.col == col && s.agg == a && s.seconds == seconds
    ensures '_' in s.name
  {
    var name := col + "_" + AggName(a) + "_" + tag;
    assert name[|col|] == '_';
    Spec(name, col, seconds, a)
  }

  /** For each of `cols` the frame has, one spec per aggregate of `aggs`, column by column. */
  function ColumnSpecs(cols: seq<string>, present: seq<string>, aggs: seq<Agg>, tag: string, seconds: nat): (r: seq<Spec>)
    ensures forall s :: s in r ==> s.col in cols && s.col in present && s.seconds == seconds && '_' in s.name
    ensures forall col, a :: col in cols && col in present && a in aggs ==> SpecOf(col, a, tag, seconds) in r
    decreases |cols|
  {
    if cols == [] then []
    else
      var here := if cols[0] in present then seq(|aggs|, k requires 0 <= k < |aggs| => SpecOf(cols[0], aggs[k], tag, seconds)) else [];
      var rest := ColumnSpecs(cols[1..], present, aggs, tag, seconds);
      assert forall col :: col in cols <==> col == cols[0] || col in cols[1..] by {
        assert cols == [cols[0]] + cols[1..];
      }
      assert forall a :: a in aggs && cols[0] in present ==> SpecOf(cols[0], a, tag, seconds) in here by {
        forall a | a in aggs && cols[0] in present ensures SpecOf(cols[0], a, tag, seconds) in here {
          var k :| 0 <= k < |aggs| && aggs[k] == a;
          assert here[k] == SpecOf(cols[0], a, tag, seconds);
        }
      }
      here + rest
  }

  /** The assignments of one minute window, in the order the loop makes them. */
  function MinuteSpecs(w: nat, present: seq<string>): (r: seq<Spec>)
    ensures forall s :: s in r ==> s.seconds == w * 60 && '_' in s.name
    ensures forall s :: s in ColumnSpecs(RollingNumericColumns, present, [Mean, Std, Max, Min], Strings.NatToString(w) + "m", w * 60) ==> s in r
    ensures RejectSpec(w) in r
    ensures forall s :: s in ColumnSpecs(["liquidityImbalance"], present, [Mean, Std, Z], Strings.NatToString(w) + "m", w * 60) ==> s in r
  {
    var tag := Strings.NatToString(w) + "m";
    ColumnSpecs(RollingNumericColumns, present, [Mean, Std, Max, Min], tag, w * 60)
      + [RejectSpec(w)]
      + ColumnSpecs(["liquidityImbalance"], present, [Mean, Std, Z], tag, w * 60)
  }

  /** `rejectRate_{w}m`: the mean of `hasRejectReason` over the window. */
  function RejectSpec(w: nat): (s: Spec)
    ensures s.col == "hasRejectReason" && s.agg == Mean && s.seconds == w * 60
    ensures '_' in s.name
  {
    var name := "rejectRate_" + Strings.NatToString(w) + "m";
    assert name[10] == '_';
    Spec(name, "hasRejectReason", w * 60, Mean)
  }

  /** The assignments of one hour window. */
  function HourSpecs(h: nat, present: seq<string>): (r: seq<Spec>)
    ensures forall s :: s in r ==> s.seconds == h * 3600 && '_' in s.name
    ensures forall col, a :: col in HourlyColumns && col in present && a in [Mean, Std] ==>
      SpecOf(col, a, Strings.NatToString(h) + "h", h * 3600) in r
  {
    ColumnSpecs(HourlyColumns, present, [Mean, Std], Strings.NatToString(h) + "h", h * 3600)
  }

  /** The assignments of every minute window, window by window. */
  function MinuteWindowSpecs(minutes: seq<nat>, present: seq<string>): (r: seq<Spec>)
    ensures forall s :: s in r ==> '_' in s.name
    ensures forall w, s :: w in minutes && s in MinuteSpecs(w, present) ==> s in r
    decreases |minutes|
  {
    if minutes == [] then []
    else
      assert forall w :: w in minutes ==> w == minutes[0] || w in minutes[1..] by {
        assert minutes == [minutes[0]] + minutes[1..];
      }
      MinuteSpecs(minutes[0], present) + MinuteWindowSpecs(minutes[1..], present)
  }

  /** The assignments of every hour window, window by window. */
  function HourWindowSpecs(hours: seq<nat>, present: seq<string>): (r: seq<Spec>)
    ensures forall s :: s in r ==> '_' in s.name
    ensures forall h, s :: h in hours && s in HourSpecs(h, present) ==> s in r
    decreases |hours|
  {
    if hours == [] then []
    else
      assert forall h :: h in hours ==> h == hours[0] || h in hours[1..] by {
        assert hours == [hours[0]] + hours[1..];
      }
      HourSpecs(hours[0], present) + HourWindowSpecs(hours[1..], present)
  }

  /** Every assignment of `_apply_rolling_features`: the minute windows, then the hour windows. */
  function Specs(minutes: seq<nat>, hours: seq<nat>, present: seq<string>): (r: seq<Spec>)
    ensures forall s :: s in r ==> '_' in s.name
    ensures forall w, s :: w in minutes && s in MinuteSpecs(w, present) ==> s in r
    ensures forall h, s :: h in hours && s in HourSpecs(h, present) ==> s in r
  {
    MinuteWindowSpecs(minutes, present) + HourWindowSpecs(hours, present)
  }

  function SpecNames(specs: seq<Spec>): (names: seq<string>)
    ensures |names| == |specs|
    ensures forall k :: 0 <= k < |specs| ==> names[k] == specs[k].name
  {
    seq(|specs|, k requires 0 <= k < |specs| => specs[k].name)
  }

  /** A timestamp cell's time; 0 for anything else. */
  function TimeAt(row: Row, col: string): int {
    if Get(row, col).Time? then Get(row, col).t else 0
  }

  function NumberAt(row: Row, col: string): Option<real> {
    if Get(row, col).Num? then Some(Get(row, col).n) else None
  }

  /** The rows whose time cell holds a timestamp, in their order. */
  function Timed(rows: seq<Row>, time: string): (r: seq<Row>)
    ensures |r| <= |rows|
    ensures forall row :: row in r ==> Get(row, time).Time?
    ensures multiset(r) <= multiset(rows)
    ensures forall row :: row in rows && Get(row, time).Time? ==> row in r
  {
    if rows == [] then []
    else
      var pre := rows[..|rows| - 1];
      var last := rows[|rows| - 1];
      assert rows == pre + [last];
      Timed(pre, time) + (if Get(last, time).Time? then [last] else [])
  }

  /** The frame the windows run over: the rows with a time, sorted by time. */
  function RollingRows(rows: seq<Row>, time: string): (r: seq<Row>)
    ensures multiset(r) == multiset(Timed(rows, time))
    ensures forall i :: 0 <= i < |r| ==> Get(r[i], time).Time?
    ensures forall i, j :: 0 <= i < j < |r| ==> Get(r[i], time).t <= Get(r[j], time).t
  {
    var key := (row: Row) => TimeAt(row, time) as real;
    var sorted := Sorting.SortBy(Timed(rows, time), key);
    assert forall i :: 0 <= i < |sorted| ==> Get(sorted[i], time).Time? by {
      forall i | 0 <= i < |sorted| ensures Get(sorted[i], time).Time? {
        assert sorted[i] in multiset(sorted);
      }
    }
    assert forall i, j :: 0 <= i < j < |sorted| ==> key(sorted[i]) <= key(sorted[j]);
    sorted
  }

  /** A column as the rolling windows of one aggregate see it. */
  function ObsOf(rows: seq<Row>, col: string, c: Config.TrainingConfig): (obs: seq<Features.Obs>)
    ensures |obs| == |rows|
    ensures forall i :: 0 <= i < |rows| ==> obs[i] == Features.Obs(
      TextOf(Get(rows[i], "serverId")), TextOf(Get(rows[i], c.tokenColumn)), TimeAt(rows[i], c.timeColumn), NumberAt(rows[i], col))
  {
    seq(|rows|, i requires 0 <= i < |rows| => Features.Obs(
      TextOf(Get(rows[i], "serverId")), TextOf(Get(rows[i], c.tokenColumn)), TimeAt(rows[i], c.timeColumn), NumberAt(rows[i], col)))
  }

  /** The values in row `i`'s window among the first `m` rows, in row order. */
  function WindowValues(rows: seq<Features.Obs>, i: nat, w: nat, m: nat): (vs: seq<real>)
    requires i < |rows| && m <= |rows|
    ensures |vs| == Features.WindowCount(rows, i, w, m)
  {
    if m == 0 then []
    else WindowValues(rows, i, w, m - 1) + (if Features.Counts(rows, i, m - 1, w) then [rows[m - 1].x.value] else [])
  }

  /**
   * The cell one assignment writes in row `i`. The sample deviation is
   * missing below two values, as pandas' `std()` with one degree of freedom.
   */
  function SpecCell(obs: seq<Features.Obs>, s: Spec, i: nat, std: seq<real> -> real): Cell
    requires i < |obs|
  {
    var mean := Features.RollingMean(obs, i, s.seconds);
    var values := WindowValues(obs, i, s.seconds, i + 1);
    var dev := if |values| < 2 then None else Some(std(values));
    match s.agg
    case Mean => NumCell(mean)
    case Std => NumCell(dev)
    case Max => NumCell(Features.WindowMax(obs, i, s.seconds, i + 1))
    case Min => NumCell(Features.WindowMin(obs, i, s.seconds, i + 1))
    case Z => NumCell(Features.ZScore(obs[i].x, mean, dev))
  }

  /** No later assignment among the first `m` writes the column assignment `k` writes. */
  predicate LastNamed(specs: seq<Spec>, m: nat, k: nat)
    requires k < m <= |specs|
  {
    forall j :: k < j < m ==> specs[j].name != specs[k].name
  }

  /** The rows after the first `m` assignments; each one's values come from the sorted rows. */
  function Assign(sorted: seq<Row>, specs: seq<Spec>, m: nat, c: Config.TrainingConfig, std: seq<real> -> real): (r: seq<Row>)
    requires m <= |specs|
    ensures |r| == |sorted|
    ensures forall i, k :: 0 <= i < |sorted| && 0 <= k < m && LastNamed(specs, m, k) ==>
      Get(r[i], specs[k].name) == SpecCell(ObsOf(sorted, specs[k].col, c), specs[k], i, std)
    ensures forall i, n :: 0 <= i < |sorted| && (forall k :: 0 <= k < m ==> specs[k].name != n) ==>
      Get(r[i], n) == Get(sorted[i], n)
  {
    if m == 0 then sorted
    else
      var s := specs[m - 1];
      var obs := ObsOf(sorted, s.col, c);
      var pre := Assign(sorted, specs, m - 1, c, std);
      var r := SetCells(pre, s.name, seq(|sorted|, i requires 0 <= i < |sorted| => SpecCell(obs, s, i, std)));
      assert forall k :: 0 <= k < m - 1 && LastNamed(specs, m, k) ==> LastNamed(specs, m - 1, k) && specs[k].name != s.name;
      r
  }

  /** The assignments `_apply_rolling_features` makes on a frame with these columns. */
  function RollingSpecs(cols: seq<Column>, c: Config.TrainingConfig): seq<Spec> {
    Specs(c.featureWindowsMinutes, c.featureWindowsHours, Names(cols))
  }

  /**
   * A column the windows need is absent: the group keys as soon as there is a
   * window (`groupby` raises KeyError), `hasRejectReason` as soon as there is
   * a minute window.
   */
  predicate RollingKeyMissing(cols: seq<Column>, c: Config.TrainingConfig) {
    var names := Names(cols);
    (|c.featureWindowsMinutes| + |c.featureWindowsHours| > 0 && ("serverId" !in names || c.tokenColumn !in names))
    || (|c.featureWindowsMinutes| > 0 && "hasRejectReason" !in names)
  }

  /** The frame is not empty, has its time column and a row with a timestamp: the windows run. */
  predicate Rolls(f: Frame, c: Config.TrainingConfig) {
    f.rows != [] && f.columns != [] && c.timeColumn in Names(f.columns) && RollingRows(f.rows, c.timeColumn) != []
  }

  /**
   * `out` is the sorted rows with the assignments made: a column no
   * assignment names keeps its cells, a rolled column holds its window's
   * aggregate.
   */
  ghost predicate RolledRows(out: seq<Row>, sorted: seq<Row>, specs: seq<Spec>, c: Config.TrainingConfig, std: seq<real> -> real) {
    |out| == |sorted| &&
    (forall i, n :: 0 <= i < |sorted| && n !in SpecNames(specs) ==> Get(out[i], n) == Get(sorted[i], n)) &&
    (forall i, k :: 0 <= i < |sorted| && 0 <= k < |specs| && LastNamed(specs, |specs|, k) ==>
      Get(out[i], specs[k].name) == SpecCell(ObsOf(sorted, specs[k].col, c), specs[k], i, std))
  }

  lemma AssignRolls(sorted: seq<Row>, specs: seq<Spec>, c: Config.TrainingConfig, std: seq<real> -> real)
    ensures RolledRows(Assign(sorted, specs, |specs|, c, std), sorted, specs, c, std)
  {
    var out := Assign(sorted, specs, |specs|, c, std);
    forall i, n | 0 <= i < |sorted| && n !in SpecNames(specs)
      ensures Get(out[i], n) == Get(sorted[i], n)
    {
      assert forall k :: 0 <= k < |specs| ==> SpecNames(specs)[k] == specs[k].name;
    }
  }

  /**
   * `_apply_rolling_features` on a frame: an empty frame is returned as it is,
   * one without a timestamped row keeps its columns and loses its rows;
   * otherwise the rows with a timestamp, sorted by time, each get every rolled
   * column of every window.
   */
  function RollFrame(f: Frame, c: Config.TrainingConfig, std: seq<real> -> real): (r: Result<Frame, string>)
    ensures r.Err? <==> (f.rows != [] && f.columns != [] && c.timeColumn !in Names(f.columns)) || (Rolls(f, c) && RollingKeyMissing(f.columns, c))
    ensures r.Ok? && (f.rows == [] || f.columns == []) ==> r.value == f
    ensures r.Ok? && !Rolls(f, c) && f.rows != [] && f.columns != [] ==> r.value == Frame(f.columns, [])
  {
    if f.rows == [] || f.columns == [] then Ok(f)
    else if c.timeColumn !in Names(f.columns) then Err("KeyError: " + c.timeColumn)
    else
      var sorted := RollingRows(f.rows, c.timeColumn);
      if sorted == [] then Ok(Frame(f.columns, []))
      else if RollingKeyMissing(f.columns, c) then Err("KeyError: rolling group")
      else
        var specs := RollingSpecs(f.columns, c);
        Ok(Frame(AddColumns(f.columns, SpecNames(specs), Numeric), Assign(sorted, specs, |specs|, c, std)))
  }

  /**
   * When the windows run, the rolled frame has the input's columns plus every
   * rolled column, and its rows are the timestamped rows sorted by time with
   * every rolled column filled in.
   */
  lemma RollFrameRolls(f: Frame, c: Config.TrainingConfig, std: seq<real> -> real)
    requires RollFrame(f, c, std).Ok? && Rolls(f, c)
    ensures forall n :: n in Names(RollFrame(f, c, std).value.columns) <==> n in Names(f.columns) || n in SpecNames(RollingSpecs(f.columns, c))
    ensures RolledRows(RollFrame(f, c, std).value.rows, RollingRows(f.rows, c.timeColumn), RollingSpecs(f.columns, c), c, std)
  {
    AssignRolls(RollingRows(f.rows, c.timeColumn), RollingSpecs(f.columns, c), c, std);
  }

  /** Every rolled column's name holds an underscore. */
  lemma SpecNamesUnderscored(specs: seq<Spec>, cols: seq<Column>, c: Config.TrainingConfig)
    requires specs == RollingSpecs(cols, c)
    ensures forall n :: n in SpecNames(specs) ==> '_' in n
  {
    forall n | n in SpecNames(specs) ensures '_' in n {
      var k :| 0 <= k < |specs| && SpecNames(specs)[k] == n;
      assert specs[k] in specs;
    }
  }

  /** `row` holds `source`'s cell in every column without an underscore. */
  ghost predicate Carries(row: Row, source: Row) {
    forall n :: '_' !in n ==> Get(row, n) == Get(source, n)
  }

  /** A row of `out` whose assignments carry underscored names keeps the other cells of its sorted row. */
  lemma RolledKeepsPlain(out: seq<Row>, sorted: seq<Row>, specs: seq<Spec>, c: Config.TrainingConfig, std: seq<real> -> real, i: nat)
    requires RolledRows(out, sorted, specs, c, std) && i < |out|
    requires forall n :: n in SpecNames(specs) ==> '_' in n
    ensures Carries(out[i], sorted[i])
  {
  }

  /**
   * Each rolled row is an input row with a timestamp whose other cells stay:
   * a column without an underscore (`serverId`, the token, the time, the
   * target) is never overwritten.
   */
  lemma RolledRowsFromInput(f: Frame, c: Config.TrainingConfig, std: seq<real> -> real, i: nat)
    requires RollFrame(f, c, std).Ok? && Rolls(f, c)
    requires i < |RollFrame(f, c, std).value.rows|
    ensures exists j :: 0 <= j < |f.rows| && Get(f.rows[j], c.timeColumn).Time? && Carries(RollFrame(f, c, std).value.rows[i], f.rows[j])
  {
    var specs := RollingSpecs(f.columns, c);
    RollFrameRolls(f, c, std);
    SpecNamesUnderscored(specs, f.columns, c);
    RolledRowOrigin(RollFrame(f, c, std).value.rows, f.rows, specs, c, std, i);
  }

  /** A row of the assignments over the sorted timestamped rows keeps the plain cells of one of those rows. */
  lemma RolledRowOrigin(out: seq<Row>, rows: seq<Row>, specs: seq<Spec>, c: Config.TrainingConfig, std: seq<real> -> real, i: nat)
    requires RolledRows(out, RollingRows(rows, c.timeColumn), specs, c, std) && i < |out|
    requires forall n :: n in SpecNames(specs) ==> '_' in n
    ensures exists j :: 0 <= j < |rows| && Get(rows[j], c.timeColumn).Time? && Carries(out[i], rows[j])
  {
    var sorted := RollingRows(rows, c.timeColumn);
    RolledKeepsPlain(out, sorted, specs, c, std, i);
    assert sorted[i] in multiset(Timed(rows, c.timeColumn));
    assert sorted[i] in multiset(rows);
    var j :| 0 <= j < |rows| && rows[j] == sorted[i];
    assert Get(rows[j], c.timeColumn).Time? && Carries(out[i], rows[j]);
  }

  /**
   * The rows the windows run over are sorted by time, so a window holds only
   * same-group rows within its width before the row (`WindowIsTrailing`).
   */
  lemma RolledObsSorted(f: Frame, c: Config.TrainingConfig, col: string)
    ensures Features.SortedByTime(ObsOf(RollingRows(f.rows, c.timeColumn), col, c))
  {
    var sorted := RollingRows(f.rows, c.timeColumn);
    var obs := ObsOf(sorted, col, c);
    forall i, j | 0 <= i < j < |obs| ensures obs[i].t <= obs[j].t {
      assert obs[i].t == Get(sorted[i], c.timeColumn).t;
      assert obs[j].t == Get(sorted[j], c.timeColumn).t;
    }
  }

  /** Without a timestamp no row survives the rolling step (for a time column the windows do not name). */
  lemma RolledRowsTimed(f: Frame, c: Config.TrainingConfig, std: seq<real> -> real, i: nat)
    requires RollFrame(f, c, std).Ok? && f.rows != [] && f.columns != [] && '_' !in c.timeColumn
    requires i < |RollFrame(f, c, std).value.rows|
    ensures Get(RollFrame(f, c, std).value.rows[i], c.timeColumn).Time?
  {
    var out := RollFrame(f, c, std).value.rows;
    var sorted := RollingRows(f.rows, c.timeColumn);
    var specs := RollingSpecs(f.columns, c);
    assert Rolls(f, c);
    RollFrameRolls(f, c, std);
    SpecNamesUnderscored(specs, f.columns, c);
    RolledKeepsPlain(out, sorted, specs, c, std, i);
  }

  // ---------------------------------------------------------------------------
  // _merge_context_features on frames: the context frames converted
  // ---------------------------------------------------------------------------

  /**
   * `pd.to_datetime(..., utc=True, errors="coerce")` of one cell: a timestamp
   * stays, a missing cell is `NaT`, anything else is what `toTime` makes of it.
   */
  function ToTime(cell: Cell, toTime: Cell -> Option<int>): (t: Option<int>)
    ensures cell.Time? ==> t == Some(cell.t)
    ensures cell.Null? ==> t.None?
  {
    match cell
    case Time(t) => Some(t)
    case Null => None
    case _ => toTime(cell)
  }

  /** Every row's `col` converts to a timestamp (`merge_asof` raises on a `NaT` key). */
  predicate AllTimed(rows: seq<Row>, col: string, toTime: Cell -> Option<int>) {
    forall i :: 0 <= i < |rows| ==> ToTime(Get(rows[i], col), toTime).Some?
  }

  /** `df is None or df.empty`. */
  predicate Blank(f: Option<Frame>) {
    f.None? || f.value.rows == [] || f.value.columns == []
  }

  /** The frame a server's context holds under `key` (`context.get(key)`). */
  function Stream(frames: map<string, Frame>, key: string): Option<Frame> {
    if key in frames then Some(frames[key]) else None
  }

  /** `"<preferred>" if "<preferred>" in df.columns else "timestamp"`. */
  function TimeColumnOf(f: Frame, preferred: string): string {
    if preferred in Names(f.columns) then preferred else "timestamp"
  }

  /** The balance totals `_prepare_balances_features` keeps when the frame has them. */
  function Totals(f: Frame): (r: seq<string>)
    ensures forall n :: n in r ==> n in Names(f.columns) && '_' in n
  {
    var wanted := ["total_usdt", "total_dex_usdt", "total_cex_usdt"];
    assert "total_usdt"[5] == '_' && "total_dex_usdt"[5] == '_' && "total_cex_usdt"[5] == '_';
    Present(Names(f.columns), wanted)
  }

  /** The names of `wanted` that `names` holds, in the order of `wanted`. */
  function Present(names: seq<string>, wanted: seq<string>): (r: seq<string>)
    ensures forall n :: n in r ==> n in names && n in wanted
  {
    if wanted == [] then []
    else (if wanted[0] in names then [wanted[0]] else []) + Present(names, wanted[1..])
  }

  /** Reading a non-blank balance frame raises. */
  predicate BalancesFail(f: Frame, hours: seq<nat>, toTime: Cell -> Option<int>) {
    var tc := TimeColumnOf(f, "balance_ts");
    tc !in Names(f.columns) || (hours != [] && "total_usdt" !in Names(f.columns)) || !AllTimed(f.rows, tc, toTime)
  }

  /** Reading a non-blank gas frame raises. */
  predicate GasFail(f: Frame, toTime: Cell -> Option<int>) {
    var tc := TimeColumnOf(f, "gas_ts");
    tc !in Names(f.columns) || !AllTimed(f.rows, tc, toTime)
  }

  /** Reading a non-blank contract frame raises. */
  predicate ContractsFail(f: Frame, toTime: Cell -> Option<int>) {
    var tc := TimeColumnOf(f, "tx_ts");
    tc !in Names(f.columns) || "isError" !in Names(f.columns) || !FlagsNumeric(f.rows) || !AllTimed(f.rows, tc, toTime)
  }

  /** One server's balances read from its frame, with the totals it holds; `None` for a blank frame. */
  datatype Balances = Balances(rows: Option<seq<Features.BalanceRow>>, totals: seq<string>)

  /**
   * The balance frame read for `_prepare_balances_features`: KeyError without
   * its time column, or without `total_usdt` once there is an hour window;
   * a `NaT` time fails the merge.
   */
  function BalancesOf(f: Option<Frame>, hours: seq<nat>, toTime: Cell -> Option<int>): (r: Result<Balances, string>)
    ensures Blank(f) ==> r == Ok(Balances(None, []))
    ensures r.Err? <==> !Blank(f) && BalancesFail(f.value, hours, toTime)
    ensures r.Ok? && !Blank(f) ==> r.value.rows.Some? && |r.value.rows.value| == |f.value.rows| && r.value.totals == Totals(f.value)
    ensures r.Ok? ==> forall n :: n in r.value.totals ==> '_' in n
    ensures r.Ok? && !Blank(f) ==> forall i :: 0 <= i < |f.value.rows| ==>
      var row := f.value.rows[i];
      r.value.rows.value[i] == Features.BalanceRow(ToTime(Get(row, TimeColumnOf(f.value, "balance_ts")), toTime).value,
        NumberAt(row, "total_usdt"), NumberAt(row, "total_dex_usdt"), NumberAt(row, "total_cex_usdt"))
  {
    if Blank(f) then Ok(Balances(None, []))
    else
      var g := f.value;
      var tc := TimeColumnOf(g, "balance_ts");
      if tc !in Names(g.columns) then Err("KeyError: " + tc)
      else if hours != [] && "total_usdt" !in Names(g.columns) then Err("KeyError: total_usdt")
      else if !AllTimed(g.rows, tc, toTime) then Err("ValueError: Merge keys contain null values on right side")
      else
        Ok(Balances(Some(seq(|g.rows|, i requires 0 <= i < |g.rows| =>
          Features.BalanceRow(ToTime(Get(g.rows[i], tc), toTime).value,
            NumberAt(g.rows[i], "total_usdt"), NumberAt(g.rows[i], "total_dex_usdt"), NumberAt(g.rows[i], "total_cex_usdt")))),
          Totals(g)))
  }

  /** One server's gas readings, and whether its frame has a `gas` column. */
  datatype Gas = Gas(frame: Option<Features.GasFrame>, hasGas: bool)

  /**
   * The gas frame read for `_prepare_gas_features`: KeyError without its time
   * column, a `NaT` time fails the merge; `is_low` is read when the frame has it.
   */
  function GasOf(f: Option<Frame>, toTime: Cell -> Option<int>): (r: Result<Gas, string>)
    ensures Blank(f) ==> r == Ok(Gas(None, false))
    ensures r.Err? <==> !Blank(f) && GasFail(f.value, toTime)
    ensures r.Ok? && !Blank(f) ==> r.value.frame.Some? && |r.value.frame.value.rows| == |f.value.rows|
    ensures r.Ok? && !Blank(f) ==> r.value.frame.value.hasIsLow == ("is_low" in Names(f.value.columns))
    ensures r.Ok? && !Blank(f) ==> r.value.hasGas == ("gas" in Names(f.value.columns))
    ensures r.Ok? && !Blank(f) ==> forall i :: 0 <= i < |f.value.rows| ==>
      var row := f.value.rows[i];
      r.value.frame.value.rows[i] == Features.GasRow(ToTime(Get(row, TimeColumnOf(f.value, "gas_ts")), toTime).value,
        NumberAt(row, "gas"), NumberAt(row, "is_low"))
  {
    if Blank(f) then Ok(Gas(None, false))
    else
      var g := f.value;
      var tc := TimeColumnOf(g, "gas_ts");
      if tc !in Names(g.columns) then Err("KeyError: " + tc)
      else if !AllTimed(g.rows, tc, toTime) then Err("ValueError: Merge keys contain null values on right side")
      else
        var rows := seq(|g.rows|, i requires 0 <= i < |g.rows| =>
          Features.GasRow(ToTime(Get(g.rows[i], tc), toTime).value, NumberAt(g.rows[i], "gas"), NumberAt(g.rows[i], "is_low")));
        Ok(Gas(Some(Features.GasFrame(rows, "is_low" in Names(g.columns))), "gas" in Names(g.columns)))
  }

  /** `astype(int)` of a number: truncation toward zero. */
  function Truncate(x: real): (n: int)
    ensures x >= 0.0 ==> n as real <= x < n as real + 1.0
    ensures x < 0.0 ==> n as real - 1.0 < x <= n as real
  {
    if x >= 0.0 then x.Floor else -((-x).Floor)
  }

  /** Every row's `isError` is a number (`astype(int)` raises on a missing one). */
  predicate FlagsNumeric(rows: seq<Row>) {
    forall i :: 0 <= i < |rows| ==> Get(rows[i], "isError").Num?
  }

  /**
   * The contract frame read for `_prepare_contract_features`: KeyError without
   * its time column; without an `isError` column `contracts.get("isError", 0)`
   * is the integer 0, which has no `astype`; a missing flag cannot be cast to
   * an integer; a `NaT` time fails the merge.
   */
  function ContractsOf(f: Option<Frame>, toTime: Cell -> Option<int>): (r: Result<Option<seq<Features.ContractRow>>, string>)
    ensures Blank(f) ==> r == Ok(None)
    ensures r.Err? <==> !Blank(f) && ContractsFail(f.value, toTime)
    ensures r.Ok? && !Blank(f) ==> r.value.Some? && |r.value.value| == |f.value.rows|
    ensures r.Ok? && !Blank(f) ==> forall i :: 0 <= i < |f.value.rows| ==>
      var row := f.value.rows[i];
      r.value.value[i] == Features.ContractRow(ToTime(Get(row, TimeColumnOf(f.value, "tx_ts")), toTime).value, Truncate(Get(row, "isError").n))
  {
    if Blank(f) then Ok(None)
    else
      var g := f.value;
      var tc := TimeColumnOf(g, "tx_ts");
      if tc !in Names(g.columns) then Err("KeyError: " + tc)
      else if "isError" !in Names(g.columns) then Err("AttributeError: 'int' object has no attribute 'astype'")
      else if !FlagsNumeric(g.rows) then Err("IntCastingNaNError")
      else if !AllTimed(g.rows, tc, toTime) then Err("ValueError: Merge keys contain null values on right side")
      else
        Ok(Some(seq(|g.rows|, i requires 0 <= i < |g.rows| =>
          Features.ContractRow(ToTime(Get(g.rows[i], tc), toTime).value, Truncate(Get(g.rows[i], "isError").n)))))
  }

  /** One server's context, read; `totals` and `hasGas` say which optional columns its frames have. */
  datatype Context = Context(server: Features.ServerContext, totals: seq<string>, hasGas: bool)

  /** The balance totals a read context carries are named with an underscore. */
  predicate TotalsNamed(x: Context) {
    forall n :: n in x.totals ==> '_' in n
  }

  const NoContext := Context(Features.ServerContext(None, None, None), [], false)

  /** Reading one of a server's context frames raises. */
  predicate ContextFails(frames: map<string, Frame>, hours: seq<nat>, toTime: Cell -> Option<int>) {
    var b := Stream(frames, "balances_history");
    var g := Stream(frames, "gas_balances");
    var k := Stream(frames, "contract_transactions");
    (!Blank(b) && BalancesFail(b.value, hours, toTime)) || (!Blank(g) && GasFail(g.value, toTime)) || (!Blank(k) && ContractsFail(k.value, toTime))
  }

  /** A server's context dictionary read stream by stream. */
  function ContextOf(frames: map<string, Frame>, hours: seq<nat>, toTime: Cell -> Option<int>): (r: Result<Context, string>)
    ensures r.Err? <==> ContextFails(frames, hours, toTime)
    ensures r.Ok? ==> TotalsNamed(r.value)
    ensures r.Ok? ==> r.value.server.balances == BalancesOf(Stream(frames, "balances_history"), hours, toTime).value.rows
    ensures r.Ok? ==> r.value.server.gas == GasOf(Stream(frames, "gas_balances"), toTime).value.frame
    ensures r.Ok? ==> r.value.server.contracts == ContractsOf(Stream(frames, "contract_transactions"), toTime).value
  {
    var b := BalancesOf(Stream(frames, "balances_history"), hours, toTime);
    var g := GasOf(Stream(frames, "gas_balances"), toTime);
    var k := ContractsOf(Stream(frames, "contract_transactions"), toTime);
    if b.Err? then Err(b.error)
    else if g.Err? then Err(g.error)
    else if k.Err? then Err(k.error)
    else Ok(Context(Features.ServerContext(b.value.rows, g.value.frame, k.value), b.value.totals, g.value.hasGas))
  }

  /** A column a merge adds: its name, dtype and the cell of one trade. */
  datatype Out = Out(name: string, dtype: DType, cell: Cell)

  function OutNames(outs: seq<Out>): (names: seq<string>)
    ensures |names| == |outs|
    ensures forall k :: 0 <= k < |outs| ==> names[k] == outs[k].name
  {
    seq(|outs|, k requires 0 <= k < |outs| => outs[k].name)
  }

  /** `suffixes=("", suffix)`: a right-hand column whose name the left frame has takes the suffix. */
  function Place(outs: seq<Out>, left: seq<string>, suffix: string): (r: seq<Out>)
    ensures |r| == |outs|
    ensures forall k :: 0 <= k < |outs| ==> r[k].dtype == outs[k].dtype && r[k].cell == outs[k].cell
    ensures forall k :: 0 <= k < |outs| ==> r[k].name == if outs[k].name in left then outs[k].name + suffix else outs[k].name
  {
    seq(|outs|, k requires 0 <= k < |outs| =>
      Out(if outs[k].name in left then outs[k].name + suffix else outs[k].name, outs[k].dtype, outs[k].cell))
  }

  /** `balanceDelta_{w}h`. */
  function DeltaName(w: nat): (n: string)
    ensures '_' in n
  {
    var n := "balanceDelta_" + Strings.NatToString(w) + "h";
    assert n[12] == '_';
    n
  }

  function TotalCell(b: Option<Features.BalanceFeat>, name: string): Cell {
    if b.None? then Null
    else if name == "total_usdt" then NumCell(b.value.totalUsdt)
    else if name == "total_dex_usdt" then NumCell(b.value.totalDexUsdt)
    else NumCell(b.value.totalCexUsdt)
  }

  /** The `k`-th delta of a joined balance row, missing without a match. */
  function DeltaCell(b: Option<Features.BalanceFeat>, k: nat): Cell {
    if b.Some? && k < |b.value.deltas| then Num(b.value.deltas[k]) else Null
  }

  /** The balance columns joined to one trade: the deltas, `feature_ts` and the totals; all missing without a match. */
  function BalanceOuts(hours: seq<nat>, totals: seq<string>, b: Option<Features.BalanceFeat>): (r: seq<Out>)
    ensures |r| == |hours| + 1 + |totals|
    ensures forall k :: 0 <= k < |hours| ==> r[k] == Out(DeltaName(hours[k]), Numeric, DeltaCell(b, k))
    ensures r[|hours|] == Out("feature_ts", DateTime, if b.Some? then Time(b.value.t) else Null)
    ensures forall k :: 0 <= k < |totals| ==> r[|hours| + 1 + k] == Out(totals[k], Numeric, TotalCell(b, totals[k]))
  {
    seq(|hours|, k requires 0 <= k < |hours| =>
      Out(DeltaName(hours[k]), Numeric, DeltaCell(b, k)))
    + [Out("feature_ts", DateTime, if b.Some? then Time(b.value.t) else Null)]
    + seq(|totals|, k requires 0 <= k < |totals| => Out(totals[k], Numeric, TotalCell(b, totals[k])))
  }

  /** The gas columns joined to one trade: `feature_ts`, `gasBalance` when the frame has `gas`, `isLowGas`. */
  function GasOuts(hasGas: bool, g: Option<Features.GasFeat>): (r: seq<Out>)
    ensures var stamp := Out("feature_ts", DateTime, if g.Some? then Time(g.value.t) else Null);
      var low := Out("isLowGas", Numeric, if g.Some? then NumCell(g.value.isLowGas) else Null);
      r == if hasGas then [stamp, Out("gasBalance", Numeric, if g.Some? then NumCell(g.value.gasBalance) else Null), low] else [stamp, low]
  {
    [Out("feature_ts", DateTime, if g.Some? then Time(g.value.t) else Null)]
    + (if hasGas then [Out("gasBalance", Numeric, if g.Some? then NumCell(g.value.gasBalance) else Null)] else [])
    + [Out("isLowGas", Numeric, if g.Some? then NumCell(g.value.isLowGas) else Null)]
  }

  /** The contract columns joined to one trade: `feature_ts`, `isError`, `errorCount1h`. */
  function ContractOuts(k: Option<Features.ContractFeat>): (r: seq<Out>)
    ensures |r| == 3 && r[0] == Out("feature_ts", DateTime, if k.Some? then Time(k.value.t) else Null)
    ensures r[1] == Out("isError", Numeric, if k.Some? then Num(k.value.isError as real) else Null)
    ensures r[2] == Out("errorCount1h", Numeric, if k.Some? then Num(k.value.errorCount1h as real) else Null)
  {
    [Out("feature_ts", DateTime, if k.Some? then Time(k.value.t) else Null),
     Out("isError", Numeric, if k.Some? then Num(k.value.isError as real) else Null),
     Out("errorCount1h", Numeric, if k.Some? then Num(k.value.errorCount1h as real) else Null)]
  }

  /** The trade has a context frame of the stream (`... is not None`). */
  predicate HasBalances(x: Context) { x.server.balances.Some? && x.server.balances.value != [] }
  predicate HasGas(x: Context) { x.server.gas.Some? && x.server.gas.value.rows != [] }
  predicate HasContracts(x: Context) { x.server.contracts.Some? && x.server.contracts.value != [] }

  /**
   * The columns the three `merge_asof` calls add to one trade, each stream's
   * names suffixed against the columns the frame has by then.
   */
  function MergedOuts(m: Features.Merged, x: Context, left: seq<string>, hours: seq<nat>): seq<Out> {
    var balance := if HasBalances(x) then Place(BalanceOuts(hours, x.totals, m.balance), left, "_balance") else [];
    var afterBalance := left + OutNames(balance);
    var gas := if HasGas(x) then Place(GasOuts(x.hasGas, m.gas), afterBalance, "_gas") else [];
    var afterGas := afterBalance + OutNames(gas);
    var contract := if HasContracts(x) then Place(ContractOuts(m.contract), afterGas, "_contract") else [];
    balance + gas + contract
  }

  /** No later column of `outs` has the name of column `k`. */
  predicate LastOut(outs: seq<Out>, k: nat)
    requires k < |outs|
  {
    forall j :: k < j < |outs| ==> outs[j].name != outs[k].name
  }

  /** A trade row with the merged columns written into it, the later of two equal names winning. */
  function Overlay(row: Row, outs: seq<Out>): (r: Row)
    ensures forall n :: n !in OutNames(outs) ==> Get(r, n) == Get(row, n)
    ensures forall k :: 0 <= k < |outs| && LastOut(outs, k) ==> Get(r, outs[k].name) == outs[k].cell
  {
    if outs == [] then row
    else
      var pre := outs[..|outs| - 1];
      var last := outs[|outs| - 1];
      OutsSplit(outs);
      var r0 := Overlay(row, pre);
      assert forall n :: n !in OutNames(pre) ==> Get(r0, n) == Get(row, n);
      r0[last.name := last.cell]
  }

  /** Dropping the last column of `outs`: its names shrink and an earlier last occurrence stays last. */
  lemma OutsSplit(outs: seq<Out>)
    requires outs != []
    ensures forall n :: n !in OutNames(outs) ==> n != outs[|outs| - 1].name && n !in OutNames(outs[..|outs| - 1])
    ensures forall k :: 0 <= k < |outs| - 1 && LastOut(outs, k) ==>
      outs[..|outs| - 1][k] == outs[k] && LastOut(outs[..|outs| - 1], k) && outs[k].name != outs[|outs| - 1].name
  {
    var pre := outs[..|outs| - 1];
    forall n | n !in OutNames(outs) ensures n != outs[|outs| - 1].name && n !in OutNames(pre) {
      assert OutNames(outs)[|outs| - 1] == outs[|outs| - 1].name;
      forall k | 0 <= k < |pre| ensures OutNames(pre)[k] != n {
        assert OutNames(pre)[k] == OutNames(outs)[k];
      }
    }
  }


  /** The column list once every merged column is assigned. */
  function OutColumns(cols: seq<Column>, outs: seq<Out>): (r: seq<Column>)
    ensures forall n :: n in Names(r) <==> n in Names(cols) || n in OutNames(outs)
    decreases |outs|
  {
    if outs == [] then cols
    else
      var next := SetColumn(cols, outs[0].name, outs[0].dtype);
      var r := OutColumns(next, outs[1..]);
      assert forall n :: n in OutNames(outs) <==> n == outs[0].name || n in OutNames(outs[1..]) by {
        forall n ensures n in OutNames(outs) <==> n == outs[0].name || n in OutNames(outs[1..]) {
          if n in OutNames(outs) {
            var k :| 0 <= k < |outs| && OutNames(outs)[k] == n;
            if k > 0 {
              assert OutNames(outs[1..])[k - 1] == n;
            }
          }
          if n in OutNames(outs[1..]) {
            var k :| 0 <= k < |outs| - 1 && OutNames(outs[1..])[k] == n;
            assert OutNames(outs)[k + 1] == n;
          }
          if n == outs[0].name {
            assert OutNames(outs)[0] == n;
          }
        }
      }
      r
  }

  /** The trades as the merge sees them: server, time and row position. */
  function TradesOf(rows: seq<Row>, time: string): (trades: seq<Features.Trade>)
    ensures |trades| == |rows|
    ensures forall j :: 0 <= j < |rows| ==> trades[j] == Features.Trade(TextOf(Get(rows[j], "serverId")), TimeAt(rows[j], time), j)
  {
    seq(|rows|, j requires 0 <= j < |rows| => Features.Trade(TextOf(Get(rows[j], "serverId")), TimeAt(rows[j], time), j))
  }

  /** Some server among the trades has a context dictionary whose frames cannot be read. */
  predicate ContextError(trades: seq<Features.Trade>, ctx: map<string, map<string, Frame>>, hours: seq<nat>, toTime: Cell -> Option<int>) {
    exists s :: s in Features.Servers(trades) && s in ctx && ContextFails(ctx[s], hours, toTime)
  }

  /**
   * With some context, the merge raises: no `serverId` to group by, no group
   * at all (`pd.concat` of nothing), no time column to sort a group by, or a
   * context frame of a grouped server that cannot be read.
   */
  predicate MergeFails(f: Frame, ctx: map<string, map<string, Frame>>, c: Config.TrainingConfig, toTime: Cell -> Option<int>) {
    var trades := TradesOf(f.rows, c.timeColumn);
    |ctx| > 0 &&
    ("serverId" !in Names(f.columns) || Features.Servers(trades) == [] || c.timeColumn !in Names(f.columns) ||
     ContextError(trades, ctx, c.featureWindowsHours, toTime))
  }

  /** Every server's context read; one that cannot be read is never grouped when the merge succeeds. */
  function Contexts(ctx: map<string, map<string, Frame>>, hours: seq<nat>, toTime: Cell -> Option<int>): (r: map<string, Context>)
    ensures r.Keys == ctx.Keys
    ensures forall s :: s in r ==> TotalsNamed(r[s])
    ensures forall s :: s in ctx && ContextOf(ctx[s], hours, toTime).Ok? ==> r[s] == ContextOf(ctx[s], hours, toTime).value
  {
    map s | s in ctx :: var x := ContextOf(ctx[s], hours, toTime); if x.Ok? then x.value else NoContext
  }

  function ServerContexts(cm: map<string, Context>): (r: map<string, Features.ServerContext>)
    ensures r.Keys == cm.Keys
    ensures forall s :: s in cm ==> r[s] == cm[s].server
  {
    map s | s in cm :: cm[s].server
  }

  /** The context of a merged trade's server. */
  function ContextAt(cm: map<string, Context>, m: Features.Merged): (x: Context)
    ensures (forall s :: s in cm ==> TotalsNamed(cm[s])) ==> TotalsNamed(x)
  {
    if m.trade.server.Some? && m.trade.server.value in cm then cm[m.trade.server.value] else NoContext
  }

  /** The trades as `_merge_context_features` lays them out, each with its joined context rows. */
  function MergedTrades(f: Frame, ctx: map<string, map<string, Frame>>, c: Config.TrainingConfig, toTime: Cell -> Option<int>): seq<Features.Merged> {
    Features.MergeContext(TradesOf(f.rows, c.timeColumn), ServerContexts(Contexts(ctx, c.featureWindowsHours, toTime)), c.featureWindowsHours)
  }

  /** Every merged trade is one of the frame's rows, and with context it has a server. */
  lemma MergedIds(f: Frame, ctx: map<string, map<string, Frame>>, c: Config.TrainingConfig, toTime: Cell -> Option<int>)
    ensures forall m :: m in MergedTrades(f, ctx, c, toTime) ==>
      m.trade.id < |f.rows| && m.trade == TradesOf(f.rows, c.timeColumn)[m.trade.id]
    ensures |ctx| > 0 ==> forall m :: m in MergedTrades(f, ctx, c, toTime) ==> m.trade.server.Some?
  {
    var trades := TradesOf(f.rows, c.timeColumn);
    var sm := ServerContexts(Contexts(ctx, c.featureWindowsHours, toTime));
    assert sm.Keys == ctx.Keys;
    if |ctx| > 0 {
      assert |sm| == |ctx|;
      Features.MergeKeepsServerTrades(trades, sm, c.featureWindowsHours);
    } else {
      assert |sm| == 0;
      Features.MergeWithoutContext(trades, c.featureWindowsHours);
    }
    forall m | m in MergedTrades(f, ctx, c, toTime)
      ensures m.trade.id < |f.rows| && m.trade == trades[m.trade.id]
    {
      assert m.trade in trades;
    }
  }

  /** Each merged trade's row with its merged columns written in. */
  function RowsOut(rows: seq<Row>, merged: seq<Features.Merged>, cm: map<string, Context>, left: seq<string>, hours: seq<nat>): (r: seq<Row>)
    requires forall m :: m in merged ==> m.trade.id < |rows|
    ensures |r| == |merged|
    ensures forall i :: 0 <= i < |merged| ==>
      r[i] == Overlay(rows[merged[i].trade.id], MergedOuts(merged[i], ContextAt(cm, merged[i]), left, hours))
  {
    seq(|merged|, i requires 0 <= i < |merged| =>
      assert merged[i] in merged;
      Overlay(rows[merged[i].trade.id], MergedOuts(merged[i], ContextAt(cm, merged[i]), left, hours)))
  }

  /** Some merged trade gets a column named `n`. */
  predicate MergedName(n: string, merged: seq<Features.Merged>, cm: map<string, Context>, left: seq<string>, hours: seq<nat>) {
    exists i :: 0 <= i < |merged| && n in OutNames(MergedOuts(merged[i], ContextAt(cm, merged[i]), left, hours))
  }

  lemma MergedNameSplit(n: string, merged: seq<Features.Merged>, cm: map<string, Context>, left: seq<string>, hours: seq<nat>)
    requires merged != []
    ensures MergedName(n, merged, cm, left, hours) <==>
      MergedName(n, merged[..|merged| - 1], cm, left, hours) ||
      n in OutNames(MergedOuts(merged[|merged| - 1], ContextAt(cm, merged[|merged| - 1]), left, hours))
  {
    var named := (m: Features.Merged) => n in OutNames(MergedOuts(m, ContextAt(cm, m), left, hours));
    AnyHasSplit(merged, named);
    assert MergedName(n, merged, cm, left, hours) == AnyHas(merged, named);
    assert MergedName(n, merged[..|merged| - 1], cm, left, hours) == AnyHas(merged[..|merged| - 1], named);
  }

  /** Some element of `xs` has property `p`. */
  predicate AnyHas<T>(xs: seq<T>, p: T -> bool) {
    exists i :: 0 <= i < |xs| && p(xs[i])
  }

  /** Some element of a non-empty sequence has `p` exactly when one before the last has it or the last has it. */
  lemma AnyHasSplit<T>(xs: seq<T>, p: T -> bool)
    requires xs != []
    ensures AnyHas(xs, p) <==> AnyHas(xs[..|xs| - 1], p) || p(xs[|xs| - 1])
  {
    var pre := xs[..|xs| - 1];
    if AnyHas(xs, p) {
      var i :| 0 <= i < |xs| && p(xs[i]);
      if i < |pre| {
        assert pre[i] == xs[i];
      }
    }
    if AnyHas(pre, p) {
      var i :| 0 <= i < |pre| && p(pre[i]);
      assert pre[i] == xs[i];
    }
  }



  /** `pd.concat` of the groups: the columns of every group, each named once. */
  function ColumnsOut(cols: seq<Column>, merged: seq<Features.Merged>, cm: map<string, Context>, left: seq<string>, hours: seq<nat>): (r: seq<Column>)
    ensures forall n :: n in Names(r) <==> n in Names(cols) || MergedName(n, merged, cm, left, hours)
  {
    if merged == [] then cols
    else
      var pre := merged[..|merged| - 1];
      var last := merged[|merged| - 1];
      forall n ensures MergedName(n, merged, cm, left, hours) <==> MergedName(n, pre, cm, left, hours) || n in OutNames(MergedOuts(last, ContextAt(cm, last), left, hours)) {
        MergedNameSplit(n, merged, cm, left, hours);
      }
      OutColumns(ColumnsOut(cols, pre, cm, left, hours), MergedOuts(last, ContextAt(cm, last), left, hours))
  }

  /** `out` holds each merged trade's row with its merged columns written in, in the merge's order. */
  ghost predicate MergedRows(out: seq<Row>, f: Frame, merged: seq<Features.Merged>, cm: map<string, Context>, hours: seq<nat>) {
    |out| == |merged| &&
    forall i :: 0 <= i < |merged| ==>
      (merged[i].trade.id < |f.rows| &&
       out[i] == Overlay(f.rows[merged[i].trade.id], MergedOuts(merged[i], ContextAt(cm, merged[i]), Names(f.columns), hours)))
  }

  /**
   * `_merge_context_features` on frames: without context the frame is
   * returned as it is; otherwise each server's rows, sorted by time, get the
   * backward as-of rows of its balance, gas and contract frames, and the
   * groups are concatenated in server order.
   */
  function MergeFrame(f: Frame, ctx: map<string, map<string, Frame>>, c: Config.TrainingConfig, toTime: Cell -> Option<int>): (r: Result<Frame, string>)
    ensures r.Err? <==> MergeFails(f, ctx, c, toTime)
    ensures |ctx| == 0 ==> r == Ok(f)
    ensures r.Ok? && |ctx| > 0 ==> |r.value.rows| == |MergedTrades(f, ctx, c, toTime)|
  {
    if |ctx| == 0 then Ok(f)
    else
      var trades := TradesOf(f.rows, c.timeColumn);
      if "serverId" !in Names(f.columns) then Err("KeyError: serverId")
      else if Features.Servers(trades) == [] then Err("ValueError: No objects to concatenate")
      else if c.timeColumn !in Names(f.columns) then Err("KeyError: " + c.timeColumn)
      else if ContextError(trades, ctx, c.featureWindowsHours, toTime) then Err("context frame")
      else
        var cm := Contexts(ctx, c.featureWindowsHours, toTime);
        var merged := MergedTrades(f, ctx, c, toTime);
        MergedIds(f, ctx, c, toTime);
        var left := Names(f.columns);
        Ok(Frame(ColumnsOut(f.columns, merged, cm, left, c.featureWindowsHours), RowsOut(f.rows, merged, cm, left, c.featureWindowsHours)))
  }

  /**
   * With some context, each merged row is its input row overlaid with the
   * joined columns of its as-of matches, and the merged columns are the
   * input's plus every joined name.
   */
  lemma MergeFrameMerges(f: Frame, ctx: map<string, map<string, Frame>>, c: Config.TrainingConfig, toTime: Cell -> Option<int>)
    requires MergeFrame(f, ctx, c, toTime).Ok? && |ctx| > 0
    ensures var cm := Contexts(ctx, c.featureWindowsHours, toTime);
      var merged := MergedTrades(f, ctx, c, toTime);
      MergedRows(MergeFrame(f, ctx, c, toTime).value.rows, f, merged, cm, c.featureWindowsHours) &&
      forall n :: n in Names(MergeFrame(f, ctx, c, toTime).value.columns) <==> n in Names(f.columns) || MergedName(n, merged, cm, Names(f.columns), c.featureWindowsHours)
  {
    MergedIds(f, ctx, c, toTime);
  }

  /** A column no merge writes: no underscore, and none of the merged names that lack one. */
  predicate Plain(n: string) {
    '_' !in n && n != "gasBalance" && n != "isLowGas" && n != "isError" && n != "errorCount1h"
  }

  /** `row` holds `source`'s cell in every plain column. */
  ghost predicate CarriesPlain(row: Row, source: Row) {
    forall n :: Plain(n) ==> Get(row, n) == Get(source, n)
  }

  lemma PlacedNotPlain(outs: seq<Out>, left: seq<string>, suffix: string)
    requires forall k :: 0 <= k < |outs| ==> !Plain(outs[k].name)
    requires |suffix| > 0 && suffix[0] == '_'
    ensures forall n :: n in OutNames(Place(outs, left, suffix)) ==> !Plain(n)
  {
    var placed := Place(outs, left, suffix);
    forall n | n in OutNames(placed) ensures !Plain(n) {
      var k :| 0 <= k < |placed| && OutNames(placed)[k] == n;
      if outs[k].name in left {
        assert n[|outs[k].name|] == '_';
      }
    }
  }

  lemma BalanceOutsNotPlain(hours: seq<nat>, totals: seq<string>, b: Option<Features.BalanceFeat>)
    requires forall n :: n in totals ==> '_' in n
    ensures forall k :: 0 <= k < |BalanceOuts(hours, totals, b)| ==> !Plain(BalanceOuts(hours, totals, b)[k].name)
  {
    var r := BalanceOuts(hours, totals, b);
    assert "feature_ts"[7] == '_';
    forall k | 0 <= k < |r| ensures !Plain(r[k].name) {
      if k > |hours| {
        assert r[k].name == totals[k - |hours| - 1];
      }
    }
  }

  lemma StreamOutsNotPlain(hasGas: bool, g: Option<Features.GasFeat>, c: Option<Features.ContractFeat>)
    ensures forall k :: 0 <= k < |GasOuts(hasGas, g)| ==> !Plain(GasOuts(hasGas, g)[k].name)
    ensures forall k :: 0 <= k < |ContractOuts(c)| ==> !Plain(ContractOuts(c)[k].name)
  {
    assert "feature_ts"[7] == '_';
  }

  lemma JoinNotPlain(a: seq<Out>, b: seq<Out>, c: seq<Out>)
    requires forall n :: n in OutNames(a) ==> !Plain(n)
    requires forall n :: n in OutNames(b) ==> !Plain(n)
    requires forall n :: n in OutNames(c) ==> !Plain(n)
    ensures forall n :: n in OutNames(a + b + c) ==> !Plain(n)
  {
    var all := a + b + c;
    forall n | n in OutNames(all) ensures !Plain(n) {
      var k :| 0 <= k < |all| && OutNames(all)[k] == n;
      if k < |a| {
        assert OutNames(a)[k] == n;
      } else if k < |a| + |b| {
        assert OutNames(b)[k - |a|] == n;
      } else {
        assert OutNames(c)[k - |a| - |b|] == n;
      }
    }
  }

  /** No merged column is plain. */
  lemma MergedOutsNotPlain(m: Features.Merged, x: Context, left: seq<string>, hours: seq<nat>)
    requires TotalsNamed(x)
    ensures forall n :: n in OutNames(MergedOuts(m, x, left, hours)) ==> !Plain(n)
  {
    BalanceOutsNotPlain(hours, x.totals, m.balance);
    StreamOutsNotPlain(x.hasGas, m.gas, m.contract);
    PlacedNotPlain(BalanceOuts(hours, x.totals, m.balance), left, "_balance");
    var balance := if HasBalances(x) then Place(BalanceOuts(hours, x.totals, m.balance), left, "_balance") else [];
    var afterBalance := left + OutNames(balance);
    PlacedNotPlain(GasOuts(x.hasGas, m.gas), afterBalance, "_gas");
    var gas := if HasGas(x) then Place(GasOuts(x.hasGas, m.gas), afterBalance, "_gas") else [];
    PlacedNotPlain(ContractOuts(m.contract), afterBalance + OutNames(gas), "_contract");
    var contract := if HasContracts(x) then Place(ContractOuts(m.contract), afterBalance + OutNames(gas), "_contract") else [];
    JoinNotPlain(balance, gas, contract);
  }

  /**
   * With some context, each merged row is an input row that has a text
   * `serverId`, its plain columns untouched.
   */
  lemma MergeFrameCarries(f: Frame, ctx: map<string, map<string, Frame>>, c: Config.TrainingConfig, toTime: Cell -> Option<int>, i: nat)
    requires MergeFrame(f, ctx, c, toTime).Ok? && |ctx| > 0
    requires i < |MergeFrame(f, ctx, c, toTime).value.rows|
    ensures exists j :: 0 <= j < |f.rows| && Get(f.rows[j], "serverId").Text? && CarriesPlain(MergeFrame(f, ctx, c, toTime).value.rows[i], f.rows[j])
  {
    var out := MergeFrame(f, ctx, c, toTime).value.rows;
    var cm := Contexts(ctx, c.featureWindowsHours, toTime);
    var merged := MergedTrades(f, ctx, c, toTime);
    MergeFrameMerges(f, ctx, c, toTime);
    MergedIds(f, ctx, c, toTime);
    var m := merged[i];
    assert m in merged;
    var j := m.trade.id;
    MergedOutsNotPlain(m, ContextAt(cm, m), Names(f.columns), c.featureWindowsHours);
    assert TextOf(Get(f.rows[j], "serverId")).Some?;
  }

  /** A merged trade's output row carries its input row's plain cells. */
  lemma MergedRowCarries(out: seq<Row>, f: Frame, merged: seq<Features.Merged>, cm: map<string, Context>, hours: seq<nat>, i: nat)
    requires MergedRows(out, f, merged, cm, hours) && i < |merged|
    requires forall s :: s in cm ==> TotalsNamed(cm[s])
    ensures merged[i].trade.id < |f.rows| && CarriesPlain(out[i], f.rows[merged[i].trade.id])
  {
    MergedOutsNotPlain(merged[i], ContextAt(cm, merged[i]), Names(f.columns), hours);
  }

  /** With some context, every input row with a text `serverId` comes out of the merge. */
  lemma MergeFrameKeeps(f: Frame, ctx: map<string, map<string, Frame>>, c: Config.TrainingConfig, toTime: Cell -> Option<int>, j: nat)
    requires MergeFrame(f, ctx, c, toTime).Ok? && |ctx| > 0
    requires j < |f.rows| && Get(f.rows[j], "serverId").Text?
    ensures exists i :: 0 <= i < |MergeFrame(f, ctx, c, toTime).value.rows| && CarriesPlain(MergeFrame(f, ctx, c, toTime).value.rows[i], f.rows[j])
  {
    var out := MergeFrame(f, ctx, c, toTime).value.rows;
    var cm := Contexts(ctx, c.featureWindowsHours, toTime);
    var merged := MergedTrades(f, ctx, c, toTime);
    MergeFrameMerges(f, ctx, c, toTime);
    var i := MergedIndexOf(f, ctx, c, toTime, j);
    MergedRowCarries(out, f, merged, cm, c.featureWindowsHours, i);
  }

  /** The position among the merged trades of an input row with a text `serverId`. */
  lemma MergedIndexOf(f: Frame, ctx: map<string, map<string, Frame>>, c: Config.TrainingConfig, toTime: Cell -> Option<int>, j: nat) returns (i: nat)
    requires |ctx| > 0 && j < |f.rows| && Get(f.rows[j], "serverId").Text?
    ensures i < |MergedTrades(f, ctx, c, toTime)| && MergedTrades(f, ctx, c, toTime)[i].trade.id == j
  {
    var trades := TradesOf(f.rows, c.timeColumn);
    var sm := ServerContexts(Contexts(ctx, c.featureWindowsHours, toTime));
    assert |sm| > 0 by {
      var s :| s in ctx;
      assert s in sm;
    }
    assert trades[j].server.Some?;
    i := Features.MergedPosition(trades, sm, c.featureWindowsHours, j);
  }


  /** A server with no context frames passes through the merge with its rows unchanged. */
  lemma MergeFramePassThrough(f: Frame, ctx: map<string, map<string, Frame>>, c: Config.TrainingConfig, toTime: Cell -> Option<int>, i: nat)
    requires MergeFrame(f, ctx, c, toTime).Ok? && |ctx| > 0
    requires i < |MergeFrame(f, ctx, c, toTime).value.rows|
    requires var s := MergedTrades(f, ctx, c, toTime)[i].trade.server;
      s.Some? ==> s.value !in ctx || forall key :: key in ctx[s.value] ==> Blank(Some(ctx[s.value][key]))
    ensures var m := MergedTrades(f, ctx, c, toTime)[i];
      m.trade.id < |f.rows| && MergeFrame(f, ctx, c, toTime).value.rows[i] == f.rows[m.trade.id]
  {
    var out := MergeFrame(f, ctx, c, toTime).value.rows;
    var cm := Contexts(ctx, c.featureWindowsHours, toTime);
    var merged := MergedTrades(f, ctx, c, toTime);
    MergeFrameMerges(f, ctx, c, toTime);
    var m := merged[i];
    var x := ContextAt(cm, m);
    if m.trade.server.Some? && m.trade.server.value in ctx {
      BlankContext(ctx[m.trade.server.value], c.featureWindowsHours, toTime);
      assert x == ContextOf(ctx[m.trade.server.value], c.featureWindowsHours, toTime).value;
    }
    assert !HasBalances(x) && !HasGas(x) && !HasContracts(x);
    assert MergedOuts(m, x, Names(f.columns), c.featureWindowsHours) == [];
    assert out[i] == Overlay(f.rows[m.trade.id], []);
  }

  /** A server whose context frames are all empty or missing reads as a context with no stream. */
  lemma BlankContext(frames: map<string, Frame>, hours: seq<nat>, toTime: Cell -> Option<int>)
    requires forall key :: key in frames ==> Blank(Some(frames[key]))
    ensures ContextOf(frames, hours, toTime).Ok?
    ensures var x := ContextOf(frames, hours, toTime).value; !HasBalances(x) && !HasGas(x) && !HasContracts(x)
  {
    assert Blank(Stream(frames, "balances_history")) && Blank(Stream(frames, "gas_balances")) && Blank(Stream(frames, "contract_transactions"));
  }

  // ---------------------------------------------------------------------------
  // build_feature_matrix
  // ---------------------------------------------------------------------------

  /** `_add_base_columns`, then `_apply_rolling_features`, then `_merge_context_features`. */
  function Enrich(trades: Frame, ctx: map<string, map<string, Frame>>, c: Config.TrainingConfig,
                  parse: string -> Option<real>, toTime: Cell -> Option<int>, std: seq<real> -> real): (r: Result<Frame, string>)
    ensures var rolled := RollFrame(AddBaseFrame(trades, c.imbalanceEps, parse), c, std);
      r.Err? <==> rolled.Err? || MergeFails(rolled.value, ctx, c, toTime)
  {
    var rolled := RollFrame(AddBaseFrame(trades, c.imbalanceEps, parse), c, std);
    if rolled.Err? then Err(rolled.error) else MergeFrame(rolled.value, ctx, c, toTime)
  }

  /** The feature matrix holds a target and a time for every row, and its categoricals are features. */
  predicate Usable(m: Features.FeatureMatrix) {
    |m.target| == |m.timestamps| &&
    (forall i :: 0 <= i < |m.target| ==> m.target[i] != Null && m.timestamps[i] != Null) &&
    (forall n :: n in m.categoricalColumns ==> n in m.featureColumns)
  }

  lemma SelectedUsable(enriched: Frame, c: Config.TrainingConfig)
    ensures Features.SelectFeatures(enriched, c).Ok? ==> Usable(Features.SelectFeatures(enriched, c).value)
  {
  }

  /** The selection applied to the enrichment's outcome; an enrichment error passes through. */
  function Select(e: Result<Frame, string>, c: Config.TrainingConfig): (r: Result<Features.FeatureMatrix, string>)
    ensures r.Err? <==> e.Err? || Config.Target(c) !in Names(e.value.columns)
    ensures r.Ok? ==> Usable(r.value)
  {
    if e.Err? then Err(e.error)
    else
      SelectedUsable(e.value, c);
      Features.SelectFeatures(e.value, c)
  }

  /** Building fails: the enrichment raises, or its frame has no target column. */
  predicate BuildFails(trades: Frame, ctx: map<string, map<string, Frame>>, c: Config.TrainingConfig,
                       parse: string -> Option<real>, toTime: Cell -> Option<int>, std: seq<real> -> real) {
    var e := Enrich(trades, ctx, c, parse, toTime, std);
    trades.rows != [] && trades.columns != [] && (e.Err? || Config.Target(c) !in Names(e.value.columns))
  }

  /**
   * `build_feature_matrix`: an empty trade frame gives an empty result
   * straight away; otherwise the enriched frame goes through the selection,
   * which fails when the target column is missing and otherwise keeps only
   * rows holding a target and a time.
   */
  function BuildFeatureMatrix(trades: Frame, ctx: map<string, map<string, Frame>>, c: Config.TrainingConfig,
                              parse: string -> Option<real>, toTime: Cell -> Option<int>, std: seq<real> -> real): (r: Result<Features.FeatureMatrix, string>)
    ensures trades.rows == [] || trades.columns == [] ==> r == Ok(Features.FeatureMatrix(trades.rows, [], [], [], []))
    ensures r.Err? <==> BuildFails(trades, ctx, c, parse, toTime, std)
  {
    if trades.rows == [] || trades.columns == [] then Ok(Features.FeatureMatrix(trades.rows, [], [], [], []))
    else
      Select(Enrich(trades, ctx, c, parse, toTime, std), c)
  }

  /** Every row of a built matrix holds its target and its time; every categorical column is a feature. */
  lemma BuiltUsable(trades: Frame, ctx: map<string, map<string, Frame>>, c: Config.TrainingConfig,
                    parse: string -> Option<real>, toTime: Cell -> Option<int>, std: seq<real> -> real)
    requires BuildFeatureMatrix(trades, ctx, c, parse, toTime, std).Ok?
    ensures Usable(BuildFeatureMatrix(trades, ctx, c, parse, toTime, std).value)
  {
    if trades.rows != [] && trades.columns != [] {
      var e := Enrich(trades, ctx, c, parse, toTime, std);
      assert BuildFeatureMatrix(trades, ctx, c, parse, toTime, std) == Select(e, c);
    }
  }

  /** `row` holds `trade`'s cell in every plain column that is not a base column. */
  ghost predicate CarriesTrade(row: Row, trade: Row) {
    forall n :: Plain(n) && n !in BaseNames ==> Get(row, n) == Get(trade, n)
  }

  lemma ServerIdPlain()
    ensures Plain("serverId") && "serverId" !in BaseNames
  {
    assert forall k :: 0 <= k < |"serverId"| ==> "serverId"[k] != '_';
  }

  /**
   * `row` comes from trade `j`: that trade has a timestamp (when the time
   * column is not a base column), a text `serverId` when `server` says so,
   * and `row` keeps its plain cells.
   */
  ghost predicate TradeOrigin(row: Row, trades: seq<Row>, j: int, time: string, server: bool) {
    0 <= j < |trades| && (time !in BaseNames ==> Get(trades[j], time).Time?) &&
    (server ==> Get(trades[j], "serverId").Text?) && CarriesTrade(row, trades[j])
  }

  lemma BaseOrigin(row: Row, trade: Row, eps: real, parse: string -> Option<real>, time: string)
    requires Carries(row, BaseRowOf(trade, eps, parse)) && Get(BaseRowOf(trade, eps, parse), time).Time?
    ensures CarriesTrade(row, trade)
    ensures time !in BaseNames ==> Get(trade, time).Time?
  {
  }

  /** A rolled row of the base frame comes from a trade with a timestamp, its plain cells kept. */
  lemma RolledFromTrade(trades: Frame, c: Config.TrainingConfig, parse: string -> Option<real>, std: seq<real> -> real, k: nat)
    requires RollFrame(AddBaseFrame(trades, c.imbalanceEps, parse), c, std).Ok?
    requires k < |RollFrame(AddBaseFrame(trades, c.imbalanceEps, parse), c, std).value.rows|
    ensures exists j :: TradeOrigin(RollFrame(AddBaseFrame(trades, c.imbalanceEps, parse), c, std).value.rows[k], trades.rows, j, c.timeColumn, false)
  {
    RolledAllFromTrades(trades, c, parse, std);
    var rows := RollFrame(AddBaseFrame(trades, c.imbalanceEps, parse), c, std).value.rows;
    assert FromTrade(rows[k], trades.rows, c.timeColumn, false);
  }


  /** Every row of `rows` comes from one of `trades`, keeping its plain cells. */
  ghost predicate FromTrades(rows: seq<Row>, trades: seq<Row>, time: string, server: bool) {
    forall k :: 0 <= k < |rows| ==> FromTrade(rows[k], trades, time, server)
  }

  /** `row` comes from one of `trades`, keeping its plain cells. */
  ghost predicate FromTrade(row: Row, trades: seq<Row>, time: string, server: bool) {
    exists j :: TradeOrigin(row, trades, j, time, server)
  }

  /** The merge with context keeps the trade provenance of its input rows and adds a text `serverId`. */
  lemma MergedFromTrade(rolled: Frame, trades: seq<Row>, ctx: map<string, map<string, Frame>>, c: Config.TrainingConfig,
                        toTime: Cell -> Option<int>, i: nat)
    requires MergeFrame(rolled, ctx, c, toTime).Ok? && |ctx| > 0
    requires FromTrades(rolled.rows, trades, c.timeColumn, false)
    requires i < |MergeFrame(rolled, ctx, c, toTime).value.rows|
    ensures exists j :: TradeOrigin(MergeFrame(rolled, ctx, c, toTime).value.rows[i], trades, j, c.timeColumn, true)
  {
    var out := MergeFrame(rolled, ctx, c, toTime).value;
    MergeFrameCarries(rolled, ctx, c, toTime, i);
    var k :| 0 <= k < |rolled.rows| && Get(rolled.rows[k], "serverId").Text? && CarriesPlain(out.rows[i], rolled.rows[k]);
    assert FromTrade(rolled.rows[k], trades, c.timeColumn, false);
    var j :| TradeOrigin(rolled.rows[k], trades, j, c.timeColumn, false);
    OriginThroughMerge(out.rows[i], rolled.rows[k], trades, j, c.timeColumn);
  }

  /** A merged row keeps the origin of the row it came from, whose text `serverId` is its trade's. */
  lemma OriginThroughMerge(out: Row, row: Row, trades: seq<Row>, j: int, time: string)
    requires CarriesPlain(out, row) && TradeOrigin(row, trades, j, time, false) && Get(row, "serverId").Text?
    ensures TradeOrigin(out, trades, j, time, true)
  {
    TradeServer(row, trades[j]);
  }

  /** A row that keeps a trade's plain cells has its `serverId`. */
  lemma TradeServer(row: Row, trade: Row)
    requires CarriesTrade(row, trade)
    ensures Get(row, "serverId") == Get(trade, "serverId")
  {
    ServerIdPlain();
  }

  /** Keeping a row's plain cells keeps those of the trade it came from. */
  lemma PlainThenTrade(out: Row, row: Row, trade: Row)
    requires CarriesPlain(out, row) && CarriesTrade(row, trade)
    ensures CarriesTrade(out, trade)
  {
  }


  /** The enrichment was given context frames. */
  predicate WithContext(ctx: map<string, map<string, Frame>>) {
    |ctx| > 0
  }

  /**
   * Each enriched row comes from one trade with a timestamp and keeps that
   * trade's plain cells; with context, that trade has a text `serverId`.
   */
  lemma EnrichedFromTrade(trades: Frame, ctx: map<string, map<string, Frame>>, c: Config.TrainingConfig,
                          parse: string -> Option<real>, toTime: Cell -> Option<int>, std: seq<real> -> real, i: nat)
    requires Enrich(trades, ctx, c, parse, toTime, std).Ok?
    requires i < |Enrich(trades, ctx, c, parse, toTime, std).value.rows|
    ensures exists j :: TradeOrigin(Enrich(trades, ctx, c, parse, toTime, std).value.rows[i], trades.rows, j, c.timeColumn, WithContext(ctx))
  {
    var e := Enrich(trades, ctx, c, parse, toTime, std);
    var rolled := RollFrame(AddBaseFrame(trades, c.imbalanceEps, parse), c, std);
    assert rolled.Ok?;
    assert e == MergeFrame(rolled.value, ctx, c, toTime);
    RolledAllFromTrades(trades, c, parse, std);
    ContextFromTrade(rolled.value, trades.rows, ctx, c, toTime, i);
  }

  /** Rows that come from trades still do after the merge with context, which adds a text `serverId`. */
  lemma ContextFromTrade(rolled: Frame, trades: seq<Row>, ctx: map<string, map<string, Frame>>, c: Config.TrainingConfig,
                         toTime: Cell -> Option<int>, i: nat)
    requires MergeFrame(rolled, ctx, c, toTime).Ok?
    requires FromTrades(rolled.rows, trades, c.timeColumn, false)
    requires i < |MergeFrame(rolled, ctx, c, toTime).value.rows|
    ensures exists j :: TradeOrigin(MergeFrame(rolled, ctx, c, toTime).value.rows[i], trades, j, c.timeColumn, WithContext(ctx))
  {
    var out := MergeFrame(rolled, ctx, c, toTime).value;
    if |ctx| == 0 {
      assert out == rolled;
      assert FromTrade(rolled.rows[i], trades, c.timeColumn, false);
      OriginWith(out.rows[i], trades, c.timeColumn, false, WithContext(ctx));
    } else {
      MergedFromTrade(rolled, trades, ctx, c, toTime, i);
      OriginWith(out.rows[i], trades, c.timeColumn, true, WithContext(ctx));
    }
  }

  lemma OriginWith(row: Row, trades: seq<Row>, time: string, server: bool, with: bool)
    requires server == with && exists j :: TradeOrigin(row, trades, j, time, server)
    ensures exists j :: TradeOrigin(row, trades, j, time, with)
  {
  }

  /** Every row after the base and rolling steps comes from a timestamped trade. */
  lemma RolledAllFromTrades(trades: Frame, c: Config.TrainingConfig, parse: string -> Option<real>, std: seq<real> -> real)
    requires RollFrame(AddBaseFrame(trades, c.imbalanceEps, parse), c, std).Ok?
    ensures FromTrades(RollFrame(AddBaseFrame(trades, c.imbalanceEps, parse), c, std).value.rows, trades.rows, c.timeColumn, false)
  {
    var base := AddBaseFrame(trades, c.imbalanceEps, parse);
    if !Rolls(base, c) {
      assert "executedQtyDst" in Names(base.columns);
      assert RollFrame(base, c, std).value.rows == [];
    } else {
      var specs := RollingSpecs(base.columns, c);
      RollFrameRolls(base, c, std);
      SpecNamesUnderscored(specs, base.columns, c);
      RolledAllFromRows(RollFrame(base, c, std).value.rows, base.rows, specs, c, std);
      BaseFromTrades(RollFrame(base, c, std).value.rows, base.rows, trades.rows, c.imbalanceEps, parse, c.timeColumn);
    }
  }

  /** Every row of `out` keeps the plain cells of one row of `rows` with a timestamp. */
  ghost predicate FromRows(out: seq<Row>, rows: seq<Row>, time: string) {
    forall k :: 0 <= k < |out| ==> FromRow(out[k], rows, time)
  }

  /** `row` keeps the plain cells of one row of `rows` with a timestamp. */
  ghost predicate FromRow(row: Row, rows: seq<Row>, time: string) {
    exists j :: 0 <= j < |rows| && Get(rows[j], time).Time? && Carries(row, rows[j])
  }

  lemma RolledAllFromRows(out: seq<Row>, rows: seq<Row>, specs: seq<Spec>, c: Config.TrainingConfig, std: seq<real> -> real)
    requires RolledRows(out, RollingRows(rows, c.timeColumn), specs, c, std)
    requires forall n :: n in SpecNames(specs) ==> '_' in n
    ensures FromRows(out, rows, c.timeColumn)
  {
    forall k | 0 <= k < |out| ensures FromRow(out[k], rows, c.timeColumn) {
      RolledRowOrigin(out, rows, specs, c, std, k);
    }
  }

  /** Rows drawn from the base rows of `trades` are drawn from `trades` themselves. */
  lemma BaseFromTrades(out: seq<Row>, base: seq<Row>, trades: seq<Row>, eps: real, parse: string -> Option<real>, time: string)
    requires |base| == |trades| && forall j :: 0 <= j < |trades| ==> base[j] == BaseRowOf(trades[j], eps, parse)
    requires FromRows(out, base, time)
    ensures FromTrades(out, trades, time, false)
  {
    forall k | 0 <= k < |out| ensures FromTrade(out[k], trades, time, false) {
      var j :| 0 <= j < |base| && Get(base[j], time).Time? && Carries(out[k], base[j]);
      BaseOrigin(out[k], trades[j], eps, parse, time);
      assert TradeOrigin(out[k], trades, j, time, false);
    }
  }



  /** A trade with a timestamp has a row in the rolled frame that keeps its cells without an underscore. */
  lemma RolledKeepsTrade(trades: Frame, c: Config.TrainingConfig, parse: string -> Option<real>, std: seq<real> -> real, j: nat)
      returns (k: nat)
    requires RollFrame(AddBaseFrame(trades, c.imbalanceEps, parse), c, std).Ok?
    requires j < |trades.rows| && Get(trades.rows[j], c.timeColumn).Time? && c.timeColumn !in BaseNames
    ensures k < |RollFrame(AddBaseFrame(trades, c.imbalanceEps, parse), c, std).value.rows|
    ensures Carries(RollFrame(AddBaseFrame(trades, c.imbalanceEps, parse), c, std).value.rows[k], BaseRowOf(trades.rows[j], c.imbalanceEps, parse))
  {
    var base := AddBaseFrame(trades, c.imbalanceEps, parse);
    var row := base.rows[j];
    BaseRowTimed(trades, c.imbalanceEps, parse, c.timeColumn, j);
    RolledRowExists(base.rows, row, c.timeColumn);
    assert Rolls(base, c);
    var specs := RollingSpecs(base.columns, c);
    RollFrameRolls(base, c, std);
    SpecNamesUnderscored(specs, base.columns, c);
    k := RolledRowKept(RollFrame(base, c, std).value.rows, base.rows, specs, c, std, row);
  }

  /** A trade's base row keeps its timestamp, and the base frame is not empty. */
  lemma BaseRowTimed(trades: Frame, eps: real, parse: string -> Option<real>, time: string, j: nat)
    requires j < |trades.rows| && Get(trades.rows[j], time).Time? && time !in BaseNames
    ensures var base := AddBaseFrame(trades, eps, parse);
      base.rows[j] == BaseRowOf(trades.rows[j], eps, parse) && Get(base.rows[j], time).Time? &&
      base.rows[j] in base.rows && base.rows != [] && base.columns != []
  {
    var base := AddBaseFrame(trades, eps, parse);
    assert "executedQtyDst" in Names(base.columns);
  }

  /** A row with a timestamp leaves the rows the windows run over non-empty. */
  lemma RolledRowExists(rows: seq<Row>, row: Row, time: string)
    requires row in rows && Get(row, time).Time?
    ensures RollingRows(rows, time) != []
  {
    assert row in Timed(rows, time);
    assert row in multiset(RollingRows(rows, time));
  }

  /** A row with a timestamp has a row of the assignments that keeps its plain cells. */
  lemma RolledRowKept(out: seq<Row>, rows: seq<Row>, specs: seq<Spec>, c: Config.TrainingConfig, std: seq<real> -> real, row: Row)
      returns (k: nat)
    requires RolledRows(out, RollingRows(rows, c.timeColumn), specs, c, std)
    requires forall n :: n in SpecNames(specs) ==> '_' in n
    requires row in rows && Get(row, c.timeColumn).Time?
    ensures k < |out| && Carries(out[k], row)
  {
    var sorted := RollingRows(rows, c.timeColumn);
    assert row in Timed(rows, c.timeColumn);
    assert row in multiset(sorted);
    k :| 0 <= k < |sorted| && sorted[k] == row;
    RolledKeepsPlain(out, sorted, specs, c, std, k);
  }

  /** A row that keeps the cells of a trade's base row keeps the trade's plain cells. */
  lemma BaseCarries(row: Row, trade: Row, eps: real, parse: string -> Option<real>)
    requires Carries(row, BaseRowOf(trade, eps, parse))
    ensures CarriesTrade(row, trade)
  {
  }

  /** Some row of `rows` keeps `trade`'s plain cells. */
  ghost predicate Kept(rows: seq<Row>, trade: Row) {
    exists i :: 0 <= i < |rows| && CarriesTrade(rows[i], trade)
  }



  /** The merge with context keeps every input row of a trade with a text `serverId`. */
  lemma MergedKeepsTrade(rolled: Frame, trade: Row, ctx: map<string, map<string, Frame>>, c: Config.TrainingConfig,
                         toTime: Cell -> Option<int>)
    requires MergeFrame(rolled, ctx, c, toTime).Ok? && |ctx| > 0
    requires Get(trade, "serverId").Text? && Kept(rolled.rows, trade)
    ensures Kept(MergeFrame(rolled, ctx, c, toTime).value.rows, trade)
  {
    var out := MergeFrame(rolled, ctx, c, toTime).value;
    var k :| 0 <= k < |rolled.rows| && CarriesTrade(rolled.rows[k], trade);
    TradeServer(rolled.rows[k], trade);
    MergeFrameKeeps(rolled, ctx, c, toTime, k);
    var i :| 0 <= i < |out.rows| && CarriesPlain(out.rows[i], rolled.rows[k]);
    PlainThenTrade(out.rows[i], rolled.rows[k], trade);
  }


  /**
   * With context, every trade with a text `serverId` and a timestamp comes out
   * of the enrichment, its plain cells kept (for a time column that is not a
   * base column).
   */
  lemma EnrichKeepsTrade(trades: Frame, ctx: map<string, map<string, Frame>>, c: Config.TrainingConfig,
                         parse: string -> Option<real>, toTime: Cell -> Option<int>, std: seq<real> -> real, j: nat)
    requires Enrich(trades, ctx, c, parse, toTime, std).Ok? && |ctx| > 0
    requires j < |trades.rows| && Get(trades.rows[j], "serverId").Text? && Get(trades.rows[j], c.timeColumn).Time?
    requires c.timeColumn !in BaseNames
    ensures Kept(Enrich(trades, ctx, c, parse, toTime, std).value.rows, trades.rows[j])
  {
    var e := Enrich(trades, ctx, c, parse, toTime, std);
    var rolled := RollFrame(AddBaseFrame(trades, c.imbalanceEps, parse), c, std);
    assert rolled.Ok?;
    assert e == MergeFrame(rolled.value, ctx, c, toTime);
    var k := RolledKeepsTrade(trades, c, parse, std, j);
    BaseCarries(rolled.value.rows[k], trades.rows[j], c.imbalanceEps, parse);
    assert Kept(rolled.value.rows, trades.rows[j]);
    MergedKeepsTrade(rolled.value, trades.rows[j], ctx, c, toTime);
  }


  /** Trades without the time column fail to build (`df[config.time_column]` raises KeyError). */
  lemma BuildFailsWithoutTime(trades: Frame, ctx: map<string, map<string, Frame>>, c: Config.TrainingConfig,
                              parse: string -> Option<real>, toTime: Cell -> Option<int>, std: seq<real> -> real)
    requires trades.rows != [] && trades.columns != []
    requires c.timeColumn !in Names(trades.columns) && c.timeColumn !in BaseNames
    ensures BuildFeatureMatrix(trades, ctx, c, parse, toTime, std).Err?
  {
    var base := AddBaseFrame(trades, c.imbalanceEps, parse);
    assert "executedQtyDst" in Names(base.columns);
    assert RollFrame(base, c, std).Err?;
  }
}
