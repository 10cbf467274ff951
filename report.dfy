/**
 * The dashboard's trade report: the SQL `WHERE` clause built from the report
 * filters, CSV field quoting, the value histogram, the cumulative PnL curve and
 * its maximum drawdown.
 *
 * Numbers are reals; floating-point rounding, `toFixed` labels and SQL
 * execution are not modelled.
 */
module Reports {
  import opened Wrappers
  import opened JsonValue
  import Strings
  import Sorting

  // ---------------------------------------------------------------------------
  // buildReportTradeFilterClause
  // ---------------------------------------------------------------------------

  /** A closed range filter on a `props` number; a bound is present only when finite. */
  datatype Range = Range(min: Option<real>, max: Option<real>)

  datatype Ranges = Ranges(diff: Option<Range>, dexSlip: Option<Range>, cexSlip: Option<Range>, lhDelta: Option<Range>)

  datatype PropsFilter = PropsFilter(tokens: seq<Json>, execs: seq<Json>, dexes: seq<Json>, ranges: Option<Ranges>)

  datatype HedgeMode = AnyHedge | HedgeOnly | NonHedgeOnly

  /**
   * The normalised report filters. `start`/`end` are present when finite, a
   * missing value list is empty, and a threshold is present when not `null`.
   */
  datatype Filters = Filters(
    start: Option<real>, end: Option<real>,
    pairs: seq<Json>, srcExchanges: seq<Json>, dstExchanges: seq<Json>,
    statuses: seq<Json>, nwIds: seq<Json>, fsmTypes: seq<Json>,
    hedgeMode: HedgeMode,
    minNotional: Option<Json>, minAbsPnl: Option<Json>,
    props: Option<PropsFilter>)

  /** Occurrences of `c` in all of `parts`. */
  function Total(parts: seq<string>, c: char): nat {
    if parts == [] then 0 else Strings.Count(parts[0], c) + Total(parts[1..], c)
  }

  lemma {:induction false} TotalAppend(parts: seq<string>, last: string, c: char)
    ensures Total(parts + [last], c) == Total(parts, c) + Strings.Count(last, c)
  {
    if parts != [] {
      assert (parts + [last])[1..] == parts[1..] + [last];
      TotalAppend(parts[1..], last, c);
    }
  }

  /** Joining adds the separator's occurrences once per gap. */
  lemma {:induction false} CountJoin(parts: seq<string>, sep: string, c: char)
    requires |parts| >= 1
    ensures Strings.Count(Strings.Join(parts, sep), c) == Total(parts, c) + (|parts| - 1) * Strings.Count(sep, c)
  {
    if |parts| > 1 {
      CountJoin(parts[1..], sep, c);
      Strings.CountAppend(parts[0], sep, c);
      Strings.CountAppend(parts[0] + sep, Strings.Join(parts[1..], sep), c);
    }
  }

  /** Texts without a placeholder, joined by placeholders: one per gap. */
  lemma Template(parts: seq<string>)
    requires |parts| >= 1
    requires forall p :: p in parts ==> '?' !in p
    ensures Strings.Count(Strings.Join(parts, "?"), '?') == |parts| - 1
  {
    CountJoin(parts, "?", '?');
    QuietTotal(parts);
  }

  lemma {:induction false} QuietTotal(parts: seq<string>)
    requires forall p :: p in parts ==> '?' !in p
    ensures Total(parts, '?') == 0
  {
    if parts != [] {
      assert parts[0] in parts;
      Strings.CountAbsent(parts[0], '?');
      assert forall p :: p in parts[1..] ==> p in parts;
      QuietTotal(parts[1..]);
    }
  }

  /** The trade time: the first of its update, execution and creation times. */
  function TimeExpr(alias: string): (e: string)
    requires '?' !in alias
    ensures '?' !in e
  {
    "COALESCE(" + alias + ".lastUpdateTime, " + alias + ".executedTime, " + alias + ".creationTime)"
  }

  /** `time BETWEEN ? AND ?` */
  function TimeClause(alias: string): (c: string)
    requires '?' !in alias
    ensures Strings.Count(c, '?') == 2
  {
    var parts := [TimeExpr(alias) + " BETWEEN ", " AND ", ""];
    Template(parts);
    Strings.Join(parts, "?")
  }

  /** `, ` repeated `n` times. */
  function Commas(n: nat): (r: seq<string>)
    ensures |r| == n
    ensures forall p :: p in r ==> p == ", "
  {
    if n == 0 then [] else [", "] + Commas(n - 1)
  }

  /** `subject IN (?, ..., ?)`: `values.map(() => '?').join(', ')` for `n` values. */
  function InClause(subject: string, n: nat): (c: string)
    requires '?' !in subject && n >= 1
    ensures Strings.Count(c, '?') == n
  {
    var parts := [subject + " IN ("] + Commas(n - 1) + [")"];
    assert forall p :: p in parts ==> p == subject + " IN (" || p == ", " || p == ")";
    Template(parts);
    Strings.Join(parts, "?")
  }

  /** `COALESCE(alias.hedge, 0) = flag` */
  function HedgeClause(alias: string, flag: string): (c: string)
    requires '?' !in alias && '?' !in flag
    ensures Strings.Count(c, '?') == 0
  {
    var c := "COALESCE(" + alias + ".hedge, 0) = " + flag;
    Strings.CountAbsent(c, '?');
    c
  }

  /** The minimum absolute notional: `|srcPrice * qtySrc| >= ?`. */
  function NotionalClause(alias: string): (c: string)
    requires '?' !in alias
    ensures Strings.Count(c, '?') == 1
  {
    var parts := ["ABS(" + Coalesce(alias, "executedSrcPrice") + " * " + Coalesce(alias, "executedQtySrc") + ") >= ", ""];
    Template(parts);
    Strings.Join(parts, "?")
  }

  /** `COALESCE(alias.field, 0)` */
  function Coalesce(alias: string, field: string): (e: string)
    requires '?' !in alias && '?' !in field
    ensures '?' !in e
  {
    "COALESCE(" + alias + "." + field + ", 0)"
  }

  /** The minimum absolute PnL: `|grossProfit - feeTotal - txFee| >= ?`. */
  function PnlClause(alias: string): (c: string)
    requires '?' !in alias
    ensures Strings.Count(c, '?') == 1
  {
    var parts := ["ABS(" + Coalesce(alias, "executedGrossProfit") + " - " + Coalesce(alias, "executedFeeTotal") + " - " + Coalesce(alias, "txFee") + ") >= ", ""];
    Template(parts);
    Strings.Join(parts, "?")
  }

  /** `json_extract(alias.props, '$.field')` */
  function JsonExpr(alias: string, field: string): (e: string)
    requires '?' !in alias && '?' !in field
    ensures '?' !in e
  {
    "json_extract(" + alias + ".props, '$." + field + "')"
  }

  /** `CAST(json_extract(...) AS REAL) op ?` */
  function BoundClause(alias: string, field: string, op: string): (c: string)
    requires '?' !in alias && '?' !in field && '?' !in op
    ensures Strings.Count(c, '?') == 1
  {
    var parts := ["CAST(" + JsonExpr(alias, field) + " AS REAL) " + op + " ", ""];
    Template(parts);
    Strings.Join(parts, "?")
  }

  /** `hasRangeValue`: a range with a finite bound. */
  predicate HasRange(range: Option<Range>) {
    range.Some? && (range.value.min.Some? || range.value.max.Some?)
  }

  predicate PropsInactive(p: PropsFilter) {
    p.tokens == [] && p.execs == [] && p.dexes == [] &&
    (p.ranges.None? ||
     (!HasRange(p.ranges.value.diff) && !HasRange(p.ranges.value.dexSlip) &&
      !HasRange(p.ranges.value.cexSlip) && !HasRange(p.ranges.value.lhDelta)))
  }

  /** No filter on the trade's own columns is set. */
  predicate ColumnsInactive(f: Filters) {
    !(f.start.Some? && f.end.Some?) && ListsInactive(f) &&
    f.hedgeMode.AnyHedge? && f.minNotional.None? && f.minAbsPnl.None?
  }

  predicate ListsInactive(f: Filters) {
    f.pairs == [] && f.srcExchanges == [] && f.dstExchanges == [] &&
    f.statuses == [] && f.nwIds == [] && f.fsmTypes == []
  }

  /** No filter is set. */
  predicate Inactive(f: Filters) {
    ColumnsInactive(f) && (f.props.None? || PropsInactive(f.props.value))
  }

  /** `addInClause`: one `IN` clause and its values, when there are values. */
  method AddIn(clauses: seq<string>, params: seq<Json>, values: seq<Json>, subject: string)
    returns (clauses': seq<string>, params': seq<Json>)
    requires '?' !in subject
    ensures Total(clauses', '?') == Total(clauses, '?') + |params'| - |params|
    ensures params' == params + values
    ensures |params'| >= |params|
    ensures clauses' == [] <==> clauses == [] && values == []
  {
    clauses', params' := clauses, params;
    if values != [] {
      clauses', params' := Add(clauses, params, InClause(subject, |values|), values);
    }
  }

  /** `addRangeClause`: a lower and an upper bound clause for each finite bound. */
  method AddRange(clauses: seq<string>, params: seq<Json>, range: Option<Range>, alias: string, field: string)
    returns (clauses': seq<string>, params': seq<Json>)
    requires '?' !in alias && '?' !in field
    ensures Total(clauses', '?') == Total(clauses, '?') + |params'| - |params|
    ensures |params'| >= |params|
    ensures clauses' == [] <==> clauses == [] && !HasRange(range)
  {
    clauses', params' := clauses, params;
    if HasRange(range) {
      if range.value.min.Some? {
        clauses', params' := Add(clauses', params', BoundClause(alias, field, ">="), [JNum(range.value.min.value)]);
      }
      if range.value.max.Some? {
        clauses', params' := Add(clauses', params', BoundClause(alias, field, "<="), [JNum(range.value.max.value)]);
      }
    }
  }

  /** Appends one clause and its parameters. */
  method Add(clauses: seq<string>, params: seq<Json>, clause: string, values: seq<Json>)
    returns (clauses': seq<string>, params': seq<Json>)
    requires Strings.Count(clause, '?') == |values|
    ensures Total(clauses', '?') == Total(clauses, '?') + |values|
    ensures clauses' == clauses + [clause] && params' == params + values
  {
    TotalAppend(clauses, clause, '?');
    clauses', params' := clauses + [clause], params + values;
  }

  /** The clauses on the trade's own columns: time range, value lists, hedge mode and thresholds. */
  method ColumnClauses(filters: Filters, alias: string) returns (clauses: seq<string>, params: seq<Json>)
    requires '?' !in alias
    ensures Total(clauses, '?') == |params|
    ensures clauses == [] <==> ColumnsInactive(filters)
  {
    clauses, params := [], [];
    if filters.start.Some? && filters.end.Some? {
      clauses, params := Add(clauses, params, TimeClause(alias), [JNum(filters.start.value), JNum(filters.end.value)]);
    }
    clauses, params := ListClauses(clauses, params, filters, alias);
    clauses, params := HedgeClauses(clauses, params, filters.hedgeMode, alias);
    clauses, params := ThresholdClauses(clauses, params, filters, alias);
  }

  /** The hedge-mode clause, which takes no parameter. */
  method HedgeClauses(clauses: seq<string>, params: seq<Json>, mode: HedgeMode, alias: string)
    returns (clauses': seq<string>, params': seq<Json>)
    requires '?' !in alias
    ensures Total(clauses', '?') == Total(clauses, '?') && params' == params
    ensures clauses' == [] <==> clauses == [] && mode.AnyHedge?
  {
    clauses', params' := clauses, params;
    if mode.HedgeOnly? {
      clauses', params' := Add(clauses, params, HedgeClause(alias, "1"), []);
    } else if mode.NonHedgeOnly? {
      clauses', params' := Add(clauses, params, HedgeClause(alias, "0"), []);
    }
  }

  /** The minimum-notional and minimum-|PnL| clauses, one parameter each. */
  method ThresholdClauses(clauses: seq<string>, params: seq<Json>, filters: Filters, alias: string)
    returns (clauses': seq<string>, params': seq<Json>)
    requires '?' !in alias
    ensures Total(clauses', '?') == Total(clauses, '?') + |params'| - |params|
    ensures |params'| >= |params|
    ensures clauses' == [] <==> clauses == [] && filters.minNotional.None? && filters.minAbsPnl.None?
  {
    clauses', params' := clauses, params;
    if filters.minNotional.Some? {
      clauses', params' := Add(clauses', params', NotionalClause(alias), [filters.minNotional.value]);
    }
    if filters.minAbsPnl.Some? {
      clauses', params' := Add(clauses', params', PnlClause(alias), [filters.minAbsPnl.value]);
    }
  }

  /** The `IN` clauses on the trade's pair, exchanges, status, network and state-machine type. */
  method ListClauses(clauses: seq<string>, params: seq<Json>, filters: Filters, alias: string)
    returns (clauses': seq<string>, params': seq<Json>)
    requires '?' !in alias
    ensures Total(clauses', '?') == Total(clauses, '?') + |params'| - |params|
    ensures |params'| >= |params|
    ensures clauses' == [] <==> clauses == [] && ListsInactive(filters)
  {
    clauses', params' := AddIn(clauses, params, filters.pairs, alias + ".pair");
    clauses', params' := AddIn(clauses', params', filters.srcExchanges, alias + ".srcExchange");
    clauses', params' := AddIn(clauses', params', filters.dstExchanges, alias + ".dstExchange");
    clauses', params' := AddIn(clauses', params', filters.statuses, alias + ".status");
    clauses', params' := AddIn(clauses', params', filters.nwIds, alias + ".nwId");
    clauses', params' := AddIn(clauses', params', filters.fsmTypes, alias + ".fsmType");
  }

  /** The clauses on `props` fields: value lists, then the numeric ranges. */
  method PropsClauses(clauses: seq<string>, params: seq<Json>, props: PropsFilter, alias: string)
    returns (clauses': seq<string>, params': seq<Json>)
    requires '?' !in alias
    ensures Total(clauses', '?') == Total(clauses, '?') + |params'| - |params|
    ensures |params'| >= |params|
    ensures clauses' == [] <==> clauses == [] && PropsInactive(props)
  {
    clauses', params' := AddIn(clauses, params, props.tokens, JsonExpr(alias, "Token"));
    clauses', params' := AddIn(clauses', params', props.execs, JsonExpr(alias, "Exec"));
    clauses', params' := AddIn(clauses', params', props.dexes, JsonExpr(alias, "Dex"));
    if props.ranges.Some? {
      var ranges := props.ranges.value;
      clauses', params' := AddRange(clauses', params', ranges.diff, alias, "Diff");
      clauses', params' := AddRange(clauses', params', ranges.dexSlip, alias, "DexSlip");
      clauses', params' := AddRange(clauses', params', ranges.cexSlip, alias, "CexSlip");
      clauses', params' := AddRange(clauses', params', ranges.lhDelta, alias, "LHdelta");
    }
  }

  /**
   * `buildReportTradeFilterClause`: the `WHERE` clause has exactly one `?`
   * placeholder per parameter, and is empty when no filter is set.
   */
  method BuildReportTradeFilterClause(filters: Filters, alias: string) returns (clause: string, params: seq<Json>)
    requires '?' !in alias
    ensures Strings.Count(clause, '?') == |params|
    ensures clause == "" <==> Inactive(filters)
    ensures clause != "" ==> Strings.StartsWith(clause, " WHERE ")
  {
    var clauses;
    clauses, params := ColumnClauses(filters, alias);
    if filters.props.Some? {
      clauses, params := PropsClauses(clauses, params, filters.props.value, alias);
    }
    if clauses == [] {
      clause := "";
    } else {
      clause := " WHERE " + Strings.Join(clauses, " AND ");
      WhereCount(clauses);
    }
  }

  /** The `WHERE` clause over non-empty conditions holds exactly their placeholders and starts with `" WHERE "`. */
  lemma WhereCount(clauses: seq<string>)
    requires clauses != []
    ensures Strings.Count(" WHERE " + Strings.Join(clauses, " AND "), '?') == Total(clauses, '?')
    ensures Strings.StartsWith(" WHERE " + Strings.Join(clauses, " AND "), " WHERE ")
  {
    var joined := Strings.Join(clauses, " AND ");
    CountJoin(clauses, " AND ", '?');
    Strings.CountAbsent(" AND ", '?');
    Strings.CountAbsent(" WHERE ", '?');
    Strings.CountAppend(" WHERE ", joined, '?');
    assert (" WHERE " + joined)[..7] == " WHERE ";
  }

  // ---------------------------------------------------------------------------
  // CSV export: formatValue
  // ---------------------------------------------------------------------------

  /** `replace(/"/g, '""')` */
  function Escape(s: string): (r: string)
    ensures '"' in r <==> '"' in s
    ensures forall c :: c != '"' ==> (c in r <==> c in s)
  {
    if s == [] then []
    else
      assert s == [s[0]] + s[1..];
      (if s[0] == '"' then "\"\"" else [s[0]]) + Escape(s[1..])
  }

  predicate NeedsQuotes(s: string) {
    '"' in s || ',' in s || '\n' in s
  }

  /**
   * `formatValue` on `String(value)`: `null` is the empty field; quotes are
   * doubled, and a field holding a quote, a comma or a newline is quoted.
   */
  function FormatValue(value: Option<string>): (r: string)
    ensures value.None? ==> r == ""
    ensures value.Some? && NeedsQuotes(value.value) ==> |r| >= 2 && r[0] == '"' && r[|r| - 1] == '"'
    ensures value.Some? && !NeedsQuotes(value.value) ==> r == value.value
    ensures value.Some? && !NeedsQuotes(value.value) ==> ',' !in r && '\n' !in r
  {
    if value.None? then ""
    else
      var escaped := Escape(value.value);
      if NeedsQuotes(escaped) then "\"" + escaped + "\""
      else
        UnquotedUnchanged(value.value);
        escaped
  }

  lemma {:induction false} UnquotedUnchanged(s: string)
    requires '"' !in s
    ensures Escape(s) == s
  {
    if s != [] {
      assert s[0] != '"';
      assert s == [s[0]] + s[1..];
      UnquotedUnchanged(s[1..]);
    }
  }

  /** How a CSV reader reads a doubled quote inside a quoted field. */
  function Undouble(t: string): string {
    if |t| >= 2 && t[0] == '"' && t[1] == '"' then ['"'] + Undouble(t[2..])
    else if t == [] then []
    else [t[0]] + Undouble(t[1..])
  }

  /** A CSV reader's reading of one field. */
  function ParseField(r: string): string {
    if |r| >= 2 && r[0] == '"' && r[|r| - 1] == '"' then Undouble(r[1..|r| - 1]) else r
  }

  lemma {:induction false} UndoubleEscape(s: string)
    ensures Undouble(Escape(s)) == s
  {
    if s != [] {
      UndoubleEscape(s[1..]);
      var e := Escape(s);
      if s[0] == '"' {
        assert e == "\"\"" + Escape(s[1..]);
        assert e[2..] == Escape(s[1..]);
      } else {
        assert e == [s[0]] + Escape(s[1..]);
        assert e[1..] == Escape(s[1..]);
      }
      assert s == [s[0]] + s[1..];
    }
  }

  /** Reading a formatted field gives back the value. */
  lemma FormatRoundTrip(s: string)
    ensures ParseField(FormatValue(Some(s))) == s
  {
    var e := Escape(s);
    if NeedsQuotes(e) {
      var r := "\"" + e + "\"";
      assert r[1..|r| - 1] == e;
      UndoubleEscape(s);
    } else {
      UnquotedUnchanged(s);
    }
  }

  // ---------------------------------------------------------------------------
  // computeReportHistogram
  // ---------------------------------------------------------------------------

  /** `values.filter(Number.isFinite)` */
  function FiniteValues(values: seq<JsNum>): (r: seq<real>)
    ensures |r| <= |values|
    ensures forall x :: x in r <==> JsNum.Finite(x) in values
  {
    if values == [] then []
    else
      assert forall v :: v in values <==> v == values[0] || v in values[1..] by {
        assert values == [values[0]] + values[1..];
      }
      (if values[0].Finite? then [values[0].x] else []) + FiniteValues(values[1..])
  }

  datatype Bin = Bin(start: real, end: real)

  /** Bins and their counts, with the value range when there is more than one bin. */
  datatype Histogram = Histogram(bins: seq<Bin>, counts: seq<nat>, bounds: Option<(real, real)>)

  /** The bucket of `v`: `floor((v - lo) / step)`, clamped to the buckets. */
  function Bucket(v: real, lo: real, step: real, buckets: nat): (i: nat)
    requires step > 0.0 && buckets >= 1
    ensures i < buckets
  {
    var q := ((v - lo) / step).Floor;
    if q < 0 then 0 else if q >= buckets then buckets - 1 else q
  }

  /** A value between the bounds lands in the bin whose range holds it (the last bin is closed). */
  lemma BucketHolds(v: real, lo: real, hi: real, buckets: nat)
    requires buckets >= 1 && lo < hi && lo <= v <= hi
    ensures var step := (hi - lo) / buckets as real;
      var i := Bucket(v, lo, step, buckets);
      lo + i as real * step <= v &&
      (v < lo + (i + 1) as real * step || (i == buckets - 1 && v <= hi))
  {
    var step := (hi - lo) / buckets as real;
    StepSpan(lo, hi, buckets);
    FloorBounds(v - lo, step);
    var q := ((v - lo) / step).Floor;
    var i := Bucket(v, lo, step, buckets);
    if q >= buckets {
      assert i == buckets - 1;
      MulMono(buckets as real, q as real, step);
      MulMono((buckets - 1) as real, buckets as real, step);
    } else {
      assert i == q;
    }
  }

  /** The bins' width is positive and `buckets` of them span the range. */
  lemma StepSpan(lo: real, hi: real, buckets: nat)
    requires buckets >= 1 && lo < hi
    ensures var step := (hi - lo) / buckets as real;
      step > 0.0 && buckets as real * step == hi - lo
  {
  }

  /** `q = floor(d / step)` places `d` in `[q * step, (q + 1) * step)`. */
  lemma FloorBounds(d: real, step: real)
    requires d >= 0.0 && step > 0.0
    ensures var q := (d / step).Floor;
      q >= 0 && q as real * step <= d < (q + 1) as real * step
  {
    var x := d / step;
    var q := x.Floor;
    assert x * step == d;
    assert 0.0 <= x;
    assert q as real <= x < q as real + 1.0;
    assert (q + 1) as real == q as real + 1.0;
    MulMono(q as real, x, step);
    MulStrict(x, (q + 1) as real, step);
    assert d < (q + 1) as real * step;
  }

  lemma MulMono(a: real, b: real, c: real)
    requires a <= b && c > 0.0
    ensures a * c <= b * c
  {
    NonNegMul(b - a, c);
    assert (b - a) * c == b * c - a * c;
  }

  lemma MulStrict(a: real, b: real, c: real)
    requires a < b && c > 0.0
    ensures a * c < b * c
  {
    PosMul(b - a, c);
    assert (b - a) * c == b * c - a * c;
  }

  lemma PosMul(a: real, b: real)
    requires a > 0.0 && b > 0.0
    ensures a * b > 0.0
  {
  }

  lemma NonNegMul(a: real, b: real)
    requires a >= 0.0 && b >= 0.0
    ensures a * b >= 0.0
  {
  }

  /** How many of `xs` land in bucket `i`. */
  function InBucket(xs: seq<real>, i: nat, lo: real, step: real, buckets: nat): nat
    requires step > 0.0 && buckets >= 1
  {
    if xs == [] then 0
    else InBucket(xs[..|xs| - 1], i, lo, step, buckets) + (if Bucket(xs[|xs| - 1], lo, step, buckets) == i then 1 else 0)
  }

  function Sum(counts: seq<nat>): nat {
    if counts == [] then 0 else counts[0] + Sum(counts[1..])
  }

  /** The counts of buckets `0..n`. */
  function BucketCounts(xs: seq<real>, n: nat, lo: real, step: real, buckets: nat): (r: seq<nat>)
    requires step > 0.0 && buckets >= 1
    ensures |r| == n
    ensures forall i :: 0 <= i < n ==> r[i] == InBucket(xs, i, lo, step, buckets)
  {
    if n == 0 then [] else BucketCounts(xs, n - 1, lo, step, buckets) + [InBucket(xs, n - 1, lo, step, buckets)]
  }

  lemma {:induction false} SumAppend(a: seq<nat>, b: seq<nat>)
    ensures Sum(a + b) == Sum(a) + Sum(b)
  {
    if a == [] {
      assert a + b == b;
    } else {
      assert (a + b)[0] == a[0];
      assert (a + b)[1..] == a[1..] + b;
      SumAppend(a[1..], b);
    }
  }

  /** Adding one value adds one to the counts of buckets `0..n` when its bucket is among them. */
  lemma {:induction false} BucketCountsSnoc(xs: seq<real>, v: real, n: nat, lo: real, step: real, buckets: nat)
    requires step > 0.0 && buckets >= 1
    ensures Sum(BucketCounts(xs + [v], n, lo, step, buckets)) ==
      Sum(BucketCounts(xs, n, lo, step, buckets)) + (if Bucket(v, lo, step, buckets) < n then 1 else 0)
  {
    assert (xs + [v])[..|xs + [v]| - 1] == xs;
    if n > 0 {
      BucketCountsSnoc(xs, v, n - 1, lo, step, buckets);
      SumAppend(BucketCounts(xs + [v], n - 1, lo, step, buckets), [InBucket(xs + [v], n - 1, lo, step, buckets)]);
      SumAppend(BucketCounts(xs, n - 1, lo, step, buckets), [InBucket(xs, n - 1, lo, step, buckets)]);
    }
  }

  /** Every value is counted in exactly one bucket. */
  lemma {:induction false} CountsCoverValues(xs: seq<real>, lo: real, step: real, buckets: nat)
    requires step > 0.0 && buckets >= 1
    ensures Sum(BucketCounts(xs, buckets, lo, step, buckets)) == |xs|
  {
    if xs == [] {
      ZeroCounts(buckets, lo, step, buckets);
    } else {
      var init := xs[..|xs| - 1];
      assert xs == init + [xs[|xs| - 1]];
      CountsCoverValues(init, lo, step, buckets);
      BucketCountsSnoc(init, xs[|xs| - 1], buckets, lo, step, buckets);
    }
  }

  lemma {:induction false} ZeroCounts(n: nat, lo: real, step: real, buckets: nat)
    requires step > 0.0 && buckets >= 1
    ensures Sum(BucketCounts([], n, lo, step, buckets)) == 0
  {
    if n > 0 {
      ZeroCounts(n - 1, lo, step, buckets);
      SumAppend(BucketCounts([], n - 1, lo, step, buckets), [0]);
    }
  }

  /** The least and the greatest value. */
  method Extremes(xs: seq<real>) returns (lo: real, hi: real)
    requires xs != []
    ensures lo in xs && hi in xs
    ensures forall x :: x in xs ==> lo <= x <= hi
  {
    lo, hi := xs[0], xs[0];
    for k := 0 to |xs|
      invariant lo in xs && hi in xs
      invariant forall j :: 0 <= j < k ==> lo <= xs[j] <= hi
    {
      if xs[k] < lo { lo := xs[k]; }
      if xs[k] > hi { hi := xs[k]; }
    }
  }

  predicate AllEqual(xs: seq<real>) {
    forall i :: 0 <= i < |xs| ==> xs[i] == xs[0]
  }

  /** `bucketCount` equal-width bins from the least to the greatest value, with the value counts. */
  predicate Spread(xs: seq<real>, h: Histogram, bucketCount: nat)
    requires bucketCount >= 1
  {
    h.bounds.Some? &&
    var lo := h.bounds.value.0;
    var hi := h.bounds.value.1;
    var step := (hi - lo) / bucketCount as real;
    lo < hi && lo in xs && hi in xs && (forall x :: x in xs ==> lo <= x <= hi) &&
    |h.bins| == bucketCount &&
    (forall i :: 0 <= i < bucketCount ==> h.bins[i].start == lo + i as real * step) &&
    h.bins[bucketCount - 1].end == hi &&
    h.counts == BucketCounts(xs, bucketCount, lo, step, bucketCount) &&
    Sum(h.counts) == |xs|
  }

  /**
   * `computeReportHistogram`: no bins without a finite value, one bin holding
   * every value when they are all equal, otherwise `bucketCount` equal-width
   * bins from the least to the greatest value whose counts add up to the number
   * of finite values.
   */
  method ComputeReportHistogram(values: seq<JsNum>, bucketCount: nat) returns (h: Histogram)
    requires bucketCount >= 1
    ensures FiniteValues(values) == [] ==> h == Histogram([], [], None)
    ensures var clean := FiniteValues(values);
      clean != [] && AllEqual(clean) ==> h == Histogram([Bin(clean[0], clean[0])], [|clean|], None)
    ensures var clean := FiniteValues(values);
      clean != [] && !AllEqual(clean) ==> Spread(clean, h, bucketCount)
  {
    var clean := FiniteValues(values);
    if clean == [] {
      return Histogram([], [], None);
    }
    var lo, hi := Extremes(clean);
    assert clean[0] in clean;
    if lo == hi {
      forall i | 0 <= i < |clean|
        ensures clean[i] == clean[0]
      {
        assert clean[i] in clean;
      }
      return Histogram([Bin(lo, hi)], [|clean|], None);
    }
    assert !AllEqual(clean) by {
      var i :| 0 <= i < |clean| && clean[i] == lo;
      var j :| 0 <= j < |clean| && clean[j] == hi;
    }
    h := SpreadHistogram(clean, lo, hi, bucketCount);
  }

  /** The equal-width histogram between distinct least and greatest values. */
  method SpreadHistogram(xs: seq<real>, lo: real, hi: real, bucketCount: nat) returns (h: Histogram)
    requires bucketCount >= 1 && lo < hi && lo in xs && hi in xs
    requires forall x :: x in xs ==> lo <= x <= hi
    ensures Spread(xs, h, bucketCount)
  {
    var step := (hi - lo) / bucketCount as real;
    var bins := Bins(lo, hi, bucketCount);
    var counts := CountBuckets(xs, lo, step, bucketCount);
    CountsCoverValues(xs, lo, step, bucketCount);
    h := Histogram(bins, counts, Some((lo, hi)));
  }

  /** `bucketCount` bins of width `step` from `lo`, the last one ending at `hi`. */
  method Bins(lo: real, hi: real, bucketCount: nat) returns (bins: seq<Bin>)
    requires bucketCount >= 1
    ensures |bins| == bucketCount
    ensures forall i :: 0 <= i < bucketCount ==> bins[i].start == lo + i as real * ((hi - lo) / bucketCount as real)
    ensures bins[bucketCount - 1].end == hi
  {
    var step := (hi - lo) / bucketCount as real;
    bins := [];
    for i := 0 to bucketCount
      invariant |bins| == i
      invariant forall j :: 0 <= j < i ==> bins[j].start == lo + j as real * step
      invariant i == bucketCount ==> bins[bucketCount - 1].end == hi
    {
      var start := lo + i as real * step;
      var end := if i == bucketCount - 1 then hi else start + step;
      bins := bins + [Bin(start, end)];
    }
  }

  /** `counts[idx]++` for each value. */
  method CountBuckets(xs: seq<real>, lo: real, step: real, bucketCount: nat) returns (counts: seq<nat>)
    requires step > 0.0 && bucketCount >= 1
    ensures counts == BucketCounts(xs, bucketCount, lo, step, bucketCount)
  {
    var a := new nat[bucketCount](_ => 0);
    for k := 0 to |xs|
      invariant forall i :: 0 <= i < bucketCount ==> a[i] == InBucket(xs[..k], i, lo, step, bucketCount)
    {
      var idx := Bucket(xs[k], lo, step, bucketCount);
      assert xs[..k + 1][..k] == xs[..k];
      a[idx] := a[idx] + 1;
    }
    assert xs[..|xs|] == xs;
    counts := a[..];
  }

  // ---------------------------------------------------------------------------
  // buildTradeCurve and computeMaxDrawdownFromCurve
  // ---------------------------------------------------------------------------

  /** A report trade: its timestamp and `netPnl`, where `None` is a missing, `NaN` or zero PnL. */
  datatype CurveTrade = CurveTrade(timestamp: JsNum, netPnl: Option<real>)

  datatype Point = Point(t: real, value: real)

  /** The sort key: the timestamp, or 0 when it is not finite. */
  function SortKey(trade: CurveTrade): real {
    if trade.timestamp.Finite? then trade.timestamp.x else 0.0
  }

  /** `trade.netPnl || 0` */
  function Pnl(trade: CurveTrade): real {
    trade.netPnl.GetOr(0.0)
  }

  /** The trades with a finite timestamp, in order. */
  function Kept(s: seq<CurveTrade>): (k: seq<CurveTrade>)
    ensures |k| <= |s|
    ensures forall i :: 0 <= i < |k| ==> k[i].timestamp.Finite? && k[i] in s
  {
    if s == [] then []
    else
      var init := Kept(s[..|s| - 1]);
      assert forall x :: x in s[..|s| - 1] ==> x in s;
      if s[|s| - 1].timestamp.Finite? then init + [s[|s| - 1]] else init
  }

  /** The PnL of the first `n` trades. */
  function SumPnl(k: seq<CurveTrade>, n: nat): real
    requires n <= |k|
  {
    if n == 0 then 0.0 else SumPnl(k, n - 1) + Pnl(k[n - 1])
  }

  /** Appending a trade leaves the sums over the earlier trades as they were. */
  lemma {:induction false} SumPnlPrefix(k: seq<CurveTrade>, x: CurveTrade, n: nat)
    requires n <= |k|
    ensures SumPnl(k + [x], n) == SumPnl(k, n)
  {
    if n > 0 {
      SumPnlPrefix(k, x, n - 1);
      assert (k + [x])[n - 1] == k[n - 1];
    }
  }

  /**
   * One point per trade: its time and the running PnL up to and including it
   * (applied to the kept trades, whose times are all finite).
   */
  function Curve(k: seq<CurveTrade>): (points: seq<Point>)
    ensures |points| == |k|
    ensures forall i :: 0 <= i < |k| ==> points[i] == Point(SortKey(k[i]), SumPnl(k, i + 1))
  {
    seq(|k|, i requires 0 <= i < |k| => Point(SortKey(k[i]), SumPnl(k, i + 1)))
  }

  lemma KeptSnoc(s: seq<CurveTrade>, x: CurveTrade)
    ensures Kept(s + [x]) == if x.timestamp.Finite? then Kept(s) + [x] else Kept(s)
  {
    assert (s + [x])[..|s + [x]| - 1] == s;
  }

  lemma CurveSnoc(k: seq<CurveTrade>, x: CurveTrade)
    ensures Curve(k + [x]) == Curve(k) + [Point(SortKey(x), SumPnl(k, |k|) + Pnl(x))]
  {
    CurvePrefixKept(k, x);
    CurvePointNew(k, x);
    SnocEq(Curve(k + [x]), Curve(k), Point(SortKey(x), SumPnl(k, |k|) + Pnl(x)));
  }

  /** A sequence that agrees with `s` and then ends with `x` is `s + [x]`. */
  lemma SnocEq<T>(t: seq<T>, s: seq<T>, x: T)
    requires |t| == |s| + 1 && t[|s|] == x
    requires forall i :: 0 <= i < |s| ==> t[i] == s[i]
    ensures t == s + [x]
  {
  }

  lemma CurvePrefixKept(k: seq<CurveTrade>, x: CurveTrade)
    ensures forall i :: 0 <= i < |k| ==> Curve(k + [x])[i] == Curve(k)[i]
  {
    forall i | 0 <= i < |k| ensures Curve(k + [x])[i] == Curve(k)[i] {
      CurvePointKept(k, x, i);
    }
  }

  lemma CurvePointKept(k: seq<CurveTrade>, x: CurveTrade, i: nat)
    requires i < |k|
    ensures Curve(k + [x])[i] == Curve(k)[i]
  {
    assert (k + [x])[i] == k[i];
    SumPnlPrefix(k, x, i + 1);
  }

  lemma CurvePointNew(k: seq<CurveTrade>, x: CurveTrade)
    ensures Curve(k + [x])[|k|] == Point(SortKey(x), SumPnl(k, |k|) + Pnl(x))
  {
    assert (k + [x])[|k|] == x;
    SumPnlPrefix(k, x, |k|);
  }

  /** `buildTradeCurve`: trades in time order, untimed ones skipped, valued by the running PnL. */
  method BuildTradeCurve(trades: seq<CurveTrade>) returns (points: seq<Point>)
    ensures points == Curve(Kept(Sorting.SortBy(trades, SortKey)))
  {
    points := Accumulate(Sorting.SortBy(trades, SortKey));
  }

  /** The loop of `buildTradeCurve` over the sorted trades. */
  method Accumulate(sorted: seq<CurveTrade>) returns (points: seq<Point>)
    ensures points == Curve(Kept(sorted))
  {
    points := [];
    var cumulative := 0.0;
    ghost var kept: seq<CurveTrade> := [];
    for i := 0 to |sorted|
      invariant kept == Kept(sorted[..i])
      invariant points == Curve(kept) && cumulative == SumPnl(kept, |kept|)
    {
      var trade := sorted[i];
      KeptStep(sorted, i);
      if trade.timestamp.Finite? {
        points, cumulative := AppendPoint(points, cumulative, trade, kept);
        kept := kept + [trade];
      }
    }
    assert sorted[..|sorted|] == sorted;
  }

  /** One timed trade: the running total takes in its PnL and the point at its time is appended. */
  method AppendPoint(points: seq<Point>, cumulative: real, trade: CurveTrade, ghost kept: seq<CurveTrade>)
    returns (points': seq<Point>, cumulative': real)
    requires trade.timestamp.Finite?
    requires points == Curve(kept) && cumulative == SumPnl(kept, |kept|)
    ensures points' == Curve(kept + [trade]) && cumulative' == SumPnl(kept + [trade], |kept| + 1)
  {
    CurveSnoc(kept, trade);
    SumPnlPrefix(kept, trade, |kept|);
    cumulative' := cumulative + Pnl(trade);
    points' := points + [Point(trade.timestamp.x, cumulative')];
  }

  lemma KeptStep(s: seq<CurveTrade>, i: nat)
    requires i < |s|
    ensures Kept(s[..i + 1]) == if s[i].timestamp.Finite? then Kept(s[..i]) + [s[i]] else Kept(s[..i])
  {
    assert s[..i + 1] == s[..i] + [s[i]];
    KeptSnoc(s[..i], s[i]);
  }


  /** Keeping the timed trades of a sorted list keeps it sorted. */
  lemma {:induction false} KeptSorted(s: seq<CurveTrade>)
    requires Sorting.SortedBy(s, SortKey)
    ensures Sorting.SortedBy(Kept(s), SortKey)
  {
    if s != [] {
      var init := s[..|s| - 1];
      assert Sorting.SortedBy(init, SortKey);
      KeptSorted(init);
      var k := Kept(init);
      forall i | 0 <= i < |k|
        ensures SortKey(k[i]) <= SortKey(s[|s| - 1])
      {
        var j :| 0 <= j < |init| && init[j] == k[i];
      }
    }
  }

  /** The curve is in ascending time order. */
  lemma TradeCurveAscending(trades: seq<CurveTrade>)
    ensures var points := Curve(Kept(Sorting.SortBy(trades, SortKey)));
      forall i, j :: 0 <= i < j < |points| ==> points[i].t <= points[j].t
  {
    var k := Kept(Sorting.SortBy(trades, SortKey));
    KeptSorted(Sorting.SortBy(trades, SortKey));
    assert forall i, j :: 0 <= i < j < |k| ==> SortKey(k[i]) <= SortKey(k[j]);
  }

  /** The points' values step by the kept trades' PnL. */
  lemma CurveSteps(k: seq<CurveTrade>, i: nat)
    requires 0 < i < |k|
    ensures Curve(k)[i].value == Curve(k)[i - 1].value + Pnl(k[i])
  {
  }

  /**
   * `computeMaxDrawdownFromCurve`: the largest fall of a value below an earlier
   * (or the same) value, and 0 for a curve that never falls.
   */
  method ComputeMaxDrawdown(curve: seq<Point>) returns (maxDrawdown: real)
    ensures maxDrawdown >= 0.0
    ensures forall i, j :: 0 <= i <= j < |curve| ==> curve[i].value - curve[j].value <= maxDrawdown
    ensures maxDrawdown == 0.0 || exists i, j :: 0 <= i <= j < |curve| && maxDrawdown == curve[i].value - curve[j].value
  {
    var peak: Option<real> := None;
    maxDrawdown := 0.0;
    for k := 0 to |curve|
      invariant k == 0 <==> peak.None?
      invariant peak.Some? ==> ((exists p :: 0 <= p < k && peak.value == curve[p].value) &&
        forall i :: 0 <= i < k ==> curve[i].value <= peak.value)
      invariant maxDrawdown >= 0.0
      invariant forall i, j :: 0 <= i <= j < k ==> curve[i].value - curve[j].value <= maxDrawdown
      invariant maxDrawdown == 0.0 || exists i, j :: 0 <= i <= j < k && maxDrawdown == curve[i].value - curve[j].value
    {
      var value := curve[k].value;
      if peak.None? || value > peak.value {
        peak := Some(value);
      }
      var drawdown := peak.value - value;
      if drawdown > maxDrawdown {
        maxDrawdown := drawdown;
      }
    }
  }
}
