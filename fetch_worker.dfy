/**
 * The data-fetch worker's pure helpers and its trade-insertion rule: balance
 * snapshot totals, per-token trade metrics, the response built from local
 * prediction script runs, and which newly stored trades raise a low-profit
 * alert.
 *
 * The worker's copies of `tokenNameFromCurId` and `normalizePropsRaw` are the
 * `CurIds` and `PropsNormalizer` modules (the latter with its `Worker`
 * variant). `Number(...)` on JSON values is a parameter.
 */
module FetchWorker {
  import opened Wrappers
  import opened JsonValue
  import PropsNormalizer

  // ---------------------------------------------------------------------------
  // JavaScript numbers with their special values
  // ---------------------------------------------------------------------------

  /** A JavaScript number, telling `NaN` and the two infinities apart. */
  datatype Float = Real(x: real) | NaN | Inf(positive: bool)

  /** `+` on JavaScript numbers (exact on finite values). */
  function Add(a: Float, b: Float): Float {
    match (a, b)
    case (Real(x), Real(y)) => Real(x + y)
    case (NaN, _) => NaN
    case (_, NaN) => NaN
    case (Inf(p), Real(_)) => Inf(p)
    case (Real(_), Inf(q)) => Inf(q)
    case (Inf(p), Inf(q)) => if p == q then Inf(p) else NaN
  }

  lemma AddCommutes(a: Float, b: Float)
    ensures Add(a, b) == Add(b, a)
  {
  }

  lemma AddAssociates(a: Float, b: Float, c: Float)
    ensures Add(Add(a, b), c) == Add(a, Add(b, c))
  {
  }

  /** `Number(v) || 0`: `NaN` and zero become 0, the infinities stay. */
  function OrZero(n: Float): (r: Float)
    ensures r != NaN
    ensures n.Real? ==> r == n
  {
    if n == NaN then Real(0.0) else n
  }

  // ---------------------------------------------------------------------------
  // calculateTotals and computeDexCex
  // ---------------------------------------------------------------------------

  /** `!v || typeof v !== 'object'`: not an object (arrays are objects). */
  predicate NotObject(v: Json) {
    !(v.JObj? || v.JArr?)
  }

  /** The amount an exchange entry contributes: `usdtVal` for `BinanceF`, `coinVal` for the others. */
  function Amount(name: string, ex: Json, number: Json -> Float): Float {
    var key := if name == "BinanceF" then "usdtVal" else "coinVal";
    var v := Prop(ex, key);
    OrZero(if v.Some? then number(v.value) else NaN)
  }

  /** The sum of the first `k` entries' amounts, optionally only the `BinanceF` ones or only the others. */
  function SumAmounts(es: seq<(string, Json)>, number: Json -> Float, pick: string -> bool): Float {
    if es == [] then Real(0.0)
    else
      var (name, ex) := es[|es| - 1];
      var before := SumAmounts(es[..|es| - 1], number, pick);
      if NotObject(ex) || !pick(name) then before else Add(before, Amount(name, ex, number))
  }

  function AnyExchange(name: string): bool { true }
  function IsCex(name: string): bool { name == "BinanceF" }
  function IsDex(name: string): bool { name != "BinanceF" }

  datatype Totals = Totals(totalUsdt: Option<real>, totalCoin: Option<real>)

  /**
   * `calculateTotals`: no totals for a snapshot that is not an object;
   * otherwise the sum of every exchange's amount when it is finite. The coin
   * total is never given.
   */
  function CalculateTotals(snapshot: Json, number: Json -> Float): (t: Totals)
    ensures t.totalCoin.None?
    ensures NotObject(snapshot) ==> t.totalUsdt.None?
    ensures !NotObject(snapshot) ==>
      var sum := SumAmounts(Entries(snapshot), number, AnyExchange);
      (t.totalUsdt.Some? <==> sum.Real?) && (sum.Real? ==> t.totalUsdt.value == sum.x)
  {
    if NotObject(snapshot) then Totals(None, None)
    else
      var sum := SumAmounts(Entries(snapshot), number, AnyExchange);
      Totals(if sum.Real? then Some(sum.x) else None, None)
  }

  datatype DexCex = DexCex(dexTotal: Float, cexTotal: Float, combined: Float)

  /** `computeDexCex`: the `BinanceF` amount is CEX, every other exchange's DEX; all zeros for a non-object. */
  function ComputeDexCex(snapshot: Json, number: Json -> Float): (r: DexCex)
    ensures NotObject(snapshot) ==> r == DexCex(Real(0.0), Real(0.0), Real(0.0))
    ensures r.combined == Add(r.dexTotal, r.cexTotal)
    ensures !NotObject(snapshot) ==>
      r.dexTotal == SumAmounts(Entries(snapshot), number, IsDex) &&
      r.cexTotal == SumAmounts(Entries(snapshot), number, IsCex)
  {
    if NotObject(snapshot) then DexCex(Real(0.0), Real(0.0), Real(0.0))
    else
      var dex := SumAmounts(Entries(snapshot), number, IsDex);
      var cex := SumAmounts(Entries(snapshot), number, IsCex);
      DexCex(dex, cex, Add(dex, cex))
  }

  /** Splitting the entries into CEX and DEX and adding the two sums gives the overall sum. */
  lemma {:induction false} SplitSum(es: seq<(string, Json)>, number: Json -> Float)
    ensures Add(SumAmounts(es, number, IsDex), SumAmounts(es, number, IsCex)) == SumAmounts(es, number, AnyExchange)
  {
    if es != [] {
      var init := es[..|es| - 1];
      var (name, ex) := es[|es| - 1];
      SplitSum(init, number);
      var d, c := SumAmounts(init, number, IsDex), SumAmounts(init, number, IsCex);
      if !NotObject(ex) {
        var a := Amount(name, ex, number);
        if name == "BinanceF" {
          AddAssociates(d, c, a);
        } else {
          AddAssociates(d, a, c);
          AddCommutes(a, c);
          AddAssociates(d, c, a);
        }
      }
    }
  }

  /** The snapshot total is the DEX and CEX split's combined value whenever that is finite. */
  lemma TotalsAgreeWithSplit(snapshot: Json, number: Json -> Float)
    requires !NotObject(snapshot)
    ensures var c := ComputeDexCex(snapshot, number).combined;
      CalculateTotals(snapshot, number).totalUsdt == (if c.Real? then Some(c.x) else None)
  {
    SplitSum(Entries(snapshot), number);
  }

  // ---------------------------------------------------------------------------
  // aggregateTokenMetrics
  // ---------------------------------------------------------------------------

  /**
   * A completed trade as the aggregation reads it: its tokens, `Number(...)`
   * of the executed quantities and prices and of the gross profit, and its
   * normalised props.
   */
  datatype TradeRow = TradeRow(
    tokens: seq<string>,
    qtyDst: Float, dstPrice: Float, srcPrice: Float, qtySrc: Float,
    grossProfit: Float,
    props: PropsNormalizer.Props)

  /** The net profit `qtyDst·dstPrice − srcPrice·qtySrc − 0.0002·qtyDst·dstPrice`, when every factor is finite. */
  function NetProfit(t: TradeRow): Option<real> {
    if t.qtyDst.Real? && t.dstPrice.Real? && t.srcPrice.Real? && t.qtySrc.Real? then
      var dst := t.qtyDst.x * t.dstPrice.x;
      Some(dst - t.srcPrice.x * t.qtySrc.x - 0.0002 * dst)
    else None
  }

  datatype Metrics = Metrics(
    token: string, trades: nat, wins: nat, losses: nat,
    totalGrossProfit: Float, totalNetProfit: real,
    sumCexSlip: real, countCexSlip: nat,
    sumDexSlip: real, countDexSlip: nat,
    sumDiff: real, countDiff: nat)

  function Fresh(token: string): Metrics {
    Metrics(token, 0, 0, 0, Real(0.0), 0.0, 0.0, 0, 0.0, 0, 0.0, 0)
  }

  predicate IsWin(t: TradeRow) {
    OrZero(t.grossProfit) == Inf(true) || (OrZero(t.grossProfit).Real? && OrZero(t.grossProfit).x > 0.0)
  }

  predicate IsLoss(t: TradeRow) {
    OrZero(t.grossProfit) == Inf(false) || (OrZero(t.grossProfit).Real? && OrZero(t.grossProfit).x < 0.0)
  }

  function FiniteOf(n: Option<JsNum>): Option<real> {
    if n.Some? && n.value.Finite? then Some(n.value.x) else None
  }

  /** One trade counted into a token's record. */
  function Count(m: Metrics, t: TradeRow): (r: Metrics)
    ensures r.token == m.token && r.trades == m.trades + 1
    ensures Consistent(m) ==> Consistent(r)
  {
    var net := NetProfit(t);
    var cex, dex, diff := FiniteOf(t.props.cexSlip), FiniteOf(t.props.dexSlip), FiniteOf(t.props.diff);
    m.(trades := m.trades + 1,
       totalGrossProfit := Add(m.totalGrossProfit, OrZero(t.grossProfit)),
       totalNetProfit := if net.Some? then m.totalNetProfit + net.value else m.totalNetProfit,
       wins := if IsWin(t) then m.wins + 1 else m.wins,
       losses := if !IsWin(t) && IsLoss(t) then m.losses + 1 else m.losses,
       sumCexSlip := if cex.Some? then m.sumCexSlip + cex.value else m.sumCexSlip,
       countCexSlip := if cex.Some? then m.countCexSlip + 1 else m.countCexSlip,
       sumDexSlip := if dex.Some? then m.sumDexSlip + dex.value else m.sumDexSlip,
       countDexSlip := if dex.Some? then m.countDexSlip + 1 else m.countDexSlip,
       sumDiff := if diff.Some? then m.sumDiff + diff.value else m.sumDiff,
       countDiff := if diff.Some? then m.countDiff + 1 else m.countDiff)
  }

  /** The record of `token`, if there is one. */
  function Find(ms: seq<Metrics>, token: string): (r: Option<nat>)
    ensures r.Some? ==> r.value < |ms| && ms[r.value].token == token
    ensures r.None? ==> forall i :: 0 <= i < |ms| ==> ms[i].token != token
  {
    if ms == [] then None
    else if ms[|ms| - 1].token == token then Some(|ms| - 1)
    else Find(ms[..|ms| - 1], token)
  }

  /** Counts a trade into the record of `token`, created when missing (records keep first-seen order). */
  function Record(ms: seq<Metrics>, token: string, t: TradeRow): seq<Metrics> {
    match Find(ms, token)
    case Some(i) => ms[i := Count(ms[i], t)]
    case None => ms + [Count(Fresh(token), t)]
  }

  /** The records after counting a trade for its first `k` tokens. */
  function RecordTokens(ms: seq<Metrics>, t: TradeRow, k: nat): seq<Metrics>
    requires k <= |t.tokens|
  {
    if k == 0 then ms else Record(RecordTokens(ms, t, k - 1), t.tokens[k - 1], t)
  }

  /** The records after the first `k` trades. */
  function Aggregate(rows: seq<TradeRow>, k: nat): seq<Metrics>
    requires k <= |rows|
  {
    if k == 0 then [] else RecordTokens(Aggregate(rows, k - 1), rows[k - 1], |rows[k - 1].tokens|)
  }

  /** `aggregateTokenMetrics`: one record per token, updated trade by trade. */
  method AggregateTokenMetrics(rows: seq<TradeRow>) returns (ms: seq<Metrics>)
    ensures ms == Aggregate(rows, |rows|)
  {
    ms := [];
    for i := 0 to |rows|
      invariant ms == Aggregate(rows, i)
    {
      var t := rows[i];
      for j := 0 to |t.tokens|
        invariant ms == RecordTokens(Aggregate(rows, i), t, j)
      {
        var found := Find(ms, t.tokens[j]);
        var m := if found.Some? then ms[found.value] else Fresh(t.tokens[j]);
        m := Count(m, t);
        ms := if found.Some? then ms[found.value := m] else ms + [m];
      }
    }
  }

  /** The counters a record keeps consistent: wins and losses are disjoint trades, and every slip count is a count of trades. */
  predicate Consistent(m: Metrics) {
    m.wins + m.losses <= m.trades && m.countCexSlip <= m.trades && m.countDexSlip <= m.trades && m.countDiff <= m.trades
  }

  predicate AllConsistent(ms: seq<Metrics>) {
    forall i :: 0 <= i < |ms| ==> Consistent(ms[i])
  }

  predicate DistinctTokens(ms: seq<Metrics>) {
    forall i, j :: 0 <= i < j < |ms| ==> ms[i].token != ms[j].token
  }

  lemma RecordConsistent(ms: seq<Metrics>, token: string, t: TradeRow)
    requires AllConsistent(ms)
    ensures AllConsistent(Record(ms, token, t))
  {
    var r := Record(ms, token, t);
    match Find(ms, token)
    case Some(i) =>
      assert forall j :: 0 <= j < |ms| && j != i ==> r[j] == ms[j];
    case None =>
      assert forall j :: 0 <= j < |ms| ==> r[j] == ms[j];
  }

  lemma RecordDistinct(ms: seq<Metrics>, token: string, t: TradeRow)
    requires DistinctTokens(ms)
    ensures DistinctTokens(Record(ms, token, t))
  {
    var r := Record(ms, token, t);
    match Find(ms, token)
    case Some(i) =>
      assert forall j :: 0 <= j < |ms| ==> r[j].token == ms[j].token;
    case None =>
      assert forall j :: 0 <= j < |ms| ==> r[j] == ms[j];
  }

  /** Records with the same tokens in the same places are searched alike. */
  lemma {:induction false} FindSameTokens(a: seq<Metrics>, b: seq<Metrics>, token: string)
    requires |a| == |b| && forall i :: 0 <= i < |a| ==> a[i].token == b[i].token
    ensures Find(a, token) == Find(b, token)
  {
    if a != [] {
      var n := |a| - 1;
      FindSameTokens(a[..n], b[..n], token);
    }
  }

  lemma {:induction false} RecordTokensConsistent(ms: seq<Metrics>, t: TradeRow, k: nat)
    requires k <= |t.tokens| && AllConsistent(ms)
    ensures AllConsistent(RecordTokens(ms, t, k))
  {
    if k > 0 {
      RecordTokensConsistent(ms, t, k - 1);
      RecordConsistent(RecordTokens(ms, t, k - 1), t.tokens[k - 1], t);
    }
  }

  lemma {:induction false} RecordTokensDistinct(ms: seq<Metrics>, t: TradeRow, k: nat)
    requires k <= |t.tokens| && DistinctTokens(ms)
    ensures DistinctTokens(RecordTokens(ms, t, k))
  {
    if k > 0 {
      RecordTokensDistinct(ms, t, k - 1);
      RecordDistinct(RecordTokens(ms, t, k - 1), t.tokens[k - 1], t);
    }
  }

  /** Every token has one record, and in each wins + losses never exceed the trades counted. */
  lemma {:induction false} AggregateConsistent(rows: seq<TradeRow>, k: nat)
    requires k <= |rows|
    ensures AllConsistent(Aggregate(rows, k)) && DistinctTokens(Aggregate(rows, k))
  {
    if k > 0 {
      var prev := Aggregate(rows, k - 1);
      var t := rows[k - 1];
      AggregateConsistent(rows, k - 1);
      RecordTokensConsistent(prev, t, |t.tokens|);
      RecordTokensDistinct(prev, t, |t.tokens|);
      assert Aggregate(rows, k) == RecordTokens(prev, t, |t.tokens|);
    }
  }

  /** The trades counted for `token` (0 without a record). */
  function TradesOf(ms: seq<Metrics>, token: string): nat {
    match Find(ms, token)
    case Some(i) => ms[i].trades
    case None => 0
  }

  /** How often `token` occurs in the token lists of the first `k` trades. */
  function Occurrences(rows: seq<TradeRow>, k: nat, token: string): nat
    requires k <= |rows|
  {
    if k == 0 then 0 else Occurrences(rows, k - 1, token) + Mentions(rows[k - 1].tokens, |rows[k - 1].tokens|, token)
  }

  function Mentions(tokens: seq<string>, k: nat, token: string): nat
    requires k <= |tokens|
  {
    if k == 0 then 0 else Mentions(tokens, k - 1, token) + (if tokens[k - 1] == token then 1 else 0)
  }

  lemma RecordCounts(ms: seq<Metrics>, token: string, t: TradeRow, other: string)
    requires DistinctTokens(ms)
    ensures TradesOf(Record(ms, token, t), other) == TradesOf(ms, other) + (if token == other then 1 else 0)
  {
    var r := Record(ms, token, t);
    match Find(ms, token)
    case Some(i) =>
      FindSameTokens(r, ms, other);
    case None =>
      assert r[..|ms|] == ms;
  }

  lemma {:induction false} RecordTokensCounts(ms: seq<Metrics>, t: TradeRow, k: nat, token: string)
    requires k <= |t.tokens| && DistinctTokens(ms)
    ensures TradesOf(RecordTokens(ms, t, k), token) == TradesOf(ms, token) + Mentions(t.tokens, k, token)
  {
    if k > 0 {
      RecordTokensCounts(ms, t, k - 1, token);
      RecordTokensDistinct(ms, t, k - 1);
      RecordCounts(RecordTokens(ms, t, k - 1), t.tokens[k - 1], t, token);
    }
  }

  /** A token's record counts exactly the trades that list it (once per listing). */
  lemma {:induction false} TradesCounted(rows: seq<TradeRow>, k: nat, token: string)
    requires k <= |rows|
    ensures TradesOf(Aggregate(rows, k), token) == Occurrences(rows, k, token)
  {
    if k > 0 {
      var prev, t := Aggregate(rows, k - 1), rows[k - 1];
      assert DistinctTokens(prev) by {
        AggregateConsistent(rows, k - 1);
      }
      calc {
        TradesOf(Aggregate(rows, k), token);
        TradesOf(RecordTokens(prev, t, |t.tokens|), token);
        { RecordTokensCounts(prev, t, |t.tokens|, token); }
        TradesOf(prev, token) + Mentions(t.tokens, |t.tokens|, token);
        { TradesCounted(rows, k - 1, token); }
        Occurrences(rows, k, token);
      }
    }
  }

  // ---------------------------------------------------------------------------
  // buildLocalPredictResponse
  // ---------------------------------------------------------------------------

  /** One run of the prediction script: its `success_probability` and `prediction` fields, as decoded. */
  datatype ScriptResult = ScriptResult(successProbability: Option<Json>, prediction: Option<Json>)

  datatype LocalResponse = LocalResponse(
    predictions: seq<real>, probabilities: seq<(real, real)>, successProbability: Option<real>)

  /** `Number.isFinite(v) ? v : 0` on a decoded value: only a JSON number is finite. */
  function FiniteOr0(v: Option<Json>): real {
    if v.Some? && v.value.JNum? then v.value.n else 0.0
  }

  function Clamp01(p: real): (c: real)
    ensures 0.0 <= c <= 1.0
    ensures 0.0 <= p <= 1.0 ==> c == p
  {
    if p < 0.0 then 0.0 else if p > 1.0 then 1.0 else p
  }

  /** The prediction of a run: its own when numeric, else 1 exactly when the probability reaches one half. */
  function Prediction(r: ScriptResult): real {
    if r.prediction.Some? && r.prediction.value.JNum? then r.prediction.value.n
    else if FiniteOr0(r.successProbability) >= 0.5 then 1.0 else 0.0
  }

  /**
   * `Number(x.toFixed(6))` on a non-negative number: the multiple of 10^-6
   * nearest to `x`, the larger one on a tie.
   */
  function Round6(x: real): (y: real)
    requires x >= 0.0
    ensures y - 0.0000005 <= x < y + 0.0000005
    ensures 0.0 <= y
    ensures x <= 1.0 ==> y <= 1.0
  {
    var n := (x * 1000000.0 + 0.5).Floor;
    n as real / 1000000.0
  }

  /** Rounding never reverses the order of two numbers. */
  lemma Round6Monotone(a: real, b: real)
    requires 0.0 <= a <= b
    ensures Round6(a) <= Round6(b)
  {
    var x, y := a * 1000000.0 + 0.5, b * 1000000.0 + 0.5;
    assert x <= y;
    var n, m := x.Floor, y.Floor;
    assert n as real <= x && y < m as real + 1.0;
    assert n <= m;
    assert Round6(a) == n as real / 1000000.0 && Round6(b) == m as real / 1000000.0;
  }

  /** The two rounded halves of a probability add up to 1, or overshoot it by 10^-6 on a tie. */
  lemma Round6Complement(p: real)
    requires 0.0 <= p <= 1.0
    ensures Round6(1.0 - p) + Round6(p) == 1.0 || Round6(1.0 - p) + Round6(p) == 1.000001
  {
    var n := (p * 1000000.0 + 0.5).Floor;
    var m := ((1.0 - p) * 1000000.0 + 0.5).Floor;
    assert n as real <= p * 1000000.0 + 0.5 < n as real + 1.0;
    assert m as real <= (1.0 - p) * 1000000.0 + 0.5 < m as real + 1.0;
    assert 1000000 <= n + m <= 1000001;
  }

  /** The reported pair of a probability: both halves rounded to six decimals. */
  function RoundedPair(p: real): (pair: (real, real))
    requires 0.0 <= p <= 1.0
    ensures 0.0 <= pair.0 <= 1.0 && 0.0 <= pair.1 <= 1.0
    ensures pair.1 - 0.0000005 <= p < pair.1 + 0.0000005
    ensures pair.0 + pair.1 == 1.0 || pair.0 + pair.1 == 1.000001
  {
    Round6Complement(p);
    (Round6(1.0 - p), Round6(p))
  }

  /**
   * `buildLocalPredictResponse`: per run the pair `[1 − p, p]` of the
   * clamped probability, each half rounded to six decimals, and the
   * prediction; the raw probability of a single payload's run is passed
   * through.
   */
  function BuildLocalPredictResponse(results: seq<ScriptResult>, payloadCount: int): (r: LocalResponse)
    ensures |r.probabilities| == |results| && |r.predictions| == |results|
    ensures forall i :: 0 <= i < |results| ==>
      var p := Clamp01(FiniteOr0(results[i].successProbability));
      r.probabilities[i] == (Round6(1.0 - p), Round6(p))
    ensures forall i :: 0 <= i < |results| ==>
      var (no, yes) := r.probabilities[i];
      0.0 <= no <= 1.0 && 0.0 <= yes <= 1.0 && (no + yes == 1.0 || no + yes == 1.000001)
    ensures forall i :: 0 <= i < |results| ==> r.predictions[i] == Prediction(results[i])
    ensures r.successProbability.Some? <==>
      payloadCount == 1 && |results| > 0 && results[0].successProbability.Some? && results[0].successProbability.value.JNum?
    ensures r.successProbability.Some? ==> r.successProbability.value == results[0].successProbability.value.n
  {
    var probabilities := seq(|results|, i requires 0 <= i < |results| =>
      RoundedPair(Clamp01(FiniteOr0(results[i].successProbability))));
    var predictions := seq(|results|, i requires 0 <= i < |results| => Prediction(results[i]));
    var single := payloadCount == 1 && |results| > 0 && results[0].successProbability.Some? && results[0].successProbability.value.JNum?;
    LocalResponse(predictions, probabilities, if single then Some(results[0].successProbability.value.n) else None)
  }

  /**
   * Without a numeric prediction of its own, a run's prediction agrees with
   * the reported probability: 1 only when it is at least one half, 0 only
   * when it is at most one half.
   */
  lemma DefaultPredictionMatchesProbability(results: seq<ScriptResult>, payloadCount: int, i: nat)
    requires i < |results|
    requires !(results[i].prediction.Some? && results[i].prediction.value.JNum?)
    ensures var r := BuildLocalPredictResponse(results, payloadCount);
      (r.predictions[i] == 1.0 ==> r.probabilities[i].1 >= 0.5) &&
      (r.predictions[i] == 0.0 ==> r.probabilities[i].1 <= 0.5)
  {
    var raw := FiniteOr0(results[i].successProbability);
    var p := Clamp01(raw);
    assert Round6(0.5) == 0.5;
    if raw >= 0.5 {
      Round6Monotone(0.5, p);
    } else {
      Round6Monotone(p, 0.5);
    }
  }

  // ---------------------------------------------------------------------------
  // storeCompletedTrades: insert, then alert on low profit
  // ---------------------------------------------------------------------------

  /** A fetched completed trade: its id and `executedProfitNormalized`. */
  datatype CompletedTrade = CompletedTrade(id: string, profitNormalized: Option<real>)

  /** A `profit-trade` notification request, keyed so that one trade alerts once. */
  datatype Alert = Alert(tradeId: string, uniqueKey: string, profit: real)

  /** The profit rule's `thresholdPercent`, −5 when not set. */
  function Threshold(thresholdPercent: Option<real>): real {
    if thresholdPercent.Some? then thresholdPercent.value else -5.0
  }

  predicate LowProfit(t: CompletedTrade, threshold: real) {
    t.profitNormalized.Some? && t.profitNormalized.value < threshold
  }

  /** The stored ids and the alerts after the first `k` trades of a batch: `INSERT OR IGNORE` keeps the first row of an id. */
  function Stored(stored: set<string>, trades: seq<CompletedTrade>, k: nat): (ids: set<string>)
    requires k <= |trades|
    ensures stored <= ids
  {
    if k == 0 then stored else Stored(stored, trades, k - 1) + {trades[k - 1].id}
  }

  function Alerts(stored: set<string>, trades: seq<CompletedTrade>, k: nat, notifier: bool, threshold: real): seq<Alert>
    requires k <= |trades|
  {
    if k == 0 then []
    else
      var t := trades[k - 1];
      var before := Alerts(stored, trades, k - 1, notifier, threshold);
      if t.id !in Stored(stored, trades, k - 1) && notifier && LowProfit(t, threshold) then
        before + [Alert(t.id, "low-profit-" + t.id, t.profitNormalized.value)]
      else before
  }

  /**
   * `storeCompletedTrades` against the ids already stored: inserts the batch,
   * counts the rows actually inserted, and requests an alert for each newly
   * inserted trade below the profit threshold when the server has a notifier.
   */
  method StoreCompletedTrades(stored: set<string>, trades: seq<CompletedTrade>, notifier: bool, thresholdPercent: Option<real>)
    returns (inserted: nat, ids: set<string>, alerts: seq<Alert>)
    ensures ids == Stored(stored, trades, |trades|)
    ensures |stored| + inserted == |ids|
    ensures alerts == Alerts(stored, trades, |trades|, notifier, Threshold(thresholdPercent))
  {
    inserted, ids, alerts := 0, stored, [];
    if |trades| == 0 {
      return;
    }
    var threshold := Threshold(thresholdPercent);
    for i := 0 to |trades|
      invariant ids == Stored(stored, trades, i)
      invariant |stored| + inserted == |ids|
      invariant alerts == Alerts(stored, trades, i, notifier, threshold)
    {
      var t := trades[i];
      if t.id !in ids {
        ids := ids + {t.id};
        inserted := inserted + 1;
        if notifier && t.profitNormalized.Some? && t.profitNormalized.value < threshold {
          alerts := alerts + [Alert(t.id, "low-profit-" + t.id, t.profitNormalized.value)];
        }
      }
    }
  }

  /** Every alert is for a newly stored trade below the threshold, and no trade alerts twice. */
  predicate AlertsSound(alerts: seq<Alert>, stored: set<string>, ids: set<string>, threshold: real) {
    (forall i :: 0 <= i < |alerts| ==> alerts[i].tradeId !in stored && alerts[i].profit < threshold && alerts[i].tradeId in ids) &&
    (forall i, j :: 0 <= i < j < |alerts| ==> alerts[i].tradeId != alerts[j].tradeId)
  }

  /** Alerts go only to trades inserted by this batch, below the threshold, once per trade, and never without a notifier. */
  lemma {:induction false} AlertsForNewLowProfitTrades(stored: set<string>, trades: seq<CompletedTrade>, k: nat, notifier: bool, threshold: real)
    requires k <= |trades|
    ensures AlertsSound(Alerts(stored, trades, k, notifier, threshold), stored, Stored(stored, trades, k), threshold)
    ensures !notifier ==> Alerts(stored, trades, k, notifier, threshold) == []
  {
    if k > 0 {
      AlertsForNewLowProfitTrades(stored, trades, k - 1, notifier, threshold);
      var t := trades[k - 1];
      var before := Alerts(stored, trades, k - 1, notifier, threshold);
      var ids := Stored(stored, trades, k - 1);
      var ids' := Stored(stored, trades, k);
      assert ids' == ids + {t.id};
      assert AlertsSound(before, stored, ids, threshold);
      if t.id !in ids && notifier && LowProfit(t, threshold) {
        var alerts := before + [Alert(t.id, "low-profit-" + t.id, t.profitNormalized.value)];
        assert alerts == Alerts(stored, trades, k, notifier, threshold);
        forall i | 0 <= i < |alerts|
          ensures alerts[i].tradeId !in stored && alerts[i].profit < threshold && alerts[i].tradeId in ids'
        {
          if i < |before| {
            assert alerts[i] == before[i];
          }
        }
        forall i, j | 0 <= i < j < |alerts|
          ensures alerts[i].tradeId != alerts[j].tradeId
        {
          assert alerts[i] == before[i];
          if j < |before| {
            assert alerts[j] == before[j];
          } else {
            assert before[i].tradeId in ids;
          }
        }
      } else {
        assert Alerts(stored, trades, k, notifier, threshold) == before;
      }
    }
  }
}
