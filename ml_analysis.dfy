/**
 * The diff-sweep helpers of the ML analysis page (`public/ml-analysis.js`):
 * baselines, the buckets of historical diff rows keyed by their rounded diff in
 * basis points, the payloads of a sweep over a range of diffs, and the per-diff
 * mean of the probabilities the service returns for them.
 */
module MlAnalysis {
  import opened Wrappers
  import opened JsonValue
  import Sorting

  /** The band a diff in basis points is clamped to. */
  const MinDiffBps: int := -99
  const MaxDiffBps: int := 99

  /** Most historical contexts one swept value takes. */
  const MaxContextSamples: nat := 10

  predicate InBand(k: int) {
    MinDiffBps <= k <= MaxDiffBps
  }

  // ---------------------------------------------------------------- numbers

  /** `cleanNumber` of a value already converted with `Number()`: finite, or `null`. */
  function Clean(v: JsNum): (r: Option<real>)
    ensures r.Some? <==> v.Finite?
    ensures r.Some? ==> r.value == v.x
  {
    if v.Finite? then Some(v.x) else None
  }

  /** `Math.round`: the nearest integer, halves going up. */
  function Round(x: real): (n: int)
    ensures n as real - 0.5 <= x < n as real + 0.5
  {
    (x + 0.5).Floor
  }

  /** `clampBaseline`: a non-finite value is 0, a finite one is clamped into the band. */
  function ClampBaseline(v: JsNum): (r: real)
    ensures v.NonFinite? ==> r == 0.0
    ensures v.Finite? && MinDiffBps as real <= v.x <= MaxDiffBps as real ==> r == v.x
    ensures v.Finite? && v.x < MinDiffBps as real ==> r == MinDiffBps as real
    ensures v.Finite? && v.x > MaxDiffBps as real ==> r == MaxDiffBps as real
  {
    if v.NonFinite? then 0.0
    else if v.x < MinDiffBps as real then MinDiffBps as real
    else if v.x > MaxDiffBps as real then MaxDiffBps as real
    else v.x
  }

  /** Clamping a clamped value changes nothing. */
  lemma ClampIdempotent(v: JsNum)
    ensures ClampBaseline(Finite(ClampBaseline(v))) == ClampBaseline(v)
  {
  }

  /** The bucket of a diff: `clampBaseline(Math.round(v))`, always an integer in the band. */
  function BucketOf(v: JsNum): (k: int)
    ensures InBand(k)
    ensures v.Finite? && InBand(Round(v.x)) ==> k == Round(v.x)
    ensures v.NonFinite? ==> k == 0
  {
    if v.NonFinite? then 0
    else
      var n := Round(v.x);
      if n < MinDiffBps then MinDiffBps else if n > MaxDiffBps then MaxDiffBps else n
  }

  /** The bucket agrees with `clampBaseline` applied after rounding. */
  lemma BucketIsClampedRound(v: JsNum)
    ensures v.Finite? ==> BucketOf(v) as real == ClampBaseline(Finite(Round(v.x) as real))
    ensures v.NonFinite? ==> BucketOf(v) as real == ClampBaseline(v)
  {
  }

  // ----------------------------------------------------------------- median

  /** The finite values, in order. */
  function FiniteValues(values: seq<JsNum>): (r: seq<real>)
    ensures |r| <= |values|
    ensures forall x :: x in r <==> Finite(x) in values
  {
    if values == [] then []
    else
      var rest := FiniteValues(values[1..]);
      assert forall x :: Finite(x) in values <==> Finite(x) == values[0] || Finite(x) in values[1..];
      if values[0].Finite? then [values[0].x] + rest else rest
  }

  function Id(x: real): real {
    x
  }

  /** The finite values in ascending order. */
  function Ascending(values: seq<JsNum>): (r: seq<real>)
    ensures Sorting.SortedBy(r, Id) && multiset(r) == multiset(FiniteValues(values))
  {
    Sorting.SortBy(FiniteValues(values), Id)
  }

  /** The middle value of an ascending sequence, or the mean of its two middle values. */
  function Middle(sorted: seq<real>): Option<real> {
    if sorted == [] then None
    else
      var mid := |sorted| / 2;
      if |sorted| % 2 == 0 then Some((sorted[mid - 1] + sorted[mid]) / 2.0) else Some(sorted[mid])
  }

  /** `median`: `null` without finite values; the middle one, or the mean of the two middle ones, of the sorted finite values. */
  function Median(values: seq<JsNum>): (r: Option<real>)
    ensures r.None? <==> FiniteValues(values) == []
  {
    Middle(Ascending(values))
  }

  /** The median lies between the least and the greatest finite value. */
  lemma MedianBounds(values: seq<JsNum>)
    ensures Median(values).Some? ==>
      (exists x :: x in FiniteValues(values) && x <= Median(values).value) &&
      (exists y :: y in FiniteValues(values) && Median(values).value <= y)
  {
    var f := FiniteValues(values);
    var sorted := Ascending(values);
    if sorted != [] {
      MiddleBetween(sorted);
      Sorting.SortByMembers(f, Id);
      assert sorted[0] in f && sorted[|sorted| - 1] in f;
    }
  }

  /** The middle of an ascending sequence lies between its first and last values. */
  lemma MiddleBetween(sorted: seq<real>)
    requires sorted != [] && Sorting.SortedBy(sorted, Id)
    ensures Middle(sorted).Some? && sorted[0] <= Middle(sorted).value <= sorted[|sorted| - 1]
  {
    var mid := |sorted| / 2;
    assert Id(sorted[0]) <= Id(sorted[mid]) <= Id(sorted[|sorted| - 1]);
    if |sorted| % 2 == 0 {
      assert Id(sorted[0]) <= Id(sorted[mid - 1]) <= Id(sorted[mid]);
    }
  }

  /** Dropping the first element keeps a sequence ascending. */
  lemma SortedTail(a: seq<real>)
    requires a != [] && Sorting.SortedBy(a, Id)
    ensures Sorting.SortedBy(a[1..], Id)
  {
    forall i, j | 0 <= i < j < |a| - 1
      ensures Id(a[1..][i]) <= Id(a[1..][j])
    {
      assert a[1..][i] == a[i + 1] && a[1..][j] == a[j + 1];
    }
  }

  /** The rest of a sequence holds its values but one occurrence of the first. */
  lemma TailMultiset(a: seq<real>)
    requires a != []
    ensures multiset(a[1..]) == multiset(a) - multiset{a[0]}
  {
    assert a == [a[0]] + a[1..];
    assert multiset(a) == multiset{a[0]} + multiset(a[1..]);
  }

  /** Two non-empty ascending sequences holding the same values start with the same value. */
  lemma SameHead(a: seq<real>, b: seq<real>)
    requires a != [] && |b| == |a|
    requires Sorting.SortedBy(a, Id) && Sorting.SortedBy(b, Id)
    requires multiset(a) == multiset(b)
    ensures a[0] == b[0]
  {
    assert a[0] in multiset(b) && b[0] in multiset(a);
    var i :| 0 <= i < |b| && b[i] == a[0];
    var j :| 0 <= j < |a| && a[j] == b[0];
    assert Id(b[0]) <= Id(b[i]) && Id(a[0]) <= Id(a[j]);
  }

  /** Two ascending sequences holding the same values are the same sequence. */
  lemma {:induction false} SortedUnique(a: seq<real>, b: seq<real>)
    requires Sorting.SortedBy(a, Id) && Sorting.SortedBy(b, Id)
    requires multiset(a) == multiset(b)
    ensures a == b
  {
    assert |b| == |a| by {
      assert |multiset(a)| == |a| && |multiset(b)| == |b|;
    }
    if a != [] {
      SameHead(a, b);
      SameTails(a, b);
      SortedUnique(a[1..], b[1..]);
      HeadTailEq(a, b);
    }
  }

  /** After a common first value, the rests are ascending and hold the same values. */
  lemma SameTails(a: seq<real>, b: seq<real>)
    requires a != [] && b != [] && a[0] == b[0]
    requires Sorting.SortedBy(a, Id) && Sorting.SortedBy(b, Id)
    requires multiset(a) == multiset(b)
    ensures Sorting.SortedBy(a[1..], Id) && Sorting.SortedBy(b[1..], Id)
    ensures multiset(a[1..]) == multiset(b[1..])
  {
    TailMultiset(a);
    TailMultiset(b);
    SortedTail(a);
    SortedTail(b);
  }

  lemma HeadTailEq(a: seq<real>, b: seq<real>)
    requires a != [] && b != [] && a[0] == b[0] && a[1..] == b[1..]
    ensures a == b
  {
    assert a == [a[0]] + a[1..] && b == [b[0]] + b[1..];
  }

  /** The median depends only on which finite values occur, and how often, not on their order. */
  lemma MedianIgnoresOrder(xs: seq<JsNum>, ys: seq<JsNum>)
    requires multiset(FiniteValues(xs)) == multiset(FiniteValues(ys))
    ensures Median(xs) == Median(ys)
  {
    SortedUnique(Ascending(xs), Ascending(ys));
  }

  // ------------------------------------------------------- nearest context

  function Dist(a: int, b: int): nat {
    if a <= b then b - a else a - b
  }

  /** `k` is the present in-band bucket closest to `bucket`, the lower one at equal distance. */
  ghost predicate Nearest<T>(contexts: map<int, T>, bucket: int, k: int) {
    k in contexts && InBand(k) &&
    forall k' :: k' in contexts && InBand(k') ==>
      Dist(k, bucket) < Dist(k', bucket) || (Dist(k, bucket) == Dist(k', bucket) && k <= k')
  }

  /** At most one bucket is the nearest. */
  lemma NearestUnique<T>(contexts: map<int, T>, bucket: int, k1: int, k2: int)
    requires Nearest(contexts, bucket, k1) && Nearest(contexts, bucket, k2)
    ensures k1 == k2
  {
  }

  /**
   * `getContextForValue`: the contexts of the value's own bucket, else of the
   * nearest present in-band bucket (searching outwards, lower side first), else
   * the fallback.
   */
  method GetContextForValue<T>(value: JsNum, contexts: map<int, T>, fallback: T) returns (r: T)
    ensures (exists k :: k in contexts && InBand(k)) ==>
      exists k :: Nearest(contexts, BucketOf(value), k) && r == contexts[k]
    ensures (forall k :: k in contexts ==> !InBand(k)) ==> r == fallback
  {
    var bucket := BucketOf(value);
    if bucket in contexts {
      assert Nearest(contexts, bucket, bucket);
      return contexts[bucket];
    }
    var offset := 1;
    while offset <= MaxDiffBps - MinDiffBps
      invariant 1 <= offset <= MaxDiffBps - MinDiffBps + 1
      invariant forall k :: k in contexts && InBand(k) ==> Dist(k, bucket) >= offset
    {
      var lower := bucket - offset;
      var upper := bucket + offset;
      if lower >= MinDiffBps && lower in contexts {
        assert Nearest(contexts, bucket, lower);
        return contexts[lower];
      }
      if upper <= MaxDiffBps && upper in contexts {
        assert Nearest(contexts, bucket, upper);
        return contexts[upper];
      }
      offset := offset + 1;
    }
    return fallback;
  }

  // --------------------------------------------------------- best indices

  function Abs(x: real): real {
    if x < 0.0 then -x else x
  }

  /** `findNearestIndex`: -1 for an empty range, else the first index whose value is closest to `value`. */
  method FindNearestIndex(value: real, range: seq<real>) returns (r: int)
    ensures range == [] <==> r == -1
    ensures range != [] ==> 0 <= r < |range|
    ensures range != [] ==> forall j :: 0 <= j < |range| ==> Abs(range[r] - value) <= Abs(range[j] - value)
    ensures range != [] ==> forall j :: 0 <= j < r ==> Abs(range[r] - value) < Abs(range[j] - value)
  {
    if range == [] {
      return -1;
    }
    var bestIdx := 0;
    var bestDelta := Abs(range[0] - value);
    for idx := 1 to |range|
      invariant 0 <= bestIdx < idx
      invariant bestDelta == Abs(range[bestIdx] - value)
      invariant forall j :: 0 <= j < idx ==> bestDelta <= Abs(range[j] - value)
      invariant forall j :: 0 <= j < bestIdx ==> bestDelta < Abs(range[j] - value)
    {
      var delta := Abs(range[idx] - value);
      if delta < bestDelta {
        bestIdx := idx;
        bestDelta := delta;
      }
    }
    return bestIdx;
  }

  /** `findBestIndex`: -1 for no values, else the first index of the greatest value. */
  method FindBestIndex(values: seq<real>) returns (r: int)
    ensures values == [] <==> r == -1
    ensures values != [] ==> 0 <= r < |values|
    ensures values != [] ==> forall j :: 0 <= j < |values| ==> values[j] <= values[r]
    ensures values != [] ==> forall j :: 0 <= j < r ==> values[j] < values[r]
  {
    if values == [] {
      return -1;
    }
    var bestIdx := 0;
    for idx := 1 to |values|
      invariant 0 <= bestIdx < idx
      invariant forall j :: 0 <= j < idx ==> values[j] <= values[bestIdx]
      invariant forall j :: 0 <= j < bestIdx ==> values[j] < values[bestIdx]
    {
      if values[idx] > values[bestIdx] {
        bestIdx := idx;
      }
    }
    return bestIdx;
  }

  // --------------------------------------------------------- diff contexts

  /** The side of a sweep. */
  datatype Mode = Buy | Sell

  /** A historical diff row, each field as `Number()` converts it. */
  datatype DiffRow = DiffRow(
    buyDiffBps: JsNum, sellDiffBps: JsNum,
    dexSlip: JsNum, cexSlip: JsNum, cexVol: JsNum,
    serverBuy: JsNum, serverSell: JsNum, dexVolume: JsNum)

  /** The market context a row contributes; a non-finite field is `null`. */
  datatype Context = Context(
    dexSlip: Option<real>, cexSlip: Option<real>, cexVol: Option<real>,
    serverBuy: Option<real>, serverSell: Option<real>, dexVolume: Option<real>)

  function ContextOf(row: DiffRow): Context {
    Context(Clean(row.dexSlip), Clean(row.cexSlip), Clean(row.cexVol),
            Clean(row.serverBuy), Clean(row.serverSell), Clean(row.dexVolume))
  }

  function DiffOf(row: DiffRow, mode: Mode): JsNum {
    if mode == Buy then row.buyDiffBps else row.sellDiffBps
  }

  /** Whether a row files a context under bucket `k` on the given side. */
  predicate FiledUnder(row: DiffRow, mode: Mode, k: int) {
    DiffOf(row, mode).Finite? && BucketOf(DiffOf(row, mode)) == k
  }

  /** The contexts of the first `n` rows filed under bucket `k`, in row order. */
  function Filed(rows: seq<DiffRow>, n: nat, mode: Mode, k: int): seq<Context>
    requires n <= |rows|
  {
    if n == 0 then []
    else Filed(rows, n - 1, mode, k) + (if FiledUnder(rows[n - 1], mode, k) then [ContextOf(rows[n - 1])] else [])
  }

  function Get(m: map<int, seq<Context>>, k: int): seq<Context> {
    if k in m then m[k] else []
  }

  /** Only in-band buckets ever receive contexts. */
  lemma {:induction false} FiledInBand(rows: seq<DiffRow>, n: nat, mode: Mode, k: int)
    requires n <= |rows|
    ensures Filed(rows, n, mode, k) != [] ==> InBand(k)
  {
    if n > 0 {
      FiledInBand(rows, n - 1, mode, k);
    }
  }

  /** Each context that lands in bucket `k` comes from a row filed under `k`. */
  lemma {:induction false} FiledFromRows(rows: seq<DiffRow>, n: nat, mode: Mode, k: int)
    requires n <= |rows|
    ensures forall c :: c in Filed(rows, n, mode, k) ==>
      exists i :: 0 <= i < n && FiledUnder(rows[i], mode, k) && c == ContextOf(rows[i])
  {
    if n > 0 {
      FiledFromRows(rows, n - 1, mode, k);
    }
  }

  /** Files one side of one row. */
  method File(contexts: map<int, seq<Context>>, rows: seq<DiffRow>, i: nat, mode: Mode) returns (r: map<int, seq<Context>>)
    requires i < |rows|
    requires forall k :: Get(contexts, k) == Filed(rows, i, mode, k)
    requires forall k :: k in contexts ==> Filed(rows, i, mode, k) != []
    ensures forall k :: Get(r, k) == Filed(rows, i + 1, mode, k)
    ensures forall k :: k in r ==> Filed(rows, i + 1, mode, k) != []
  {
    r := contexts;
    var diff := DiffOf(rows[i], mode);
    if diff.Finite? {
      var bucket := BucketOf(diff);
      var list := Get(r, bucket);
      r := r[bucket := list + [ContextOf(rows[i])]];
    }
  }

  /**
   * `buildDiffContexts`: for each side, every row whose diff is finite appends
   * its context to the bucket of that diff; a bucket is present exactly when it
   * has received a context, and every present bucket is in the band.
   */
  method BuildDiffContexts(rows: seq<DiffRow>) returns (buy: map<int, seq<Context>>, sell: map<int, seq<Context>>)
    ensures forall k :: Get(buy, k) == Filed(rows, |rows|, Buy, k)
    ensures forall k :: Get(sell, k) == Filed(rows, |rows|, Sell, k)
    ensures forall k :: k in buy <==> Filed(rows, |rows|, Buy, k) != []
    ensures forall k :: k in sell <==> Filed(rows, |rows|, Sell, k) != []
    ensures forall k :: k in buy || k in sell ==> InBand(k)
  {
    buy := map[];
    sell := map[];
    for i := 0 to |rows|
      invariant forall k :: Get(buy, k) == Filed(rows, i, Buy, k)
      invariant forall k :: Get(sell, k) == Filed(rows, i, Sell, k)
      invariant forall k :: k in buy ==> Filed(rows, i, Buy, k) != []
      invariant forall k :: k in sell ==> Filed(rows, i, Sell, k) != []
    {
      buy := File(buy, rows, i, Buy);
      sell := File(sell, rows, i, Sell);
    }
    forall k | k in buy || k in sell
      ensures InBand(k)
    {
      FiledInBand(rows, |rows|, Buy, k);
      FiledInBand(rows, |rows|, Sell, k);
    }
  }

  // -------------------------------------------------------------- payloads

  /** The baseline of each feature (always a finite number). */
  datatype Baselines = Baselines(
    dexSlip: real, cexSlip: real, cexVol: real,
    serverBuy: real, serverSell: real, dexVolume: real)

  /** The fixed part of a sweep: the configured buy and sell diffs and the baselines. */
  datatype Sweep = Sweep(baseBuy: real, baseSell: real, baseline: Baselines)

  /** One request payload of a sweep. */
  datatype Payload = Payload(
    buyDiffBps: real, sellDiffBps: real, diff: real,
    dexSlip: real, cexSlip: real, cexVol: real,
    serverBuy: real, serverSell: real, dexVolume: real)

  /** Which swept value a payload belongs to. */
  datatype Meta = Meta(mode: Mode, value: int)

  function Min(a: nat, b: nat): nat {
    if a <= b then a else b
  }

  /** The baselines as a context. */
  function BaselineContext(b: Baselines): Context {
    Context(Some(b.dexSlip), Some(b.cexSlip), Some(b.cexVol), Some(b.serverBuy), Some(b.serverSell), Some(b.dexVolume))
  }

  /** `buildContextSamples`: the first ten contexts of the value's bucket, or the baselines alone. */
  function Samples(value: int, contexts: map<int, seq<Context>>, b: Baselines): (r: seq<Context>)
    ensures value in contexts && contexts[value] != [] ==> r == contexts[value][..Min(MaxContextSamples, |contexts[value]|)]
    ensures !(value in contexts && contexts[value] != []) ==> r == [BaselineContext(b)]
    ensures 1 <= |r| <= MaxContextSamples
  {
    if value in contexts && contexts[value] != [] then contexts[value][..Min(MaxContextSamples, |contexts[value]|)]
    else [BaselineContext(b)]
  }

  /**
   * A feature of a payload as written: `cleanNumber(x) ?? baseline` where `x` is
   * already `cleanNumber`'s output; `Number(null)` is 0, so a missing value
   * becomes 0 and the baseline is never taken.
   */
  function FeatureAsWritten(x: Option<real>, baseline: real): (r: real)
    ensures x.Some? ==> r == x.value
  {
    if x.Some? then x.value else 0.0
  }

  /** A feature of a payload: the context's value, or the baseline when it has none. */
  function Feature(x: Option<real>, baseline: real): (r: real)
    ensures x.Some? ==> r == x.value
    ensures x.None? ==> r == baseline
  {
    if x.Some? then x.value else baseline
  }

  /** With a nonzero baseline, a missing feature is sent as 0 where the baseline was meant. */
  lemma MissingFeatureZeroed(baseline: real)
    requires baseline != 0.0
    ensures FeatureAsWritten(None, baseline) == 0.0
    ensures FeatureAsWritten(None, baseline) != Feature(None, baseline)
  {
  }

  /**
   * The payload of one swept value with one context, each context feature
   * filled in by `fill` from its value and its baseline: `Feature` is the
   * intended fallback, `FeatureAsWritten` what the page does.
   */
  function PayloadOf(sweep: Sweep, mode: Mode, value: int, c: Context, fill: (Option<real>, real) -> real): (p: Payload)
    ensures mode == Buy ==> p.buyDiffBps == value as real && p.sellDiffBps == sweep.baseSell
    ensures mode == Sell ==> p.buyDiffBps == sweep.baseBuy && p.sellDiffBps == value as real
    ensures p.diff == p.buyDiffBps - p.sellDiffBps
  {
    var b := sweep.baseline;
    Payload(
      if mode == Buy then value as real else sweep.baseBuy,
      if mode == Buy then sweep.baseSell else value as real,
      if mode == Buy then value as real - sweep.baseSell else sweep.baseBuy - value as real,
      fill(c.dexSlip, b.dexSlip), fill(c.cexSlip, b.cexSlip), fill(c.cexVol, b.cexVol),
      fill(c.serverBuy, b.serverBuy), fill(c.serverSell, b.serverSell), fill(c.dexVolume, b.dexVolume))
  }

  /** Whether every context feature of `p` is the context's own value, or `missing(baseline)` where the context has none. */
  predicate FeaturesFilled(p: Payload, c: Context, b: Baselines, missing: real -> real) {
    p.dexSlip == (if c.dexSlip.Some? then c.dexSlip.value else missing(b.dexSlip)) &&
    p.cexSlip == (if c.cexSlip.Some? then c.cexSlip.value else missing(b.cexSlip)) &&
    p.cexVol == (if c.cexVol.Some? then c.cexVol.value else missing(b.cexVol)) &&
    p.serverBuy == (if c.serverBuy.Some? then c.serverBuy.value else missing(b.serverBuy)) &&
    p.serverSell == (if c.serverSell.Some? then c.serverSell.value else missing(b.serverSell)) &&
    p.dexVolume == (if c.dexVolume.Some? then c.dexVolume.value else missing(b.dexVolume))
  }

  /** With the intended fallback, every missing context feature is sent as its baseline. */
  lemma PayloadFallsBack(sweep: Sweep, mode: Mode, value: int, c: Context)
    ensures FeaturesFilled(PayloadOf(sweep, mode, value, c, Feature), c, sweep.baseline, b => b)
  {
  }

  /** As written, every missing context feature is sent as 0, whatever its baseline. */
  lemma PayloadAsWrittenZeroes(sweep: Sweep, mode: Mode, value: int, c: Context)
    ensures FeaturesFilled(PayloadOf(sweep, mode, value, c, FeatureAsWritten), c, sweep.baseline, b => 0.0)
  {
  }

  /** The two agree exactly on a context that has every feature. */
  lemma PayloadsAgreeOnFullContext(sweep: Sweep, mode: Mode, value: int, c: Context)
    requires c.dexSlip.Some? && c.cexSlip.Some? && c.cexVol.Some? && c.serverBuy.Some? && c.serverSell.Some? && c.dexVolume.Some?
    ensures PayloadOf(sweep, mode, value, c, Feature) == PayloadOf(sweep, mode, value, c, FeatureAsWritten)
  {
  }

  /** The payloads of one swept value, one per sample. */
  function Batch(sweep: Sweep, mode: Mode, value: int, samples: seq<Context>, fill: (Option<real>, real) -> real): (r: seq<Payload>)
    ensures |r| == |samples|
  {
    if samples == [] then []
    else Batch(sweep, mode, value, samples[..|samples| - 1], fill) + [PayloadOf(sweep, mode, value, samples[|samples| - 1], fill)]
  }

  /** The payloads for the first `n` swept values. */
  function PayloadsFor(sweep: Sweep, range: seq<int>, n: nat, contexts: map<int, seq<Context>>, mode: Mode, fill: (Option<real>, real) -> real): seq<Payload>
    requires n <= |range|
  {
    if n == 0 then []
    else
      PayloadsFor(sweep, range, n - 1, contexts, mode, fill) +
      Batch(sweep, mode, range[n - 1], Samples(range[n - 1], contexts, sweep.baseline), fill)
  }

  /** The tags of the first `n` swept values' payloads. */
  function MetaFor(sweep: Sweep, range: seq<int>, n: nat, contexts: map<int, seq<Context>>, mode: Mode): seq<Meta>
    requires n <= |range|
  {
    if n == 0 then []
    else
      var samples := Samples(range[n - 1], contexts, sweep.baseline);
      MetaFor(sweep, range, n - 1, contexts, mode) + seq(|samples|, _ => Meta(mode, range[n - 1]))
  }

  /** How many payloads the first `n` swept values produce. */
  function SampleTotal(range: seq<int>, n: nat, contexts: map<int, seq<Context>>, b: Baselines): nat
    requires n <= |range|
  {
    if n == 0 then 0 else SampleTotal(range, n - 1, contexts, b) + |Samples(range[n - 1], contexts, b)|
  }

  /** Each payload is tagged with its swept value, and carries it on its own side with the configured diff on the other. */
  predicate Tagged(sweep: Sweep, p: Payload, m: Meta) {
    (m.mode == Buy ==> p.buyDiffBps == m.value as real && p.sellDiffBps == sweep.baseSell && p.diff == m.value as real - sweep.baseSell) &&
    (m.mode == Sell ==> p.sellDiffBps == m.value as real && p.buyDiffBps == sweep.baseBuy && p.diff == sweep.baseBuy - m.value as real)
  }

  lemma {:induction false} BatchTagged(sweep: Sweep, mode: Mode, value: int, samples: seq<Context>, fill: (Option<real>, real) -> real)
    ensures forall i :: 0 <= i < |samples| ==> Tagged(sweep, Batch(sweep, mode, value, samples, fill)[i], Meta(mode, value))
  {
    if samples != [] {
      BatchTagged(sweep, mode, value, samples[..|samples| - 1], fill);
    }
  }

  /**
   * A sweep's payloads and tags line up one for one: there are as many as the
   * values' samples (one to ten each), and each payload carries its tagged
   * value as its own side's diff.
   */
  lemma {:induction false} SweepShape(sweep: Sweep, range: seq<int>, n: nat, contexts: map<int, seq<Context>>, mode: Mode, fill: (Option<real>, real) -> real)
    requires n <= |range|
    ensures |PayloadsFor(sweep, range, n, contexts, mode, fill)| == |MetaFor(sweep, range, n, contexts, mode)| == SampleTotal(range, n, contexts, sweep.baseline)
    ensures n <= SampleTotal(range, n, contexts, sweep.baseline) <= MaxContextSamples * n
    ensures forall i :: 0 <= i < |MetaFor(sweep, range, n, contexts, mode)| ==>
      MetaFor(sweep, range, n, contexts, mode)[i].mode == mode &&
      Tagged(sweep, PayloadsFor(sweep, range, n, contexts, mode, fill)[i], MetaFor(sweep, range, n, contexts, mode)[i])
  {
    if n > 0 {
      SweepShape(sweep, range, n - 1, contexts, mode, fill);
      var samples := Samples(range[n - 1], contexts, sweep.baseline);
      BatchTagged(sweep, mode, range[n - 1], samples, fill);
      var ps := PayloadsFor(sweep, range, n - 1, contexts, mode, fill);
      var ms := MetaFor(sweep, range, n - 1, contexts, mode);
      var batch := Batch(sweep, mode, range[n - 1], samples, fill);
      var tags: seq<Meta> := seq(|samples|, _ => Meta(mode, range[n - 1]));
      forall i | 0 <= i < |ms| + |tags|
        ensures (ms + tags)[i].mode == mode && Tagged(sweep, (ps + batch)[i], (ms + tags)[i])
      {
        if i >= |ms| {
          assert (ps + batch)[i] == batch[i - |ms|];
          assert (ms + tags)[i] == tags[i - |ms|];
        }
      }
    }
  }

  /** `createPayloadsForRange`: one payload and one tag per sample of each swept value, in order. */
  method CreatePayloadsForRange(sweep: Sweep, range: seq<int>, contexts: map<int, seq<Context>>, mode: Mode, fill: (Option<real>, real) -> real)
    returns (payloads: seq<Payload>, meta: seq<Meta>)
    ensures payloads == PayloadsFor(sweep, range, |range|, contexts, mode, fill)
    ensures meta == MetaFor(sweep, range, |range|, contexts, mode)
  {
    payloads := [];
    meta := [];
    for i := 0 to |range|
      invariant payloads == PayloadsFor(sweep, range, i, contexts, mode, fill)
      invariant meta == MetaFor(sweep, range, i, contexts, mode)
    {
      payloads, meta := AppendBatch(payloads, meta, sweep, mode, range[i], Samples(range[i], contexts, sweep.baseline), fill);
    }
  }

  /** One swept value's payloads and tags, appended sample by sample. */
  method AppendBatch(payloads: seq<Payload>, meta: seq<Meta>, sweep: Sweep, mode: Mode, value: int, samples: seq<Context>, fill: (Option<real>, real) -> real)
    returns (payloads': seq<Payload>, meta': seq<Meta>)
    ensures payloads' == payloads + Batch(sweep, mode, value, samples, fill)
    ensures meta' == meta + seq(|samples|, _ => Meta(mode, value))
  {
    payloads', meta' := payloads, meta;
    for j := 0 to |samples|
      invariant payloads' == payloads + Batch(sweep, mode, value, samples[..j], fill)
      invariant meta' == meta + seq(j, _ => Meta(mode, value))
    {
      assert samples[..j + 1][..j] == samples[..j];
      payloads' := payloads' + [PayloadOf(sweep, mode, value, samples[j], fill)];
      meta' := meta' + [Meta(mode, value)];
    }
    assert samples[..|samples|] == samples;
  }

  // ---------------------------------------------------------------- series

  /** A running sum and count of probabilities. */
  datatype Stats = Stats(sum: real, count: nat)

  /** `probabilities[idx] ?? 0`. */
  function ProbAt(probs: seq<real>, i: nat): real {
    if i < |probs| then probs[i] else 0.0
  }

  /** The per-value stats of the first `n` tagged payloads of one side. */
  function Accumulated(meta: seq<Meta>, probs: seq<real>, mode: Mode, n: nat): map<int, Stats>
    requires n <= |meta|
  {
    if n == 0 then map[]
    else
      var agg := Accumulated(meta, probs, mode, n - 1);
      var m := meta[n - 1];
      if m.mode != mode then agg
      else
        var old_ := if m.value in agg then agg[m.value] else Stats(0.0, 0);
        agg[m.value := Stats(old_.sum + ProbAt(probs, n - 1), old_.count + 1)]
  }

  /** `computeSeries`: each swept value with the mean probability of its payloads, 0 when it has none. */
  function ComputeSeries(range: seq<int>, agg: map<int, Stats>): (r: seq<(int, real)>)
    ensures |r| == |range|
    ensures forall i :: 0 <= i < |range| ==> r[i].0 == range[i]
    ensures forall i :: 0 <= i < |range| ==> range[i] !in agg || agg[range[i]].count == 0 ==> r[i].1 == 0.0
  {
    seq(|range|, i requires 0 <= i < |range| =>
      var v := range[i];
      (v, if v in agg && agg[v].count > 0 then agg[v].sum / agg[v].count as real else 0.0))
  }

  predicate Probabilities(probs: seq<real>) {
    forall i :: 0 <= i < |probs| ==> 0.0 <= probs[i] <= 1.0
  }

  /** With probabilities in [0, 1], every value's sum lies between 0 and its count. */
  lemma {:induction false} AccumulatedBounded(meta: seq<Meta>, probs: seq<real>, mode: Mode, n: nat)
    requires n <= |meta| && Probabilities(probs)
    ensures forall v :: v in Accumulated(meta, probs, mode, n) ==>
      0.0 <= Accumulated(meta, probs, mode, n)[v].sum <= Accumulated(meta, probs, mode, n)[v].count as real
  {
    if n > 0 {
      AccumulatedBounded(meta, probs, mode, n - 1);
    }
  }

  /** With probabilities in [0, 1], the series stays in [0, 1]. */
  lemma SeriesIsProbability(range: seq<int>, meta: seq<Meta>, probs: seq<real>, mode: Mode)
    requires Probabilities(probs)
    ensures forall i :: 0 <= i < |range| ==>
      0.0 <= ComputeSeries(range, Accumulated(meta, probs, mode, |meta|))[i].1 <= 1.0
  {
    var agg := Accumulated(meta, probs, mode, |meta|);
    AccumulatedBounded(meta, probs, mode, |meta|);
    var r := ComputeSeries(range, agg);
    forall i | 0 <= i < |range|
      ensures 0.0 <= r[i].1 <= 1.0
    {
      var v := range[i];
      if v in agg && agg[v].count > 0 {
        var c := agg[v].count as real;
        assert 0.0 <= agg[v].sum <= c;
        assert r[i].1 == agg[v].sum / c;
        assert agg[v].sum / c <= c / c;
      }
    }
  }
}
