/**
 * The dashboard's hourly gas consumption series: a fold over the contract-wide
 * (`__total__`) gas balance readings that books every fall between
 * consecutive automatic readings as consumption, books manual top-ups as
 * deposits, and groups both by the local hour of the reading.
 *
 * The two database queries that produce the readings (the last one before
 * the window, then those inside it, in time order) are I/O; the readings are
 * the input. Times are milliseconds since the epoch.
 */
module GasConsumption {
  import opened Wrappers
  import opened JsonValue
  import Sorting

  datatype Source = AutoTotal | Manual | OtherSource

  /** A reading: its time (`None` for an unparsable date), `Number(gas_balance)`, `Number(gas_deposit)` and source. */
  datatype Reading = Reading(time: Option<int>, balance: JsNum, deposit: JsNum, source: Source)

  datatype Bucket = Bucket(hour: int, consumption: real, deposit: real, latestTotal: real)

  const HourMs: int := 3600000

  /** The start of the local hour of `t`, for a zone `offset` milliseconds ahead of UTC. */
  function HourOf(t: int, offset: int): (h: int)
    ensures h <= t < h + HourMs
    ensures (h + offset) % HourMs == 0
  {
    t - (t + offset) % HourMs
  }

  /** A reading the fold uses: a finite balance and a valid date. */
  predicate Usable(r: Reading) {
    r.balance.Finite? && r.time.Some?
  }

  /** The baseline before the first reading: its balance when it is automatic. */
  function InitialBaseline(series: seq<Reading>): Option<JsNum> {
    if |series| > 0 && series[0].source.AutoTotal? then Some(series[0].balance) else None
  }

  /** The consumption booked for a reading: the fall from a finite baseline to an automatic reading, never negative. */
  function Drop(baseline: Option<JsNum>, r: Reading): (c: real)
    requires r.balance.Finite?
    ensures c >= 0.0
  {
    if r.source.AutoTotal? && baseline.Some? && baseline.value.Finite? then
      var fall := baseline.value.x - r.balance.x;
      if fall < 0.0 then 0.0 else fall
    else 0.0
  }

  /** The deposit booked for a reading: a positive finite manual deposit. */
  function Added(r: Reading): (d: real)
    ensures d >= 0.0
  {
    if r.source.Manual? && r.deposit.Finite? && r.deposit.x > 0.0 then r.deposit.x else 0.0
  }

  /** An automatic or manual reading becomes the new baseline. */
  function NextBaseline(baseline: Option<JsNum>, r: Reading): Option<JsNum> {
    if Usable(r) && (r.source.AutoTotal? || r.source.Manual?) then Some(r.balance) else baseline
  }

  /** The baseline after the first `k` readings. */
  function Baseline(series: seq<Reading>, k: nat): Option<JsNum>
    requires k <= |series|
  {
    if k == 0 then InitialBaseline(series) else NextBaseline(Baseline(series, k - 1), series[k - 1])
  }

  /** The bucket of `hour`, if there is one. */
  function Find(buckets: seq<Bucket>, hour: int): (r: Option<nat>)
    ensures r.Some? ==> r.value < |buckets| && buckets[r.value].hour == hour
    ensures r.None? ==> forall i :: 0 <= i < |buckets| ==> buckets[i].hour != hour
  {
    if buckets == [] then None
    else if buckets[|buckets| - 1].hour == hour then Some(|buckets| - 1)
    else Find(buckets[..|buckets| - 1], hour)
  }

  predicate Distinct(buckets: seq<Bucket>) {
    forall i, j :: 0 <= i < j < |buckets| ==> buckets[i].hour != buckets[j].hour
  }

  predicate NonNegative(buckets: seq<Bucket>) {
    forall i :: 0 <= i < |buckets| ==> buckets[i].consumption >= 0.0 && buckets[i].deposit >= 0.0
  }

  /** Books `c` and `d` in the bucket of `hour`, created empty when missing, and records the latest total. */
  function Credit(buckets: seq<Bucket>, hour: int, c: real, d: real, total: real): seq<Bucket> {
    match Find(buckets, hour)
    case Some(i) =>
      var b := buckets[i];
      buckets[i := Bucket(hour, b.consumption + c, b.deposit + d, total)]
    case None =>
      buckets + [Bucket(hour, c, d, total)]
  }

  /** Booking keeps one bucket per hour and non-negative amounts, and leaves the hour with the new latest total. */
  lemma CreditKeeps(buckets: seq<Bucket>, hour: int, c: real, d: real, total: real)
    requires c >= 0.0 && d >= 0.0
    ensures var r := Credit(buckets, hour, c, d, total);
      (Distinct(buckets) ==> Distinct(r)) &&
      (NonNegative(buckets) ==> NonNegative(r)) &&
      (exists i :: 0 <= i < |r| && r[i].hour == hour && r[i].latestTotal == total)
  {
    var r := Credit(buckets, hour, c, d, total);
    match Find(buckets, hour)
    case Some(i) =>
      assert r[i].hour == hour && r[i].latestTotal == total;
    case None =>
      assert r[|buckets|].hour == hour && r[|buckets|].latestTotal == total;
  }

  /** The buckets after the first `k` readings. */
  function Buckets(series: seq<Reading>, k: nat, offset: int): seq<Bucket>
    requires k <= |series|
  {
    if k == 0 then []
    else
      var r := series[k - 1];
      var before := Buckets(series, k - 1, offset);
      if !Usable(r) then before
      else Credit(before, HourOf(r.time.value, offset), Drop(Baseline(series, k - 1), r), Added(r), r.balance.x)
  }

  /** Every prefix of the fold has one bucket per hour and non-negative amounts. */
  lemma {:induction false} BucketsWellFormed(series: seq<Reading>, k: nat, offset: int)
    requires k <= |series|
    ensures Distinct(Buckets(series, k, offset)) && NonNegative(Buckets(series, k, offset))
  {
    if k > 0 {
      BucketsWellFormed(series, k - 1, offset);
      var r := series[k - 1];
      if Usable(r) {
        CreditKeeps(Buckets(series, k - 1, offset), HourOf(r.time.value, offset), Drop(Baseline(series, k - 1), r), Added(r), r.balance.x);
      }
    }
  }

  function HourKey(b: Bucket): real {
    b.hour as real
  }

  /**
   * `computeGasConsumptionSeries` on the readings: nothing for at most one
   * reading, otherwise the hourly buckets ordered by hour.
   */
  method ComputeGasConsumptionSeries(series: seq<Reading>, offset: int) returns (result: seq<Bucket>)
    ensures |series| <= 1 ==> result == []
    ensures |series| > 1 ==> result == Sorting.SortBy(Buckets(series, |series|, offset), HourKey)
  {
    if |series| <= 1 {
      return [];
    }
    var buckets: seq<Bucket> := [];
    var baseline := InitialBaseline(series);
    for i := 0 to |series|
      invariant buckets == Buckets(series, i, offset)
      invariant baseline == Baseline(series, i)
    {
      var r := series[i];
      if !r.balance.Finite? || r.time.None? {
        continue;
      }
      var consumption := 0.0;
      var deposit := 0.0;
      if r.source.AutoTotal? {
        if baseline.Some? && baseline.value.Finite? {
          consumption := baseline.value.x - r.balance.x;
          if consumption < 0.0 {
            consumption := 0.0;
          }
        }
        baseline := Some(r.balance);
      } else if r.source.Manual? {
        if r.deposit.Finite? && r.deposit.x > 0.0 {
          deposit := r.deposit.x;
        }
        baseline := Some(r.balance);
      }
      buckets := Book(buckets, HourOf(r.time.value, offset), consumption, deposit, r.balance.x);
    }
    result := Sorting.SortBy(buckets, HourKey);
  }

  /** Adds to the bucket of `hour` in place of the map update of the loop. */
  method Book(buckets: seq<Bucket>, hour: int, c: real, d: real, total: real) returns (r: seq<Bucket>)
    ensures r == Credit(buckets, hour, c, d, total)
  {
    var existing := Find(buckets, hour);
    if existing.Some? {
      var b := buckets[existing.value];
      r := buckets[existing.value := b.(consumption := b.consumption + c, deposit := b.deposit + d, latestTotal := total)];
    } else {
      r := buckets + [Bucket(hour, c, d, total)];
    }
  }

  /** A list of buckets with one bucket per hour holds each bucket at most once. */
  lemma {:induction false} DistinctOnce(s: seq<Bucket>, x: Bucket)
    requires Distinct(s)
    ensures multiset(s)[x] <= 1
  {
    if s != [] {
      var n := |s| - 1;
      assert s == s[..n] + [s[n]];
      assert Distinct(s[..n]);
      DistinctOnce(s[..n], x);
      if x == s[n] {
        assert x !in s[..n];
      }
    }
  }

  /** Reordering keeps one bucket per hour. */
  lemma PermutationDistinct(a: seq<Bucket>, b: seq<Bucket>)
    requires multiset(a) == multiset(b) && Distinct(a)
    ensures Distinct(b)
  {
    forall i, j | 0 <= i < j < |b|
      ensures b[i].hour != b[j].hour
    {
      if b[i] == b[j] {
        var rest := b[..i] + b[i + 1..];
        assert b == b[..i] + [b[i]] + b[i + 1..];
        assert rest[j - 1] == b[j];
        assert multiset(b) == multiset(rest) + multiset{b[i]};
        DistinctOnce(a, b[i]);
      } else {
        assert b[i] in multiset(a) && b[j] in multiset(a);
        var x :| 0 <= x < |a| && a[x] == b[i];
        var y :| 0 <= y < |a| && a[y] == b[j];
        assert x != y;
      }
    }
  }

  /** The series is strictly ordered by hour, and holds the same buckets. */
  lemma SeriesByHour(series: seq<Reading>, offset: int)
    ensures var result := Sorting.SortBy(Buckets(series, |series|, offset), HourKey);
      (forall i, j :: 0 <= i < j < |result| ==> result[i].hour < result[j].hour) &&
      multiset(result) == multiset(Buckets(series, |series|, offset))
  {
    var buckets := Buckets(series, |series|, offset);
    BucketsWellFormed(series, |series|, offset);
    var result := Sorting.SortBy(buckets, HourKey);
    PermutationDistinct(buckets, result);
    forall i, j | 0 <= i < j < |result|
      ensures result[i].hour < result[j].hour
    {
      assert HourKey(result[i]) <= HourKey(result[j]);
    }
  }

  // ---------------------------------------------------------------------------
  // Conservation: bucketing neither creates nor loses consumption or deposits
  // ---------------------------------------------------------------------------

  /** Total consumption of a list of buckets. */
  function Consumed(buckets: seq<Bucket>): real {
    if buckets == [] then 0.0 else Consumed(buckets[..|buckets| - 1]) + buckets[|buckets| - 1].consumption
  }

  function Deposited(buckets: seq<Bucket>): real {
    if buckets == [] then 0.0 else Deposited(buckets[..|buckets| - 1]) + buckets[|buckets| - 1].deposit
  }

  /** The consumption the first `k` readings book, without any bucketing. */
  function Used(series: seq<Reading>, k: nat): real
    requires k <= |series|
  {
    if k == 0 then 0.0
    else if !Usable(series[k - 1]) then Used(series, k - 1)
    else Used(series, k - 1) + Drop(Baseline(series, k - 1), series[k - 1])
  }

  /** The deposits the first `k` readings book. */
  function TopUps(series: seq<Reading>, k: nat): real
    requires k <= |series|
  {
    if k == 0 then 0.0
    else if !Usable(series[k - 1]) then TopUps(series, k - 1)
    else TopUps(series, k - 1) + Added(series[k - 1])
  }

  lemma {:induction false} ConsumedUpdate(buckets: seq<Bucket>, i: nat, b: Bucket)
    requires i < |buckets|
    ensures Consumed(buckets[i := b]) == Consumed(buckets) - buckets[i].consumption + b.consumption
    ensures Deposited(buckets[i := b]) == Deposited(buckets) - buckets[i].deposit + b.deposit
  {
    var n := |buckets| - 1;
    if i < n {
      assert buckets[i := b][..n] == buckets[..n][i := b];
      ConsumedUpdate(buckets[..n], i, b);
    } else {
      assert buckets[i := b][..n] == buckets[..n];
    }
  }

  lemma CreditTotals(buckets: seq<Bucket>, hour: int, c: real, d: real, total: real)
    requires c >= 0.0 && d >= 0.0
    ensures Consumed(Credit(buckets, hour, c, d, total)) == Consumed(buckets) + c
    ensures Deposited(Credit(buckets, hour, c, d, total)) == Deposited(buckets) + d
  {
    match Find(buckets, hour)
    case Some(i) =>
      var b := buckets[i];
      ConsumedUpdate(buckets, i, Bucket(hour, b.consumption + c, b.deposit + d, total));
    case None =>
      assert (buckets + [Bucket(hour, c, d, total)])[..|buckets|] == buckets;
  }

  /** The hourly consumption and deposits add up to what the readings book one by one. */
  lemma {:induction false} BucketsConserve(series: seq<Reading>, k: nat, offset: int)
    requires k <= |series|
    ensures Consumed(Buckets(series, k, offset)) == Used(series, k)
    ensures Deposited(Buckets(series, k, offset)) == TopUps(series, k)
  {
    if k > 0 {
      BucketsConserve(series, k - 1, offset);
      var r := series[k - 1];
      var before := Buckets(series, k - 1, offset);
      if Usable(r) {
        var c, d := Drop(Baseline(series, k - 1), r), Added(r);
        CreditTotals(before, HourOf(r.time.value, offset), c, d, r.balance.x);
        assert Buckets(series, k, offset) == Credit(before, HourOf(r.time.value, offset), c, d, r.balance.x);
        assert Used(series, k) == Used(series, k - 1) + c;
      } else {
        assert Buckets(series, k, offset) == before;
      }
    }
  }

  /** A fall between two consecutive automatic readings is booked in full; a rise books nothing. */
  lemma ConsecutiveAutoReadings(series: seq<Reading>, k: nat)
    requires 0 < k < |series|
    requires Usable(series[k - 1]) && Usable(series[k])
    requires series[k - 1].source.AutoTotal? && series[k].source.AutoTotal?
    ensures var fall := series[k - 1].balance.x - series[k].balance.x;
      Drop(Baseline(series, k), series[k]) == if fall > 0.0 then fall else 0.0
  {
  }

  /** A manual reading resets the baseline, so the next automatic reading measures from it. */
  lemma ManualResetsBaseline(series: seq<Reading>, k: nat)
    requires 0 < k < |series|
    requires Usable(series[k - 1]) && series[k - 1].source.Manual?
    requires Usable(series[k]) && series[k].source.AutoTotal?
    ensures var fall := series[k - 1].balance.x - series[k].balance.x;
      Drop(Baseline(series, k), series[k]) == if fall > 0.0 then fall else 0.0
  {
  }
}
