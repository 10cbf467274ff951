/**
 * The consolidated total-balance history: every server's `balances_history`
 * readings are carried forward onto the union of all servers' timestamps
 * (a server shows its latest non-zero reading, 0 before it has one; of
 * several readings at one instant only the last one listed counts), and the
 * per-server values are summed at each timestamp.
 *
 * Reading the server list and each server's database is I/O; the readings are
 * the input, one list per server in query order. Timestamps are the instants
 * they denote, in milliseconds.
 */
module ConsolidatedBalances {
  import opened Wrappers
  import opened Sorting

  datatype Reading = Reading(time: int, totalUsdt: Option<real>)

  /** One point of the history: the instant, the consolidated total and each server's carried value. */
  datatype Point = Point(time: int, total: real, servers: seq<real>)

  predicate ReadingsAscending(rs: seq<Reading>) {
    forall i, j :: 0 <= i < j < |rs| ==> rs[i].time < rs[j].time
  }

  // ---------------------------------------------------------------------------
  // The timeline: every server's timestamps, once each, in time order
  // ---------------------------------------------------------------------------

  /** The distinct values of `xs` in ascending order. */
  function Timeline(xs: seq<int>): (r: seq<int>)
    ensures StrictlyIncreasing(r)
    ensures forall y :: y in r <==> y in xs
  {
    if xs == [] then [] else InsertUnique(Timeline(xs[..|xs| - 1]), xs[|xs| - 1])
  }

  /** The times of all readings of all servers. */
  function Times(servers: seq<seq<Reading>>): seq<int> {
    if servers == [] then []
    else
      var last := servers[|servers| - 1];
      Times(servers[..|servers| - 1]) + seq(|last|, j requires 0 <= j < |last| => last[j].time)
  }

  /** Every reading's time is among the collected times. */
  lemma {:induction false} TimesCover(servers: seq<seq<Reading>>, i: nat, j: nat)
    requires i < |servers| && j < |servers[i]|
    ensures servers[i][j].time in Times(servers)
  {
    var n := |servers| - 1;
    var last := servers[n];
    var tail := seq(|last|, j requires 0 <= j < |last| => last[j].time);
    assert Times(servers) == Times(servers[..n]) + tail;
    if i < n {
      assert servers[..n][i] == servers[i];
      TimesCover(servers[..n], i, j);
    } else {
      assert tail[j] == servers[i][j].time;
    }
  }

  // ---------------------------------------------------------------------------
  // The carry-forward walk of one server
  // ---------------------------------------------------------------------------

  /** Where the walk stops: past every reading at or before `t`, starting at `i`. */
  function Advance(rs: seq<Reading>, i: nat, t: int): (j: nat)
    requires i <= |rs|
    ensures i <= j <= |rs|
    decreases |rs| - i
  {
    if i < |rs| && rs[i].time <= t then Advance(rs, i + 1, t) else i
  }

  /** The walk passes only readings at or before `t`, and stops at the first one after it. */
  lemma {:induction false} AdvanceStops(rs: seq<Reading>, i: nat, t: int)
    requires i <= |rs|
    ensures forall k :: i <= k < Advance(rs, i, t) ==> rs[k].time <= t
    ensures Advance(rs, i, t) < |rs| ==> rs[Advance(rs, i, t)].time > t
    decreases |rs| - i
  {
    if i < |rs| && rs[i].time <= t {
      AdvanceStops(rs, i + 1, t);
    }
  }

  /** A non-null, non-zero reading replaces the carried value. */
  function Carry(last: real, current: Option<real>): real {
    if current.Some? && current.value != 0.0 then current.value else last
  }

  /** The walk's position after the first `k` timestamps. */
  function Pos(rs: seq<Reading>, ts: seq<int>, k: nat): (p: nat)
    requires k <= |ts|
    ensures p <= |rs|
  {
    if k == 0 then 0 else Advance(rs, Pos(rs, ts, k - 1), ts[k - 1])
  }

  /** The carried value after the first `k` timestamps: the last reading the step passes decides. */
  function Carried(rs: seq<Reading>, ts: seq<int>, k: nat): real
    requires k <= |ts|
  {
    if k == 0 then 0.0
    else
      var p, q := Pos(rs, ts, k - 1), Pos(rs, ts, k);
      if q > p then Carry(Carried(rs, ts, k - 1), rs[q - 1].totalUsdt) else Carried(rs, ts, k - 1)
  }

  /** One step of the walk: passes every reading at or before `t`, and reports the last one passed. */
  method Pass(rs: seq<Reading>, start: nat, t: int) returns (index: nat, current: Option<real>)
    requires start <= |rs|
    ensures index == Advance(rs, start, t)
    ensures current == if index > start then rs[index - 1].totalUsdt else None
  {
    index, current := start, None;
    while index < |rs| && rs[index].time <= t
      invariant start <= index <= |rs|
      invariant Advance(rs, index, t) == Advance(rs, start, t)
      invariant current == if index > start then rs[index - 1].totalUsdt else None
      decreases |rs| - index
    {
      current := rs[index].totalUsdt;
      index := index + 1;
    }
  }

  /** Carries one server's readings onto the timeline. */
  method FillServer(rs: seq<Reading>, ts: seq<int>) returns (filled: seq<real>)
    ensures |filled| == |ts|
    ensures forall k :: 0 <= k < |ts| ==> filled[k] == Carried(rs, ts, k + 1)
  {
    filled := [];
    var last := 0.0;
    var index := 0;
    for k := 0 to |ts|
      invariant |filled| == k
      invariant index == Pos(rs, ts, k)
      invariant last == Carried(rs, ts, k)
      invariant forall m :: 0 <= m < k ==> filled[m] == Carried(rs, ts, m + 1)
    {
      var current;
      index, current := Pass(rs, index, ts[k]);
      if current.Some? && current.value != 0.0 {
        last := current.value;
      }
      filled := filled + [last];
    }
  }

  // ---------------------------------------------------------------------------
  // Reference: the latest non-zero reading at or before a time
  // ---------------------------------------------------------------------------

  predicate NonZero(r: Reading) {
    r.totalUsdt.Some? && r.totalUsdt.value != 0.0
  }

  /** `ORDER BY timestamp ASC`: readings in time order, equal times allowed. */
  predicate ReadingsNondecreasing(rs: seq<Reading>) {
    forall i, j :: 0 <= i < j < |rs| ==> rs[i].time <= rs[j].time
  }

  /** No later reading shares reading `i`'s time: a step of the walk that reaches this time ends on it. */
  predicate LastOfItsTime(rs: seq<Reading>, i: nat)
    requires i < |rs|
  {
    forall j :: i < j < |rs| ==> rs[j].time != rs[i].time
  }

  /**
   * The value shown at `t`, judged from the first `m` readings: the latest
   * reading at or before `t` that is the last one of its instant and is
   * non-zero, or 0 when there is none. A zero listed last at an instant hides
   * the readings listed before it at that instant.
   */
  function LatestSettled(rs: seq<Reading>, m: nat, t: int): real
    requires m <= |rs|
  {
    if m == 0 then 0.0
    else if rs[m - 1].time <= t && LastOfItsTime(rs, m - 1) && NonZero(rs[m - 1]) then rs[m - 1].totalUsdt.value
    else LatestSettled(rs, m - 1, t)
  }

  /** The value of the last non-zero reading at or before `t`, or 0 when there is none. */
  function LatestNonZero(rs: seq<Reading>, t: int): real {
    if rs == [] then 0.0
    else
      var r := rs[|rs| - 1];
      if r.time <= t && NonZero(r) then r.totalUsdt.value else LatestNonZero(rs[..|rs| - 1], t)
  }

  /** With no two readings at one instant, the value shown is simply the latest non-zero reading. */
  lemma {:induction false} SettledIsLatestNonZero(rs: seq<Reading>, m: nat, t: int)
    requires ReadingsAscending(rs) && m <= |rs|
    ensures LatestSettled(rs, m, t) == LatestNonZero(rs[..m], t)
  {
    if m > 0 {
      SettledIsLatestNonZero(rs, m - 1, t);
      assert rs[..m][m - 1] == rs[m - 1];
      assert rs[..m][..m - 1] == rs[..m - 1];
    }
  }

  /** Readings after `t` do not change the value shown at `t`. */
  lemma {:induction false} SettledIgnoresLater(rs: seq<Reading>, c: nat, m: nat, t: int)
    requires c <= m <= |rs|
    requires forall k :: c <= k < m ==> rs[k].time > t
    ensures LatestSettled(rs, m, t) == LatestSettled(rs, c, t)
  {
    if m > c {
      SettledIgnoresLater(rs, c, m - 1, t);
    }
  }

  /** Raising the time bound changes nothing when the readings counted already lie at or before the lower bound. */
  lemma {:induction false} SettledRaise(rs: seq<Reading>, m: nat, lo: int, hi: int)
    requires m <= |rs| && lo <= hi
    requires forall i :: 0 <= i < m ==> rs[i].time <= lo
    ensures LatestSettled(rs, m, lo) == LatestSettled(rs, m, hi)
  {
    if m > 0 {
      SettledRaise(rs, m - 1, lo, hi);
    }
  }

  /** Readings followed by one at the same instant do not count. */
  lemma {:induction false} SettledSkipsTied(rs: seq<Reading>, p: nat, m: nat, t: int)
    requires p <= m < |rs|
    requires forall i :: p <= i < m ==> rs[i].time == rs[m].time
    ensures LatestSettled(rs, m, t) == LatestSettled(rs, p, t)
  {
    if m > p {
      assert rs[m].time == rs[m - 1].time;
      assert !LastOfItsTime(rs, m - 1);
      SettledSkipsTied(rs, p, m - 1, t);
    }
  }

  /** A timeline time that lies after `ts[k-1]` and not after `ts[k]` is `ts[k]`. */
  lemma OnlyTimestamp(ts: seq<int>, k: nat, x: int)
    requires StrictlyIncreasing(ts) && k < |ts| && x in ts
    requires x <= ts[k] && (k == 0 || ts[k - 1] < x)
    ensures x == ts[k]
  {
    var i :| 0 <= i < |ts| && ts[i] == x;
  }

  /** After `k` timestamps the walk has passed exactly the readings at or before `ts[k-1]`. */
  lemma {:induction false} PosSplit(rs: seq<Reading>, ts: seq<int>, k: nat)
    requires StrictlyIncreasing(ts) && ReadingsNondecreasing(rs)
    requires 0 < k <= |ts|
    ensures forall i :: 0 <= i < Pos(rs, ts, k) ==> rs[i].time <= ts[k - 1]
    ensures forall i :: Pos(rs, ts, k) <= i < |rs| ==> rs[i].time > ts[k - 1]
  {
    var p, q := Pos(rs, ts, k - 1), Pos(rs, ts, k);
    var t := ts[k - 1];
    assert q == Advance(rs, p, t);
    AdvanceStops(rs, p, t);
    if k > 1 {
      PosSplit(rs, ts, k - 1);
      assert ts[k - 2] < t;
    }
    forall i | q < i < |rs|
      ensures rs[i].time > t
    {
      assert rs[q].time <= rs[i].time;
    }
  }

  /** Since every reading time is on the timeline, step `k` passes exactly the readings at `ts[k-1]`. */
  lemma StepPassesOneInstant(rs: seq<Reading>, ts: seq<int>, k: nat)
    requires StrictlyIncreasing(ts) && ReadingsNondecreasing(rs)
    requires forall i :: 0 <= i < |rs| ==> rs[i].time in ts
    requires 0 < k <= |ts|
    ensures forall i :: Pos(rs, ts, k - 1) <= i < Pos(rs, ts, k) ==> rs[i].time == ts[k - 1]
    ensures forall i :: 0 <= i < Pos(rs, ts, k - 1) ==> rs[i].time < ts[k - 1]
  {
    var p, q := Pos(rs, ts, k - 1), Pos(rs, ts, k);
    PosSplit(rs, ts, k);
    if k > 1 {
      PosSplit(rs, ts, k - 1);
      assert ts[k - 2] < ts[k - 1];
    }
    forall i | p <= i < q
      ensures rs[i].time == ts[k - 1]
    {
      OnlyTimestamp(ts, k - 1, rs[i].time);
    }
  }

  /**
   * The value carried after `k` timestamps is the value shown at `ts[k-1]`
   * judged from the readings the walk has passed.
   */
  lemma {:induction false} CarriedLatest(rs: seq<Reading>, ts: seq<int>, k: nat)
    requires StrictlyIncreasing(ts) && ReadingsNondecreasing(rs)
    requires forall i :: 0 <= i < |rs| ==> rs[i].time in ts
    requires 0 < k <= |ts|
    ensures Carried(rs, ts, k) == LatestSettled(rs, Pos(rs, ts, k), ts[k - 1])
    decreases k, 1
  {
    var p, q := Pos(rs, ts, k - 1), Pos(rs, ts, k);
    CarriedBefore(rs, ts, k);
    if q > p {
      StepSettles(rs, ts, k);
    }
  }

  /** The value carried into step `k` is the value shown at `ts[k-1]` judged from the readings passed before it. */
  lemma {:induction false} CarriedBefore(rs: seq<Reading>, ts: seq<int>, k: nat)
    requires StrictlyIncreasing(ts) && ReadingsNondecreasing(rs)
    requires forall i :: 0 <= i < |rs| ==> rs[i].time in ts
    requires 0 < k <= |ts|
    ensures Carried(rs, ts, k - 1) == LatestSettled(rs, Pos(rs, ts, k - 1), ts[k - 1])
    decreases k, 0
  {
    if k > 1 {
      var p := Pos(rs, ts, k - 1);
      CarriedLatest(rs, ts, k - 1);
      PosSplit(rs, ts, k - 1);
      assert ts[k - 2] < ts[k - 1];
      SettledRaise(rs, p, ts[k - 2], ts[k - 1]);
    }
  }

  /** When step `k` passes readings, the last of them settles the value shown at `ts[k-1]`. */
  lemma StepSettles(rs: seq<Reading>, ts: seq<int>, k: nat)
    requires StrictlyIncreasing(ts) && ReadingsNondecreasing(rs)
    requires forall i :: 0 <= i < |rs| ==> rs[i].time in ts
    requires 0 < k <= |ts| && Pos(rs, ts, k) > Pos(rs, ts, k - 1)
    ensures var p, q := Pos(rs, ts, k - 1), Pos(rs, ts, k);
      LatestSettled(rs, q, ts[k - 1]) == Carry(LatestSettled(rs, p, ts[k - 1]), rs[q - 1].totalUsdt)
  {
    var p, q := Pos(rs, ts, k - 1), Pos(rs, ts, k);
    var t := ts[k - 1];
    StepPassesOneInstant(rs, ts, k);
    PosSplit(rs, ts, k);
    assert rs[q - 1].time == t;
    assert LastOfItsTime(rs, q - 1);
    SettledSkipsTied(rs, p, q - 1, t);
  }


  /**
   * With each server's readings in time order (equal times allowed) and every
   * reading time on the timeline, the walk gives at each timestamp the latest
   * reading at or before it that ends its instant and is non-zero, 0 when
   * there is none.
   */
  lemma CarryForward(rs: seq<Reading>, ts: seq<int>, k: nat)
    requires StrictlyIncreasing(ts) && ReadingsNondecreasing(rs)
    requires forall i :: 0 <= i < |rs| ==> rs[i].time in ts
    requires k < |ts|
    ensures Carried(rs, ts, k + 1) == LatestSettled(rs, |rs|, ts[k])
  {
    CarriedLatest(rs, ts, k + 1);
    PosSplit(rs, ts, k + 1);
    SettledIgnoresLater(rs, Pos(rs, ts, k + 1), |rs|, ts[k]);
  }

  /** With no two readings at one instant, each timestamp shows the latest non-zero reading at or before it. */
  lemma CarryForwardDistinct(rs: seq<Reading>, ts: seq<int>, k: nat)
    requires StrictlyIncreasing(ts) && ReadingsAscending(rs)
    requires forall i :: 0 <= i < |rs| ==> rs[i].time in ts
    requires k < |ts|
    ensures Carried(rs, ts, k + 1) == LatestNonZero(rs, ts[k])
  {
    CarryForward(rs, ts, k);
    SettledIsLatestNonZero(rs, |rs|, ts[k]);
    assert rs[..|rs|] == rs;
  }

  /** Two readings at one instant, 5 then 0: the walk ends on the zero and shows 0, not the 5. */
  lemma TiedZeroHides()
    ensures Carried([Reading(0, Some(5.0)), Reading(0, Some(0.0))], [0], 1) == 0.0
    ensures LatestNonZero([Reading(0, Some(5.0)), Reading(0, Some(0.0))], 0) == 5.0
  {
    var rs := [Reading(0, Some(5.0)), Reading(0, Some(0.0))];
    assert Advance(rs, 2, 0) == 2;
    assert Advance(rs, 0, 0) == 2;
    assert rs[..1] == [Reading(0, Some(5.0))];
  }

  // ---------------------------------------------------------------------------
  // The consolidated history
  // ---------------------------------------------------------------------------

  function Sum(xs: seq<real>): real {
    if xs == [] then 0.0 else Sum(xs[..|xs| - 1]) + xs[|xs| - 1]
  }

  /** `filled` holds, for every server, its carried value at every timestamp. */
  predicate Columns(filled: seq<seq<real>>, servers: seq<seq<Reading>>, ts: seq<int>) {
    |filled| == |servers| &&
    forall s :: 0 <= s < |servers| ==>
      |filled[s]| == |ts| && forall k :: 0 <= k < |ts| ==> filled[s][k] == Carried(servers[s], ts, k + 1)
  }

  /** `history[k]` is timestamp `k` with every server's value and their sum. */
  predicate Rows(history: seq<Point>, filled: seq<seq<real>>, ts: seq<int>, n: nat)
    requires n <= |ts|
    requires forall s :: 0 <= s < |filled| ==> |filled[s]| == |ts|
  {
    |history| == n &&
    forall k :: 0 <= k < n ==>
      history[k].time == ts[k] && |history[k].servers| == |filled| &&
      history[k].total == Sum(history[k].servers) &&
      forall s :: 0 <= s < |filled| ==> history[k].servers[s] == filled[s][k]
  }

  /** Carries every server's readings onto the timeline. */
  method FillAll(servers: seq<seq<Reading>>, ts: seq<int>) returns (filled: seq<seq<real>>)
    ensures Columns(filled, servers, ts)
  {
    filled := [];
    for s := 0 to |servers|
      invariant Columns(filled, servers[..s], ts)
    {
      var column := FillServer(servers[s], ts);
      assert servers[..s + 1][..s] == servers[..s];
      filled := filled + [column];
    }
    assert servers[..|servers|] == servers;
  }

  /** Sums the servers' values at every timestamp. */
  method Totals(filled: seq<seq<real>>, ts: seq<int>) returns (history: seq<Point>)
    requires forall s :: 0 <= s < |filled| ==> |filled[s]| == |ts|
    ensures Rows(history, filled, ts, |ts|)
  {
    history := [];
    for k := 0 to |ts|
      invariant Rows(history, filled, ts, k)
    {
      var values := seq(|filled|, s requires 0 <= s < |filled| => filled[s][k]);
      history := history + [Point(ts[k], Sum(values), values)];
    }
  }

  /** `GET /consolidated/total-balance-history` on the servers' readings. */
  method ConsolidatedHistory(servers: seq<seq<Reading>>) returns (history: seq<Point>)
    ensures var ts := Timeline(Times(servers));
      |history| == |ts| &&
      forall k :: 0 <= k < |ts| ==>
        history[k].time == ts[k] && |history[k].servers| == |servers| &&
        history[k].total == Sum(history[k].servers) &&
        forall s :: 0 <= s < |servers| ==> history[k].servers[s] == Carried(servers[s], ts, k + 1)
  {
    var ts := Timeline(Times(servers));
    var filled := FillAll(servers, ts);
    history := Totals(filled, ts);
  }

  /**
   * With each server's readings in time order (equal times allowed), every
   * server's value in the history is the value shown at that timestamp: its
   * latest reading at or before it that ends its instant and is non-zero.
   */
  lemma HistoryIsLatestReadings(servers: seq<seq<Reading>>, s: nat, k: nat)
    requires s < |servers| && ReadingsNondecreasing(servers[s])
    requires k < |Timeline(Times(servers))|
    ensures Carried(servers[s], Timeline(Times(servers)), k + 1) == LatestSettled(servers[s], |servers[s]|, Timeline(Times(servers))[k])
  {
    var ts := Timeline(Times(servers));
    forall i | 0 <= i < |servers[s]|
      ensures servers[s][i].time in ts
    {
      TimesCover(servers, s, i);
    }
    CarryForward(servers[s], ts, k);
  }
}
