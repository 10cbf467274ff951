/**
 * Gapped walk-forward cross-validation folds (`_generate_time_splits`) and the
 * per-fold bookkeeping of `cross_validate`.
 *
 * A row's timestamp is an `int` number of whole seconds and `None` stands for a
 * missing time; the gap is `cv_gap_minutes` converted to seconds
 * (`ConfigSplits`).
 * Boundary `i` of `np.linspace(0, n - 1, k + 2, dtype=int)` is `(i * (n - 1)) / (k + 1)`.
 */
module Modeling {
  import opened Wrappers
  import opened Arith
  import opened Sorting
  import Config

  type Timestamps = seq<Option<int>>

  /** One fold: ascending row positions used for training and for validation. */
  datatype Fold = Fold(train: seq<nat>, validation: seq<nat>)

  predicate Ascending(s: seq<nat>) {
    forall i, j :: 0 <= i < j < |s| ==> s[i] < s[j]
  }

  /** Some row carries the time `t`. */
  predicate Occurs(ts: Timestamps, t: int) {
    exists j :: 0 <= j < |ts| && ts[j] == Some(t)
  }

  // ---------------------------------------------------------------------------
  // Sorted distinct timestamps: np.sort(ts.dropna().unique())
  // ---------------------------------------------------------------------------

  /** The distinct present timestamps in increasing order. */
  function UniqueTimes(ts: Timestamps): (u: seq<int>)
    ensures StrictlyIncreasing(u)
    ensures forall t :: t in u <==> Occurs(ts, t)
  {
    if ts == [] then []
    else
      var pre := ts[..|ts| - 1];
      var u0 := UniqueTimes(pre);
      assert forall t :: Occurs(ts, t) <==> Occurs(pre, t) || ts[|ts| - 1] == Some(t) by {
        forall t ensures Occurs(ts, t) <==> Occurs(pre, t) || ts[|ts| - 1] == Some(t) {
          if Occurs(ts, t) && ts[|ts| - 1] != Some(t) {
            var j :| 0 <= j < |ts| && ts[j] == Some(t);
            assert pre[j] == Some(t);
          }
          if Occurs(pre, t) {
            var j :| 0 <= j < |pre| && pre[j] == Some(t);
            assert ts[j] == Some(t);
          }
        }
      }
      match ts[|ts| - 1]
      case None => u0
      case Some(t) => InsertUnique(u0, t)
  }

  // ---------------------------------------------------------------------------
  // linspace boundaries
  // ---------------------------------------------------------------------------

  /** Boundary `i` of the `k + 2` evenly spaced integer positions in `[0, n - 1]`. */
  function Boundary(i: nat, n: nat, k: nat): (b: nat)
    requires n >= 1 && i <= k + 1
    ensures b <= n - 1
  {
    MulMono(i, k + 1, n - 1);
    DivMono(i * (n - 1), (k + 1) * (n - 1), k + 1);
    MulDiv(n - 1, k + 1);
    (i * (n - 1)) / (k + 1)
  }

  /** Boundaries run from 0 to n - 1 and, with more than `k + 1` distinct times, strictly increase. */
  lemma BoundariesSpread(n: nat, k: nat)
    requires n > k + 1
    ensures Boundary(0, n, k) == 0 && Boundary(k + 1, n, k) == n - 1
    ensures forall i :: 0 <= i <= k ==> Boundary(i, n, k) < Boundary(i + 1, n, k)
  {
    MulDiv(n - 1, k + 1);
    forall i | 0 <= i <= k ensures Boundary(i, n, k) < Boundary(i + 1, n, k) {
      var a := i * (n - 1);
      assert (i + 1) * (n - 1) == a + (n - 1);
      DivMono(a + (k + 1), a + (n - 1), k + 1);
      DivAddDivisor(a, k + 1);
    }
  }

  lemma {:induction false} BoundaryMono(n: nat, k: nat, i: nat, j: nat)
    requires n > k + 1 && i <= j <= k + 1
    ensures Boundary(i, n, k) <= Boundary(j, n, k)
    decreases j - i
  {
    if i < j {
      BoundariesSpread(n, k);
      BoundaryMono(n, k, i + 1, j);
    }
  }

  // ---------------------------------------------------------------------------
  // Row masks: np.where(mask)[0]
  // ---------------------------------------------------------------------------

  /** Positions of rows whose time is strictly below `cutoff` (`ts < train_cutoff`). */
  function IndicesBefore(ts: Timestamps, cutoff: int): (r: seq<nat>)
    ensures Ascending(r)
    ensures forall j :: j in r <==> 0 <= j < |ts| && ts[j].Some? && ts[j].value < cutoff
  {
    if ts == [] then []
    else
      var pre := IndicesBefore(ts[..|ts| - 1], cutoff);
      var last := ts[|ts| - 1];
      assert forall a :: 0 <= a < |pre| ==> pre[a] in pre && pre[a] < |ts| - 1;
      pre + (if last.Some? && last.value < cutoff then [|ts| - 1] else [])
  }

  /** Positions of rows whose time lies in `[lo, hi]` (`(ts >= val_start) & (ts <= val_end)`). */
  function IndicesBetween(ts: Timestamps, lo: int, hi: int): (r: seq<nat>)
    ensures Ascending(r)
    ensures forall j :: j in r <==> 0 <= j < |ts| && ts[j].Some? && lo <= ts[j].value <= hi
  {
    if ts == [] then []
    else
      var pre := IndicesBetween(ts[..|ts| - 1], lo, hi);
      var last := ts[|ts| - 1];
      assert forall a :: 0 <= a < |pre| ==> pre[a] < |ts| - 1 by {
        forall a | 0 <= a < |pre| ensures pre[a] < |ts| - 1 {
          assert pre[a] in pre;
        }
      }
      pre + (if last.Some? && lo <= last.value <= hi then [|ts| - 1] else [])
  }

  // ---------------------------------------------------------------------------
  // Folds
  // ---------------------------------------------------------------------------

  function ValStart(u: seq<int>, k: nat, idx: nat): int
    requires |u| > k + 1 && idx <= k
  {
    u[Boundary(idx + 1, |u|, k)]
  }

  function ValEnd(u: seq<int>, k: nat, idx: nat): int
    requires |u| > k + 1 && idx < k
  {
    u[Boundary(idx + 2, |u|, k)]
  }

  /** The fold for loop index `idx`, before the empty-side filter. */
  function CandidateFold(ts: Timestamps, u: seq<int>, k: nat, gap: int, idx: nat): Fold
    requires |u| > k + 1 && idx < k
  {
    Fold(IndicesBefore(ts, ValStart(u, k, idx) - gap),
         IndicesBetween(ts, ValStart(u, k, idx), ValEnd(u, k, idx)))
  }

  predicate Emitted(f: Fold) {
    f.train != [] && f.validation != []
  }

  /** The candidate folds, by loop index (indices past the loop give an empty fold). */
  function Candidates(ts: Timestamps, u: seq<int>, k: nat, gap: int): nat -> Fold
    requires |u| > k + 1
  {
    (idx: nat) => if idx < k then CandidateFold(ts, u, k, gap, idx) else Fold([], [])
  }

  /** The candidates kept among the first `m`: those with both sides non-empty. */
  function Kept(cand: nat -> Fold, m: nat): seq<Fold> {
    if m == 0 then [] else Kept(cand, m - 1) + (if Emitted(cand(m - 1)) then [cand(m - 1)] else [])
  }

  /** The indices of the kept candidates, in order. */
  function KeptIndices(cand: nat -> Fold, m: nat): (r: seq<nat>)
    ensures forall a :: 0 <= a < |r| ==> r[a] < m
    ensures Ascending(r)
  {
    if m == 0 then [] else KeptIndices(cand, m - 1) + (if Emitted(cand(m - 1)) then [m - 1] else [])
  }

  /** Kept folds are exactly the non-empty candidates, listed by their indices. */
  lemma {:induction false} KeptAligned(cand: nat -> Fold, m: nat)
    ensures |Kept(cand, m)| == |KeptIndices(cand, m)| <= m
    ensures forall a :: 0 <= a < |Kept(cand, m)| ==> Kept(cand, m)[a] == cand(KeptIndices(cand, m)[a]) && Emitted(Kept(cand, m)[a])
  {
    if m > 0 {
      KeptAligned(cand, m - 1);
    }
  }

  /** The folds kept from the first `m` loop iterations. */
  function FoldsUpTo(ts: Timestamps, u: seq<int>, k: nat, gap: int, m: nat): seq<Fold>
    requires |u| > k + 1 && m <= k
  {
    Kept(Candidates(ts, u, k, gap), m)
  }

  lemma FoldsUpToStep(ts: Timestamps, u: seq<int>, k: nat, gap: int, m: nat)
    requires |u| > k + 1 && m < k
    ensures var f := CandidateFold(ts, u, k, gap, m);
      FoldsUpTo(ts, u, k, gap, m + 1) == FoldsUpTo(ts, u, k, gap, m) + (if Emitted(f) then [f] else [])
  {
    assert Candidates(ts, u, k, gap)(m) == CandidateFold(ts, u, k, gap, m);
  }

  /** The loop indices whose folds were kept, in order. */
  function EmittedIndices(ts: Timestamps, u: seq<int>, k: nat, gap: int, m: nat): (r: seq<nat>)
    requires |u| > k + 1 && m <= k
    ensures forall a :: 0 <= a < |r| ==> r[a] < m
    ensures Ascending(r)
  {
    KeptIndices(Candidates(ts, u, k, gap), m)
  }

  /** What `_generate_time_splits` returns for these timestamps, `cv_splits = k` and the gap. */
  function TimeSplits(ts: Timestamps, k: nat, gap: int): seq<Fold> {
    var u := UniqueTimes(ts);
    if |u| <= k + 1 then [] else FoldsUpTo(ts, u, k, gap, k)
  }

  /** The fold loop of `_generate_time_splits`. */
  method GenerateTimeSplits(ts: Timestamps, k: nat, gap: int) returns (splits: seq<Fold>)
    ensures splits == TimeSplits(ts, k, gap)
  {
    var u := UniqueTimes(ts);
    if |u| <= k + 1 {
      return [];
    }
    splits := [];
    for idx := 0 to k
      invariant splits == FoldsUpTo(ts, u, k, gap, idx)
    {
      var f := CandidateFold(ts, u, k, gap, idx);
      FoldsUpToStep(ts, u, k, gap, idx);
      if Emitted(f) {
        splits := splits + [f];
      }
    }
  }

  // ---------------------------------------------------------------------------
  // Properties of the folds
  // ---------------------------------------------------------------------------

  /** No present timestamp, or at most `k + 1` distinct ones, gives no folds. */
  lemma FewTimesNoFolds(ts: Timestamps, k: nat, gap: int)
    requires (forall j :: 0 <= j < |ts| ==> ts[j].None?) || |UniqueTimes(ts)| <= k + 1
    ensures TimeSplits(ts, k, gap) == []
  {
    var u := UniqueTimes(ts);
    if forall j :: 0 <= j < |ts| ==> ts[j].None? {
      if |u| > 0 {
        assert Occurs(ts, u[0]);
      }
    }
  }

  /** Kept folds are exactly the non-empty candidates, in loop order. */
  lemma FoldsUpToIndices(ts: Timestamps, u: seq<int>, k: nat, gap: int, m: nat)
    requires |u| > k + 1 && m <= k
    ensures |FoldsUpTo(ts, u, k, gap, m)| == |EmittedIndices(ts, u, k, gap, m)| <= m
    ensures forall a :: 0 <= a < |FoldsUpTo(ts, u, k, gap, m)| ==>
      FoldsUpTo(ts, u, k, gap, m)[a] == CandidateFold(ts, u, k, gap, EmittedIndices(ts, u, k, gap, m)[a])
      && Emitted(FoldsUpTo(ts, u, k, gap, m)[a])
  {
    var cand := Candidates(ts, u, k, gap);
    KeptAligned(cand, m);
    forall a | 0 <= a < |Kept(cand, m)|
      ensures Kept(cand, m)[a] == CandidateFold(ts, u, k, gap, KeptIndices(cand, m)[a])
    {
      assert KeptIndices(cand, m)[a] < k;
    }
  }

  /** At most `k` folds, each with a non-empty training and validation side. */
  lemma SplitsCountAndNonEmpty(ts: Timestamps, k: nat, gap: int)
    ensures |TimeSplits(ts, k, gap)| <= k
    ensures forall f :: f in TimeSplits(ts, k, gap) ==> f.train != [] && f.validation != []
  {
    var u := UniqueTimes(ts);
    if |u| > k + 1 {
      FoldsUpToIndices(ts, u, k, gap, k);
    }
  }

  /** Validation rows of candidate `idx` lie in `[ValStart, ValEnd]`; training rows end more than `gap` before it. */
  lemma CandidateWindow(ts: Timestamps, u: seq<int>, k: nat, gap: int, idx: nat)
    requires |u| > k + 1 && idx < k && StrictlyIncreasing(u)
    ensures ValStart(u, k, idx) < ValEnd(u, k, idx)
    ensures idx + 1 < k ==> ValEnd(u, k, idx) == ValStart(u, k, idx + 1)
    ensures forall j :: j in CandidateFold(ts, u, k, gap, idx).validation ==>
      ValStart(u, k, idx) <= ts[j].value <= ValEnd(u, k, idx)
    ensures forall j :: j in CandidateFold(ts, u, k, gap, idx).train ==>
      ts[j].value + gap < ValStart(u, k, idx)
  {
    BoundariesSpread(|u|, k);
  }

  /** Every training time precedes every validation time of the same fold by more than the gap. */
  lemma SplitsGapped(ts: Timestamps, k: nat, gap: int)
    ensures forall f, a, b :: f in TimeSplits(ts, k, gap) && a in f.train && b in f.validation ==>
      a < |ts| && b < |ts| && ts[a].Some? && ts[b].Some? && ts[a].value + gap < ts[b].value
  {
    var u := UniqueTimes(ts);
    if |u| > k + 1 {
      var folds := TimeSplits(ts, k, gap);
      var ix := EmittedIndices(ts, u, k, gap, k);
      FoldsUpToIndices(ts, u, k, gap, k);
      forall f, a, b | f in folds && a in f.train && b in f.validation
        ensures a < |ts| && b < |ts| && ts[a].Some? && ts[b].Some? && ts[a].value + gap < ts[b].value
      {
        var p :| 0 <= p < |folds| && folds[p] == f;
        CandidateWindow(ts, u, k, gap, ix[p]);
      }
    }
  }

  /** `_generate_time_splits(timestamps, config)`: `cv_splits` folds, `pd.Timedelta(minutes=cv_gap_minutes)` apart. */
  function ConfigSplits(ts: Timestamps, c: Config.TrainingConfig): seq<Fold> {
    TimeSplits(ts, c.cvSplits, Config.MinutesToSeconds(c.cvGapMinutes))
  }

  /** Under a configuration, training times precede validation times by more than `cv_gap_minutes` minutes. */
  lemma ConfigSplitsGapped(ts: Timestamps, c: Config.TrainingConfig)
    ensures forall f, a, b :: f in ConfigSplits(ts, c) && a in f.train && b in f.validation ==>
      a < |ts| && b < |ts| && ts[a].Some? && ts[b].Some? && ts[a].value + 60 * c.cvGapMinutes < ts[b].value
  {
    var gap := Config.MinutesToSeconds(c.cvGapMinutes);
    assert gap == 60 * c.cvGapMinutes;
    assert ConfigSplits(ts, c) == TimeSplits(ts, c.cvSplits, gap);
    SplitsGapped(ts, c.cvSplits, gap);
  }

  /** With a non-negative gap no row is on both sides, and a row without a time is on neither. */
  lemma SplitsDisjoint(ts: Timestamps, k: nat, gap: int)
    ensures forall f, j :: f in TimeSplits(ts, k, gap) && (j in f.train || j in f.validation) ==>
      0 <= j < |ts| && ts[j].Some?
    ensures gap >= 0 ==> forall f, j :: f in TimeSplits(ts, k, gap) && j in f.train ==> j !in f.validation
  {
    var u := UniqueTimes(ts);
    var folds := TimeSplits(ts, k, gap);
    if |u| > k + 1 {
      assert folds == FoldsUpTo(ts, u, k, gap, k);
      var ix := EmittedIndices(ts, u, k, gap, k);
      FoldsUpToIndices(ts, u, k, gap, k);
      forall f | f in folds
        ensures forall j :: j in f.train || j in f.validation ==> 0 <= j < |ts| && ts[j].Some?
        ensures gap >= 0 ==> forall j :: j in f.train ==> j !in f.validation
      {
        var p :| 0 <= p < |folds| && folds[p] == f;
        CandidateDisjoint(ts, u, k, gap, ix[p]);
      }
    } else {
      assert folds == [];
    }
  }

  /** One candidate fold holds only rows with a time, and with a non-negative gap its sides are disjoint. */
  lemma CandidateDisjoint(ts: Timestamps, u: seq<int>, k: nat, gap: int, idx: nat)
    requires |u| > k + 1 && idx < k
    ensures var f := CandidateFold(ts, u, k, gap, idx);
      forall j :: j in f.train || j in f.validation ==> 0 <= j < |ts| && ts[j].Some?
    ensures var f := CandidateFold(ts, u, k, gap, idx);
      gap >= 0 ==> forall j :: j in f.train ==> j !in f.validation
  {
  }

  /** Later loop indices have later validation windows. */
  lemma CandidateOrder(u: seq<int>, k: nat, ip: nat, iq: nat)
    requires |u| > k + 1 && ip < iq < k && StrictlyIncreasing(u)
    ensures ValStart(u, k, ip) < ValStart(u, k, iq)
    ensures ValEnd(u, k, ip) <= ValStart(u, k, iq)
  {
    var n := |u|;
    BoundariesSpread(n, k);
    BoundaryMono(n, k, ip + 2, iq + 1);
    var bp, cp, bq := Boundary(ip + 2, n, k), Boundary(ip + 1, n, k), Boundary(iq + 1, n, k);
    assert cp < bp <= bq;
    if bp < bq {
      assert u[bp] < u[bq];
    }
  }

  lemma CandidateWalkForward(ts: Timestamps, u: seq<int>, k: nat, gap: int, ip: nat, iq: nat)
    requires |u| > k + 1 && ip < iq < k && StrictlyIncreasing(u)
    ensures forall a, b :: a in CandidateFold(ts, u, k, gap, ip).validation && b in CandidateFold(ts, u, k, gap, iq).validation ==>
      ts[a].value <= ts[b].value
    ensures forall j :: j in CandidateFold(ts, u, k, gap, ip).train ==> j in CandidateFold(ts, u, k, gap, iq).train
  {
    CandidateWindow(ts, u, k, gap, ip);
    CandidateWindow(ts, u, k, gap, iq);
    CandidateOrder(u, k, ip, iq);
  }

  /**
   * Walk-forward order: for two folds `p < q`, every validation time of `p` is at most
   * every validation time of `q`, and the training rows of `p` are training rows of `q`.
   */
  lemma SplitsWalkForward(ts: Timestamps, k: nat, gap: int, p: nat, q: nat)
    requires p < q < |TimeSplits(ts, k, gap)|
    ensures forall a, b :: a in TimeSplits(ts, k, gap)[p].validation && b in TimeSplits(ts, k, gap)[q].validation ==>
      a < |ts| && b < |ts| && ts[a].Some? && ts[b].Some? && ts[a].value <= ts[b].value
    ensures forall j :: j in TimeSplits(ts, k, gap)[p].train ==> j in TimeSplits(ts, k, gap)[q].train
  {
    var u := UniqueTimes(ts);
    assert |u| > k + 1;
    var folds := FoldsUpTo(ts, u, k, gap, k);
    assert folds == TimeSplits(ts, k, gap);
    var ix := EmittedIndices(ts, u, k, gap, k);
    FoldsUpToIndices(ts, u, k, gap, k);
    assert folds[p] == CandidateFold(ts, u, k, gap, ix[p]);
    assert folds[q] == CandidateFold(ts, u, k, gap, ix[q]);
    CandidateWalkForward(ts, u, k, gap, ix[p], ix[q]);
  }

  // ---------------------------------------------------------------------------
  // cross_validate bookkeeping
  // ---------------------------------------------------------------------------

  /** A fold's metrics record: the fold number and the (opaque) metric value. */
  datatype FoldMetrics = FoldMetrics(fold: nat, score: real)

  /**
   * `cross_validate` with fitting and scoring abstracted into `score`: no folds gives no
   * records, otherwise one record per fold numbered 1, 2, ... in fold order.
   */
  method CrossValidate(ts: Timestamps, k: nat, gap: int, score: Fold -> real) returns (metrics: seq<FoldMetrics>)
    ensures |metrics| == |TimeSplits(ts, k, gap)|
    ensures forall i :: 0 <= i < |metrics| ==>
      metrics[i].fold == i + 1 && metrics[i].score == score(TimeSplits(ts, k, gap)[i])
  {
    var splits := GenerateTimeSplits(ts, k, gap);
    metrics := ScoreFolds(splits, score);
  }

  /** The fold loop of `cross_validate`: one record per fold, numbered from 1. */
  method ScoreFolds(splits: seq<Fold>, score: Fold -> real) returns (metrics: seq<FoldMetrics>)
    ensures |metrics| == |splits|
    ensures forall i :: 0 <= i < |metrics| ==> metrics[i].fold == i + 1 && metrics[i].score == score(splits[i])
  {
    metrics := [];
    if splits == [] {
      return;
    }
    var i := 0;
    while i < |splits|
      invariant 0 <= i <= |splits|
      invariant |metrics| == i
      invariant forall j :: 0 <= j < i ==> metrics[j].fold == j + 1 && metrics[j].score == score(splits[j])
    {
      metrics := metrics + [FoldMetrics(i + 1, score(splits[i]))];
      i := i + 1;
    }
  }
}
