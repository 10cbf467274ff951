/**
 * The prediction service: resolving a model artifact path, the per-process
 * model cache keyed by path and invalidated by the artifact's modification
 * time, aligning request payloads with the model's feature order, the guards
 * of `/predict`, and the ranking of `/explain`.
 *
 * The file system is a map from canonical path to the artifact found there:
 * its modification time, the pipeline `joblib.load` would return and the
 * decoded `metadata.json` next to it, if any. `Path.resolve()` is a parameter
 * `resolve` taking any spelling of a path (relative parts, `..`, symbolic
 * links) to its canonical path; a spelling exists when its canonical path is
 * on disk, and the cache is keyed by canonical path. Fitted pipelines are opaque; their
 * `predict` and `predict_proba` are passed in.
 */
module ModelService {
  import opened Wrappers
  import opened JsonValue
  import opened Frames
  import Strings
  import Sorting

  /** A fitted pipeline: an identity, and whether its `model` step has `predict_proba`. */
  datatype Pipeline = Pipeline(id: nat, hasPredictProba: bool)

  /** The parts of `metadata.json` the service reads; `None` where a key is absent. */
  datatype Metadata = Metadata(
    featureOrder: Option<seq<string>>,
    importance: Option<seq<(string, real)>>,
    config: Option<Json>)

  /** The `{}` used when `metadata.json` does not exist. */
  const NoMetadata := Metadata(None, None, None)

  /** What lies on disk at a model path. */
  datatype Artifact = Artifact(mtime: real, pipeline: Pipeline, metadataFile: Option<Metadata>)

  /** A cache entry `{pipeline, metadata, mtime}`. */
  datatype Entry = Entry(pipeline: Pipeline, metadata: Metadata, mtime: real)

  datatype Failure = NotFound(path: string) | Http(status: nat)

  // ---------------------------------------------------------------------------
  // _resolve_model_path
  // ---------------------------------------------------------------------------

  predicate Absolute(path: string) {
    |path| > 0 && path[0] == '/'
  }

  /** `model_path or DEFAULT_MODEL_PATH`: a missing or empty override falls back to the default. */
  function Candidate(modelPath: Option<string>, defaultPath: string): (c: string)
    ensures modelPath.Some? && modelPath.value != [] ==> c == modelPath.value
    ensures modelPath.None? || modelPath == Some([]) ==> c == defaultPath
  {
    if modelPath.Some? && modelPath.value != [] then modelPath.value else defaultPath
  }

  /**
   * `_resolve_model_path`: a relative candidate is taken below the working
   * directory `cwd`; a path that does not exist is an error. The path is
   * returned as spelled; `present` is `Path.exists`.
   */
  function ResolveModelPath(modelPath: Option<string>, defaultPath: string, cwd: string, present: string -> bool): (r: Result<string, Failure>)
    ensures r.Ok? ==> present(r.value)
    ensures r.Err? ==> r.error.NotFound? && !present(r.error.path)
    ensures Absolute(Candidate(modelPath, defaultPath)) ==>
      (r.Ok? && r.value == Candidate(modelPath, defaultPath)) || (r.Err? && r.error.path == Candidate(modelPath, defaultPath))
    ensures !Absolute(Candidate(modelPath, defaultPath)) ==>
      (r.Ok? && r.value == cwd + ['/'] + Candidate(modelPath, defaultPath)) ||
      (r.Err? && r.error.path == cwd + ['/'] + Candidate(modelPath, defaultPath))
    ensures r.Ok? && Absolute(cwd) ==> Absolute(r.value)
  {
    var candidate := Candidate(modelPath, defaultPath);
    var path := if Absolute(candidate) then candidate else cwd + ['/'] + candidate;
    if present(path) then Ok(path) else Err(NotFound(path))
  }

  /** `Path.exists` on a file system keyed by canonical path. */
  function OnDisk(disk: map<string, Artifact>, resolve: string -> string): (present: string -> bool)
    ensures forall p :: present(p) <==> resolve(p) in disk
  {
    p => resolve(p) in disk
  }

  // ---------------------------------------------------------------------------
  // _load_model
  // ---------------------------------------------------------------------------

  /** The cached entry is current when its stored mtime equals the file's. */
  predicate Hit(entries: map<string, Entry>, key: string, artifact: Artifact) {
    key in entries && entries[key].mtime == artifact.mtime
  }

  /** The entry `_load_model` returns. */
  function CacheLookup(entries: map<string, Entry>, key: string, artifact: Artifact): (e: Entry)
    ensures e.mtime == artifact.mtime
    ensures Hit(entries, key, artifact) ==> e == entries[key]
    ensures !Hit(entries, key, artifact) ==> e.pipeline == artifact.pipeline
    ensures !Hit(entries, key, artifact) && artifact.metadataFile.None? ==> e.metadata == NoMetadata
    ensures !Hit(entries, key, artifact) && artifact.metadataFile.Some? ==> e.metadata == artifact.metadataFile.value
  {
    if Hit(entries, key, artifact) then entries[key]
    else Entry(artifact.pipeline, artifact.metadataFile.GetOr(NoMetadata), artifact.mtime)
  }

  /** The cache after `_load_model`. */
  function CacheAfter(entries: map<string, Entry>, key: string, artifact: Artifact): (r: map<string, Entry>)
    ensures key in r && r[key] == CacheLookup(entries, key, artifact)
    ensures Hit(entries, key, artifact) ==> r == entries
    ensures forall k :: k != key ==> (k in r <==> k in entries)
    ensures forall k :: k != key && k in r ==> r[k] == entries[k]
  {
    if Hit(entries, key, artifact) then entries else entries[key := CacheLookup(entries, key, artifact)]
  }

  /** Loading the same unchanged artifact again is a hit that returns the same entry and changes nothing. */
  lemma ReloadIsHit(entries: map<string, Entry>, key: string, artifact: Artifact, later: Artifact)
    requires later.mtime == artifact.mtime
    ensures Hit(CacheAfter(entries, key, artifact), key, later)
    ensures CacheLookup(CacheAfter(entries, key, artifact), key, later) == CacheLookup(entries, key, artifact)
    ensures CacheAfter(CacheAfter(entries, key, artifact), key, later) == CacheAfter(entries, key, artifact)
  {
  }

  /** Once the file's mtime changes, the next load returns the pipeline now on disk. */
  lemma ChangedFileReloads(entries: map<string, Entry>, key: string, artifact: Artifact, later: Artifact)
    requires later.mtime != artifact.mtime
    ensures CacheLookup(CacheAfter(entries, key, artifact), key, later).pipeline == later.pipeline
    ensures CacheAfter(CacheAfter(entries, key, artifact), key, later)[key].mtime == later.mtime
  {
  }

  /**
   * Two spellings of one file share its cache entry: after loading through
   * one, loading the unchanged file through the other is a hit that returns
   * the same entry.
   */
  lemma SpellingsShareEntry(entries: map<string, Entry>, disk: map<string, Artifact>,
                            resolve: string -> string, a: string, b: string)
    requires resolve(a) in disk && resolve(a) == resolve(b)
    ensures Hit(CacheAfter(entries, resolve(a), disk[resolve(a)]), resolve(b), disk[resolve(b)])
    ensures CacheLookup(CacheAfter(entries, resolve(a), disk[resolve(a)]), resolve(b), disk[resolve(b)]) ==
            CacheLookup(entries, resolve(a), disk[resolve(a)])
  {
    ReloadIsHit(entries, resolve(a), disk[resolve(a)], disk[resolve(b)]);
  }

  /** The process-wide `MODEL_CACHE`, used sequentially (its lock is not modelled). */
  class ModelCache {
    var entries: map<string, Entry>

    constructor()
      ensures entries == map[]
    {
      entries := map[];
    }

    /** `_load_model` on the canonical path `key`, whose file is `artifact`. */
    method Load(key: string, artifact: Artifact) returns (e: Entry)
      modifies this
      ensures e == CacheLookup(old(entries), key, artifact)
      ensures entries == CacheAfter(old(entries), key, artifact)
    {
      if key in entries && entries[key].mtime == artifact.mtime {
        return entries[key];
      }
      var metadata := if artifact.metadataFile.Some? then artifact.metadataFile.value else NoMetadata;
      e := Entry(artifact.pipeline, metadata, artifact.mtime);
      entries := entries[key := e];
    }

    /** The `/predict` endpoint. */
    method Predict(request: PredictRequest, defaultPath: string, cwd: string, disk: map<string, Artifact>,
                   resolve: string -> string,
                   predict: (Pipeline, Table) -> Option<seq<real>>,
                   predictProba: (Pipeline, Table) -> Option<seq<seq<real>>>)
      returns (r: Result<Response, Failure>)
      modifies this
      ensures var path := ResolveModelPath(request.modelPath, defaultPath, cwd, OnDisk(disk, resolve));
        if path.Err? then r == Err(path.error) && entries == old(entries)
        else
          entries == CacheAfter(old(entries), resolve(path.value), disk[resolve(path.value)]) &&
          r == Respond(CacheLookup(old(entries), resolve(path.value), disk[resolve(path.value)]), request, predict, predictProba)
    {
      var path := ResolveModelPath(request.modelPath, defaultPath, cwd, OnDisk(disk, resolve));
      if path.Err? {
        return Err(path.error);
      }
      var entry := Load(resolve(path.value), disk[resolve(path.value)]);
      var order := entry.metadata.featureOrder;
      if order.None? || order.value == [] {
        return Err(Http(500));
      }
      var frame := PrepareFrame(request.payloads, order.value);
      var predictions := predict(entry.pipeline, frame);
      if predictions.None? {
        return Err(Http(400));
      }
      var probabilities := Absent;
      if request.includeProbabilities && entry.pipeline.hasPredictProba {
        var probs := predictProba(entry.pipeline, frame);
        probabilities := if probs.Some? then Probabilities(probs.value) else ProbabilitiesError;
      }
      r := Ok(Response(predictions.value, probabilities, order.value, entry.metadata.config));
    }

    /** The `/explain` endpoint. */
    method Explain(request: ExplainRequest, defaultPath: string, cwd: string, disk: map<string, Artifact>,
                   resolve: string -> string)
      returns (r: Result<seq<(string, real)>, Failure>)
      modifies this
      ensures var path := ResolveModelPath(request.modelPath, defaultPath, cwd, OnDisk(disk, resolve));
        if path.Err? then r == Err(path.error) && entries == old(entries)
        else
          entries == CacheAfter(old(entries), resolve(path.value), disk[resolve(path.value)]) &&
          r == TopFeatures(CacheLookup(old(entries), resolve(path.value), disk[resolve(path.value)]).metadata.importance, request.topK)
    {
      var path := ResolveModelPath(request.modelPath, defaultPath, cwd, OnDisk(disk, resolve));
      if path.Err? {
        return Err(path.error);
      }
      var entry := Load(resolve(path.value), disk[resolve(path.value)]);
      r := TopFeatures(entry.metadata.importance, request.topK);
    }
  }

  // ---------------------------------------------------------------------------
  // _prepare_frame
  // ---------------------------------------------------------------------------

  /** Columns by position, rows as lists of cells. */
  datatype Table = Table(columns: seq<string>, rows: seq<seq<Cell>>)

  /** The columns `pd.DataFrame(payloads)` has: every key of any payload. */
  function PayloadKeys(payloads: seq<Row>): (keys: set<string>)
    ensures forall i, c :: 0 <= i < |payloads| && c in payloads[i] ==> c in keys
  {
    set i, c | 0 <= i < |payloads| && c in payloads[i] :: c
  }

  /** The payloads projected onto `order`: a key a payload lacks reads as a missing value. */
  function Aligned(payloads: seq<Row>, order: seq<string>): (t: Table)
    ensures t.columns == order
    ensures |t.rows| == |payloads|
    ensures forall i :: 0 <= i < |payloads| ==> |t.rows[i]| == |order|
    ensures forall i, j :: 0 <= i < |payloads| && 0 <= j < |order| ==> t.rows[i][j] == Get(payloads[i], order[j])
  {
    Table(order, seq(|payloads|, i requires 0 <= i < |payloads| => seq(|order|, j requires 0 <= j < |order| => Get(payloads[i], order[j]))))
  }

  /** `frame[order]` on a frame with columns `columns`: an absent column is a `KeyError`. */
  function Select(payloads: seq<Row>, columns: set<string>, order: seq<string>): (r: Result<Table, string>)
    ensures r.Ok? <==> forall c :: c in order ==> c in columns
    ensures r.Ok? ==> r.value == Aligned(payloads, order)
  {
    if forall c :: c in order ==> c in columns then Ok(Aligned(payloads, order))
    else Err("KeyError")
  }

  /** `_prepare_frame`: exactly the `order` columns, in that order, missing ones filled with `None`. */
  method PrepareFrame(payloads: seq<Row>, order: seq<string>) returns (t: Table)
    ensures t == Aligned(payloads, order)
  {
    var columns := PayloadKeys(payloads);
    for k := 0 to |order|
      invariant forall c :: c in order[..k] ==> c in columns
    {
      if order[k] !in columns {
        columns := columns + {order[k]};
      }
    }
    assert order[..|order|] == order;
    var selected := Select(payloads, columns, order);
    t := selected.value;
  }

  // ---------------------------------------------------------------------------
  // predict
  // ---------------------------------------------------------------------------

  datatype PredictRequest = PredictRequest(payloads: seq<Row>, modelPath: Option<string>, includeProbabilities: bool)

  /** The `probabilities` key: absent, the scores, or `probabilities_error` when `predict_proba` failed. */
  datatype ProbabilityOutcome = Absent | Probabilities(scores: seq<seq<real>>) | ProbabilitiesError

  datatype Response = Response(predictions: seq<real>, probabilities: ProbabilityOutcome, featureOrder: seq<string>, config: Option<Json>)

  /**
   * What `/predict` answers once the model is loaded: 500 without a feature
   * order, 400 when prediction fails, otherwise the predictions on the aligned
   * frame, with probabilities only when they are asked for and the model has them.
   */
  function Respond(entry: Entry, request: PredictRequest,
                   predict: (Pipeline, Table) -> Option<seq<real>>,
                   predictProba: (Pipeline, Table) -> Option<seq<seq<real>>>): (r: Result<Response, Failure>)
    ensures var order := entry.metadata.featureOrder;
      r == Err(Http(500)) <==> order.None? || order.value == []
    ensures var order := entry.metadata.featureOrder;
      r == Err(Http(400)) <==> order.Some? && order.value != [] && predict(entry.pipeline, Aligned(request.payloads, order.value)).None?
    ensures r.Err? ==> r.error.Http?
    ensures r.Ok? ==>
      var order := entry.metadata.featureOrder.value;
      var frame := Aligned(request.payloads, order);
      r.value.featureOrder == order &&
      Some(r.value.predictions) == predict(entry.pipeline, frame) &&
      r.value.config == entry.metadata.config &&
      (r.value.probabilities.Absent? <==> !request.includeProbabilities || !entry.pipeline.hasPredictProba) &&
      (r.value.probabilities.Probabilities? ==> Some(r.value.probabilities.scores) == predictProba(entry.pipeline, frame))
    ensures r.Ok? && request.includeProbabilities && entry.pipeline.hasPredictProba ==>
      var frame := Aligned(request.payloads, entry.metadata.featureOrder.value);
      (r.value.probabilities.ProbabilitiesError? <==> predictProba(entry.pipeline, frame).None?)
  {
    var order := entry.metadata.featureOrder;
    if order.None? || order.value == [] then Err(Http(500))
    else
      var frame := Aligned(request.payloads, order.value);
      var predictions := predict(entry.pipeline, frame);
      if predictions.None? then Err(Http(400))
      else
        var probabilities :=
          if request.includeProbabilities && entry.pipeline.hasPredictProba then
            var probs := predictProba(entry.pipeline, frame);
            if probs.Some? then Probabilities(probs.value) else ProbabilitiesError
          else Absent;
        Ok(Response(predictions.value, probabilities, order.value, entry.metadata.config))
  }

  // ---------------------------------------------------------------------------
  // explain
  // ---------------------------------------------------------------------------

  datatype ExplainRequest = ExplainRequest(modelPath: Option<string>, topK: int)

  function Abs(x: real): real {
    if x < 0.0 then -x else x
  }

  /** The importance pairs by decreasing magnitude; equal magnitudes keep their order. */
  function ByMagnitude(importance: seq<(string, real)>): (s: seq<(string, real)>)
    ensures multiset(s) == multiset(importance)
    ensures forall i, j :: 0 <= i < j < |s| ==> Abs(s[i].1) >= Abs(s[j].1)
  {
    var s := Sorting.SortBy(importance, (item: (string, real)) => -Abs(item.1));
    assert forall i, j :: 0 <= i < j < |s| ==> -Abs(s[i].1) <= -Abs(s[j].1);
    s
  }

  /** How many pairs `explain` returns: `top_k`, at least one, at most all. */
  function TopCount(available: nat, topK: int): (n: nat)
    ensures n <= available
    ensures available > 0 ==> n >= 1
    ensures topK >= 1 && topK <= available ==> n == topK
  {
    var k := if topK < 1 then 1 else topK;
    if k < available then k else available
  }

  /** `explain`: 404 without importance, otherwise the `max(1, top_k)` largest by magnitude. */
  function TopFeatures(importance: Option<seq<(string, real)>>, topK: int): (r: Result<seq<(string, real)>, Failure>)
    ensures r.Err? <==> importance.None? || importance.value == []
    ensures r.Err? ==> r.error == Http(404)
    ensures r.Ok? ==> |r.value| == TopCount(|importance.value|, topK) && |r.value| >= 1
    ensures r.Ok? ==> multiset(r.value) <= multiset(importance.value)
    ensures r.Ok? ==> forall i, j :: 0 <= i < j < |r.value| ==> Abs(r.value[i].1) >= Abs(r.value[j].1)
  {
    if importance.None? || importance.value == [] then Err(Http(404))
    else
      var sorted := ByMagnitude(importance.value);
      var n := TopCount(|importance.value|, topK);
      assert sorted == sorted[..n] + sorted[n..];
      Ok(sorted[..n])
  }

  /** No pair left out by `explain` outweighs a pair it returns. */
  lemma TopFeaturesAreLargest(importance: seq<(string, real)>, topK: int, x: (string, real))
    requires importance != []
    requires x in multiset(importance) - multiset(TopFeatures(Some(importance), topK).value)
    ensures forall i :: 0 <= i < |TopFeatures(Some(importance), topK).value| ==> Abs(x.1) <= Abs(TopFeatures(Some(importance), topK).value[i].1)
  {
    var sorted := ByMagnitude(importance);
    var n := TopCount(|importance|, topK);
    assert TopFeatures(Some(importance), topK).value == sorted[..n];
    PrefixOutweighsRest(sorted, n, x);
  }

  /** In a list ordered by decreasing magnitude, nothing outside a prefix outweighs the prefix. */
  lemma PrefixOutweighsRest(sorted: seq<(string, real)>, n: nat, x: (string, real))
    requires n <= |sorted|
    requires forall i, j :: 0 <= i < j < |sorted| ==> Abs(sorted[i].1) >= Abs(sorted[j].1)
    requires x in multiset(sorted) - multiset(sorted[..n])
    ensures forall i :: 0 <= i < n ==> Abs(x.1) <= Abs(sorted[i].1)
  {
    assert sorted == sorted[..n] + sorted[n..];
    assert multiset(sorted) == multiset(sorted[..n]) + multiset(sorted[n..]);
    assert x in multiset(sorted[n..]);
    assert x in sorted[n..];
    var j :| 0 <= j < |sorted[n..]| && sorted[n..][j] == x;
    assert sorted[n + j] == x;
  }
}
