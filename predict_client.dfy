/**
 * The prediction client of `scripts/predict-ml-service.js`: it posts a batch of
 * feature payloads to the prediction service and keeps the successful responses
 * in a module-wide cache of at most 50 entries, evicting the oldest one first.
 */
module PredictClient {
  import opened Wrappers
  import opened JsonValue

  /** Most responses the cache keeps. */
  const Capacity: nat := 50

  /** Path appended to the service's base URL. */
  const PredictPath: string := "/predict"

  /** The caller's options; an absent option is `None`. */
  datatype Options = Options(
    modelPath: Option<string>,
    includeProbabilities: Option<bool>,
    baseUrl: Option<string>,
    disableCache: bool)

  /** The request body posted to the service. */
  datatype Body = Body(payloads: seq<Json>, modelPath: Option<string>, includeProbabilities: bool)

  /** A cache key: the request body together with the endpoint it goes to. */
  datatype Key = Key(body: Body, endpoint: string)

  /** What the service answers: a decoded JSON body, or a failing status with its text. */
  datatype Response = Ok(data: Json) | NotOk(status: int, detail: string)

  /** What `predict` gives its caller: a response, or the error it throws. */
  datatype Outcome = InvalidPayloads | RequestFailed(status: int, detail: string) | Data(data: Json)

  /** The body for a batch; probabilities are asked for unless the caller says otherwise. */
  function RequestBody(payloads: seq<Json>, options: Options): (b: Body)
    ensures b.payloads == payloads && b.modelPath == options.modelPath
    ensures b.includeProbabilities <==> options.includeProbabilities != Some(false)
  {
    Body(payloads, options.modelPath, if options.includeProbabilities.Some? then options.includeProbabilities.value else true)
  }

  /** The endpoint: the caller's base URL unless it is absent or empty, then the default. */
  function Endpoint(options: Options, defaultBase: string): (e: string)
    ensures options.baseUrl.Some? && options.baseUrl.value != "" ==> e == options.baseUrl.value + PredictPath
    ensures options.baseUrl.None? || options.baseUrl.value == "" ==> e == defaultBase + PredictPath
    ensures |e| >= |PredictPath| && e[|e| - |PredictPath|..] == PredictPath
  {
    var base := if options.baseUrl.Some? && options.baseUrl.value != "" then options.baseUrl.value else defaultBase;
    base + PredictPath
  }

  /** The response cached under `key`, if any. */
  function Cached(entries: seq<(Key, Json)>, key: Key): (r: Option<Json>)
    ensures r.Some? <==> exists i :: 0 <= i < |entries| && entries[i].0 == key
    ensures r.Some? ==> exists i :: 0 <= i < |entries| && entries[i] == (key, r.value)
  {
    if entries == [] then None
    else if entries[0].0 == key then Some(entries[0].1)
    else Cached(entries[1..], key)
  }

  predicate DistinctKeys(entries: seq<(Key, Json)>) {
    forall i, j :: 0 <= i < j < |entries| ==> entries[i].0 != entries[j].0
  }

  /** The cache after storing `data` under a key it does not hold: appended, then the oldest dropped past the capacity. */
  function Stored(entries: seq<(Key, Json)>, key: Key, data: Json): seq<(Key, Json)> {
    var grown := entries + [(key, data)];
    if |grown| > Capacity then grown[1..] else grown
  }

  /** Storing keeps keys distinct and the cache within its capacity. */
  lemma StoredBounded(entries: seq<(Key, Json)>, key: Key, data: Json)
    requires DistinctKeys(entries) && |entries| <= Capacity
    requires Cached(entries, key).None?
    ensures DistinctKeys(Stored(entries, key, data)) && |Stored(entries, key, data)| <= Capacity
  {
    var grown := entries + [(key, data)];
    assert forall i :: 0 <= i < |entries| ==> grown[i] == entries[i];
    assert DistinctKeys(grown);
  }

  /** The response just stored is found under its key. */
  lemma StoredFound(entries: seq<(Key, Json)>, key: Key, data: Json)
    requires DistinctKeys(entries) && |entries| <= Capacity
    requires Cached(entries, key).None?
    ensures Cached(Stored(entries, key, data), key) == Some(data)
  {
    var s := Stored(entries, key, data);
    StoredBounded(entries, key, data);
    assert s[|s| - 1] == (key, data);
    CachedDistinct(s, |s| - 1);
  }

  /** In a cache with distinct keys, the entry at `i` is what its key finds. */
  lemma {:induction false} CachedDistinct(entries: seq<(Key, Json)>, i: nat)
    requires DistinctKeys(entries) && i < |entries|
    ensures Cached(entries, entries[i].0) == Some(entries[i].1)
  {
    if i > 0 {
      var tail := entries[1..];
      assert DistinctKeys(tail) by {
        assert forall a :: 0 <= a < |tail| ==> tail[a] == entries[a + 1];
      }
      assert tail[i - 1] == entries[i];
      CachedDistinct(tail, i - 1);
    }
  }

  /**
   * Storing into a full cache evicts exactly the oldest response: its key is no
   * longer found, and every other key still finds what it found before.
   */
  lemma StoredEvictsOldest(entries: seq<(Key, Json)>, key: Key, data: Json, other: Key)
    requires DistinctKeys(entries) && |entries| == Capacity
    requires Cached(entries, key).None?
    ensures Cached(Stored(entries, key, data), entries[0].0).None?
    ensures other != key && other != entries[0].0 ==> Cached(Stored(entries, key, data), other) == Cached(entries, other)
  {
    var s := Stored(entries, key, data);
    assert s == entries[1..] + [(key, data)];
    assert forall i :: 0 <= i < |s| ==> s[i].0 != entries[0].0 by {
      forall i | 0 <= i < |s|
        ensures s[i].0 != entries[0].0
      {
        if i < |s| - 1 {
          assert s[i] == entries[i + 1];
        } else {
          assert entries[0].0 != key;
        }
      }
    }
    if other != key && other != entries[0].0 {
      CachedAppend(entries[1..], key, data, other);
      assert Cached(entries, other) == Cached(entries[1..], other);
    }
  }

  /** Appending an entry does not change what another key finds. */
  lemma {:induction false} CachedAppend(entries: seq<(Key, Json)>, key: Key, data: Json, other: Key)
    requires other != key
    ensures Cached(entries + [(key, data)], other) == Cached(entries, other)
  {
    if entries != [] {
      assert (entries + [(key, data)])[1..] == entries[1..] + [(key, data)];
      CachedAppend(entries[1..], key, data, other);
    }
  }

  /** The module-wide response cache (a `Map`, whose keys iterate in insertion order). */
  class Client {
    /** The service's base URL when the caller gives none (read from the environment). */
    const defaultBase: string
    /** The cached responses, oldest first. */
    var entries: seq<(Key, Json)>

    ghost predicate Valid()
      reads this
    {
      DistinctKeys(entries) && |entries| <= Capacity
    }

    constructor(defaultBase: string)
      ensures this.defaultBase == defaultBase && entries == [] && Valid()
    {
      this.defaultBase := defaultBase;
      entries := [];
    }

    /** Stores a response under a key the cache does not hold. */
    method Store(key: Key, data: Json)
      requires Valid() && Cached(entries, key).None?
      modifies this
      ensures entries == Stored(old(entries), key, data) && Valid()
    {
      StoredBounded(entries, key, data);
      entries := entries + [(key, data)];
      if |entries| > Capacity {
        entries := entries[1..];
      }
    }

    /**
     * `predict`: rejects a missing or empty batch before anything else; with
     * caching on, answers a cached key without a request; otherwise asks
     * `service` and caches a successful answer. A failing answer is an error
     * and is never cached.
     */
    method Predict(payloads: Json, options: Options, service: (string, Body) -> Response) returns (r: Outcome)
      requires Valid()
      modifies this
      ensures Valid()
      ensures !payloads.JArr? || payloads.items == [] ==> r == InvalidPayloads && entries == old(entries)
      ensures payloads.JArr? && payloads.items != [] ==>
        var body := RequestBody(payloads.items, options);
        var endpoint := Endpoint(options, defaultBase);
        var key := Key(body, endpoint);
        if !options.disableCache && Cached(old(entries), key).Some? then
          r == Data(Cached(old(entries), key).value) && entries == old(entries)
        else
          match service(endpoint, body)
          case NotOk(status, detail) => r == RequestFailed(status, detail) && entries == old(entries)
          case Ok(data) =>
            r == Data(data) &&
            entries == (if options.disableCache then old(entries) else Stored(old(entries), key, data))
    {
      if !payloads.JArr? || payloads.items == [] {
        return InvalidPayloads;
      }
      var body := RequestBody(payloads.items, options);
      var endpoint := Endpoint(options, defaultBase);
      var key := Key(body, endpoint);
      if !options.disableCache {
        var hit := Cached(entries, key);
        if hit.Some? {
          return Data(hit.value);
        }
      }
      var response := service(endpoint, body);
      if response.NotOk? {
        return RequestFailed(response.status, response.detail);
      }
      if !options.disableCache {
        Store(key, response.data);
      }
      r := Data(response.data);
    }
  }
}
