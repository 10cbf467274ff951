/**
 * The dashboard's and the fetch worker's token helpers on a `curId` such as
 * `1_bnb_2`: split on `_`, drop the empty parts, and read the second part.
 * Both files carry identical copies of the two functions.
 */
module CurIds {
  import opened Wrappers
  import Strings

  /** The non-empty parts, in order (`.filter(Boolean)`). */
  function NonEmpty(parts: seq<string>): (r: seq<string>)
    ensures forall p :: p in r <==> p in parts && p != []
    ensures |r| <= |parts|
  {
    if parts == [] then []
    else
      assert forall p :: p in parts <==> p == parts[0] || p in parts[1..] by {
        assert parts == [parts[0]] + parts[1..];
      }
      (if parts[0] != [] then [parts[0]] else []) + NonEmpty(parts[1..])
  }

  /** `curId.split('_').filter(Boolean)` */
  function Parts(curId: string): (r: seq<string>)
    ensures forall p :: p in r ==> p != [] && '_' !in p
  {
    Strings.SplitPartsFree(curId, '_');
    NonEmpty(Strings.Split(curId, "_"))
  }

  /** `tokenSymbolFromCurId`: the second part, `null` for a non-string or fewer than two parts. */
  function TokenSymbolFromCurId(curId: Option<string>): (r: Option<string>)
    ensures r.Some? <==> curId.Some? && |Parts(curId.value)| >= 2
    ensures r.Some? ==> r.value != [] && '_' !in r.value && r.value == Parts(curId.value)[1]
  {
    if curId.None? then None
    else
      var parts := Parts(curId.value);
      if |parts| >= 2 then
        assert parts[1] in parts;
        Some(parts[1])
      else None
  }

  /**
   * `tokenNameFromCurId`: the symbol when there is one, else the only part,
   * else the id itself; `null` only for a non-string or the empty id.
   */
  function TokenNameFromCurId(curId: Option<string>): (r: Option<string>)
    ensures r.Some? <==> curId.Some? && curId.value != []
    ensures TokenSymbolFromCurId(curId).Some? ==> r == TokenSymbolFromCurId(curId)
    ensures curId.Some? && |Parts(curId.value)| == 1 ==> r == Some(Parts(curId.value)[0])
    ensures curId.Some? && Parts(curId.value) == [] ==> r == (if curId.value == [] then None else curId)
  {
    if curId.None? then None
    else
      var parts := Parts(curId.value);
      if |parts| >= 2 then Some(parts[1])
      else if |parts| == 1 then Some(parts[0])
      else if curId.value != [] then curId
      else None
  }

  lemma NonEmptyCons(p: string, rest: seq<string>)
    requires p != []
    ensures NonEmpty([p] + rest) == [p] + NonEmpty(rest)
  {
    assert ([p] + rest)[1..] == rest;
  }

  /** The part of an id after its first `_` and up to the next one is its symbol. */
  lemma {:induction false} SymbolOfCurId(head: string, token: string, rest: string)
    requires head != [] && '_' !in head
    requires token != [] && '_' !in token
    requires rest == [] || rest[0] == '_'
    ensures TokenSymbolFromCurId(Some(head + "_" + token + rest)) == Some(token)
    ensures TokenNameFromCurId(Some(head + "_" + token + rest)) == Some(token)
  {
    var id := head + "_" + token + rest;
    assert id == head + ['_'] + (token + rest);
    Strings.SplitAround(head, '_', token + rest);
    Strings.SplitAbsent(head, '_');
    var tail := Strings.Split(token + rest, "_");
    if rest == [] {
      assert token + rest == token;
      Strings.SplitAbsent(token, '_');
      assert tail == [token];
    } else {
      assert token + rest == token + "_" + rest[1..];
      Strings.SplitFirst(token, "_", rest[1..]);
    }
    assert tail[0] == token;
    assert tail == [tail[0]] + tail[1..];
    NonEmptyCons(head, tail);
    NonEmptyCons(token, tail[1..]);
    assert Parts(id) == [head] + ([token] + NonEmpty(tail[1..]));
  }

  /** `tokenNameFromCurId('1_bnb_2')` is `bnb`. */
  lemma TokenNameExample()
    ensures TokenNameFromCurId(Some("1_bnb_2")) == Some("bnb")
  {
    assert "1_bnb_2" == "1" + "_" + "bnb" + "_2";
    SymbolOfCurId("1", "bnb", "_2");
  }
}
