/**
 * JSON values as the services decode them (`json.loads`, `JSON.parse`), and
 * JavaScript numbers.
 */
module JsonValue {
  import opened Wrappers
  import Strings

  /** A decoded JSON value; an object keeps its fields as the document lists them, repeated keys included. */
  datatype Json = JNull | JBool(b: bool) | JNum(n: real) | JStr(s: string) | JArr(items: seq<Json>) | JObj(fields: seq<(string, Json)>)

  /** A JavaScript number: finite, or one of `NaN`, `Infinity`, `-Infinity`. */
  datatype JsNum = Finite(x: real) | NonFinite

  /** `String(v)`: a string is itself; `render` stands for the other conversions. */
  function JsText(v: Json, render: Json -> string): string {
    if v.JStr? then v.s else render(v)
  }

  predicate Falsy(v: Json) {
    v == JNull || v == JBool(false) || v == JNum(0.0) || v == JStr("")
  }

  /** `fields[i]` is the last field named `key`. */
  predicate LastField(fields: seq<(string, Json)>, key: string, i: int) {
    0 <= i < |fields| && fields[i].0 == key && forall j :: i < j < |fields| ==> fields[j].0 != key
  }

  /** `v` is the value of the last field named `key`. */
  ghost predicate LastValue(fields: seq<(string, Json)>, key: string, v: Json) {
    exists i :: LastField(fields, key, i) && fields[i].1 == v
  }

  /** The value of an object's own property `key` (an object's last field of that name, as `JSON.parse` keeps it; `undefined` for other kinds of value). */
  function Prop(p: Json, key: string): (r: Option<Json>)
    ensures r.Some? ==> p.JObj? && LastValue(p.fields, key, r.value)
    ensures r.None? ==> !p.JObj? || forall i :: 0 <= i < |p.fields| ==> p.fields[i].0 != key
  {
    if p.JObj? then
      LookupIsLast(p.fields, key);
      Lookup(p.fields, key)
    else None
  }

  function Lookup(fields: seq<(string, Json)>, key: string): (r: Option<Json>)
    ensures r.Some? ==> exists i :: 0 <= i < |fields| && fields[i] == (key, r.value)
    ensures r.None? ==> forall i :: 0 <= i < |fields| ==> fields[i].0 != key
  {
    if fields == [] then None
    else if fields[|fields| - 1].0 == key then Some(fields[|fields| - 1].1)
    else
      Lookup(fields[..|fields| - 1], key)
  }

  /** The field `Lookup` finds is the last one of that name. */
  lemma {:induction false} LookupIsLast(fields: seq<(string, Json)>, key: string)
    ensures Lookup(fields, key).Some? ==> LastValue(fields, key, Lookup(fields, key).value)
  {
    if fields != [] && fields[|fields| - 1].0 == key {
      assert LastField(fields, key, |fields| - 1);
    } else if fields != [] {
      var n := |fields| - 1;
      LookupIsLast(fields[..n], key);
      if Lookup(fields, key).Some? {
        var i :| LastField(fields[..n], key, i) && fields[..n][i].1 == Lookup(fields, key).value;
        assert LastField(fields, key, i);
      }
    }
  }

  // ---------------------------------------------------------------------------
  // `Object.entries` and `Object.keys` order
  // ---------------------------------------------------------------------------

  predicate IsDigit(c: char) { '0' <= c <= '9' }

  /**
   * A key JavaScript treats as an array index: the canonical decimal form (no
   * sign, no leading zero) of an integer below 2^32 - 1.
   */
  predicate IsArrayIndex(key: string) {
    key != [] && (forall i :: 0 <= i < |key| ==> IsDigit(key[i])) && (key == "0" || key[0] != '0') &&
    (|key| < 10 || (|key| == 10 && Strings.Below(key, "4294967295")))
  }

  /** The numeric order of canonical decimal numerals: fewer digits first, then digit by digit. */
  predicate IndexBelow(a: string, b: string) {
    |a| < |b| || (|a| == |b| && Strings.Below(a, b))
  }

  lemma IndexBelowTransitive(a: string, b: string, c: string)
    requires IndexBelow(a, b) && IndexBelow(b, c)
    ensures IndexBelow(a, c)
  {
    if |a| == |b| == |c| {
      Strings.BelowTransitive(a, b, c);
    }
  }

  lemma IndexBelowTotal(a: string, b: string)
    requires a != b
    ensures IndexBelow(a, b) || IndexBelow(b, a)
  {
    if |a| == |b| {
      Strings.BelowTotal(a, b);
    }
  }

  lemma IndexBelowIrreflexive(a: string)
    ensures !IndexBelow(a, a)
  {
    Strings.BelowIrreflexive(a);
  }

  predicate HasKey(fields: seq<(string, Json)>, key: string) {
    exists i :: 0 <= i < |fields| && fields[i].0 == key
  }

  /** The document names `a` before it first names `b`. */
  predicate NamedBefore(fields: seq<(string, Json)>, a: string, b: string) {
    exists i :: 0 <= i < |fields| && fields[i].0 == a && forall j :: 0 <= j <= i ==> fields[j].0 != b
  }

  predicate UniqueKeys(es: seq<(string, Json)>) {
    forall i, j :: 0 <= i < j < |es| ==> es[i].0 != es[j].0
  }

  /** `d` with the entry named `key` given the value `v`. */
  function SetValue(d: seq<(string, Json)>, key: string, v: Json): (r: seq<(string, Json)>)
    ensures |r| == |d|
    ensures forall i :: 0 <= i < |d| ==> r[i].0 == d[i].0 && r[i].1 == (if d[i].0 == key then v else d[i].1)
  {
    seq(|d|, i requires 0 <= i < |d| => if d[i].0 == key then (key, v) else d[i])
  }

  /**
   * The properties `JSON.parse` creates for an object's fields: one per key,
   * at the key's first position, holding its last value.
   */
  function Dedup(fields: seq<(string, Json)>): (d: seq<(string, Json)>)
    ensures UniqueKeys(d)
    ensures forall key :: HasKey(d, key) <==> HasKey(fields, key)
    ensures forall i :: 0 <= i < |d| ==> Lookup(fields, d[i].0) == Some(d[i].1)
    ensures forall i, j :: 0 <= i < j < |d| ==> NamedBefore(fields, d[i].0, d[j].0)
  {
    if fields == [] then []
    else
      var n := |fields| - 1;
      var pre := Dedup(fields[..n]);
      var key := fields[n].0;
      NamedBeforeGrows(fields);
      if HasKey(pre, key) then
        var r := SetValue(pre, key, fields[n].1);
        assert forall k :: HasKey(r, k) <==> HasKey(pre, k) by {
          forall k ensures HasKey(r, k) <==> HasKey(pre, k) {
            if HasKey(r, k) {
              var i :| 0 <= i < |r| && r[i].0 == k;
              assert pre[i].0 == k;
            }
            if HasKey(pre, k) {
              var i :| 0 <= i < |pre| && pre[i].0 == k;
              assert r[i].0 == k;
            }
          }
        }
        assert forall k :: HasKey(fields, k) <==> HasKey(fields[..n], k) || k == key by {
          assert fields == fields[..n] + [fields[n]];
        }
        r
      else
        var r := pre + [fields[n]];
        assert forall k :: HasKey(fields, k) <==> HasKey(fields[..n], k) || k == key by {
          assert fields == fields[..n] + [fields[n]];
        }
        assert forall k :: HasKey(r, k) <==> HasKey(pre, k) || k == key by {
          forall k ensures HasKey(r, k) <==> HasKey(pre, k) || k == key {
            if HasKey(pre, k) {
              var i :| 0 <= i < |pre| && pre[i].0 == k;
              assert r[i].0 == k;
            }
            if k == key {
              assert r[|pre|].0 == k;
            }
          }
        }
        forall i | 0 <= i < |pre|
          ensures NamedBefore(fields, pre[i].0, key)
        {
          NamedBeforeNew(fields, pre[i].0);
        }
        r
  }

  /** Naming order within a prefix of the document holds in the whole document. */
  lemma NamedBeforeGrows(fields: seq<(string, Json)>)
    requires fields != []
    ensures forall a, b :: NamedBefore(fields[..|fields| - 1], a, b) ==> NamedBefore(fields, a, b)
  {
    var n := |fields| - 1;
    forall a, b | NamedBefore(fields[..n], a, b) ensures NamedBefore(fields, a, b) {
      var i :| 0 <= i < n && fields[..n][i].0 == a && forall j :: 0 <= j <= i ==> fields[..n][j].0 != b;
      assert fields[i].0 == a;
      assert forall j :: 0 <= j <= i ==> fields[j].0 != b by {
        forall j | 0 <= j <= i ensures fields[j].0 != b {
          assert fields[..n][j] == fields[j];
        }
      }
    }
  }

  /** A key named in a prefix comes before a key the document names only at its end. */
  lemma NamedBeforeNew(fields: seq<(string, Json)>, a: string)
    requires fields != []
    requires HasKey(fields[..|fields| - 1], a) && !HasKey(fields[..|fields| - 1], fields[|fields| - 1].0)
    ensures NamedBefore(fields, a, fields[|fields| - 1].0)
  {
    var n := |fields| - 1;
    var b := fields[n].0;
    var i :| 0 <= i < n && fields[..n][i].0 == a;
    assert fields[i].0 == a;
    forall j | 0 <= j <= i ensures fields[j].0 != b {
      assert fields[..n][j] == fields[j];
    }
  }

  predicate IndexAscending(es: seq<(string, Json)>) {
    forall i, j :: 0 <= i < j < |es| ==> IndexBelow(es[i].0, es[j].0)
  }

  /** Inserts `x` among entries in ascending key order. */
  function InsertIndexed(s: seq<(string, Json)>, x: (string, Json)): (r: seq<(string, Json)>)
    requires IndexAscending(s)
    requires forall y :: y in s ==> y.0 != x.0
    ensures IndexAscending(r)
    ensures forall y :: y in r <==> y in s || y == x
  {
    if s == [] then [x]
    else if IndexBelow(x.0, s[0].0) then
      assert forall j :: 0 <= j < |s| ==> IndexBelow(x.0, s[j].0) by {
        forall j | 0 <= j < |s| ensures IndexBelow(x.0, s[j].0) {
          if j > 0 { IndexBelowTransitive(x.0, s[0].0, s[j].0); }
        }
      }
      [x] + s
    else
      assert s[0] in s;
      IndexBelowTotal(x.0, s[0].0);
      var rest := InsertIndexed(s[1..], x);
      assert forall y :: y in rest ==> IndexBelow(s[0].0, y.0) by {
        forall y | y in rest ensures IndexBelow(s[0].0, y.0) {
          if y != x {
            var j :| 0 <= j < |s[1..]| && s[1..][j] == y;
            assert s[j + 1] == y;
          }
        }
      }
      [s[0]] + rest
  }

  /** The entries whose key is an array index, in ascending numeric order. */
  function IndexEntries(d: seq<(string, Json)>): (r: seq<(string, Json)>)
    requires UniqueKeys(d)
    ensures IndexAscending(r)
    ensures forall y :: y in r <==> y in d && IsArrayIndex(y.0)
  {
    if d == [] then []
    else
      var n := |d| - 1;
      var pre := IndexEntries(d[..n]);
      assert forall y :: y in d <==> y in d[..n] || y == d[n] by {
        assert d == d[..n] + [d[n]];
      }
      if IsArrayIndex(d[n].0) then
        assert forall y :: y in pre ==> y.0 != d[n].0 by {
          forall y | y in pre ensures y.0 != d[n].0 {
            var j :| 0 <= j < n && d[..n][j] == y;
          }
        }
        InsertIndexed(pre, d[n])
      else pre
  }

  /** The entries whose key is not an array index, in their order. */
  function OtherEntries(d: seq<(string, Json)>): (r: seq<(string, Json)>)
    ensures forall y :: y in r <==> y in d && !IsArrayIndex(y.0)
  {
    if d == [] then []
    else
      var n := |d| - 1;
      assert forall y :: y in d <==> y in d[..n] || y == d[n] by {
        assert d == d[..n] + [d[n]];
      }
      OtherEntries(d[..n]) + (if IsArrayIndex(d[n].0) then [] else [d[n]])
  }

  /** Filtering keeps distinct keys distinct and the document order of the keys kept. */
  lemma {:induction false} OtherEntriesOrdered(d: seq<(string, Json)>, fields: seq<(string, Json)>)
    requires UniqueKeys(d)
    requires forall i, j :: 0 <= i < j < |d| ==> NamedBefore(fields, d[i].0, d[j].0)
    ensures UniqueKeys(OtherEntries(d))
    ensures forall i, j :: 0 <= i < j < |OtherEntries(d)| ==> NamedBefore(fields, OtherEntries(d)[i].0, OtherEntries(d)[j].0)
  {
    if d != [] {
      var n := |d| - 1;
      OtherEntriesOrdered(d[..n], fields);
      var pre := OtherEntries(d[..n]);
      var r := OtherEntries(d);
      if !IsArrayIndex(d[n].0) {
        forall i | 0 <= i < |pre|
          ensures pre[i].0 != d[n].0 && NamedBefore(fields, pre[i].0, d[n].0)
        {
          assert pre[i] in pre;
          var j :| 0 <= j < n && d[..n][j] == pre[i];
          assert d[j] == pre[i];
        }
        assert r == pre + [d[n]];
      }
    }
  }

  /**
   * `Object.entries(p)`: an object's own properties with array-index keys
   * first, in ascending numeric order, then the other keys in the order the
   * document first names them, each key once with its last value; an array's
   * or a string's indexed elements.
   */
  function Entries(p: Json): (es: seq<(string, Json)>)
    ensures p.JObj? ==> UniqueKeys(es)
    ensures p.JObj? ==> forall key :: HasKey(es, key) <==> HasKey(p.fields, key)
    ensures p.JObj? ==> forall i :: 0 <= i < |es| ==> Prop(p, es[i].0) == Some(es[i].1)
    ensures p.JObj? ==> forall i, j :: 0 <= i < j < |es| && IsArrayIndex(es[j].0) ==>
      IsArrayIndex(es[i].0) && IndexBelow(es[i].0, es[j].0)
    ensures p.JObj? ==> forall i, j :: 0 <= i < j < |es| && !IsArrayIndex(es[i].0) ==>
      !IsArrayIndex(es[j].0) && NamedBefore(p.fields, es[i].0, es[j].0)
    ensures p.JArr? ==> |es| == |p.items|
    ensures p.JStr? ==> |es| == |p.s|
    ensures !p.JObj? && !p.JArr? && !p.JStr? ==> es == []
  {
    match p
    case JObj(fields) => ObjectEntries(fields)
    case JArr(items) => seq(|items|, i requires 0 <= i < |items| => (Strings.NatToString(i), items[i]))
    case JStr(s) => seq(|s|, i requires 0 <= i < |s| => (Strings.NatToString(i), JStr([s[i]])))
    case _ => []
  }

  function ObjectEntries(fields: seq<(string, Json)>): (es: seq<(string, Json)>)
    ensures UniqueKeys(es)
    ensures forall key :: HasKey(es, key) <==> HasKey(fields, key)
    ensures forall i :: 0 <= i < |es| ==> Lookup(fields, es[i].0) == Some(es[i].1)
    ensures forall i, j :: 0 <= i < j < |es| && IsArrayIndex(es[j].0) ==>
      IsArrayIndex(es[i].0) && IndexBelow(es[i].0, es[j].0)
    ensures forall i, j :: 0 <= i < j < |es| && !IsArrayIndex(es[i].0) ==>
      !IsArrayIndex(es[j].0) && NamedBefore(fields, es[i].0, es[j].0)
  {
    var d := Dedup(fields);
    var idx := IndexEntries(d);
    var other := OtherEntries(d);
    OtherEntriesOrdered(d, fields);
    JoinMembers(idx, other, d);
    JoinKeys(idx + other, d);
    JoinLookup(idx + other, d, fields);
    JoinUnique(idx, other);
    JoinIndexFirst(idx, other);
    JoinOthersOrdered(idx, other, fields);
    idx + other
  }

  lemma JoinMembers(idx: seq<(string, Json)>, other: seq<(string, Json)>, d: seq<(string, Json)>)
    requires forall y :: y in idx <==> y in d && IsArrayIndex(y.0)
    requires forall y :: y in other <==> y in d && !IsArrayIndex(y.0)
    ensures forall y :: y in idx + other <==> y in d
  {
  }

  lemma JoinKeys(es: seq<(string, Json)>, d: seq<(string, Json)>)
    requires forall y :: y in es <==> y in d
    ensures forall key :: HasKey(es, key) <==> HasKey(d, key)
  {
    forall key ensures HasKey(es, key) <==> HasKey(d, key) {
      if HasKey(es, key) {
        var i :| 0 <= i < |es| && es[i].0 == key;
        assert es[i] in d;
        var j :| 0 <= j < |d| && d[j] == es[i];
      }
      if HasKey(d, key) {
        var j :| 0 <= j < |d| && d[j].0 == key;
        assert d[j] in es;
        var i :| 0 <= i < |es| && es[i] == d[j];
      }
    }
  }

  lemma JoinLookup(es: seq<(string, Json)>, d: seq<(string, Json)>, fields: seq<(string, Json)>)
    requires forall y :: y in es ==> y in d
    requires forall i :: 0 <= i < |d| ==> Lookup(fields, d[i].0) == Some(d[i].1)
    ensures forall i :: 0 <= i < |es| ==> Lookup(fields, es[i].0) == Some(es[i].1)
  {
    forall i | 0 <= i < |es| ensures Lookup(fields, es[i].0) == Some(es[i].1) {
      assert es[i] in es;
      var j :| 0 <= j < |d| && d[j] == es[i];
    }
  }

  lemma JoinUnique(idx: seq<(string, Json)>, other: seq<(string, Json)>)
    requires IndexAscending(idx) && UniqueKeys(other)
    requires forall y :: y in idx ==> IsArrayIndex(y.0)
    requires forall y :: y in other ==> !IsArrayIndex(y.0)
    ensures UniqueKeys(idx + other)
  {
    var es := idx + other;
    forall i, j | 0 <= i < j < |es| ensures es[i].0 != es[j].0 {
      if j < |idx| {
        assert es[i] == idx[i] && es[j] == idx[j];
        IndexBelowIrreflexive(es[i].0);
      } else if i >= |idx| {
        assert es[i] == other[i - |idx|] && es[j] == other[j - |idx|];
      } else {
        assert es[i] == idx[i] && es[j] == other[j - |idx|];
        assert es[i] in idx && es[j] in other;
      }
    }
  }

  lemma JoinIndexFirst(idx: seq<(string, Json)>, other: seq<(string, Json)>)
    requires IndexAscending(idx)
    requires forall y :: y in idx ==> IsArrayIndex(y.0)
    requires forall y :: y in other ==> !IsArrayIndex(y.0)
    ensures var es := idx + other;
      forall i, j :: 0 <= i < j < |es| && IsArrayIndex(es[j].0) ==> IsArrayIndex(es[i].0) && IndexBelow(es[i].0, es[j].0)
  {
    var es := idx + other;
    forall i, j | 0 <= i < j < |es|
      ensures IsArrayIndex(es[j].0) ==> IsArrayIndex(es[i].0) && IndexBelow(es[i].0, es[j].0)
    {
      if j >= |idx| {
        assert es[j] in other;
      } else {
        assert es[i] == idx[i] && es[j] == idx[j];
        assert es[i] in idx;
      }
    }
  }

  lemma JoinOthersOrdered(idx: seq<(string, Json)>, other: seq<(string, Json)>, fields: seq<(string, Json)>)
    requires forall y :: y in idx ==> IsArrayIndex(y.0)
    requires forall y :: y in other ==> !IsArrayIndex(y.0)
    requires forall i, j :: 0 <= i < j < |other| ==> NamedBefore(fields, other[i].0, other[j].0)
    ensures var es := idx + other;
      forall i, j :: 0 <= i < j < |es| && !IsArrayIndex(es[i].0) ==> !IsArrayIndex(es[j].0) && NamedBefore(fields, es[i].0, es[j].0)
  {
    var es := idx + other;
    forall i, j | 0 <= i < j < |es|
      ensures !IsArrayIndex(es[i].0) ==> !IsArrayIndex(es[j].0) && NamedBefore(fields, es[i].0, es[j].0)
    {
      if i < |idx| {
        assert es[i] in idx;
      } else {
        assert es[i] == other[i - |idx|] && es[j] == other[j - |idx|];
        assert es[j] in other;
      }
    }
  }

  lemma ObjectEntriesJoin(fields: seq<(string, Json)>)
    ensures ObjectEntries(fields) == IndexEntries(Dedup(fields)) + OtherEntries(Dedup(fields))
  {
  }

  /** An integer-like key comes first whatever its place in the document. */
  lemma IndexKeyFirst()
    ensures Entries(JObj([("x", JStr("SELL")), ("1", JStr("BUY"))])) == [("1", JStr("BUY")), ("x", JStr("SELL"))]
  {
    var fields := [("x", JStr("SELL")), ("1", JStr("BUY"))];
    ObjectEntriesJoin(fields);
    IndexKeyFirstSteps(fields);
  }

  lemma IndexKeyFirstSteps(fields: seq<(string, Json)>)
    requires fields == [("x", JStr("SELL")), ("1", JStr("BUY"))]
    ensures Dedup(fields) == fields
    ensures IndexEntries(fields) == [("1", JStr("BUY"))]
    ensures OtherEntries(fields) == [("x", JStr("SELL"))]
  {
    assert fields[..1] == [("x", JStr("SELL"))];
    assert fields[..1][..0] == [];
    assert IsArrayIndex("1") && !IsArrayIndex("x");
    assert Dedup(fields[..1]) == [("x", JStr("SELL"))];
    assert !HasKey([("x", JStr("SELL"))], "1");
    assert IndexEntries(fields[..1]) == [];
    assert OtherEntries(fields[..1]) == [("x", JStr("SELL"))];
  }

  /** A repeated key is one entry holding the last value. */
  lemma RepeatedKeyOnce()
    ensures Entries(JObj([("token", JStr("A")), ("token", JStr("B"))])) == [("token", JStr("B"))]
  {
    var fields := [("token", JStr("A")), ("token", JStr("B"))];
    assert fields[..1] == [("token", JStr("A"))];
    assert fields[..1][..0] == [];
    assert !IsArrayIndex("token");
    assert Dedup(fields[..1]) == [("token", JStr("A"))];
    assert HasKey([("token", JStr("A"))], "token");
    var d := Dedup(fields);
    assert d == [("token", JStr("B"))];
    assert d[..0] == [];
  }

  /** `Number(v)` of an optional value: `undefined` is `NaN`. */
  function NumberOf(v: Option<Json>, number: Json -> JsNum): JsNum {
    if v.Some? then number(v.value) else NonFinite
  }
}
