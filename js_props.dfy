/**
 * `normalizePropsRaw`: the canonical reading of a trade's `props`, which the
 * exchange servers encode either with direct keys (`Diff`, `DexSlip`,
 * `CexSlip`, `Dex`, `Exec`) or heuristically (an execution-mode key, a key
 * whose value is `BUY`/`SELL`, and a numeric key/value pair).
 *
 * The dashboard and the fetch worker carry two copies; the worker's copy has no
 * token/`LHdelta` pass and compares `BUY`/`SELL` strictly. `JSON.parse`,
 * `Number(...)` and `String(...)` of a non-string value are passed in.
 */
module PropsNormalizer {
  import opened Wrappers
  import opened JsonValue
  import Strings

  /** The `props` column as read: `null`, a JSON string, or an already decoded value. */
  datatype RawProps = Absent | Text(text: string) | Value(v: Json)

  /** Which copy: the dashboard's (`app.js`) or the fetch worker's. */
  datatype Variant = App | Worker

  /** The normalised object; `None` where the key is not set. */
  datatype Props = Props(
    token: Option<string>,
    lhDelta: Option<real>,
    diff: Option<JsNum>,
    dexSlip: Option<JsNum>,
    cexSlip: Option<JsNum>,
    dex: Option<string>,
    exec: Option<string>)

  /** `{}` */
  const NoProps := Props(None, None, None, None, None, None, None)

  const ExecKeys: seq<string> := ["Market", "Limit", "PostOnly", "IOC", "FOK"]
  const TokenKeys: set<string> := {"token", "pair", "asset"}
  const LhKeys: set<string> := {"lhdelta", "lhd", "lh"}

  /**
   * The value `p` the function works on: the decoded text, or the value itself
   * with a falsy one replaced by `{}`; `None` when `JSON.parse` throws.
   */
  function Subject(raw: RawProps, decode: string -> Option<Json>): (p: Option<Json>)
    ensures raw.Absent? ==> p == Some(JObj([]))
    ensures raw.Text? ==> p == decode(raw.text)
    ensures raw.Value? && !Falsy(raw.v) ==> p == Some(raw.v)
  {
    match raw
    case Absent => Some(JObj([]))
    case Text(s) => decode(s)
    case Value(v) => if Falsy(v) then Some(JObj([])) else Some(v)
  }

  /** `p.key != null`: present and not `null`. */
  predicate Has(p: Json, key: string) {
    Prop(p, key).Some? && Prop(p, key).value != JNull
  }

  /** The direct-key encoding is recognised by any one of its five keys. */
  predicate Direct(p: Json) {
    Has(p, "Diff") || Has(p, "DexSlip") || Has(p, "CexSlip") || Has(p, "Dex") || Has(p, "Exec")
  }

  // ---------------------------------------------------------------------------
  // The token / LHdelta pass of the dashboard's copy
  // ---------------------------------------------------------------------------

  predicate TokenKey(key: string) {
    Strings.Lower(key) in TokenKeys
  }

  /** `value != null && value !== ''` */
  predicate Usable(v: Json) {
    v != JNull && v != JStr("")
  }

  /** `!out.Token` */
  predicate Unset(token: Option<string>) {
    token.None? || token == Some("")
  }

  /** The token after the pass over the first `k` fields. */
  function TokenAfter(fields: seq<(string, Json)>, k: nat, render: Json -> string): (r: Option<string>)
    requires k <= |fields|
    ensures r.Some? ==> exists j :: 0 <= j < k && TokenKey(fields[j].0) && Usable(fields[j].1) && r.value == JsText(fields[j].1, render)
    ensures r.None? <==> forall j :: 0 <= j < k ==> !(TokenKey(fields[j].0) && Usable(fields[j].1))
  {
    if k == 0 then None
    else
      var t := TokenAfter(fields, k - 1, render);
      var (key, v) := fields[k - 1];
      if Unset(t) && TokenKey(key) && Usable(v) then Some(JsText(v, render)) else t
  }

  predicate LhKey(key: string) {
    Strings.Lower(key) in LhKeys
  }

  /** Field `j` holds a finite `LHdelta` reading. */
  predicate LhReading(fields: seq<(string, Json)>, j: nat, number: Json -> JsNum)
    requires j < |fields|
  {
    LhKey(fields[j].0) && number(fields[j].1).Finite?
  }

  /** Field `j` holds the last finite `LHdelta` reading among the first `k` fields. */
  predicate LastLhReading(fields: seq<(string, Json)>, k: nat, j: nat, number: Json -> JsNum)
    requires j < k <= |fields|
  {
    LhReading(fields, j, number) && forall i :: j < i < k ==> !LhReading(fields, i, number)
  }

  /** `LHdelta` after the pass over the first `k` fields: the last finite reading wins. */
  function LhAfter(fields: seq<(string, Json)>, k: nat, number: Json -> JsNum): (r: Option<real>)
    requires k <= |fields|
    ensures r.Some? <==> exists j :: 0 <= j < k && LhReading(fields, j, number)
    ensures r.Some? ==> exists j :: 0 <= j < k && LastLhReading(fields, k, j, number) && number(fields[j].1) == Finite(r.value)
  {
    if k == 0 then None
    else if LhReading(fields, k - 1, number) then
      assert LastLhReading(fields, k, k - 1, number);
      Some(number(fields[k - 1].1).x)
    else
      LastLhExtends(fields, k, number);
      LhAfter(fields, k - 1, number)
  }

  /** A field that is no reading keeps the last reading before it the last one. */
  lemma LastLhExtends(fields: seq<(string, Json)>, k: nat, number: Json -> JsNum)
    requires 0 < k <= |fields| && !LhReading(fields, k - 1, number)
    ensures forall j :: 0 <= j < k - 1 && LastLhReading(fields, k - 1, j, number) ==> LastLhReading(fields, k, j, number)
  {
  }

  method TokenPass(fields: seq<(string, Json)>, number: Json -> JsNum, render: Json -> string)
    returns (token: Option<string>, lhDelta: Option<real>)
    ensures token == TokenAfter(fields, |fields|, render)
    ensures lhDelta == LhAfter(fields, |fields|, number)
  {
    token, lhDelta := None, None;
    for k := 0 to |fields|
      invariant token == TokenAfter(fields, k, render)
      invariant lhDelta == LhAfter(fields, k, number)
    {
      var (key, v) := fields[k];
      if Unset(token) && TokenKey(key) && Usable(v) {
        token := Some(JsText(v, render));
      }
      if LhReading(fields, k, number) {
        lhDelta := Some(number(v).x);
      }
    }
  }

  // ---------------------------------------------------------------------------
  // The heuristic encoding
  // ---------------------------------------------------------------------------

  /** The first execution-mode key `p` has as its own property, `null` valued or not. */
  function FirstExecKey(p: Json): (r: Option<nat>)
    ensures r.Some? ==> (r.value < |ExecKeys| && Prop(p, ExecKeys[r.value]).Some? &&
      forall j :: 0 <= j < r.value ==> Prop(p, ExecKeys[j]).None?)
    ensures r.None? ==> forall j :: 0 <= j < |ExecKeys| ==> Prop(p, ExecKeys[j]).None?
  {
    FirstExecKeyFrom(p, 0)
  }

  function FirstExecKeyFrom(p: Json, i: nat): (r: Option<nat>)
    requires i <= |ExecKeys|
    requires forall j :: 0 <= j < i ==> Prop(p, ExecKeys[j]).None?
    ensures r.Some? ==> (i <= r.value < |ExecKeys| && Prop(p, ExecKeys[r.value]).Some? &&
      forall j :: 0 <= j < r.value ==> Prop(p, ExecKeys[j]).None?)
    ensures r.None? ==> forall j :: 0 <= j < |ExecKeys| ==> Prop(p, ExecKeys[j]).None?
    decreases |ExecKeys| - i
  {
    if i == |ExecKeys| then None
    else if Prop(p, ExecKeys[i]).Some? then Some(i)
    else FirstExecKeyFrom(p, i + 1)
  }

  /** The dashboard compares `String(v)`; the worker compares `v` itself. */
  predicate Side(v: Json, variant: Variant, render: Json -> string) {
    match variant
    case App => JsText(v, render) == "SELL" || JsText(v, render) == "BUY"
    case Worker => v == JStr("BUY") || v == JStr("SELL")
  }

  /** A search for the first index of `entries` from `i` on whose entry satisfies a test. */
  function FirstSide(entries: seq<(string, Json)>, variant: Variant, render: Json -> string, i: nat): (r: Option<nat>)
    requires i <= |entries|
    ensures r.Some? ==> (i <= r.value < |entries| && Side(entries[r.value].1, variant, render) &&
      forall j :: i <= j < r.value ==> !Side(entries[j].1, variant, render))
    ensures r.None? ==> forall j :: i <= j < |entries| ==> !Side(entries[j].1, variant, render)
    decreases |entries| - i
  {
    if i == |entries| then None
    else if Side(entries[i].1, variant, render) then Some(i)
    else FirstSide(entries, variant, render, i + 1)
  }

  /** `Number(k)` and `Number(v)` both finite. */
  predicate NumericPair(entry: (string, Json), number: Json -> JsNum) {
    number(JStr(entry.0)).Finite? && number(entry.1).Finite?
  }

  function FirstNumericPair(entries: seq<(string, Json)>, number: Json -> JsNum, i: nat): (r: Option<nat>)
    requires i <= |entries|
    ensures r.Some? ==> (i <= r.value < |entries| && NumericPair(entries[r.value], number) &&
      forall j :: i <= j < r.value ==> !NumericPair(entries[j], number))
    ensures r.None? ==> forall j :: i <= j < |entries| ==> !NumericPair(entries[j], number)
    decreases |entries| - i
  {
    if i == |entries| then None
    else if NumericPair(entries[i], number) then Some(i)
    else FirstNumericPair(entries, number, i + 1)
  }

  method FindSide(entries: seq<(string, Json)>, variant: Variant, render: Json -> string) returns (r: Option<nat>)
    ensures r == FirstSide(entries, variant, render, 0)
  {
    var i := 0;
    while i < |entries|
      invariant 0 <= i <= |entries|
      invariant FirstSide(entries, variant, render, i) == FirstSide(entries, variant, render, 0)
    {
      if Side(entries[i].1, variant, render) {
        return Some(i);
      }
      i := i + 1;
    }
    return None;
  }

  method FindNumericPair(entries: seq<(string, Json)>, number: Json -> JsNum) returns (r: Option<nat>)
    ensures r == FirstNumericPair(entries, number, 0)
  {
    var i := 0;
    while i < |entries|
      invariant 0 <= i <= |entries|
      invariant FirstNumericPair(entries, number, i) == FirstNumericPair(entries, number, 0)
    {
      if NumericPair(entries[i], number) {
        return Some(i);
      }
      i := i + 1;
    }
    return None;
  }

  method FindExecKey(p: Json) returns (r: Option<nat>)
    ensures r == FirstExecKey(p)
  {
    var i := 0;
    while i < |ExecKeys|
      invariant 0 <= i <= |ExecKeys|
      invariant forall j :: 0 <= j < i ==> Prop(p, ExecKeys[j]).None?
      invariant FirstExecKeyFrom(p, i) == FirstExecKey(p)
    {
      if Prop(p, ExecKeys[i]).Some? {
        return Some(i);
      }
      i := i + 1;
    }
    return None;
  }

  /** A direct-key field: `Number(p.key)` when present. */
  function DirectNumber(p: Json, key: string, number: Json -> JsNum): Option<JsNum> {
    if Has(p, key) then Some(number(Prop(p, key).value)) else None
  }

  /** A direct-key field: `String(p.key)` when present. */
  function DirectText(p: Json, key: string, render: Json -> string): Option<string> {
    if Has(p, key) then Some(JsText(Prop(p, key).value, render)) else None
  }

  // ---------------------------------------------------------------------------
  // normalizePropsRaw
  // ---------------------------------------------------------------------------

  /**
   * `normalizePropsRaw` in either copy. Text that does not parse gives `{}`,
   * and so does the decoded `null` (the heuristic branch throws on it).
   */
  method NormalizePropsRaw(raw: RawProps, variant: Variant, decode: string -> Option<Json>,
                           number: Json -> JsNum, render: Json -> string) returns (out: Props)
    ensures Subject(raw, decode).None? || Subject(raw, decode) == Some(JNull) ==> out == NoProps
    ensures variant.Worker? ==> out.token.None? && out.lhDelta.None?
    ensures variant.App? && Subject(raw, decode).Some? && Subject(raw, decode).value.JObj? ==>
      out.lhDelta == LhAfter(Entries(Subject(raw, decode).value), |Entries(Subject(raw, decode).value)|, number)
    ensures variant.App? && Subject(raw, decode).Some? && Subject(raw, decode).value.JObj? ==>
      var fields := Entries(Subject(raw, decode).value);
      var s := FirstSide(fields, App, render, 0);
      if !Direct(Subject(raw, decode).value) && s.Some? && Unset(TokenAfter(fields, |fields|, render)) && fields[s.value].0 != ""
      then out.token == Some(fields[s.value].0)
      else out.token == TokenAfter(fields, |fields|, render)
    ensures variant.App? && Subject(raw, decode).Some? && Subject(raw, decode) != Some(JNull) && !Subject(raw, decode).value.JObj? ==>
      var es := Entries(Subject(raw, decode).value);
      var s := FirstSide(es, App, render, 0);
      out.lhDelta.None? &&
      out.token == (if s.Some? && es[s.value].0 != "" then Some(es[s.value].0) else None)
    ensures Subject(raw, decode).Some? && Direct(Subject(raw, decode).value) ==>
      var p := Subject(raw, decode).value;
      out.diff == DirectNumber(p, "Diff", number) &&
      out.dexSlip == DirectNumber(p, "DexSlip", number) &&
      out.cexSlip == DirectNumber(p, "CexSlip", number) &&
      out.dex == DirectText(p, "Dex", render) &&
      out.exec == DirectText(p, "Exec", render)
    ensures Subject(raw, decode).Some? && Subject(raw, decode) != Some(JNull) && !Direct(Subject(raw, decode).value) ==>
      var p := Subject(raw, decode).value;
      var e := FirstExecKey(p);
      var s := FirstSide(Entries(p), variant, render, 0);
      var n := FirstNumericPair(Entries(p), number, 0);
      out.exec == (if e.Some? then Some(ExecKeys[e.value]) else None) &&
      (out.cexSlip.Some? <==> e.Some? && number(Prop(p, ExecKeys[e.value]).value).Finite?) &&
      (out.cexSlip.Some? ==> out.cexSlip == Some(number(Prop(p, ExecKeys[e.value]).value))) &&
      out.dex == (if s.Some? then Some(JsText(Entries(p)[s.value].1, render)) else None) &&
      out.diff == (if n.Some? then Some(number(JStr(Entries(p)[n.value].0))) else None) &&
      out.dexSlip == (if n.Some? then Some(number(Entries(p)[n.value].1)) else None)
  {
    var subject := Subject(raw, decode);
    if subject.None? || subject == Some(JNull) {
      return NoProps;
    }
    var p := subject.value;
    var token, lhDelta := None, None;
    if variant.App? && p.JObj? {
      token, lhDelta := TokenPass(Entries(p), number, render);
    }
    if Direct(p) {
      return Props(token, lhDelta, DirectNumber(p, "Diff", number), DirectNumber(p, "DexSlip", number),
                   DirectNumber(p, "CexSlip", number), DirectText(p, "Dex", render), DirectText(p, "Exec", render));
    }
    out := Heuristic(p, variant, token, lhDelta, number, render);
  }

  /**
   * The heuristic branch, after the token pass left `token` and `lhDelta`:
   * the first execution key gives `Exec` and `CexSlip`, the first side entry
   * `Dex` (and, in the dashboard, the token when none was found), and the first
   * numeric pair `Diff` and `DexSlip`.
   */
  method Heuristic(p: Json, variant: Variant, token: Option<string>, lhDelta: Option<real>,
                   number: Json -> JsNum, render: Json -> string) returns (out: Props)
    ensures out.lhDelta == lhDelta
    ensures var s := FirstSide(Entries(p), variant, render, 0);
      out.token == if variant.App? && s.Some? && Unset(token) && Entries(p)[s.value].0 != "" then Some(Entries(p)[s.value].0) else token
    ensures var e := FirstExecKey(p);
      out.exec == (if e.Some? then Some(ExecKeys[e.value]) else None) &&
      (out.cexSlip.Some? <==> e.Some? && number(Prop(p, ExecKeys[e.value]).value).Finite?) &&
      (out.cexSlip.Some? ==> out.cexSlip == Some(number(Prop(p, ExecKeys[e.value]).value)))
    ensures var s := FirstSide(Entries(p), variant, render, 0);
      out.dex == (if s.Some? then Some(JsText(Entries(p)[s.value].1, render)) else None)
    ensures var n := FirstNumericPair(Entries(p), number, 0);
      out.diff == (if n.Some? then Some(number(JStr(Entries(p)[n.value].0))) else None) &&
      out.dexSlip == (if n.Some? then Some(number(Entries(p)[n.value].1)) else None)
  {
    var exec, cexSlip := ExecPart(p, number);
    var dex, tok := SidePart(p, variant, token, render);
    var diff, dexSlip := NumericPart(p, number);
    out := Props(tok, lhDelta, diff, dexSlip, cexSlip, dex, exec);
  }

  /** `Exec` from the first execution key, and `CexSlip` from its value when that is a finite number. */
  method ExecPart(p: Json, number: Json -> JsNum) returns (exec: Option<string>, cexSlip: Option<JsNum>)
    ensures var e := FirstExecKey(p);
      exec == (if e.Some? then Some(ExecKeys[e.value]) else None) &&
      (cexSlip.Some? <==> e.Some? && number(Prop(p, ExecKeys[e.value]).value).Finite?) &&
      (cexSlip.Some? ==> cexSlip == Some(number(Prop(p, ExecKeys[e.value]).value)))
  {
    var e := FindExecKey(p);
    exec, cexSlip := None, None;
    if e.Some? {
      exec := Some(ExecKeys[e.value]);
      var v := number(Prop(p, ExecKeys[e.value]).value);
      if v.Finite? {
        cexSlip := Some(v);
      }
    }
  }

  /** `Dex` from the first side entry; in the dashboard its key becomes the token when none was found. */
  method SidePart(p: Json, variant: Variant, token: Option<string>, render: Json -> string) returns (dex: Option<string>, tok: Option<string>)
    ensures var s := FirstSide(Entries(p), variant, render, 0);
      tok == if variant.App? && s.Some? && Unset(token) && Entries(p)[s.value].0 != "" then Some(Entries(p)[s.value].0) else token
    ensures var s := FirstSide(Entries(p), variant, render, 0);
      dex == (if s.Some? then Some(JsText(Entries(p)[s.value].1, render)) else None)
  {
    var entries := Entries(p);
    var s := FindSide(entries, variant, render);
    dex, tok := None, token;
    if s.Some? {
      dex := Some(JsText(entries[s.value].1, render));
      if variant.App? && Unset(token) && entries[s.value].0 != "" {
        tok := Some(entries[s.value].0);
      }
    }
  }

  /** `Diff` and `DexSlip` from the first entry whose key and value are both finite numbers. */
  method NumericPart(p: Json, number: Json -> JsNum) returns (diff: Option<JsNum>, dexSlip: Option<JsNum>)
    ensures var n := FirstNumericPair(Entries(p), number, 0);
      diff == (if n.Some? then Some(number(JStr(Entries(p)[n.value].0))) else None) &&
      dexSlip == (if n.Some? then Some(number(Entries(p)[n.value].1)) else None)
  {
    var entries := Entries(p);
    var n := FindNumericPair(entries, number);
    diff, dexSlip := None, None;
    if n.Some? {
      diff, dexSlip := Some(number(JStr(entries[n.value].0))), Some(number(entries[n.value].1));
    }
  }
}
