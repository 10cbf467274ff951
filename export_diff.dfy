/**
 * The dataset exporter's pure steps: the output-format list, the token
 * parsers, the `props` JSON column, the per-trade labels and flags, the
 * classification of `props` keys into feature columns, and the per-token data
 * quality rows.
 *
 * Database reads, file writes and timestamp parsing are I/O and are not part
 * of this model; JSON decoding and `float()` on text are passed in.
 */
module ExportDiff {
  import opened Wrappers
  import opened JsonValue
  import Strings
  import DataLoading

  // ---------------------------------------------------------------------------
  // ensure_formats
  // ---------------------------------------------------------------------------

  const SupportedFormats: set<string> := {"csv", "parquet"}

  /** The requested formats: each comma-separated item trimmed and lower-cased, blank items skipped. */
  function Requested(parts: seq<string>): (r: seq<string>)
    ensures forall f :: f in r <==> exists p :: p in parts && Strings.Trim(p) != "" && f == Strings.Lower(Strings.Trim(p))
  {
    if parts == [] then []
    else
      assert forall p :: p in parts <==> p == parts[0] || p in parts[1..] by {
        assert parts == [parts[0]] + parts[1..];
      }
      var t := Strings.Trim(parts[0]);
      (if t != "" then [Strings.Lower(t)] else []) + Requested(parts[1..])
  }

  function Unsupported(fs: seq<string>): (r: seq<string>)
    ensures forall f :: f in r <==> f in fs && f !in SupportedFormats
  {
    if fs == [] then []
    else
      assert forall f :: f in fs <==> f == fs[0] || f in fs[1..] by {
        assert fs == [fs[0]] + fs[1..];
      }
      (if fs[0] in SupportedFormats then [] else [fs[0]]) + Unsupported(fs[1..])
  }

  /**
   * `ensure_formats`: an unknown format or an empty request is an error;
   * otherwise the distinct requested formats in order.
   */
  function EnsureFormats(arg: string): (r: Result<seq<string>, string>)
    ensures r.Ok? <==>
      (exists f :: f in Requested(Strings.Split(arg, ","))) &&
      forall f :: f in Requested(Strings.Split(arg, ",")) ==> f in SupportedFormats
    ensures r.Ok? ==>
      Strings.SortedStrict(r.value) &&
      forall f :: f in r.value <==> f in Requested(Strings.Split(arg, ","))
  {
    var formats := Strings.SortedDistinct(Requested(Strings.Split(arg, ",")));
    var unknown := Unsupported(formats);
    if unknown != [] then
      assert unknown[0] in unknown;
      Err("Unsupported formats requested: " + Strings.Join(unknown, ", "))
    else if formats == [] then
      Err("At least one output format must be specified.")
    else
      assert formats[0] in formats;
      Ok(formats)
  }

  /** The accepted list is the one strictly ordered list of the requested formats. */
  lemma FormatsCanonical(arg: string, xs: seq<string>)
    requires EnsureFormats(arg).Ok?
    requires Strings.SortedStrict(xs)
    requires forall f :: f in xs <==> f in Requested(Strings.Split(arg, ","))
    ensures EnsureFormats(arg).value == xs
  {
    Strings.SortedStrictUnique(EnsureFormats(arg).value, xs);
  }

  // ---------------------------------------------------------------------------
  // extract_token_from_pair and token_from_cur_id
  // ---------------------------------------------------------------------------

  /** The exporter's own copy of the pair parser. */
  function ExtractTokenFromPair(pair: Option<string>): (r: Option<string>)
    ensures pair.None? || pair == Some("") ==> r.None?
  {
    if pair.None? || pair.value == "" then None else PairToken(pair.value)
  }

  /** The token of non-empty pair text: the first leg's last `_` segment, cut at `/`, trimmed and lower-cased. */
  function PairToken(value: string): Option<string> {
    var parts := Strings.Split(Strings.Split(value, "->")[0], "_");
    var segment := parts[|parts| - 1];
    var tokenPart := if '/' in segment then Strings.Split(segment, "/")[0] else segment;
    if tokenPart == "" then None else Some(Strings.Lower(Strings.Trim(tokenPart)))
  }

  /** The exporter's own copy of the currency-id parser. */
  function TokenFromCurId(curId: Option<string>): (r: Option<string>)
    ensures curId.None? || curId == Some("") ==> r.None?
  {
    if curId.None? || curId.value == "" then None
    else
      var segments := Strings.Split(curId.value, "_");
      if |segments| >= 2 then
        var t := Strings.Lower(Strings.Trim(segments[1]));
        if t == "" then None else Some(t)
      else
        var t := Strings.Lower(Strings.Trim(curId.value));
        if t == "" then None else Some(t)
  }

  /** The exporter and the training loader read tokens the same way. */
  lemma ParsersAgreeWithLoader(pair: Option<string>, curId: Option<string>)
    ensures ExtractTokenFromPair(pair) == DataLoading.ExtractTokenFromPair(pair)
    ensures TokenFromCurId(curId) == DataLoading.TokenFromCurId(curId)
  {
    PairParsersAgree(pair);
    CurIdParsersAgree(curId);
  }

  lemma PairParsersAgree(pair: Option<string>)
    ensures ExtractTokenFromPair(pair) == DataLoading.ExtractTokenFromPair(pair)
  {
    if pair.Some? && pair.value != "" {
      LoaderPairToken(pair.value);
    }
  }

  lemma LoaderPairToken(value: string)
    requires value != ""
    ensures DataLoading.ExtractTokenFromPair(Some(value)) == PairToken(value)
  {
  }

  lemma CurIdParsersAgree(curId: Option<string>)
    ensures TokenFromCurId(curId) == DataLoading.TokenFromCurId(curId)
  {
  }

  // ---------------------------------------------------------------------------
  // parse_json_column
  // ---------------------------------------------------------------------------

  /** A `props` cell: missing, already a dictionary, or JSON text. */
  datatype PropsCell = Missing | Dict(fields: seq<(string, Json)>) | Encoded(text: string)

  /**
   * `parse_json_column`: missing or empty text gives `{}`, a dictionary is
   * returned as it is, other text is decoded (`decode` stands for
   * `json.loads`) and undecodable text gives `{}`.
   */
  function ParseJsonColumn(value: PropsCell, decode: string -> Option<Json>): (r: Json)
    ensures value.Missing? || value == Encoded("") ==> r == JObj([])
    ensures value.Dict? ==> r == JObj(value.fields)
    ensures value.Encoded? && value.text != "" ==> r == decode(value.text).GetOr(JObj([]))
  {
    match value
    case Missing => JObj([])
    case Dict(fields) => JObj(fields)
    case Encoded(text) =>
      if text == "" then JObj([])
      else if decode(text).Some? then decode(text).value
      else JObj([])
  }

  // ---------------------------------------------------------------------------
  // enrich_trades: labels and flags
  // ---------------------------------------------------------------------------

  /** The 0.02% fee charged on the destination notional. */
  const FeeRate: real := 0.0002

  /**
   * `netProfit`: destination notional less source cost less the fee, each
   * missing amount counting as 0.
   */
  function NetProfit(qtyDst: Option<real>, dstPrice: Option<real>, srcPrice: Option<real>, qtySrc: Option<real>): (r: real)
    ensures r == (1.0 - FeeRate) * qtyDst.GetOr(0.0) * dstPrice.GetOr(0.0) - srcPrice.GetOr(0.0) * qtySrc.GetOr(0.0)
    ensures qtyDst.None? || dstPrice.None? ==> r == -(srcPrice.GetOr(0.0) * qtySrc.GetOr(0.0))
  {
    var qd := qtyDst.GetOr(0.0);
    var dp := dstPrice.GetOr(0.0);
    (qd * dp) - (srcPrice.GetOr(0.0) * qtySrc.GetOr(0.0)) - (FeeRate * qd * dp)
  }

  /** `label_class`: 1 exactly for a profitable trade. */
  function LabelClass(netProfit: real): (r: int)
    ensures r == 1 <==> netProfit > 0.0
    ensures r == 0 || r == 1
  {
    if netProfit > 0.0 then 1 else 0
  }

  /** A trade that cost nothing on the source side is profitable exactly when it received something. */
  lemma FreeSourceProfit(qtyDst: real, dstPrice: real)
    requires qtyDst >= 0.0 && dstPrice >= 0.0
    ensures LabelClass(NetProfit(Some(qtyDst), Some(dstPrice), None, None)) == 1 <==> qtyDst * dstPrice > 0.0
  {
  }

  /**
   * `isPartialFill`: without an `estimatedQty` column every trade gets
   * `False` (0 here); with one, 1 exactly when less than the estimate was
   * executed, missing amounts counting as 0.
   */
  function IsPartialFill(hasEstimate: bool, executedQtyDst: Option<real>, estimatedQty: Option<real>): (r: int)
    ensures r == 1 <==> hasEstimate && executedQtyDst.GetOr(0.0) < estimatedQty.GetOr(0.0)
    ensures r == 0 || r == 1
  {
    if hasEstimate && executedQtyDst.GetOr(0.0) < estimatedQty.GetOr(0.0) then 1 else 0
  }

  /** `astype(int)`: truncation toward zero. */
  function Truncate(x: real): (r: int)
    ensures x >= 0.0 ==> r as real <= x < r as real + 1.0
    ensures x < 0.0 ==> r as real - 1.0 < x <= r as real
  {
    if x >= 0.0 then x.Floor else -((-x).Floor)
  }

  /**
   * `trades.get("hedge", 0).fillna(0).astype(int)` as written: without a
   * `hedge` column the default is the plain integer 0, which has no `fillna`,
   * so the step raises.
   */
  function IsHedgedAsWritten(hasHedge: bool, hedge: Option<real>): (r: Result<int, string>)
    ensures r.Err? <==> !hasHedge
    ensures r.Ok? ==> r.value == Truncate(hedge.GetOr(0.0))
  {
    if !hasHedge then Err("AttributeError: 'int' object has no attribute 'fillna'")
    else Ok(Truncate(hedge.GetOr(0.0)))
  }

  /** A trades table without a `hedge` column makes the hedge flag fail. */
  lemma HedgeColumnMissingFails()
    ensures IsHedgedAsWritten(false, None).Err?
  {
  }

  /** The flag as intended: a missing column or value counts as not hedged. */
  function IsHedged(hasHedge: bool, hedge: Option<real>): (r: int)
    ensures !hasHedge || hedge.None? ==> r == 0
    ensures hasHedge ==> IsHedgedAsWritten(hasHedge, hedge) == Ok(r)
  {
    if hasHedge then Truncate(hedge.GetOr(0.0)) else 0
  }

  /** Flags stored as 0 and 1 stay 0 and 1. */
  lemma HedgeFlagsKept(hasHedge: bool, flag: bool)
    ensures IsHedged(hasHedge, Some(if flag then 1.0 else 0.0)) == (if hasHedge && flag then 1 else 0)
  {
  }

  // ---------------------------------------------------------------------------
  // enrich_trades: props features
  // ---------------------------------------------------------------------------

  /** The feature columns a `props` key can feed. */
  datatype PropColumn =
    | PropDiff | PropDexSlip | PropCexSlip | PropExecutionEta
    | PropDexSlippage | PropCexSlippage | PropExecutionMode

  /**
   * The column a `props` key feeds: the key is trimmed and lower-cased and the
   * first matching rule wins; a blank or unmatched key feeds none.
   */
  function ClassifyPropKey(key: string): (r: Option<PropColumn>)
    ensures Strings.Trim(key) == "" ==> r.None?
    ensures Strings.Lower(Strings.Trim(key)) == "diff" ==> r == Some(PropDiff)
    ensures r == Some(PropExecutionMode) ==> Strings.Lower(Strings.Trim(key)) in {"exec", "execution", "mode"}
  {
    ClassifyNormalized(Strings.Lower(Strings.Trim(key)))
  }

  /** The rules applied to a trimmed, lower-cased key. */
  function ClassifyNormalized(k: string): (r: Option<PropColumn>)
    ensures k == "" ==> r.None?
    ensures k == "diff" ==> r == Some(PropDiff)
    ensures r == Some(PropExecutionMode) ==> k in {"exec", "execution", "mode"}
  {
    if k == "" then None
    else if k == "diff" then Some(PropDiff)
    else if k in {"dexslip", "dex_slip"} || (Strings.Contains(k, "dex") && Strings.Contains(k, "slip")) then Some(PropDexSlip)
    else if k in {"cexslip", "cex_slip"} || (Strings.Contains(k, "cex") && Strings.Contains(k, "slip")) then Some(PropCexSlip)
    else if k in {"executioneta", "execeta", "eta"} || (Strings.Contains(k, "eta") && Strings.Contains(k, "exec")) then Some(PropExecutionEta)
    else if Strings.Contains(k, "slippage") && Strings.Contains(k, "dex") then Some(PropDexSlippage)
    else if Strings.Contains(k, "slippage") && Strings.Contains(k, "cex") then Some(PropCexSlippage)
    else if k in {"exec", "execution", "mode"} then Some(PropExecutionMode)
    else None
  }

  /**
   * No key ever feeds `propDexSlippage` or `propCexSlippage`: a key holding
   * "slippage" holds "slip", so the earlier slip rules take it first.
   */
  lemma SlippageColumnsUnreachable(key: string)
    ensures ClassifyPropKey(key) != Some(PropDexSlippage)
    ensures ClassifyPropKey(key) != Some(PropCexSlippage)
  {
    SlippageRulesShadowed(Strings.Lower(Strings.Trim(key)));
  }

  lemma SlippageRulesShadowed(k: string)
    ensures ClassifyNormalized(k) != Some(PropDexSlippage)
    ensures ClassifyNormalized(k) != Some(PropCexSlippage)
  {
    SlippageHasSlip(k);
  }

  lemma SlippageHasSlip(k: string)
    ensures Strings.Contains(k, "slippage") ==> Strings.Contains(k, "slip")
  {
    if Strings.Contains(k, "slippage") {
      assert "slippage" == "slip" + "page";
      Strings.ContainsPrefixOf(k, "slip", "page");
    }
  }

  /** The value a props feature holds: a number from `safe_float`, or the raw execution mode. */
  datatype PropValue = Number(x: Option<real>) | Mode(raw: Option<Json>)

  /**
   * `safe_float`: numbers and booleans convert, text goes through `parse`
   * (`float()` on a string), anything else gives `None`.
   */
  function SafeFloat(raw: Json, parse: string -> Option<real>): Option<real> {
    match raw
    case JNum(n) => Some(n)
    case JBool(b) => Some(if b then 1.0 else 0.0)
    case JStr(s) => parse(s)
    case _ => None
  }

  /**
   * The value stored for a props column. For the execution mode the exporter
   * stores `str(raw)`; the model keeps `raw` itself, since Python's text
   * rendering of a decoded value is not part of this model.
   */
  function PropValueOf(col: PropColumn, raw: Json, parse: string -> Option<real>): PropValue {
    if col == PropExecutionMode then Mode(if raw.JNull? then None else Some(raw)) else Number(SafeFloat(raw, parse))
  }

  /** The result dictionary after the first `k` keys: a later key overwrites an earlier one's column. */
  function PropsAfter(fields: seq<(string, Json)>, k: nat, classify: string -> Option<PropColumn>, parse: string -> Option<real>): map<PropColumn, PropValue>
    requires k <= |fields|
  {
    if k == 0 then map[]
    else
      var m := PropsAfter(fields, k - 1, classify, parse);
      var col := classify(fields[k - 1].0);
      if col.Some? then m[col.value := PropValueOf(col.value, fields[k - 1].1, parse)] else m
  }

  /** `extract_props_features`: the loop over the parsed dictionary's keys. */
  method ExtractPropsFeatures(payload: PropsCell, decode: string -> Option<Json>, parse: string -> Option<real>)
    returns (result: map<PropColumn, PropValue>)
    ensures var data := ParseJsonColumn(payload, decode);
      result == if data.JObj? then PropsAfter(data.fields, |data.fields|, ClassifyPropKey, parse) else map[]
  {
    var data := ParseJsonColumn(payload, decode);
    if !data.JObj? {
      return map[];
    }
    result := CollectProps(data.fields, ClassifyPropKey, parse);
  }

  /** The loop body of `extract_props_features`, for any key classifier. */
  method CollectProps(fields: seq<(string, Json)>, classify: string -> Option<PropColumn>, parse: string -> Option<real>)
    returns (result: map<PropColumn, PropValue>)
    ensures result == PropsAfter(fields, |fields|, classify, parse)
  {
    result := map[];
    for k := 0 to |fields|
      invariant result == PropsAfter(fields, k, classify, parse)
    {
      var (key, raw) := fields[k];
      var col := classify(key);
      if col.None? {
        continue;
      }
      result := result[col.value := PropValueOf(col.value, raw, parse)];
    }
  }

  /**
   * A column is filled exactly when some key feeds it, and it holds the value
   * of the last key that does.
   */
  lemma {:induction false} PropsFilled(fields: seq<(string, Json)>, k: nat, classify: string -> Option<PropColumn>, parse: string -> Option<real>, col: PropColumn)
    requires k <= |fields|
    ensures col in PropsAfter(fields, k, classify, parse) <==> exists j :: 0 <= j < k && classify(fields[j].0) == Some(col)
  {
    if k > 0 {
      PropsFilled(fields, k - 1, classify, parse, col);
    }
  }

  /** A filled column holds the value of the last key that feeds it. */
  lemma {:induction false} PropsLastKeyWins(fields: seq<(string, Json)>, k: nat, classify: string -> Option<PropColumn>, parse: string -> Option<real>, col: PropColumn, j: nat)
    requires j < k <= |fields|
    requires classify(fields[j].0) == Some(col)
    requires forall i :: j < i < k ==> classify(fields[i].0) != Some(col)
    ensures col in PropsAfter(fields, k, classify, parse)
    ensures PropsAfter(fields, k, classify, parse)[col] == PropValueOf(col, fields[j].1, parse)
  {
    if k - 1 > j {
      PropsLastKeyWins(fields, k - 1, classify, parse, col, j);
    }
  }

  /** No exported trade ever carries the two slippage columns. */
  lemma PropsNeverSlippage(fields: seq<(string, Json)>, parse: string -> Option<real>)
    ensures PropDexSlippage !in PropsAfter(fields, |fields|, ClassifyPropKey, parse)
    ensures PropCexSlippage !in PropsAfter(fields, |fields|, ClassifyPropKey, parse)
  {
    PropsFilled(fields, |fields|, ClassifyPropKey, parse, PropDexSlippage);
    PropsFilled(fields, |fields|, ClassifyPropKey, parse, PropCexSlippage);
    forall j | 0 <= j < |fields| ensures ClassifyPropKey(fields[j].0) != Some(PropDexSlippage) && ClassifyPropKey(fields[j].0) != Some(PropCexSlippage) {
      SlippageColumnsUnreachable(fields[j].0);
    }
  }

  // ---------------------------------------------------------------------------
  // build_quality_rows
  // ---------------------------------------------------------------------------

  /** A row of the trades merged with the price differences. */
  datatype MergedRow = MergedRow(token: Option<string>, hasCurId: bool, tradeTs: Option<int>)

  datatype QualityRow = QualityRow(
    serverId: string,
    token: string,
    tradeCount: nat,
    matchedDiffCount: nat,
    missingDiffCount: nat,
    firstTradeAt: Option<int>,
    lastTradeAt: Option<int>)

  /** The group key: the token, with a missing one read as `"unknown"`. */
  function GroupKey(r: MergedRow): string {
    r.token.GetOr("unknown")
  }

  function TokenCount(rows: seq<MergedRow>, token: string): nat {
    if rows == [] then 0 else TokenCount(rows[..|rows| - 1], token) + (if GroupKey(rows[|rows| - 1]) == token then 1 else 0)
  }

  function MatchedCount(rows: seq<MergedRow>, token: string): (n: nat)
    ensures n <= TokenCount(rows, token)
  {
    if rows == [] then 0
    else
      var last := rows[|rows| - 1];
      MatchedCount(rows[..|rows| - 1], token) + (if GroupKey(last) == token && last.hasCurId then 1 else 0)
  }

  /** The earliest present trade time in a group (`min` skips missing times). */
  function FirstTime(rows: seq<MergedRow>, token: string): (r: Option<int>)
    ensures r.Some? ==> exists i :: 0 <= i < |rows| && GroupKey(rows[i]) == token && rows[i].tradeTs == r
    ensures r.Some? ==> forall i :: 0 <= i < |rows| && GroupKey(rows[i]) == token && rows[i].tradeTs.Some? ==> r.value <= rows[i].tradeTs.value
    ensures r.None? ==> forall i :: 0 <= i < |rows| && GroupKey(rows[i]) == token ==> rows[i].tradeTs.None?
  {
    if rows == [] then None
    else
      var pre := FirstTime(rows[..|rows| - 1], token);
      var last := rows[|rows| - 1];
      if GroupKey(last) != token || last.tradeTs.None? then pre
      else if pre.None? || last.tradeTs.value < pre.value then last.tradeTs
      else pre
  }

  /** The latest present trade time in a group. */
  function LastTime(rows: seq<MergedRow>, token: string): (r: Option<int>)
    ensures r.Some? ==> exists i :: 0 <= i < |rows| && GroupKey(rows[i]) == token && rows[i].tradeTs == r
    ensures r.Some? ==> forall i :: 0 <= i < |rows| && GroupKey(rows[i]) == token && rows[i].tradeTs.Some? ==> rows[i].tradeTs.value <= r.value
    ensures r.None? ==> forall i :: 0 <= i < |rows| && GroupKey(rows[i]) == token ==> rows[i].tradeTs.None?
  {
    if rows == [] then None
    else
      var pre := LastTime(rows[..|rows| - 1], token);
      var last := rows[|rows| - 1];
      if GroupKey(last) != token || last.tradeTs.None? then pre
      else if pre.None? || last.tradeTs.value > pre.value then last.tradeTs
      else pre
  }

  function Keys(rows: seq<MergedRow>): (r: seq<string>)
    ensures forall k :: k in r <==> exists i :: 0 <= i < |rows| && GroupKey(rows[i]) == k
  {
    if rows == [] then []
    else
      var pre := rows[..|rows| - 1];
      assert forall i :: 0 <= i < |pre| ==> pre[i] == rows[i];
      Keys(pre) + [GroupKey(rows[|rows| - 1])]
  }

  function QualityRowFor(rows: seq<MergedRow>, serverId: string, token: string, hasTradeTs: bool): QualityRow {
    var total := TokenCount(rows, token);
    var matched := MatchedCount(rows, token);
    QualityRow(serverId, token, total, matched, total - matched,
      if hasTradeTs then FirstTime(rows, token) else None,
      if hasTradeTs then LastTime(rows, token) else None)
  }

  function QualityRowsUpTo(rows: seq<MergedRow>, serverId: string, hasTradeTs: bool, tokens: seq<string>, k: nat): seq<QualityRow>
    requires k <= |tokens|
  {
    if k == 0 then [] else QualityRowsUpTo(rows, serverId, hasTradeTs, tokens, k - 1) + [QualityRowFor(rows, serverId, tokens[k - 1], hasTradeTs)]
  }

  /** One row per group, groups in token order. */
  function QualityRows(rows: seq<MergedRow>, serverId: string, hasTradeTs: bool): seq<QualityRow> {
    var tokens := Strings.SortedDistinct(Keys(rows));
    QualityRowsUpTo(rows, serverId, hasTradeTs, tokens, |tokens|)
  }

  /** `build_quality_rows`: the loop over the token groups appending one summary each. */
  method BuildQualityRows(merged: seq<MergedRow>, serverId: string, hasTradeTs: bool) returns (out: seq<QualityRow>)
    ensures out == QualityRows(merged, serverId, hasTradeTs)
  {
    if merged == [] {
      return [];
    }
    var tokens := Strings.SortedDistinct(Keys(merged));
    out := [];
    for k := 0 to |tokens|
      invariant out == QualityRowsUpTo(merged, serverId, hasTradeTs, tokens, k)
    {
      var token := tokens[k];
      var total := TokenCount(merged, token);
      var matched := MatchedCount(merged, token);
      var row := QualityRow(serverId, token, total, matched, total - matched,
        if hasTradeTs then FirstTime(merged, token) else None,
        if hasTradeTs then LastTime(merged, token) else None);
      out := out + [row];
    }
  }

  function RowTokens(out: seq<QualityRow>): (r: seq<string>)
    ensures |r| == |out|
    ensures forall i :: 0 <= i < |out| ==> r[i] == out[i].token
  {
    seq(|out|, i requires 0 <= i < |out| => out[i].token)
  }

  /** The rows list each group once, in strictly increasing token order, with matched plus missing making up the group. */
  lemma QualityRowsShape(merged: seq<MergedRow>, serverId: string, hasTradeTs: bool)
    ensures var out := QualityRows(merged, serverId, hasTradeTs);
      (forall i, j :: 0 <= i < j < |out| ==> Strings.Below(out[i].token, out[j].token)) &&
      (forall t :: t in RowTokens(out) <==> t in Keys(merged)) &&
      (forall i :: 0 <= i < |out| ==>
        out[i].matchedDiffCount + out[i].missingDiffCount == out[i].tradeCount &&
        out[i].tradeCount == TokenCount(merged, out[i].token) > 0)
  {
    var tokens := Strings.SortedDistinct(Keys(merged));
    QualityRowsIndex(merged, serverId, hasTradeTs, tokens, |tokens|);
    RowsOrdered(merged, serverId, hasTradeTs, tokens);
    RowsCover(merged, serverId, hasTradeTs, tokens);
    RowsCounted(merged, serverId, hasTradeTs, tokens);
  }

  lemma RowsOrdered(merged: seq<MergedRow>, serverId: string, hasTradeTs: bool, tokens: seq<string>)
    requires Strings.SortedStrict(tokens)
    ensures var out := QualityRowsUpTo(merged, serverId, hasTradeTs, tokens, |tokens|);
      forall i, j :: 0 <= i < j < |out| ==> Strings.Below(out[i].token, out[j].token)
  {
    QualityRowsIndex(merged, serverId, hasTradeTs, tokens, |tokens|);
  }

  lemma RowsCover(merged: seq<MergedRow>, serverId: string, hasTradeTs: bool, tokens: seq<string>)
    requires forall y :: y in tokens <==> y in Keys(merged)
    ensures var out := QualityRowsUpTo(merged, serverId, hasTradeTs, tokens, |tokens|);
      forall t :: t in RowTokens(out) <==> t in Keys(merged)
  {
    var out := QualityRowsUpTo(merged, serverId, hasTradeTs, tokens, |tokens|);
    QualityRowsIndex(merged, serverId, hasTradeTs, tokens, |tokens|);
    forall t ensures t in RowTokens(out) <==> t in Keys(merged) {
      if t in Keys(merged) {
        var i :| 0 <= i < |tokens| && tokens[i] == t;
        assert RowTokens(out)[i] == t;
      }
    }
  }

  lemma RowsCounted(merged: seq<MergedRow>, serverId: string, hasTradeTs: bool, tokens: seq<string>)
    requires forall y :: y in tokens ==> y in Keys(merged)
    ensures var out := QualityRowsUpTo(merged, serverId, hasTradeTs, tokens, |tokens|);
      forall i :: 0 <= i < |out| ==>
        out[i].matchedDiffCount + out[i].missingDiffCount == out[i].tradeCount &&
        out[i].tradeCount == TokenCount(merged, out[i].token) > 0
  {
    var out := QualityRowsUpTo(merged, serverId, hasTradeTs, tokens, |tokens|);
    QualityRowsIndex(merged, serverId, hasTradeTs, tokens, |tokens|);
    forall i | 0 <= i < |out| ensures TokenCount(merged, out[i].token) > 0 {
      assert out[i].token in tokens;
      var j :| 0 <= j < |merged| && GroupKey(merged[j]) == out[i].token;
      TokenCountPositive(merged, j);
    }
  }

  lemma {:induction false} QualityRowsIndex(rows: seq<MergedRow>, serverId: string, hasTradeTs: bool, tokens: seq<string>, k: nat)
    requires k <= |tokens|
    ensures |QualityRowsUpTo(rows, serverId, hasTradeTs, tokens, k)| == k
    ensures forall i :: 0 <= i < k ==> QualityRowsUpTo(rows, serverId, hasTradeTs, tokens, k)[i] == QualityRowFor(rows, serverId, tokens[i], hasTradeTs)
  {
    if k > 0 {
      QualityRowsIndex(rows, serverId, hasTradeTs, tokens, k - 1);
    }
  }

  lemma {:induction false} TokenCountPositive(rows: seq<MergedRow>, j: nat)
    requires j < |rows|
    ensures TokenCount(rows, GroupKey(rows[j])) > 0
  {
    if j < |rows| - 1 {
      TokenCountPositive(rows[..|rows| - 1], j);
    }
  }

  /** Sum of the trade counts of the groups `tokens[..k]`. */
  function CountSum(rows: seq<MergedRow>, tokens: seq<string>): nat {
    if tokens == [] then 0 else CountSum(rows, tokens[..|tokens| - 1]) + TokenCount(rows, tokens[|tokens| - 1])
  }

  /** The one-row frame standing for a row with key `key`. */
  function Single(key: string): seq<MergedRow> {
    [MergedRow(Some(key), false, None)]
  }

  lemma TokenCountSingle(key: string, t: string)
    ensures TokenCount(Single(key), t) == if key == t then 1 else 0
  {
    assert Single(key)[..0] == [];
  }

  lemma TokenCountAppend(rows: seq<MergedRow>, x: MergedRow, t: string)
    ensures TokenCount(rows + [x], t) == TokenCount(rows, t) + TokenCount(Single(GroupKey(x)), t)
  {
    assert (rows + [x])[..|rows|] == rows;
    TokenCountSingle(GroupKey(x), t);
  }

  /** A row falls in exactly one group of a list of distinct tokens that contains its key. */
  lemma {:induction false} IndicatorSum(tokens: seq<string>, key: string)
    requires forall i, j :: 0 <= i < j < |tokens| ==> tokens[i] != tokens[j]
    ensures CountSum(Single(key), tokens) == if key in tokens then 1 else 0
  {
    if tokens != [] {
      var pre := tokens[..|tokens| - 1];
      var last := tokens[|tokens| - 1];
      IndicatorSum(pre, key);
      TokenCountSingle(key, last);
      assert key in tokens <==> key in pre || key == last by {
        assert tokens == pre + [last];
      }
      if key in pre {
        var i :| 0 <= i < |pre| && pre[i] == key;
        assert tokens[i] == key;
        assert key != last;
      }
    }
  }

  lemma {:induction false} CountSumSplit(rows: seq<MergedRow>, x: MergedRow, tokens: seq<string>)
    ensures CountSum(rows + [x], tokens) == CountSum(rows, tokens) + CountSum(Single(GroupKey(x)), tokens)
  {
    if tokens != [] {
      CountSumSplit(rows, x, tokens[..|tokens| - 1]);
      TokenCountAppend(rows, x, tokens[|tokens| - 1]);
    }
  }

  /** The groups' trade counts add up to the number of merged rows: no row is lost or counted twice. */
  lemma {:induction false} CountsCoverRows(rows: seq<MergedRow>, tokens: seq<string>)
    requires forall i, j :: 0 <= i < j < |tokens| ==> tokens[i] != tokens[j]
    requires forall r :: r in rows ==> GroupKey(r) in tokens
    ensures CountSum(rows, tokens) == |rows|
  {
    if rows == [] {
      EmptyCounts(tokens);
    } else {
      var pre := rows[..|rows| - 1];
      var x := rows[|rows| - 1];
      assert rows == pre + [x];
      CountsCoverRows(pre, tokens);
      CountSumSplit(pre, x, tokens);
      IndicatorSum(tokens, GroupKey(x));
    }
  }

  lemma {:induction false} EmptyCounts(tokens: seq<string>)
    ensures CountSum([], tokens) == 0
  {
    if tokens != [] {
      EmptyCounts(tokens[..|tokens| - 1]);
    }
  }

  /** Over all the quality rows, the trade counts add up to the number of merged rows. */
  lemma QualityRowsCoverMerged(merged: seq<MergedRow>)
    ensures CountSum(merged, Strings.SortedDistinct(Keys(merged))) == |merged|
  {
    var tokens := Strings.SortedDistinct(Keys(merged));
    forall i, j | 0 <= i < j < |tokens| ensures tokens[i] != tokens[j] {
      Strings.BelowIrreflexive(tokens[i]);
    }
    forall r | r in merged ensures GroupKey(r) in tokens {
      var j :| 0 <= j < |merged| && merged[j] == r;
    }
    CountsCoverRows(merged, tokens);
  }
}
