/**
 * The training data loader: token names parsed out of pair strings and
 * currency ids, the derived token column, the per-server `serverId`, the
 * token filter and the label columns built with their fallbacks.
 *
 * Reading parquet and CSV files, listing server directories and parsing
 * timestamps are I/O: each server's trades arrive here as a `Frame` already
 * read.
 */
module DataLoading {
  import opened Wrappers
  import opened Frames
  import Strings
  import Config

  // ---------------------------------------------------------------------------
  // _extract_token_from_pair and _token_from_cur_id
  // ---------------------------------------------------------------------------

  function Last(parts: seq<string>): string
    requires |parts| >= 1
  {
    parts[|parts| - 1]
  }

  /** No ASCII upper-case letter: what lower-casing leaves. */
  predicate LowerCase(s: string) {
    forall i :: 0 <= i < |s| ==> !Strings.IsUpper(s[i])
  }

  /**
   * The base token of a pair such as `"ARB_ETH/USDT->X"`: the first `->` leg,
   * its last `_` segment, the part of that before any `/`, trimmed and
   * lower-cased. Trimming comes after the emptiness test, so a segment of
   * spaces gives the empty token rather than none.
   */
  function ExtractTokenFromPair(pair: Option<string>): (r: Option<string>)
    ensures pair.None? || pair == Some("") ==> r.None?
    ensures r.Some? ==> LowerCase(r.value) && '_' !in r.value && '/' !in r.value
    ensures r.Some? ==> r.value == [] || (!Strings.IsSpace(r.value[0]) && !Strings.IsSpace(r.value[|r.value| - 1]))
  {
    if pair.None? || pair.value == "" then None
    else
      var firstLeg := Strings.Split(pair.value, "->")[0];
      var segment := Last(Strings.Split(firstLeg, "_"));
      var tokenPart := if '/' in segment then Strings.Split(segment, "/")[0] else segment;
      if tokenPart == "" then None
      else
        var t := Strings.Trim(tokenPart);
        assert '_' !in tokenPart && '/' !in tokenPart by {
          Strings.SplitPartsFree(firstLeg, '_');
          Strings.SplitPartsFree(segment, '/');
          Strings.SplitMembers(segment, "/");
        }
        Strings.TrimMembers(tokenPart);
        Strings.LowerMembers(t, '_');
        Strings.LowerMembers(t, '/');
        Some(Strings.Lower(t))
  }

  /** Lower-casing text without upper-case letters changes nothing. */
  lemma LowerOfLowerCase(s: string)
    requires LowerCase(s)
    ensures Strings.Lower(s) == s
  {
    var r := Strings.Lower(s);
    assert forall i :: 0 <= i < |s| ==> r[i] == s[i];
  }

  /**
   * A pair written `base_TOKEN/QUOTE->rest` yields `TOKEN` lower-cased, when the
   * parts carry no separator of their own and the token no surrounding space.
   */
  lemma ExtractTokenOfPair(base: string, tok: string, quote: string, rest: string)
    requires '-' !in base && '-' !in tok && '-' !in quote
    requires '_' !in tok && '/' !in tok && '_' !in quote
    requires tok != [] && !Strings.IsSpace(tok[0]) && !Strings.IsSpace(tok[|tok| - 1])
    ensures ExtractTokenFromPair(Some(PairText(base, tok, quote, rest))) == Some(Strings.Lower(tok))
  {
    var segment := tok + ['/'] + quote;
    var leg := base + ['_'] + segment;
    assert PairText(base, tok, quote, rest) == leg + ['-', '>'] + rest;
    FirstLeg(leg, rest);
    LastSegment(base, segment);
    SegmentToken(tok, quote);
    TokenOfParts(PairText(base, tok, quote, rest), leg, segment, tok);
  }

  /** The extraction read step by step: first leg, last `_` segment, part before `/`. */
  lemma TokenOfParts(pair: string, leg: string, segment: string, tok: string)
    requires Strings.Split(pair, "->")[0] == leg
    requires Last(Strings.Split(leg, "_")) == segment
    requires '/' in segment && Strings.Split(segment, "/")[0] == tok
    requires tok != [] && !Strings.IsSpace(tok[0]) && !Strings.IsSpace(tok[|tok| - 1])
    ensures ExtractTokenFromPair(Some(pair)) == Some(Strings.Lower(tok))
  {
    assert pair != "";
  }

  /** `base_TOKEN/QUOTE->rest` */
  function PairText(base: string, tok: string, quote: string, rest: string): string {
    base + ['_'] + (tok + ['/'] + quote) + ['-', '>'] + rest
  }

  lemma FirstLeg(leg: string, rest: string)
    requires '-' !in leg
    ensures Strings.Split(leg + ['-', '>'] + rest, "->")[0] == leg
  {
    Strings.SplitFirst(leg, ['-', '>'], rest);
  }

  lemma LastSegment(base: string, segment: string)
    requires '_' !in segment
    ensures Last(Strings.Split(base + ['_'] + segment, "_")) == segment
  {
    Strings.SplitAround(base, '_', segment);
    Strings.SplitAbsent(segment, '_');
  }

  lemma SegmentToken(tok: string, quote: string)
    requires '/' !in tok
    ensures '/' in tok + ['/'] + quote
    ensures Strings.Split(tok + ['/'] + quote, "/")[0] == tok
  {
    assert (tok + ['/'] + quote)[|tok|] == '/';
    Strings.SplitFirst(tok, ['/'], quote);
  }

  lemma ExtractTokenExample()
    ensures ExtractTokenFromPair(Some("ARB_ETH/USDT->X")) == Some("eth")
  {
    ExtractTokenOfPair("ARB", "ETH", "USDT", "X");
    ExamplePairText();
    ExampleLower();
  }

  lemma ExamplePairText()
    ensures PairText("ARB", "ETH", "USDT", "X") == "ARB_ETH/USDT->X"
  {
  }

  lemma ExampleLower()
    ensures Strings.Lower("ETH") == "eth"
  {
    var r := Strings.Lower("ETH");
    assert r[0] == 'e' && r[1] == 't' && r[2] == 'h';
  }

  /**
   * The token of a currency id such as `"1_bnb_2"`: its second `_` segment,
   * or, with a single segment, the whole id, trimmed and lower-cased; an empty
   * result is none.
   */
  function TokenFromCurId(curId: Option<string>): (r: Option<string>)
    ensures curId.None? || curId == Some("") ==> r.None?
    ensures r.Some? ==> r.value != [] && LowerCase(r.value)
    ensures r.Some? ==> !Strings.IsSpace(r.value[0]) && !Strings.IsSpace(r.value[|r.value| - 1])
  {
    if curId.None? || curId.value == "" then None
    else
      var segments := Strings.Split(curId.value, "_");
      var t := Strings.Lower(Strings.Trim(if |segments| >= 2 then segments[1] else curId.value));
      if t == "" then None else Some(t)
  }

  /** An id `a_TOKEN` or `a_TOKEN_rest` yields `TOKEN` lower-cased. */
  lemma TokenOfCurId(a: string, tok: string, tail: string)
    requires '_' !in a && '_' !in tok
    requires tail == [] || tail[0] == '_'
    requires tok != [] && !Strings.IsSpace(tok[0]) && !Strings.IsSpace(tok[|tok| - 1])
    ensures TokenFromCurId(Some(CurIdText(a, tok, tail))) == Some(Strings.Lower(tok))
  {
    SecondSegment(a, tok, tail);
  }

  /** `a_TOKEN` followed by `tail` */
  function CurIdText(a: string, tok: string, tail: string): string {
    a + ['_'] + (tok + tail)
  }

  lemma SecondSegment(a: string, tok: string, tail: string)
    requires '_' !in a && '_' !in tok
    requires tail == [] || tail[0] == '_'
    ensures |Strings.Split(CurIdText(a, tok, tail), "_")| >= 2
    ensures Strings.Split(CurIdText(a, tok, tail), "_")[1] == tok
  {
    Strings.SplitAround(a, '_', tok + tail);
    Strings.SplitAbsent(a, '_');
    FirstSegment(tok, tail);
  }

  lemma FirstSegment(tok: string, tail: string)
    requires '_' !in tok
    requires tail == [] || tail[0] == '_'
    ensures Strings.Split(tok + tail, "_")[0] == tok
  {
    if tail == [] {
      assert tok + tail == tok;
      Strings.SplitAbsent(tok, '_');
    } else {
      assert tail == ['_'] + tail[1..];
      assert tok + tail == tok + ['_'] + tail[1..] by {
        assert tok + tail == tok + (['_'] + tail[1..]);
      }
      Strings.SplitFirst(tok, ['_'], tail[1..]);
    }
  }

  /** An id without `_` is its own token. */
  lemma TokenOfPlainCurId(id: string)
    requires '_' !in id
    ensures TokenFromCurId(Some(id)) == if Strings.Lower(Strings.Trim(id)) == "" then None else Some(Strings.Lower(Strings.Trim(id)))
  {
    Strings.SplitAbsent(id, '_');
  }

  lemma TokenFromCurIdExample()
    ensures TokenFromCurId(Some("1_bnb_2")) == Some("bnb")
  {
    ExampleCurIdText();
    ExampleCurIdParts();
    TokenOfCurId("1", "bnb", "_2");
    LowerOfLowerCase("bnb");
  }

  lemma ExampleCurIdParts()
    ensures '_' !in "1" && '_' !in "bnb" && "_2"[0] == '_'
    ensures "bnb" != [] && !Strings.IsSpace("bnb"[0]) && !Strings.IsSpace("bnb"[2])
    ensures LowerCase("bnb")
  {
  }

  lemma ExampleCurIdText()
    ensures CurIdText("1", "bnb", "_2") == "1_bnb_2"
  {
  }

  // ---------------------------------------------------------------------------
  // load_server_dataset: token column and serverId
  // ---------------------------------------------------------------------------

  /** The token column derived from `pair`, or from `curId`, when the frame lacks one. */
  function DeriveToken(f: Frame, tokenColumn: string): (r: Frame)
    ensures |r.rows| == |f.rows|
    ensures tokenColumn in Names(f.columns) || ("pair" !in Names(f.columns) && "curId" !in Names(f.columns)) ==> r == f
    ensures tokenColumn !in Names(f.columns) && "pair" in Names(f.columns) ==>
      tokenColumn in Names(r.columns) &&
      forall i :: 0 <= i < |f.rows| ==> Get(r.rows[i], tokenColumn) == TextCell(ExtractTokenFromPair(TextOf(Get(f.rows[i], "pair"))))
    ensures tokenColumn !in Names(f.columns) && "pair" !in Names(f.columns) && "curId" in Names(f.columns) ==>
      tokenColumn in Names(r.columns) &&
      forall i :: 0 <= i < |f.rows| ==> Get(r.rows[i], tokenColumn) == TextCell(TokenFromCurId(TextOf(Get(f.rows[i], "curId"))))
    ensures forall i, n :: 0 <= i < |f.rows| && n != tokenColumn ==> Get(r.rows[i], n) == Get(f.rows[i], n)
  {
    if tokenColumn in Names(f.columns) then f
    else if "pair" in Names(f.columns) then WithColumn(f, tokenColumn, Object, PairTokens(f.rows))
    else if "curId" in Names(f.columns) then WithColumn(f, tokenColumn, Object, CurIdTokens(f.rows))
    else f
  }

  /** `df["pair"].apply(extract_token_from_pair)` */
  function PairTokens(rows: seq<Row>): (r: seq<Cell>)
    ensures |r| == |rows|
    ensures forall i :: 0 <= i < |rows| ==> r[i] == TextCell(ExtractTokenFromPair(TextOf(Get(rows[i], "pair"))))
  {
    seq(|rows|, i requires 0 <= i < |rows| => TextCell(ExtractTokenFromPair(TextOf(Get(rows[i], "pair")))))
  }

  /** `df["curId"].apply(token_from_cur_id)` */
  function CurIdTokens(rows: seq<Row>): (r: seq<Cell>)
    ensures |r| == |rows|
    ensures forall i :: 0 <= i < |rows| ==> r[i] == TextCell(TokenFromCurId(TextOf(Get(rows[i], "curId"))))
  {
    seq(|rows|, i requires 0 <= i < |rows| => TextCell(TokenFromCurId(TextOf(Get(rows[i], "curId")))))
  }

  /** A derived token is lower-case; one from a pair carries no `_` or `/`. */
  lemma DerivedTokensLowerCase(f: Frame, tokenColumn: string, i: nat)
    requires tokenColumn !in Names(f.columns) && ("pair" in Names(f.columns) || "curId" in Names(f.columns))
    requires i < |f.rows|
    ensures var c := Get(DeriveToken(f, tokenColumn).rows[i], tokenColumn);
      c == Null || (c.Text? && LowerCase(c.s))
    ensures "pair" in Names(f.columns) ==>
      var c := Get(DeriveToken(f, tokenColumn).rows[i], tokenColumn);
      c == Null || (c.Text? && '_' !in c.s && '/' !in c.s)
  {
  }

  /** The renamed frame: `serverId_x` becomes `serverId`. */
  function RenameColumn(f: Frame, from: string, to: string): (r: Frame)
    ensures |r.rows| == |f.rows|
    ensures forall i :: 0 <= i < |f.rows| ==> Get(r.rows[i], to) == Get(f.rows[i], from)
    ensures forall i, n :: 0 <= i < |f.rows| && n != from && n != to ==> Get(r.rows[i], n) == Get(f.rows[i], n)
  {
    Frame(
      seq(|f.columns|, j requires 0 <= j < |f.columns| => if f.columns[j].name == from then Column(to, f.columns[j].dtype) else f.columns[j]),
      seq(|f.rows|, i requires 0 <= i < |f.rows| =>
        var row := map n | n in f.rows[i] && n != from && n != to :: f.rows[i][n];
        if from in f.rows[i] then row[to := f.rows[i][from]] else row))
  }

  /**
   * The in-memory part of `load_server_dataset`: an empty frame comes back as
   * it is; otherwise the token column is derived and `serverId` is taken from
   * `serverId_x`, or set to the server's id when the frame has neither.
   */
  function LoadServerDataset(serverId: string, trades: Frame, c: Config.TrainingConfig): (r: Frame)
    ensures |r.rows| == |trades.rows|
    ensures trades.rows == [] ==> r == trades
    ensures trades.rows != [] && "serverId_x" !in Names(trades.columns) && "serverId" !in Names(trades.columns) ==>
      forall i :: 0 <= i < |r.rows| ==> Get(r.rows[i], "serverId") == Text(serverId)
    ensures trades.rows != [] && "serverId_x" in Names(trades.columns) ==>
      forall i :: 0 <= i < |r.rows| ==> Get(r.rows[i], "serverId") == Get(trades.rows[i], "serverId_x")
    ensures "serverId_x" !in Names(trades.columns) && "serverId" in Names(trades.columns) ==>
      forall i :: 0 <= i < |r.rows| ==> Get(r.rows[i], "serverId") == Get(trades.rows[i], "serverId")
    ensures c.tokenColumn != "serverId" && c.tokenColumn != "serverId_x" ==>
      forall i :: 0 <= i < |r.rows| ==> Get(r.rows[i], c.tokenColumn) == Get(DeriveToken(trades, c.tokenColumn).rows[i], c.tokenColumn)
    ensures forall i, n :: 0 <= i < |r.rows| && n != c.tokenColumn && n != "serverId" && n != "serverId_x" ==>
      Get(r.rows[i], n) == Get(trades.rows[i], n)
  {
    if trades.rows == [] then trades
    else
      var t := DeriveToken(trades, c.tokenColumn);
      if "serverId_x" in Names(trades.columns) then RenameColumn(t, "serverId_x", "serverId")
      else if "serverId" !in Names(trades.columns) then
        WithColumn(t, "serverId", Object, seq(|t.rows|, i requires 0 <= i < |t.rows| => Text(serverId)))
      else t
  }

  // ---------------------------------------------------------------------------
  // load_datasets
  // ---------------------------------------------------------------------------

  /** One server's trades as read from its directory. */
  datatype ServerTrades = ServerTrades(serverId: string, trades: Frame)

  /** The columns of `b` whose names are not in `names`, in order. */
  function NewColumns(b: seq<Column>, names: seq<string>): (r: seq<Column>)
    ensures forall n :: n in Names(r) <==> n in Names(b) && n !in names
  {
    if b == [] then []
    else
      var rest := NewColumns(b[1..], names);
      assert Names(b) == [b[0].name] + Names(b[1..]);
      if b[0].name in names then rest
      else
        assert ([b[0]] + rest)[1..] == rest;
        [b[0]] + rest
  }

  /** `pd.concat` columns: those of `a`, then those of `b` not already named. */
  function UnionColumns(a: seq<Column>, b: seq<Column>): (r: seq<Column>)
    ensures forall n :: n in Names(r) <==> n in Names(a) || n in Names(b)
  {
    NamesAppend(a, NewColumns(b, Names(a)));
    a + NewColumns(b, Names(a))
  }

  /** The frame of one server after `trades["serverId"] = server_id`. */
  function Tagged(s: ServerTrades, c: Config.TrainingConfig): (r: Frame)
    ensures |r.rows| == |s.trades.rows|
    ensures forall i :: 0 <= i < |r.rows| ==> Get(r.rows[i], "serverId") == Text(s.serverId)
  {
    var t := LoadServerDataset(s.serverId, s.trades, c);
    WithColumn(t, "serverId", Object, seq(|t.rows|, i requires 0 <= i < |t.rows| => Text(s.serverId)))
  }

  /** The servers of `loaded[..k]` that have trades, in order. */
  function ServerIds(loaded: seq<ServerTrades>, k: nat): (ids: seq<string>)
    requires k <= |loaded|
    ensures |ids| <= k
    ensures forall id :: id in ids <==> exists j :: 0 <= j < k && loaded[j].serverId == id && loaded[j].trades.rows != []
  {
    if k == 0 then []
    else if loaded[k - 1].trades.rows == [] then ServerIds(loaded, k - 1)
    else ServerIds(loaded, k - 1) + [loaded[k - 1].serverId]
  }

  /** The frames `tag` gives the servers of `loaded[..k]` with trades, one after the other. */
  function Gathered(loaded: seq<ServerTrades>, tag: ServerTrades -> Frame, k: nat): Frame
    requires k <= |loaded|
  {
    if k == 0 then Frame([], [])
    else
      var f := Gathered(loaded, tag, k - 1);
      var s := loaded[k - 1];
      if s.trades.rows == [] then f
      else
        var t := tag(s);
        Frame(UnionColumns(f.columns, t.columns), f.rows + t.rows)
  }

  /**
   * `load_datasets` after the per-server loop: the token filter, the
   * regression label with its fallbacks and, for classification, the class
   * label. No trades at all give an empty frame.
   */
  function Finish(f: Frame, c: Config.TrainingConfig, parse: string -> Option<real>): Frame {
    if f.rows == [] then Frame([], [])
    else WithLabels(FilterTokens(f, c), c, parse)
  }

  /**
   * `load_datasets`: the per-server loop appending every non-empty server's
   * trades tagged with its id, then the filter and the labels.
   */
  method LoadDatasets(loaded: seq<ServerTrades>, c: Config.TrainingConfig, parse: string -> Option<real>) returns (combined: Frame, servers: seq<string>)
    ensures combined == Finish(Gathered(loaded, s => Tagged(s, c), |loaded|), c, parse)
    ensures servers == ServerIds(loaded, |loaded|)
  {
    var all := Frame([], []);
    servers := [];
    for k := 0 to |loaded|
      invariant all == Gathered(loaded, s => Tagged(s, c), k)
      invariant servers == ServerIds(loaded, k)
    {
      var s := loaded[k];
      if s.trades.rows == [] {
        continue;
      }
      var trades := Tagged(s, c);
      all := Frame(UnionColumns(all.columns, trades.columns), all.rows + trades.rows);
      servers := servers + [s.serverId];
    }
    combined := Finish(all, c, parse);
  }

  /** The row's `serverId` is the id of one of `ids`. */
  predicate TaggedBy(row: Row, ids: seq<string>) {
    Get(row, "serverId").Text? && Get(row, "serverId").s in ids
  }

  lemma {:induction false} GatheredRowsTagged(loaded: seq<ServerTrades>, tag: ServerTrades -> Frame, k: nat)
    requires k <= |loaded|
    requires forall s, row :: s in loaded && row in tag(s).rows ==> TaggedBy(row, [s.serverId])
    ensures forall row :: row in Gathered(loaded, tag, k).rows ==> TaggedBy(row, ServerIds(loaded, k))
  {
    if k > 0 {
      GatheredRowsTagged(loaded, tag, k - 1);
      var s := loaded[k - 1];
      assert s in loaded;
    }
  }

  /** Every row `load_datasets` gathers carries the `serverId` of a server it was loaded from. */
  lemma LoadedRowsCarryServer(loaded: seq<ServerTrades>, c: Config.TrainingConfig)
    ensures forall row :: row in Gathered(loaded, s => Tagged(s, c), |loaded|).rows ==> TaggedBy(row, ServerIds(loaded, |loaded|))
  {
    forall s, row | s in loaded && row in Tagged(s, c).rows ensures TaggedBy(row, [s.serverId]) {
      var t := Tagged(s, c);
      var i :| 0 <= i < |t.rows| && t.rows[i] == row;
    }
    GatheredRowsTagged(loaded, s => Tagged(s, c), |loaded|);
  }

  // ---------------------------------------------------------------------------
  // Token filter
  // ---------------------------------------------------------------------------

  predicate TokenIn(row: Row, tokenColumn: string, tokens: seq<string>) {
    Get(row, tokenColumn).Text? && Get(row, tokenColumn).s in tokens
  }

  function KeepTokens(rows: seq<Row>, tokenColumn: string, tokens: seq<string>): (r: seq<Row>)
    ensures |r| <= |rows|
    ensures forall row :: row in r <==> row in rows && TokenIn(row, tokenColumn, tokens)
  {
    if rows == [] then []
    else
      assert forall row :: row in rows <==> row == rows[0] || row in rows[1..] by {
        assert rows == [rows[0]] + rows[1..];
      }
      (if TokenIn(rows[0], tokenColumn, tokens) then [rows[0]] else []) + KeepTokens(rows[1..], tokenColumn, tokens)
  }

  /**
   * `combined[token].isin(tokens)` when a non-empty token list is configured
   * and the column exists; otherwise (no list, or a missing column, which is
   * only warned about) the frame is unchanged.
   */
  function FilterTokens(f: Frame, c: Config.TrainingConfig): (r: Frame)
    ensures r.columns == f.columns
    ensures c.tokens.Some? && c.tokens.value != [] && c.tokenColumn in Names(f.columns) ==>
      forall row :: row in r.rows <==> row in f.rows && TokenIn(row, c.tokenColumn, c.tokens.value)
    ensures c.tokens.None? || c.tokens.value == [] || c.tokenColumn !in Names(f.columns) ==> r == f
  {
    if c.tokens.Some? && c.tokens.value != [] && c.tokenColumn in Names(f.columns) then
      Frame(f.columns, KeepTokens(f.rows, c.tokenColumn, c.tokens.value))
    else f
  }

  // ---------------------------------------------------------------------------
  // Labels
  // ---------------------------------------------------------------------------

  /** `pd.to_numeric(column, errors="coerce")`: numbers stay, text is parsed, everything else is missing. */
  function Numbers(rows: seq<Row>, col: string, parse: string -> Option<real>): (r: seq<Option<real>>)
    ensures |r| == |rows|
    ensures forall i :: 0 <= i < |rows| && Get(rows[i], col).Num? ==> r[i] == Some(Get(rows[i], col).n)
    ensures forall i :: 0 <= i < |rows| && Get(rows[i], col).Text? ==> r[i] == parse(Get(rows[i], col).s)
    ensures forall i :: 0 <= i < |rows| && (Get(rows[i], col).Null? || Get(rows[i], col).Time?) ==> r[i].None?
  {
    seq(|rows|, i requires 0 <= i < |rows| => ToNumber(Get(rows[i], col), parse))
  }

  predicate HasValue(xs: seq<Option<real>>) {
    exists i :: 0 <= i < |xs| && xs[i].Some?
  }

  const Fallbacks: seq<string> := ["netProfit", "executedProfit", "executedGrossProfit"]

  /** A column that exists and holds at least one number. */
  predicate Usable(f: Frame, col: string, parse: string -> Option<real>) {
    col in Names(f.columns) && HasValue(Numbers(f.rows, col, parse))
  }

  /** The first usable column of `cols`. */
  function FirstUsable(f: Frame, cols: seq<string>, parse: string -> Option<real>): (r: Option<nat>)
    ensures r.Some? ==> r.value < |cols| && Usable(f, cols[r.value], parse) && forall j :: 0 <= j < r.value ==> !Usable(f, cols[j], parse)
    ensures r.None? ==> forall j :: 0 <= j < |cols| ==> !Usable(f, cols[j], parse)
  {
    if cols == [] then None
    else if Usable(f, cols[0], parse) then Some(0)
    else
      var r := FirstUsable(f, cols[1..], parse);
      if r.Some? then Some(r.value + 1) else None
  }

  /**
   * The regression label: the configured column when it holds a number,
   * otherwise the first fallback column that does, otherwise all missing.
   */
  function RegressionLabel(f: Frame, c: Config.TrainingConfig, parse: string -> Option<real>): (r: seq<Option<real>>)
    ensures |r| == |f.rows|
    ensures Usable(f, c.regressionTarget, parse) ==> r == Numbers(f.rows, c.regressionTarget, parse)
    ensures !Usable(f, c.regressionTarget, parse) && FirstUsable(f, Fallbacks, parse).Some? ==>
      r == Numbers(f.rows, Fallbacks[FirstUsable(f, Fallbacks, parse).value], parse)
    ensures !Usable(f, c.regressionTarget, parse) && FirstUsable(f, Fallbacks, parse).None? ==> !HasValue(r)
  {
    var primary := if c.regressionTarget in Names(f.columns) then Numbers(f.rows, c.regressionTarget, parse) else seq(|f.rows|, i => None);
    if HasValue(primary) then primary
    else
      var k := FirstUsable(f, Fallbacks, parse);
      if k.Some? then Numbers(f.rows, Fallbacks[k.value], parse) else primary
  }

  /** `np.where(label > threshold, 1, 0)`: a missing label compares false and gives 0. */
  function ClassLabel(value: Option<real>, threshold: real): (r: real)
    ensures r == 1.0 <==> value.Some? && value.value > threshold
    ensures r == 0.0 || r == 1.0
  {
    if value.Some? && value.value > threshold then 1.0 else 0.0
  }

  /** The label columns written into the combined frame. */
  function WithLabels(f: Frame, c: Config.TrainingConfig, parse: string -> Option<real>): (r: Frame)
    ensures |r.rows| == |f.rows|
    ensures var labels := RegressionLabel(f, c, parse);
      forall i :: 0 <= i < |f.rows| ==>
        (c.task == "classification" && c.targetColumn != c.regressionTarget ==>
          Get(r.rows[i], c.targetColumn) == Num(ClassLabel(labels[i], c.classificationThreshold))) &&
        (c.task != "classification" || c.targetColumn != c.regressionTarget ==>
          Get(r.rows[i], c.regressionTarget) == NumCell(labels[i]))
  {
    var labels := RegressionLabel(f, c, parse);
    var g := WithColumn(f, c.regressionTarget, Numeric, seq(|f.rows|, i requires 0 <= i < |f.rows| => NumCell(labels[i])));
    if c.task == "classification" then
      WithColumn(g, c.targetColumn, Numeric, seq(|g.rows|, i requires 0 <= i < |g.rows| => Num(ClassLabel(labels[i], c.classificationThreshold))))
    else g
  }

  /** With the defaults a trade whose `label_regression` is positive is labelled 1, every other 0. */
  lemma DefaultClassLabels(f: Frame, i: nat, parse: string -> Option<real>)
    requires i < |f.rows| && Usable(f, "label_regression", parse)
    ensures var r := WithLabels(f, Config.Defaults, parse);
      var x := ToNumber(Get(f.rows[i], "label_regression"), parse);
      Get(r.rows[i], "label_class") == Num(if x.Some? && x.value > 0.0 then 1.0 else 0.0)
  {
  }
}
