/**
 * The alert notifier of one server: per-rule cooldowns kept in a
 * `notification_state` table (state key to the time of the last delivery),
 * channel selection from the configuration, and one `notifications_log` row
 * per attempt.
 *
 * The two tables become the notifier's fields; the Telegram, Slack and e-mail
 * transports are I/O, and whether a delivery throws is a parameter.
 * `Number(...)` and `String(...)` on arbitrary JSON values are parameters too.
 */
module Notifications {
  import opened Wrappers
  import opened JsonValue
  import Strings

  // ---------------------------------------------------------------------------
  // splitList
  // ---------------------------------------------------------------------------

  /** The characters of the `[,;\s]+` separator pattern (ASCII whitespace only). */
  predicate Separator(c: char) {
    c == ',' || c == ';' || Strings.IsSpace(c)
  }

  predicate Word(w: string) {
    forall i :: 0 <= i < |w| ==> !Separator(w[i])
  }

  /** The words of `s` after the current word `current`: maximal runs of non-separators. */
  function WordsFrom(s: string, current: string): (ws: seq<string>)
    requires Word(current)
    ensures forall i :: 0 <= i < |ws| ==> ws[i] != "" && Word(ws[i])
    decreases |s|
  {
    if s == [] then (if current == "" then [] else [current])
    else if Separator(s[0]) then (if current == "" then [] else [current]) + WordsFrom(s[1..], "")
    else WordsFrom(s[1..], current + [s[0]])
  }

  /** `s.split(/[,;\s]+/).map(trim).filter(Boolean)`. */
  function Words(s: string): seq<string> {
    WordsFrom(s, "")
  }

  /** The trimmed, non-empty texts of the items. */
  function TrimmedItems(items: seq<Json>, render: Json -> string): (r: seq<string>)
    ensures forall i :: 0 <= i < |r| ==> r[i] != ""
  {
    if items == [] then []
    else
      var t := Strings.Trim(JsText(items[0], render));
      var head := if t == "" then [] else [t];
      var rest := TrimmedItems(items[1..], render);
      NonEmptyConcat(head, rest);
      head + rest
  }

  lemma NonEmptyConcat(a: seq<string>, b: seq<string>)
    requires forall i :: 0 <= i < |a| ==> a[i] != ""
    requires forall i :: 0 <= i < |b| ==> b[i] != ""
    ensures forall i :: 0 <= i < |a + b| ==> (a + b)[i] != ""
  {
  }

  /**
   * `splitList(value)`: nothing for a falsy value, the trimmed non-empty
   * items of an array, otherwise the words of `String(value)`.
   */
  function SplitList(value: Json, render: Json -> string): (r: seq<string>)
    ensures Falsy(value) ==> r == []
    ensures forall i :: 0 <= i < |r| ==> r[i] != ""
    ensures !value.JArr? ==> forall i :: 0 <= i < |r| ==> Word(r[i])
  {
    if Falsy(value) then []
    else if value.JArr? then TrimmedItems(value.items, render)
    else Words(JsText(value, render))
  }

  lemma {:induction false} WordsFromWord(w: string, rest: string, current: string)
    requires Word(w) && Word(current)
    ensures WordsFrom(w + rest, current) == WordsFrom(rest, current + w)
    decreases |w|
  {
    if w != [] {
      assert (w + rest)[0] == w[0];
      assert (w + rest)[1..] == w[1..] + rest;
      WordsFromWord(w[1..], rest, current + [w[0]]);
      assert current + [w[0]] + w[1..] == current + w;
    } else {
      assert w + rest == rest;
      assert current + w == current;
    }
  }

  /** Words joined by any one separator split back into the same words. */
  lemma {:induction false} WordsOfJoin(parts: seq<string>, c: char)
    requires |parts| >= 1 && Separator(c)
    requires forall i :: 0 <= i < |parts| ==> parts[i] != "" && Word(parts[i])
    ensures Words(Strings.Join(parts, [c])) == parts
  {
    WordsFromWord(parts[0], if |parts| == 1 then "" else [c] + Strings.Join(parts[1..], [c]), "");
    if |parts| == 1 {
      assert parts[0] + "" == parts[0];
      assert "" + parts[0] == parts[0];
    } else {
      var tail := Strings.Join(parts[1..], [c]);
      assert Strings.Join(parts, [c]) == parts[0] + ([c] + tail);
      assert "" + parts[0] == parts[0];
      assert ([c] + tail)[0] == c && ([c] + tail)[1..] == tail;
      WordsOfJoin(parts[1..], c);
      assert parts == [parts[0]] + parts[1..];
    }
  }

  // ---------------------------------------------------------------------------
  // The notifier
  // ---------------------------------------------------------------------------

  datatype Channel = Telegram | Slack | Email

  function Name(ch: Channel): string {
    match ch
    case Telegram => "telegram"
    case Slack => "slack"
    case Email => "email"
  }

  /** The order in which channels are offered. */
  function Rank(ch: Channel): nat {
    match ch
    case Telegram => 0
    case Slack => 1
    case Email => 2
  }

  predicate Truthy(v: Json) {
    !Falsy(v)
  }

  /** `v.key`, with `undefined` read as `null`. */
  function Get(v: Json, key: string): Json {
    var p := Prop(v, key);
    if p.Some? then p.value else JNull
  }

  /** `a || b`. */
  function Or(a: Json, b: Json): Json {
    if Truthy(a) then a else b
  }

  /** A finite positive number of minutes, else 0. */
  function Positive(n: JsNum): (m: real)
    ensures m >= 0.0
    ensures m > 0.0 <==> n.Finite? && n.x > 0.0
    ensures m > 0.0 ==> m == n.x
  {
    if n.Finite? && n.x > 0.0 then n.x else 0.0
  }

  /** `slice(0, n)`. */
  function Take(s: string, n: nat): (r: string)
    ensures |r| <= n && |r| <= |s| && r == s[..|r|]
    ensures |s| <= n ==> r == s
  {
    if |s| <= n then s else s[..n]
  }

  /** `override != null`: present and not `null`. */
  predicate Given(v: Option<Json>) {
    v.Some? && v.value != JNull
  }

  /** Whether the time since `last_sent` of `key` is still inside the cooldown. */
  predicate Throttled(state: map<string, int>, key: string, cooldown: real, now: int) {
    cooldown > 0.0 && key in state && ((now - state[key]) as real) < cooldown * 60000.0
  }

  datatype Status = Sent | Skipped | Failed

  /** A `notifications_log` row (the serialised details and the creation time are not modelled). */
  datatype LogRow = LogRow(rule: string, title: Json, channel: string, status: Status, message: string)

  datatype Payload = Payload(
    uniqueKey: Option<Json>, cooldownMinutes: Option<Json>, channels: Option<Json>,
    title: Option<Json>, message: Option<Json>)

  datatype Outcome = SkippedCooldown | SkippedNoChannels | Results(results: seq<(Channel, Status)>)

  function Value(v: Option<Json>): Json {
    if v.Some? then v.value else JNull
  }

  /** `payload.title || `${ruleKey} alert``. */
  function Title(ruleKey: string, payload: Payload): Json {
    Or(Value(payload.title), JStr(ruleKey + " alert"))
  }

  /** The logged message: `String(payload.message || '')` cut to 2000 characters. */
  function Message(payload: Payload, render: Json -> string): (m: string)
    ensures |m| <= 2000
  {
    Take(JsText(Or(Value(payload.message), JStr("")), render), 2000)
  }

  /** The status a delivery attempt ends with: sent, or failed when the transport throws. */
  function Attempt(ch: Channel, delivered: Channel -> bool): Status {
    if delivered(ch) then Sent else Failed
  }

  /** The log rows of the delivery attempts, in channel order. */
  function AttemptRows(channels: seq<Channel>, ruleKey: string, title: Json, message: string, delivered: Channel -> bool): (rows: seq<LogRow>)
    ensures |rows| == |channels|
    ensures forall i :: 0 <= i < |channels| ==>
      rows[i] == LogRow(ruleKey, title, Name(channels[i]), Attempt(channels[i], delivered), message)
  {
    if channels == [] then []
    else
      var last := channels[|channels| - 1];
      AttemptRows(channels[..|channels| - 1], ruleKey, title, message, delivered)
      + [LogRow(ruleKey, title, Name(last), Attempt(last, delivered), message)]
  }

  function AttemptResults(channels: seq<Channel>, delivered: Channel -> bool): (r: seq<(Channel, Status)>)
    ensures |r| == |channels|
    ensures forall i :: 0 <= i < |channels| ==> r[i] == (channels[i], Attempt(channels[i], delivered))
  {
    if channels == [] then []
    else AttemptResults(channels[..|channels| - 1], delivered) + [(channels[|channels| - 1], Attempt(channels[|channels| - 1], delivered))]
  }

  /** The channels `usable` admits, in offering order. */
  function Offer(usable: Channel -> bool): (r: seq<Channel>)
    ensures forall ch :: ch in r <==> usable(ch)
    ensures forall i, j :: 0 <= i < j < |r| ==> Rank(r[i]) < Rank(r[j])
  {
    var t := if usable(Telegram) then [Telegram] else [];
    var s := if usable(Slack) then [Slack] else [];
    var e := if usable(Email) then [Email] else [];
    assert forall ch :: ch in t + s + e <==> ch in t || ch in s || ch in e;
    assert forall ch :: usable(ch) ==> ch == Telegram || ch == Slack || ch == Email;
    t + s + e
  }

  class Notifier {
    const serverId: string
    /** The configuration (`config || {}`) and the rules (`rules || {}`). */
    const config: Json
    const rules: Json
    /** `notification_state`: the time of the last delivery per state key. */
    var state: map<string, int>
    /** `notifications_log`, oldest row first. */
    var log: seq<LogRow>

    constructor(serverId: string, config: Json, rules: Json)
      ensures this.serverId == serverId
      ensures this.config == Or(config, JObj([])) && this.rules == Or(rules, JObj([]))
      ensures state == map[] && log == []
    {
      this.serverId := serverId;
      this.config := Or(config, JObj([]));
      this.rules := Or(rules, JObj([]));
      state := map[];
      log := [];
    }

    /** The rule's settings object, `{}` when missing or not an object (an array has none of the settings either). */
    function RuleConfig(ruleKey: string): (cfg: Json)
      ensures cfg.JObj?
    {
      var cfg := Get(rules, ruleKey);
      if cfg.JObj? then cfg else JObj([])
    }

    /**
     * `resolveCooldownMinutes`: the override when given, else the rule's
     * `cooldownMinutes`, else its `cooldown`; a value that is not a finite
     * positive number means no cooldown.
     */
    function ResolveCooldownMinutes(ruleKey: string, override: Option<Json>, number: Json -> JsNum): (m: real)
      ensures m >= 0.0
      ensures Given(override) ==> (m > 0.0 <==> number(override.value).Finite? && number(override.value).x > 0.0)
      ensures Given(override) && m > 0.0 ==> m == number(override.value).x
      ensures !Given(override) ==>
        var cfg := RuleConfig(ruleKey);
        var raw := if Given(Prop(cfg, "cooldownMinutes")) then Prop(cfg, "cooldownMinutes") else Prop(cfg, "cooldown");
        m == Positive(NumberOf(raw, number))
    {
      if Given(override) then Positive(number(override.value))
      else
        var cfg := RuleConfig(ruleKey);
        var raw := if Given(Prop(cfg, "cooldownMinutes")) then Prop(cfg, "cooldownMinutes") else Prop(cfg, "cooldown");
        Positive(NumberOf(raw, number))
    }

    /** Whether a channel's settings make it usable. */
    predicate Configured(ch: Channel, render: Json -> string) {
      match ch
      case Telegram =>
        var t := Get(config, "telegram");
        Truthy(Get(t, "enabled")) && Truthy(Get(t, "botToken")) && Truthy(Get(t, "chatId"))
      case Slack =>
        var s := Get(config, "slack");
        Truthy(Get(s, "enabled")) && Truthy(Get(s, "webhookUrl"))
      case Email =>
        var e := Get(config, "email");
        Truthy(Get(e, "enabled")) && Truthy(Get(e, "smtpHost")) && Truthy(Get(e, "from"))
          && |SplitList(Or(Get(e, "to"), Get(e, "recipients")), render)| > 0
    }

    /** Whether the caller's channel list admits `ch`: a non-empty array must name it. */
    static predicate Requested(requested: Json, ch: Channel) {
      !(requested.JArr? && |requested.items| > 0) || JStr(Name(ch)) in requested.items
    }

    /**
     * `resolveChannels`: the configured channels in the order Telegram,
     * Slack, e-mail, narrowed to the requested ones when a non-empty array is
     * given.
     */
    function ResolveChannels(requested: Json, render: Json -> string): (r: seq<Channel>)
      ensures forall ch :: ch in r <==> Configured(ch, render) && Requested(requested, ch)
      ensures forall i, j :: 0 <= i < j < |r| ==> Rank(r[i]) < Rank(r[j])
    {
      Offer(ch => Configured(ch, render) && Requested(requested, ch))
    }

    /** `makeStateKey`: `serverId:ruleKey:suffix`, the suffix being `String(uniqueKey)` or `default`. */
    function MakeStateKey(ruleKey: string, uniqueKey: Option<Json>, render: Json -> string): (key: string)
      ensures Strings.StartsWith(key, serverId + ":" + ruleKey + ":")
      ensures key[|serverId + ":" + ruleKey + ":"|..] == Suffix(uniqueKey, render)
    {
      serverId + ":" + ruleKey + ":" + Suffix(uniqueKey, render)
    }

    static function Suffix(uniqueKey: Option<Json>, render: Json -> string): string {
      if uniqueKey.Some? && Truthy(uniqueKey.value) then JsText(uniqueKey.value, render) else "default"
    }

    /** `isUnderCooldown` on the current state. */
    function IsUnderCooldown(stateKey: string, cooldownMinutes: real, now: int): (b: bool)
      reads this
      ensures b <==> Throttled(state, stateKey, cooldownMinutes, now)
      ensures cooldownMinutes <= 0.0 || stateKey !in state ==> !b
    {
      cooldownMinutes > 0.0 && stateKey in state && ((now - state[stateKey]) as real) < cooldownMinutes * 60000.0
    }

    /** `recordState`: an upsert of the key's last delivery time. */
    method RecordState(stateKey: string, timestamp: int)
      modifies this
      ensures state == old(state)[stateKey := timestamp]
      ensures log == old(log)
    {
      state := state[stateKey := timestamp];
    }

    /** `logNotification`: appends one row. */
    method LogNotification(row: LogRow)
      modifies this
      ensures log == old(log) + [row]
      ensures state == old(state)
    {
      log := log + [row];
    }

    /**
     * `notify`: nothing happens under cooldown; with no usable channel one
     * skipped row is logged and no state is recorded; otherwise every channel
     * is attempted with one row each and the delivery time is recorded once,
     * whatever the attempts' outcomes.
     */
    method Notify(ruleKey: string, payload: Payload, now: int, render: Json -> string, number: Json -> JsNum, delivered: Channel -> bool)
      returns (outcome: Outcome)
      modifies this
      ensures var key := MakeStateKey(ruleKey, payload.uniqueKey, render);
        var cooldown := ResolveCooldownMinutes(ruleKey, payload.cooldownMinutes, number);
        var channels := ResolveChannels(Value(payload.channels), render);
        var title, message := Title(ruleKey, payload), Message(payload, render);
        if Throttled(old(state), key, cooldown, now) then
          outcome == SkippedCooldown && state == old(state) && log == old(log)
        else if channels == [] then
          outcome == SkippedNoChannels && state == old(state) &&
          log == old(log) + [LogRow(ruleKey, title, "system", Skipped, message)]
        else
          outcome == Results(AttemptResults(channels, delivered)) &&
          state == old(state)[key := now] &&
          log == old(log) + AttemptRows(channels, ruleKey, title, message, delivered)
    {
      var key := MakeStateKey(ruleKey, payload.uniqueKey, render);
      var cooldown := ResolveCooldownMinutes(ruleKey, payload.cooldownMinutes, number);
      if IsUnderCooldown(key, cooldown, now) {
        return SkippedCooldown;
      }
      var channels := ResolveChannels(Value(payload.channels), render);
      var title := Title(ruleKey, payload);
      var message := Message(payload, render);
      if |channels| == 0 {
        LogNotification(LogRow(ruleKey, title, "system", Skipped, message));
        return SkippedNoChannels;
      }
      var results := Deliver(channels, ruleKey, title, message, delivered);
      RecordState(key, now);
      outcome := Results(results);
    }

    /** Attempts every channel in order, logging one row per attempt. */
    method Deliver(channels: seq<Channel>, ruleKey: string, title: Json, message: string, delivered: Channel -> bool)
      returns (results: seq<(Channel, Status)>)
      modifies this
      ensures results == AttemptResults(channels, delivered)
      ensures log == old(log) + AttemptRows(channels, ruleKey, title, message, delivered)
      ensures state == old(state)
    {
      results := [];
      for i := 0 to |channels|
        invariant results == AttemptResults(channels[..i], delivered)
        invariant log == old(log) + AttemptRows(channels[..i], ruleKey, title, message, delivered)
        invariant state == old(state)
      {
        var status := if delivered(channels[i]) then Sent else Failed;
        LogNotification(LogRow(ruleKey, title, Name(channels[i]), status, message));
        results := results + [(channels[i], status)];
        assert channels[..i + 1][..i] == channels[..i];
      }
      assert channels[..|channels|] == channels;
    }
  }

  // ---------------------------------------------------------------------------
  // Properties of the cooldown state
  // ---------------------------------------------------------------------------

  /** Right after a delivery is recorded, the same key is throttled for the whole cooldown, and free once it has passed. */
  lemma CooldownAfterDelivery(state: map<string, int>, key: string, sent: int, cooldown: real, later: int)
    requires cooldown > 0.0 && sent <= later
    ensures Throttled(state[key := sent], key, cooldown, later) <==> ((later - sent) as real) < cooldown * 60000.0
  {
  }

  /** Recording one key's delivery leaves every other key's cooldown as it was. */
  lemma OtherKeysUnaffected(state: map<string, int>, key: string, sent: int, other: string, cooldown: real, now: int)
    requires other != key
    ensures Throttled(state[key := sent], other, cooldown, now) == Throttled(state, other, cooldown, now)
  {
  }

  /** Different unique keys of the same rule give different state keys, so their cooldowns are independent. */
  lemma StateKeysSeparate(n: Notifier, ruleKey: string, a: Option<Json>, b: Option<Json>, render: Json -> string)
    requires Notifier.Suffix(a, render) != Notifier.Suffix(b, render)
    ensures n.MakeStateKey(ruleKey, a, render) != n.MakeStateKey(ruleKey, b, render)
  {
    var prefix := n.serverId + ":" + ruleKey + ":";
    assert n.MakeStateKey(ruleKey, a, render)[|prefix|..] != n.MakeStateKey(ruleKey, b, render)[|prefix|..];
  }

  /** A unique key spelled `default` shares its state with alerts that give none. */
  lemma DefaultKeyShared(n: Notifier, ruleKey: string, render: Json -> string)
    ensures n.MakeStateKey(ruleKey, Some(JStr("default")), render) == n.MakeStateKey(ruleKey, None, render)
  {
  }
}
