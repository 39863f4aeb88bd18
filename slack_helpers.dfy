/** Thread detection, parent-message lookup and `lead_id` extraction shared by
    the slash-command handlers (`slack_bot/utils/slack_helpers.py`). */
module SlackHelpers {
  import opened Base
  import opened Text
  import opened Json
  import opened Slack

  /** `is_thread(body)`: the body carries `thread_ts`, or its `message` does. */
  predicate IsThread(body: CommandBody) {
    body.threadTs.Some? || (body.message.Some? && body.message.value.threadTs.Some?)
  }

  /** The timestamp `get_parent_message` asks the history for: the top-level
      `thread_ts` when the body has one, else `message.thread_ts`, else none,
      so there is one exactly when `IsThread` holds. */
  function ParentTs(body: CommandBody): (r: Option<string>)
    ensures r.Some? <==> IsThread(body)
    ensures body.threadTs.Some? ==> r == body.threadTs
    ensures body.threadTs.None? && r.Some? ==> r == body.message.value.threadTs
  {
    if body.threadTs.Some? then body.threadTs
    else if body.message.Some? && body.message.value.threadTs.Some? then body.message.value.threadTs
    else None
  }

  /** `get_parent_message(client, body)`: the first message the history
      returns for the parent timestamp; none outside a thread, when the call
      fails, or when it returns no message. */
  function ParentMessage(body: CommandBody, history: History): (r: Option<Message>)
    ensures r.Some? ==> IsThread(body)
    ensures r.Some? <==>
      ParentTs(body).Some? && history(body.channelId, ParentTs(body).value).Some?
      && history(body.channelId, ParentTs(body).value).value != []
    ensures r.Some? ==> r.value == history(body.channelId, ParentTs(body).value).value[0]
  {
    match ParentTs(body)
    case None => None
    case Some(ts) =>
      match history(body.channelId, ts)
      case None => None
      case Some(messages) => if messages == [] then None else Some(messages[0])
  }

  /** `body.get("thread_ts") or body["message"]["thread_ts"]`: a falsy
      top-level `thread_ts` falls through to the nested one, and a missing
      key raises `KeyError`. */
  function ThreadTsOf(body: CommandBody): (r: Result<string>)
    ensures body.threadTs.Some? && body.threadTs.value != "" ==> r == Ok(body.threadTs.value)
    ensures r.Raise? <==>
      (body.threadTs.None? || body.threadTs.value == "")
      && (body.message.None? || body.message.value.threadTs.None?)
    ensures r.Ok? && (body.threadTs.None? || body.threadTs.value == "") ==>
      r.value == body.message.value.threadTs.value
  {
    if body.threadTs.Some? && body.threadTs.value != "" then Ok(body.threadTs.value)
    else if body.message.None? then Raise("'message'")
    else if body.message.value.threadTs.None? then Raise("'thread_ts'")
    else Ok(body.message.value.threadTs.value)
  }

  /** In a thread the reply goes to the same thread the parent was fetched
      for, unless the top-level `thread_ts` is the empty string. */
  lemma ThreadTsMatchesParent(body: CommandBody)
    requires IsThread(body)
    requires body.threadTs != Some("")
    ensures ThreadTsOf(body) == Ok(ParentTs(body).value)
  {
  }

  /** `\w` in the fallback pattern, for ASCII text (see README). */
  predicate IsWordChar(c: char) {
    IsAsciiAlnum(c) || c == '_'
  }

  /** Length of the longest prefix of `s` free of `"`: what `[^"]+` consumes. */
  function QuoteFreeRun(s: string): (n: nat)
    ensures n <= |s|
    ensures forall i :: 0 <= i < n ==> s[i] != '"'
    ensures n < |s| ==> s[n] == '"'
  {
    if s == [] || s[0] == '"' then 0 else 1 + QuoteFreeRun(s[1..])
  }

  /** Length of the longest prefix of `s` made of word characters: what `\w+`
      consumes. */
  function WordRun(s: string): (n: nat)
    ensures n <= |s|
    ensures forall i :: 0 <= i < n ==> IsWordChar(s[i])
    ensures n < |s| ==> !IsWordChar(s[n])
  {
    if s == [] || !IsWordChar(s[0]) then 0 else 1 + WordRun(s[1..])
  }

  /** The two fallback patterns: `"lead_id"\s*:\s*"([^"]+)"` and
      `"lead_id"\s*:\s*(\w+)`. */
  datatype Pattern = Quoted | Unquoted

  const LeadIdKey: string := "\"lead_id\""

  /** The group the pattern captures when it matches `s` starting at `i`.
      Neither `\s*` can give back characters to a later part of the pattern
      (`:`, `"` and word characters are not whitespace), and `[^"]+` and `\w+`
      are greedy, so there is at most one match at each position. */
  function MatchAt(s: string, i: nat, p: Pattern): (r: Option<string>)
    requires i <= |s|
    ensures r.Some? ==> r.value != [] && OccursAt(s, LeadIdKey, i)
    ensures r.Some? && p.Quoted? ==> forall k :: 0 <= k < |r.value| ==> r.value[k] != '"'
    ensures r.Some? && p.Unquoted? ==> forall k :: 0 <= k < |r.value| ==> IsWordChar(r.value[k])
  {
    if !OccursAt(s, LeadIdKey, i) then None
    else
      var a := i + |LeadIdKey|;
      var b := a + LeadingRun(s[a..], true);
      if b == |s| || s[b] != ':' then None
      else
        MatchValue(s, b + 1 + LeadingRun(s[b + 1..], true), p)
  }

  /** The group captured from position `c` on, after the colon and the
      whitespace following it: a double-quoted run without `"`, or a run of
      word characters. */
  function MatchValue(s: string, c: nat, p: Pattern): (r: Option<string>)
    requires c <= |s|
    ensures r.Some? ==> r.value != []
    ensures r.Some? && p.Quoted? ==> forall k :: 0 <= k < |r.value| ==> r.value[k] != '"'
    ensures r.Some? && p.Unquoted? ==> forall k :: 0 <= k < |r.value| ==> IsWordChar(r.value[k])
  {
    match p
    case Quoted =>
      if c == |s| || s[c] != '"' then None
      else
        var n := QuoteFreeRun(s[c + 1..]);
        if n == 0 || c + 1 + n == |s| then None
        else Some(s[c + 1..c + 1 + n])
    case Unquoted =>
      var n := WordRun(s[c..]);
      if n == 0 then None else Some(s[c..c + n])
  }

  /** `re.search(pattern, s[from:])`'s group 1: the match at the leftmost
      position from `from` on where the pattern matches. */
  function SearchFrom(s: string, from: nat, p: Pattern): (r: Option<string>)
    requires from <= |s|
    ensures r.Some? ==>
      exists i :: (from <= i <= |s| && MatchAt(s, i, p) == r
                   && forall j :: from <= j < i ==> MatchAt(s, j, p).None?)
    ensures r.None? ==> forall i :: from <= i <= |s| ==> MatchAt(s, i, p).None?
    decreases |s| - from
  {
    var here := MatchAt(s, from, p);
    if here.Some? then here
    else if from == |s| then None
    else SearchFrom(s, from + 1, p)
  }

  /** `re.search(pattern, s)`'s group 1, when there is a match. */
  function Search(s: string, p: Pattern): (r: Option<string>)
    ensures r.Some? ==> r.value != []
    ensures r.Some? && p.Quoted? ==> forall k :: 0 <= k < |r.value| ==> r.value[k] != '"'
    ensures r.Some? && p.Unquoted? ==> forall k :: 0 <= k < |r.value| ==> IsWordChar(r.value[k])
    ensures r.Some? ==> Contains(s, LeadIdKey)
  {
    var r := SearchFrom(s, 0, p);
    if r.Some? then
      var i :| 0 <= i <= |s| && MatchAt(s, i, p) == r;
      assert OccursAt(s, LeadIdKey, i);
      r
    else r
  }

  /** The JSON stage of `get_lead_id_from_message`: `data["lead_id"]` when
      the text decodes to a value holding that key; nothing when it does not
      decode or lacks the key. Any other error of `in` or `[]` (a decoded
      number, say) is not a `JSONDecodeError` and propagates. */
  function JsonLeadId(d: Decoded): (r: Result<Option<Value>>)
    ensures d.DecodeError? ==> r == Ok(None)
    ensures d.Parsed? && d.value.Obj? && Lookup(d.value.fields, "lead_id").Some? ==>
      r == Ok(Some(Lookup(d.value.fields, "lead_id").value))
    ensures d.Parsed? && d.value.Obj? && Lookup(d.value.fields, "lead_id").None? ==> r == Ok(None)
  {
    match d
    case DecodeError(_) => Ok(None)
    case Parsed(data) =>
      match In("lead_id", data)
      case Raise(e) => Raise(e)
      case Ok(found) =>
        if !found then Ok(None)
        else
          match Subscript(data, "lead_id")
          case Raise(e) => Raise(e)
          case Ok(v) => Ok(Some(v))
  }

  /** The two regular-expression stages: the quoted pattern first, the
      unquoted one only when the quoted one finds nothing. */
  function RegexLeadId(text: string): (r: Option<Value>)
    ensures Search(text, Quoted).Some? ==> r == Some(Str(Search(text, Quoted).value))
    ensures Search(text, Quoted).None? ==>
      r == (if Search(text, Unquoted).Some? then Some(Str(Search(text, Unquoted).value)) else None)
  {
    match Search(text, Quoted)
    case Some(x) => Some(Str(x))
    case None =>
      match Search(text, Unquoted)
      case Some(w) => Some(Str(w))
      case None => None
  }

  /** `get_lead_id_from_message(message)` with `json.loads` as `decode`. */
  function LeadIdFromMessage(message: Option<Message>, decode: Decoder): (r: Result<Option<Value>>)
    ensures message.None? ==> r == Ok(None)
    ensures message.Some? && JsonLeadId(decode(TextOf(message.value))).Raise? ==>
      r == JsonLeadId(decode(TextOf(message.value)))
  {
    match message
    case None => Ok(None)
    case Some(m) =>
      var text := TextOf(m);
      match JsonLeadId(decode(text))
      case Raise(e) => Raise(e)
      case Ok(found) =>
        if found.Some? then Ok(found) else Ok(RegexLeadId(text))
  }

  /** A text that decodes to a dict with `lead_id` yields that value, whatever
      the regular expressions would find. */
  lemma JsonTakesPrecedence(m: Message, decode: Decoder, fields: seq<(string, Value)>)
    requires decode(TextOf(m)) == Parsed(Obj(fields))
    requires Lookup(fields, "lead_id").Some?
    ensures LeadIdFromMessage(Some(m), decode) == Ok(Some(Lookup(fields, "lead_id").value))
  {
  }

  /** A string result is a regular-expression capture: non-empty, and either
      the quoted capture (free of `"`) or, when the quoted pattern found
      nothing, the unquoted capture (word characters only). */
  lemma RegexResultShape(m: Message, decode: Decoder, x: string)
    requires JsonLeadId(decode(TextOf(m))) == Ok(None)
    requires LeadIdFromMessage(Some(m), decode) == Ok(Some(Str(x)))
    ensures x != []
    ensures Search(TextOf(m), Quoted).Some? ==>
      Search(TextOf(m), Quoted) == Some(x) && forall k :: 0 <= k < |x| ==> x[k] != '"'
    ensures Search(TextOf(m), Quoted).None? ==>
      Search(TextOf(m), Unquoted) == Some(x) && forall k :: 0 <= k < |x| ==> IsWordChar(x[k])
  {
  }

  /** Nothing is found exactly when the JSON stage finds nothing and neither
      pattern matches anywhere. */
  lemma NoneWhenNothingMatches(m: Message, decode: Decoder)
    ensures LeadIdFromMessage(Some(m), decode) == Ok(None) <==>
      JsonLeadId(decode(TextOf(m))) == Ok(None)
      && Search(TextOf(m), Quoted).None? && Search(TextOf(m), Unquoted).None?
  {
  }

  /** Every pattern match needs the quoted key, so a text without the
      substring `"lead_id"` that does not decode yields nothing. */
  lemma NoKeyNoRegexMatch(text: string)
    requires !Contains(text, LeadIdKey)
    ensures RegexLeadId(text).None?
  {
  }
}
