/** The `/escalate` command (`slack_bot/handlers/escalate.py`): a private
    channel per escalated lead, a summary of the lead's thread posted there,
    and the escalation recorded on the lead's row. */
module Escalate {
  import opened Base
  import opened Text
  import opened Json
  import opened Store
  import opened Slack
  import opened SlackHelpers
  import opened Common

  function ErrorReply(e: string): string {
    "⚠️ An error occurred while processing the escalation: " + e
  }

  function ChannelErrorReply(e: string): string {
    "⚠️ Error creating escalation channel: " + e
  }

  const NotFoundReply: string := "⚠️ Could not find lead data in the database."

  /** The text of the error `None.split()` raises. */
  const NullNameError: string := "'NoneType' object has no attribute 'split'"

  /** The last whitespace-separated word of the lead name, or "unknown" for a
      blank name. */
  function LastName(name: string): (r: string)
    ensures AllSpace(name) ==> r == "unknown"
    ensures !AllSpace(name) ==> r == LastWord(name) && r != []
    ensures !AllSpace(name) ==> forall i :: 0 <= i < |r| ==> !IsSpace(r[i])
  {
    var words := Split(name);
    SplitLast(name);
    if |words| > 0 then words[|words| - 1] else "unknown"
  }

  /** `[a-z0-9]`. */
  predicate IsLowerAlnum(c: char) {
    ('a' <= c <= 'z') || ('0' <= c <= '9')
  }

  /** `re.sub(r'[^a-zA-Z0-9]', '', s)`: the ASCII letters and digits of `s`,
      in order. */
  function KeepAlnum(s: string): (r: string)
    ensures |r| <= |s|
    ensures forall i :: 0 <= i < |r| ==> IsAsciiAlnum(r[i])
    ensures (forall i :: 0 <= i < |s| ==> IsAsciiAlnum(s[i])) ==> r == s
  {
    if s == [] then []
    else
      var rest := KeepAlnum(s[1..]);
      if IsAsciiAlnum(s[0]) then [s[0]] + rest else rest
  }

  /** One character is kept exactly when it is a letter or a digit. */
  lemma KeepAlnumChar(c: char)
    ensures KeepAlnum([c]) == (if IsAsciiAlnum(c) then [c] else [])
  {
    assert [c][1..] == [];
  }

  /** Each part of a text keeps its own letters and digits, in order, so
      together with the one-character case every letter and digit of the
      input survives. */
  lemma {:induction false} KeepAlnumAppend(a: string, b: string)
    ensures KeepAlnum(a + b) == KeepAlnum(a) + KeepAlnum(b)
    decreases |a|
  {
    if a != [] {
      assert (a + b)[0] == a[0] && (a + b)[1..] == a[1..] + b;
      KeepAlnumAppend(a[1..], b);
    } else {
      assert a + b == b;
    }
  }

  /** The last name as it goes into the channel name: letters and digits
      only, lower-cased. */
  function Sanitize(s: string): (r: string)
    ensures |r| <= |s|
    ensures forall i :: 0 <= i < |r| ==> IsLowerAlnum(r[i])
  {
    var kept := KeepAlnum(s);
    var r := Lower(kept);
    assert forall i :: 0 <= i < |r| ==> r[i] == LowerChar(kept[i]);
    r
  }

  /** A name already made of `[a-z0-9]` is kept as it is, so sanitising
      twice changes nothing more. */
  lemma {:induction false} SanitizeIdempotent(s: string)
    ensures Sanitize(s) == s <==> forall i :: 0 <= i < |s| ==> IsLowerAlnum(s[i])
    ensures Sanitize(Sanitize(s)) == Sanitize(s)
  {
    if forall i :: 0 <= i < |s| ==> IsLowerAlnum(s[i]) {
      assert KeepAlnum(s) == s;
      assert Lower(s) == s;
    }
    var once := Sanitize(s);
    assert KeepAlnum(once) == once;
    assert Lower(once) == once;
  }

  /** `lead_id[-4:]`, printed: the last four characters of a string id (all
      of a shorter one), the repr of the last four members of a list; a dict
      or a scalar cannot be sliced. */
  function IdTail(v: Value): (r: Result<string>)
    ensures v.Str? ==> r.Ok? && |r.value| == (if |v.s| < 4 then |v.s| else 4)
                       && v.s[|v.s| - |r.value|..] == r.value
    ensures r.Ok? <==> v.Str? || v.Arr?
    ensures v.Obj? ==> r == Raise("unhashable type: 'slice'")
  {
    match v
    case Str(s) => Ok(if |s| < 4 then s else s[|s| - 4..])
    case Arr(items) => Ok(Repr(Arr(if |items| < 4 then items else items[|items| - 4..])))
    case Obj(_) => Raise("unhashable type: 'slice'")
    case _ => Raise("'" + TypeName(v) + "' object is not subscriptable")
  }

  /** `s[:n]`. */
  function Take(s: string, n: nat): (r: string)
    ensures |r| <= n && |r| <= |s|
    ensures r == s[..|r|]
    ensures |s| <= n ==> r == s
    ensures |s| > n ==> |r| == n
  {
    if |s| <= n then s else s[..n]
  }

  const ChannelPrefix: string := "deal-"

  /** The private channel's name: "deal-", the last name, "-" and the id
      tail, cut to 21 characters. */
  function ChannelName(lastName: string, tail: string): (r: string)
    ensures |r| <= 21
    ensures |r| >= |ChannelPrefix| && r[..|ChannelPrefix|] == ChannelPrefix
    ensures |ChannelPrefix + lastName + "-" + tail| <= 21 ==> r == ChannelPrefix + lastName + "-" + tail
    ensures |ChannelPrefix + lastName + "-" + tail| > 21 ==> r == (ChannelPrefix + lastName + "-" + tail)[..21]
  {
    var full := ChannelPrefix + lastName + "-" + tail;
    var r := Take(full, 21);
    assert full[..|ChannelPrefix|] == ChannelPrefix;
    assert r[..|ChannelPrefix|] == full[..|ChannelPrefix|];
    r
  }

  /** Every character the name contributes is `[a-z0-9]`, and it is
      followed by the separator when the whole name fits. */
  lemma ChannelNameOfLead(name: string, tail: string)
    requires |Sanitize(LastName(name))| + |tail| <= 15
    ensures var last := Sanitize(LastName(name));
      && ChannelName(last, tail)[|ChannelPrefix| + |last|] == '-'
      && ChannelName(last, tail)[|ChannelPrefix|..|ChannelPrefix| + |last|] == last
  {
    var last := Sanitize(LastName(name));
    var full := ChannelPrefix + last + "-" + tail;
    assert full[|ChannelPrefix| + |last|] == '-';
    assert full[|ChannelPrefix|..|ChannelPrefix| + |last|] == last;
  }

  /** Whatever comes before it, a word after a space is the last name. */
  lemma LastNameOfTwoWords(first: string, last: string)
    requires last != []
    requires forall i :: 0 <= i < |last| ==> !IsSpace(last[i])
    ensures LastName(first + " " + last) == last
  {
    var s := first + " " + last;
    var r := " " + last;
    assert s == first + r;
    assert !IsSpace(r[1]);
    LastWordAppend(first, r, 1);
    assert r == " " + last + "";
    LastWordSingle(" ", last, "");
    assert !AllSpace(s) by { assert s[|first| + 1] == last[0]; }
  }

  /** Any name whose last word is "Lead", the default full name
      "Unknown Lead" among them, gives the last name "lead". */
  lemma LeadSurname(first: string, last: string)
    requires last == "Lead"
    ensures Sanitize(LastName(first + " " + last)) == "lead"
  {
    assert LastName(first + " " + last) == last by {
      assert forall i :: 0 <= i < |last| ==> !IsSpace(last[i]);
      LastNameOfTwoWords(first, last);
    }
    assert Sanitize(last) == "lead" by {
      assert KeepAlnum(last) == last;
      assert Lower(last) == "lead";
    }
  }

  /** The channel of a lead whose last name is "lead" starts "deal-lead-". */
  lemma LeadChannelPrefix(lastName: string, tail: string)
    requires lastName == "lead"
    ensures var r := ChannelName(lastName, tail);
      |r| >= 10 && r[..10] == "deal-lead-"
  {
    var full := ChannelPrefix + lastName + "-" + tail;
    assert full[..10] == "deal-lead-";
    assert Take(full, 21)[..10] == full[..10];
  }

  /** The first post in the new channel. */
  function InitialText(leadName: string, leadId: Value, userId: string): string {
    "🔔 *Escalated Lead: " + leadName + "* (ID: " + PyStr(leadId) + ")\n\nEscalated by <@" + userId + ">"
  }

  const SalesManagers: string := "@sales-managers"

  const SalesManagersNote: string := "ℹ️ Please add relevant sales managers to this channel."

  function ConfirmText(userId: string, channelId: string): string {
    "🔔 This lead has been escalated by <@" + userId + "> to a private channel <#" + channelId + ">"
  }

  const SummaryHeader: string := "*Lead Thread Summary*\n\n"

  /** `datetime.fromtimestamp(float(ts)).strftime(...)`, which depends on the
      host's time zone; `None` when the timestamp does not parse. */
  type FormatTs = string -> Option<string>

  /** One message of the thread in the summary: the author's real name (or a
      mention when the lookup fails, "Unknown" for a message without a
      user), the formatted time (or the raw timestamp), and the text. */
  function SummaryEntry(m: Message, users: Users, formatTs: FormatTs): string {
    var user := match m.user case Some(u) => u case None => "Unknown";
    var userName := match users(user) case Ok(n) => n case Raise(_) => "<@" + user + ">";
    var time := match formatTs(m.ts) case Some(t) => t case None => m.ts;
    "*" + userName + "* (" + time + "):\n" + TextOf(m) + "\n\n"
  }

  function SummaryEntries(ms: seq<Message>, users: Users, formatTs: FormatTs): (r: seq<string>)
    ensures |r| == |ms|
    ensures forall k :: 0 <= k < |ms| ==> r[k] == SummaryEntry(ms[k], users, formatTs)
  {
    seq(|ms|, k requires 0 <= k < |ms| => SummaryEntry(ms[k], users, formatTs))
  }

  /** The summary of a thread: the header, then one entry per message. */
  function Summary(ms: seq<Message>, users: Users, formatTs: FormatTs): string {
    SummaryHeader + Concat(SummaryEntries(ms, users, formatTs))
  }

  /** The summary follows the thread's order: the summary of a thread split
      in two is the summary of the first part followed by the entries of
      the second. */
  lemma SummaryOrder(a: seq<Message>, b: seq<Message>, users: Users, formatTs: FormatTs)
    ensures Summary(a + b, users, formatTs)
         == Summary(a, users, formatTs) + Concat(SummaryEntries(b, users, formatTs))
  {
    var ea := SummaryEntries(a, users, formatTs);
    var eb := SummaryEntries(b, users, formatTs);
    assert SummaryEntries(a + b, users, formatTs) == ea + eb;
    ConcatAppend(ea, eb);
  }

  /** Every message contributes its entry, and the summary starts with the
      header. */
  lemma SummaryShape(ms: seq<Message>, m: Message, users: Users, formatTs: FormatTs)
    ensures Summary(ms + [m], users, formatTs) == Summary(ms, users, formatTs) + SummaryEntry(m, users, formatTs)
    ensures Summary([], users, formatTs) == SummaryHeader
  {
    SummaryOrder(ms, [m], users, formatTs);
    assert Concat([SummaryEntry(m, users, formatTs)]) == [] + SummaryEntry(m, users, formatTs);
    assert SummaryEntries([], users, formatTs) == [];
  }

  /** The summary built as `handle_escalate_command` builds it, one
      `summary +=` per thread message. */
  method BuildSummary(ms: seq<Message>, users: Users, formatTs: FormatTs) returns (summary: string)
    ensures summary == Summary(ms, users, formatTs)
  {
    summary := SummaryHeader;
    var i := 0;
    while i < |ms|
      invariant 0 <= i <= |ms|
      invariant summary == Summary(ms[..i], users, formatTs)
    {
      SummaryShape(ms[..i], ms[i], users, formatTs);
      assert ms[..i + 1] == ms[..i] + [ms[i]];
      summary := summary + SummaryEntry(ms[i], users, formatTs);
      i := i + 1;
    }
    assert ms[..i] == ms;
  }

  /** The columns an escalation writes. */
  function EscalatePatch(userId: string, channelId: string, now: string): (p: Patch)
    ensures p.Keys == {Status, EscalatedBy, EscalatedAt, EscalatedChannel, LastActivity}
    ensures p[Status] == Some("Escalated") && p[EscalatedBy] == Some(userId)
    ensures p[EscalatedChannel] == Some(channelId)
  {
    map[Status := Some("Escalated"), EscalatedBy := Some(userId), EscalatedAt := Some(now),
        EscalatedChannel := Some(channelId), LastActivity := Some(now)]
  }

  /** The escalated row records the escalation and keeps its other columns;
      every other row is unchanged. */
  lemma {:induction false} EscalationRecorded(rows: map<string, Row>, key: string, userId: string, channelId: string, now: string)
    requires key in rows
    ensures var r := UpdateRows(rows, key, EscalatePatch(userId, channelId, now));
      && r.Keys == rows.Keys
      && r[key][Status] == "Escalated" && r[key][EscalatedBy] == userId
      && r[key][EscalatedChannel] == channelId && r[key][EscalatedAt] == now
      && (forall c :: c in rows[key] && c !in EscalatePatch(userId, channelId, now) ==> r[key][c] == rows[key][c])
      && (forall k :: k in rows && k != key ==> r[k] == rows[k])
  {
    var p := EscalatePatch(userId, channelId, now);
    var r := UpdateRows(rows, key, p);
    assert r[key] == Patched(rows[key], p);
    assert Status in p && EscalatedBy in p && EscalatedChannel in p && EscalatedAt in p;
  }

  /** What an escalation that passes its guards works with. */
  datatype EscalateTarget = EscalateTarget(leadId: Value, threadTs: string, leadName: string, channelName: string)

  /** The guards of `handle_escalate_command` up to the lead id, in order. */
  function EscalateGate(body: CommandBody, history: History, decode: Decoder, rows: map<string, Row>)
    : (g: Gate<EscalateTarget>)
    ensures !IsThread(body) ==> g == Stop(NotInThreadReply("escalate"))
    ensures g.Go? ==>
      (LeadThread(body, history, "escalate").Go?
       && ThreadTsOf(body) == Ok(g.value.threadTs)
       && LeadIdFromMessage(ParentMessage(body, history), decode) == Ok(Some(g.value.leadId))
       && Truthy(g.value.leadId))
  {
    match LeadThread(body, history, "escalate")
    case Stop(reply) => Stop(reply)
    case Go(parent) =>
      match ThreadTsOf(body)
      case Raise(e) => Stop(ErrorReply(e))
      case Ok(threadTs) =>
        match LeadIdFromMessage(Some(parent), decode)
        case Raise(e) => Stop(ErrorReply(e))
        case Ok(found) =>
          if found.None? || !Truthy(found.value) then Stop(CouldNotExtractReply)
          else LeadRowGate(found.value, threadTs, rows)
  }

  /** The guards on the lead's row: it exists, its name is not NULL, and the
      id can be sliced. */
  function LeadRowGate(leadId: Value, threadTs: string, rows: map<string, Row>): (g: Gate<EscalateTarget>)
    ensures PyStr(leadId) !in rows ==> g == Stop(NotFoundReply)
    ensures PyStr(leadId) in rows && Name !in rows[PyStr(leadId)] ==> g == Stop(ErrorReply(NullNameError))
    ensures g.Go? ==>
      (PyStr(leadId) in rows && Name in rows[PyStr(leadId)]
       && g.value.leadName == rows[PyStr(leadId)][Name]
       && IdTail(leadId).Ok?
       && g.value.channelName == ChannelName(Sanitize(LastName(g.value.leadName)), IdTail(leadId).value)
       && g.value.leadId == leadId && g.value.threadTs == threadTs)
  {
    var key := PyStr(leadId);
    if key !in rows then Stop(NotFoundReply)
    else if Name !in rows[key] then Stop(ErrorReply(NullNameError))
    else
      var leadName := rows[key][Name];
      match IdTail(leadId)
      case Raise(e) => Stop(ErrorReply(e))
      case Ok(tail) =>
        Go(EscalateTarget(leadId, threadTs, leadName, ChannelName(Sanitize(LastName(leadName)), tail)))
  }

  /** A lead id with no row gets the not-found reply: no channel is made. */
  lemma NoRowNoChannel(body: CommandBody, history: History, decode: Decoder, rows: map<string, Row>)
    requires LeadThread(body, history, "escalate").Go? && ThreadTsOf(body).Ok?
    requires LeadIdFromMessage(ParentMessage(body, history), decode).Ok?
    requires var found := LeadIdFromMessage(ParentMessage(body, history), decode).value;
      found.Some? && Truthy(found.value) && PyStr(found.value) !in rows
    ensures EscalateGate(body, history, decode, rows) == Stop(NotFoundReply)
  {
  }

  /** `conversations.create`: the new channel's id, or the error's text. */
  type CreateChannel = string -> Result<string>

  /** `conversations.invite` of `users` to a channel. */
  type InviteCall = (string, string) -> Outcome

  /** `conversations.replies`, as `get_thread_messages` returns it: the
      thread's messages, none when the call fails. */
  type Replies = (string, string) -> seq<Message>

  /** The rest of an escalation once the requester is in the new channel:
      the sales managers' invite (or a note asking for them), the summary,
      the row update and the confirmation in the lead's thread. */
  method CompleteEscalation(table: LeadsTable, ws: Workspace, cid: string, t: EscalateTarget,
                            channelId: string, userId: string, users: Users, invite: InviteCall,
                            replies: Replies, formatTs: FormatTs, now: string)
    modifies table, ws
    ensures table.rows == UpdateRows(old(table.rows), PyStr(t.leadId), EscalatePatch(userId, cid, now))
    ensures ws.posts == old(ws.posts)
                        + (if invite(cid, SalesManagers).Failed? then [Post(cid, None, SalesManagersNote)] else [])
                        + [Post(cid, None, Summary(replies(channelId, t.threadTs), users, formatTs)),
                           Post(channelId, Some(t.threadTs), ConfirmText(userId, cid))]
    ensures ws.invites == old(ws.invites) + (if invite(cid, SalesManagers).Done? then [(cid, SalesManagers)] else [])
    ensures ws.reactions == old(ws.reactions)
  {
    var managers := invite(cid, SalesManagers);
    if managers.Failed? {
      ws.PostMessage(Post(cid, None, SalesManagersNote));
    } else {
      ws.Invite(cid, SalesManagers);
    }
    var summary := BuildSummary(replies(channelId, t.threadTs), users, formatTs);
    ws.PostMessage(Post(cid, None, summary));
    table.Update(PyStr(t.leadId), EscalatePatch(userId, cid, now));
    ws.PostMessage(Post(channelId, Some(t.threadTs), ConfirmText(userId, cid)));
  }

  /** `handle_escalate_command`; the result is the ephemeral reply, if any.
      A failed create or a failed invite of the requester stops with the
      channel error, after whatever was posted before it. */
  method HandleEscalateCommand(table: LeadsTable, ws: Workspace, body: CommandBody, history: History,
                               decode: Decoder, users: Users, create: CreateChannel, invite: InviteCall,
                               replies: Replies, formatTs: FormatTs, now: string)
    returns (reply: Option<string>)
    modifies table, ws
    ensures EscalateGate(body, history, decode, old(table.rows)).Stop? ==>
      reply == Some(EscalateGate(body, history, decode, old(table.rows)).reply) && Untouched(table, ws)
    ensures EscalateGate(body, history, decode, old(table.rows)).Go? ==>
      var t := EscalateGate(body, history, decode, old(table.rows)).value;
      var created := create(t.channelName);
      if created.Raise? then
        reply == Some(ChannelErrorReply(created.message)) && Untouched(table, ws)
      else
        var cid := created.value;
        var initial := Post(cid, None, InitialText(t.leadName, t.leadId, body.userId));
        if invite(cid, body.userId).Failed? then
          reply == Some(ChannelErrorReply(invite(cid, body.userId).message))
          && table.rows == old(table.rows) && ws.posts == old(ws.posts) + [initial]
          && ws.invites == old(ws.invites) && ws.reactions == old(ws.reactions)
        else
          var managers := invite(cid, SalesManagers);
          reply.None?
          && table.rows == UpdateRows(old(table.rows), PyStr(t.leadId), EscalatePatch(body.userId, cid, now))
          && ws.posts == old(ws.posts) + [initial]
                         + (if managers.Failed? then [Post(cid, None, SalesManagersNote)] else [])
                         + [Post(cid, None, Summary(replies(body.channelId, t.threadTs), users, formatTs)),
                            Post(body.channelId, Some(t.threadTs), ConfirmText(body.userId, cid))]
          && ws.invites == old(ws.invites) + [(cid, body.userId)]
                           + (if managers.Done? then [(cid, SalesManagers)] else [])
          && ws.reactions == old(ws.reactions)
  {
    var gate := EscalateGate(body, history, decode, table.rows);
    if gate.Stop? {
      return Some(gate.reply);
    }
    var t := gate.value;
    var created := create(t.channelName);
    if created.Raise? {
      return Some(ChannelErrorReply(created.message));
    }
    var cid := created.value;
    ws.PostMessage(Post(cid, None, InitialText(t.leadName, t.leadId, body.userId)));
    var invited := invite(cid, body.userId);
    if invited.Failed? {
      return Some(ChannelErrorReply(invited.message));
    }
    ws.Invite(cid, body.userId);
    CompleteEscalation(table, ws, cid, t, body.channelId, body.userId, users, invite, replies, formatTs, now);
    reply := None;
  }
}
