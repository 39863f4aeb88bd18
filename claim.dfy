/** The `/claim` command (`slack_bot/handlers/claim.py`). */
module Claim {
  import opened Base
  import opened Text
  import opened Json
  import opened Store
  import opened Slack
  import opened SlackHelpers
  import opened Common

  function ErrorReply(e: string): string {
    "⚠️ An error occurred while processing your claim: " + e
  }

  /** The confirmation posted in the thread. */
  function ClaimText(userId: string): string {
    "🤝 <@" + userId + "> has claimed this lead! They are now responsible for follow-up."
  }

  /** The columns a claim writes. */
  function ClaimPatch(userId: string, userName: string, now: string): (p: Patch)
    ensures p.Keys == {Owner, OwnerName, LastActivity, Status}
    ensures p[Owner] == Some(userId) && p[OwnerName] == Some(userName) && p[Status] == Some("Claimed")
  {
    map[Owner := Some(userId), OwnerName := Some(userName), LastActivity := Some(now), Status := Some("Claimed")]
  }

  /** The `lead_id` a claim extracts from the parent: `.get("lead_id")` of the
      decoded text (which may be `None`), or, when the text does not decode,
      the quoted pattern only. `Ok(None)` is the "could not extract" path;
      `Raise` is an error of `.get` on a decoded value that is no dict. */
  function ClaimLeadId(parent: Message, decode: Decoder): (r: Result<Option<Value>>)
    ensures decode(match parent.text case Some(t) => t case None => "{}").DecodeError? ==>
      r == Ok(match Search(TextOf(parent), Quoted) case Some(x) => Some(Str(x)) case None => None)
    ensures decode(match parent.text case Some(t) => t case None => "{}").Parsed? ==>
      var data := decode(match parent.text case Some(t) => t case None => "{}").value;
      (r.Ok? <==> data.Obj?) && (data.Obj? ==> r == Ok(Some(Get(data, "lead_id", Null).value)))
  {
    match decode(match parent.text case Some(t) => t case None => "{}")
    case Parsed(data) =>
      (match Get(data, "lead_id", Null)
       case Ok(v) => Ok(Some(v))
       case Raise(e) => Raise(e))
    case DecodeError(_) =>
      match Search(TextOf(parent), Quoted)
      case Some(x) => Ok(Some(Str(x)))
      case None => Ok(None)
  }

  /** Text that does not decode is searched with the quoted pattern alone: a
      text only the unquoted pattern matches is not claimed. */
  lemma NoUnquotedFallback(parent: Message, decode: Decoder)
    requires decode(match parent.text case Some(t) => t case None => "{}").DecodeError?
    requires Search(TextOf(parent), Quoted).None?
    ensures ClaimLeadId(parent, decode) == Ok(None)
  {
  }

  /** Text that decodes to a dict without `lead_id` claims the lead id `None`
      instead of taking the error path, so the update filters on the text
      "None". */
  lemma MissingKeyClaimsNone(parent: Message, decode: Decoder, fields: seq<(string, Value)>)
    requires decode(match parent.text case Some(t) => t case None => "{}") == Parsed(Obj(fields))
    requires Lookup(fields, "lead_id").None?
    ensures ClaimLeadId(parent, decode) == Ok(Some(Null))
    ensures PyStr(Null) == "None"
  {
  }

  /** What a claim that passes its guards writes and posts. */
  datatype ClaimTarget = ClaimTarget(leadId: Value, userName: string, channel: string, threadTs: string, parentTs: string)

  /** The guards of `handle_claim_command`, in order. */
  function ClaimGate(body: CommandBody, history: History, decode: Decoder, users: Users): (g: Gate<ClaimTarget>)
    ensures !IsThread(body) ==> g == Stop(NotInThreadReply("claim"))
    ensures g.Go? ==>
      (IsThread(body) && ParentMessage(body, history).Some?
       && Contains(TextOf(ParentMessage(body, history).value), "lead_id")
       && users(body.userId) == Ok(g.value.userName)
       && ThreadTsOf(body) == Ok(g.value.threadTs)
       && ClaimLeadId(ParentMessage(body, history).value, decode) == Ok(Some(g.value.leadId))
       && g.value.channel == body.channelId
       && g.value.parentTs == ParentMessage(body, history).value.ts)
  {
    match LeadThread(body, history, "claim")
    case Stop(reply) => Stop(reply)
    case Go(parent) => ClaimForParent(body, parent, decode, users)
  }

  /** The guards of `handle_claim_command` after the thread checks: the
      claimer's name, the thread and a lead id extracted from the parent. */
  function ClaimForParent(body: CommandBody, parent: Message, decode: Decoder, users: Users): (g: Gate<ClaimTarget>)
    ensures users(body.userId).Raise? ==> g == Stop(ErrorReply(users(body.userId).message))
    ensures g.Go? ==>
      (users(body.userId) == Ok(g.value.userName)
       && ThreadTsOf(body) == Ok(g.value.threadTs)
       && ClaimLeadId(parent, decode) == Ok(Some(g.value.leadId))
       && g.value.channel == body.channelId
       && g.value.parentTs == parent.ts)
  {
    match users(body.userId)
    case Raise(e) => Stop(ErrorReply(e))
    case Ok(userName) =>
      match ThreadTsOf(body)
      case Raise(e) => Stop(ErrorReply(e))
      case Ok(threadTs) =>
        match ClaimLeadId(parent, decode)
        case Raise(e) => Stop(ErrorReply(e))
        case Ok(None) => Stop(CouldNotExtractReply)
        case Ok(Some(leadId)) => Go(ClaimTarget(leadId, userName, body.channelId, threadTs, parent.ts))
  }

  /** What a claim that passed its guards does: the lead's row gets the
      claim's columns, the parent gets 🤝 and the thread the confirmation. */
  twostate predicate Claimed(table: LeadsTable, ws: Workspace, t: ClaimTarget, userId: string, now: string)
    reads table, ws
  {
    && table.rows == UpdateRows(old(table.rows), PyStr(t.leadId), ClaimPatch(userId, t.userName, now))
    && ws.reactions == AddReaction(old(ws.reactions), (t.channel, t.parentTs), "handshake")
    && ws.posts == old(ws.posts) + [Post(t.channel, Some(t.threadTs), ClaimText(userId))]
    && ws.invites == old(ws.invites)
  }

  /** `handle_claim_command`; the result is the ephemeral reply, if any. */
  method HandleClaimCommand(table: LeadsTable, ws: Workspace, body: CommandBody, history: History,
                            decode: Decoder, users: Users, now: string)
    returns (reply: Option<string>)
    modifies table, ws
    ensures ClaimGate(body, history, decode, users).Stop? ==>
      reply == Some(ClaimGate(body, history, decode, users).reply) && Untouched(table, ws)
    ensures ClaimGate(body, history, decode, users).Go? ==>
      reply.None? && Claimed(table, ws, ClaimGate(body, history, decode, users).value, body.userId, now)
  {
    var thread := LeadThread(body, history, "claim");
    if thread.Stop? {
      return Some(thread.reply);
    }
    reply := ClaimParent(table, ws, body, thread.value, decode, users, now);
  }

  /** The part of `handle_claim_command` after the thread checks. */
  method ClaimParent(table: LeadsTable, ws: Workspace, body: CommandBody, parent: Message,
                     decode: Decoder, users: Users, now: string)
    returns (reply: Option<string>)
    modifies table, ws
    ensures ClaimForParent(body, parent, decode, users).Stop? ==>
      reply == Some(ClaimForParent(body, parent, decode, users).reply) && Untouched(table, ws)
    ensures ClaimForParent(body, parent, decode, users).Go? ==>
      reply.None? && Claimed(table, ws, ClaimForParent(body, parent, decode, users).value, body.userId, now)
  {
    var userName := users(body.userId);
    if userName.Raise? {
      return Some(ErrorReply(userName.message));
    }
    var threadTs := ThreadTsOf(body);
    if threadTs.Raise? {
      return Some(ErrorReply(threadTs.message));
    }
    var leadId := ClaimLeadId(parent, decode);
    if leadId.Raise? {
      return Some(ErrorReply(leadId.message));
    }
    if leadId.value.None? {
      return Some(CouldNotExtractReply);
    }
    table.Update(PyStr(leadId.value.value), ClaimPatch(body.userId, userName.value, now));
    ws.React(body.channelId, parent.ts, "handshake");
    ws.PostMessage(Post(body.channelId, Some(threadTs.value), ClaimText(body.userId)));
    reply := None;
  }
}
