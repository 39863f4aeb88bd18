/** Replies and frame facts shared by the slash-command handlers. */
module Common {
  import opened Text
  import opened Store
  import opened Slack
  import opened SlackHelpers

  /** The ephemeral reply to `/<command>` used outside a thread. */
  function NotInThreadReply(command: string): string {
    "⚠️ The `/" + command + "` command can only be used in a thread of a lead message."
  }

  /** The ephemeral reply to `/<command>` in a thread whose parent is not a
      lead message. */
  function NotLeadThreadReply(command: string): string {
    "⚠️ This does not appear to be a lead thread. The `/" + command + "` command can only be used in lead threads."
  }

  /** Where a handler stands after a guard: it stops with an ephemeral
      reply, or goes on with `value`. */
  datatype Gate<T> = Stop(reply: string) | Go(value: T)

  /** The first two guards of `/claim`, `/stage` and `/escalate`: the command
      is used in a thread, and the thread's parent message mentions
      `lead_id`. */
  function LeadThread(body: CommandBody, history: History, command: string): (r: Gate<Message>)
    ensures r.Go? <==> IsThread(body) && ParentMessage(body, history).Some?
                       && Contains(TextOf(ParentMessage(body, history).value), "lead_id")
    ensures r.Go? ==> r.value == ParentMessage(body, history).value
    ensures !IsThread(body) ==> r == Stop(NotInThreadReply(command))
    ensures IsThread(body) && r.Stop? ==> r == Stop(NotLeadThreadReply(command))
  {
    if !IsThread(body) then Stop(NotInThreadReply(command))
    else
      var parent := ParentMessage(body, history);
      if parent.None? || !Contains(TextOf(parent.value), "lead_id") then Stop(NotLeadThreadReply(command))
      else Go(parent.value)
  }

  /** `body.get("text", "").strip()`. */
  function CommandText(body: CommandBody): string {
    Strip(match body.text case Some(t) => t case None => "")
  }

  const CouldNotExtractReply: string := "⚠️ Could not extract lead ID from the parent message."

  /** The leads table and the workspace are as they were. */
  twostate predicate Untouched(table: LeadsTable, ws: Workspace)
    reads table, ws
  {
    table.rows == old(table.rows) && ws.posts == old(ws.posts)
    && ws.reactions == old(ws.reactions) && ws.invites == old(ws.invites)
  }
}
