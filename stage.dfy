/** The `/stage` command and the stage emoji reactions
    (`slack_bot/handlers/stage.py`). */
module Stage {
  import opened Base
  import opened Text
  import opened Json
  import opened Store
  import opened Slack
  import opened SlackHelpers
  import opened Common

  /** `STAGES`: each stage with the emoji that marks it, in table order. */
  const Stages: seq<(string, string)> :=
    [("Contacted", "telephone"), ("Qualified", "mag"), ("Won", "white_check_mark"), ("Lost", "x")]

  /** No two stages share an emoji. */
  lemma EmojisDistinct()
    ensures forall i, j :: 0 <= i < |Stages| && 0 <= j < |Stages| && i != j ==> Stages[i].1 != Stages[j].1
  {
    forall i, j | 0 <= i < |Stages| && 0 <= j < |Stages| && i != j ensures Stages[i].1 != Stages[j].1 {
      assert |Stages[i].1| != |Stages[j].1|;
    }
  }

  /** No two stage names are equal, not even once lower-cased. */
  lemma NamesDistinct()
    ensures forall i, j :: 0 <= i < |Stages| && 0 <= j < |Stages| && i != j ==>
      Stages[i].0 != Stages[j].0 && Lower(Stages[i].0) != Lower(Stages[j].0)
  {
    forall i, j | 0 <= i < |Stages| && 0 <= j < |Stages| && i != j
      ensures Stages[i].0 != Stages[j].0 && Lower(Stages[i].0) != Lower(Stages[j].0)
    {
      var a := Stages[i].0;
      var b := Stages[j].0;
      assert a[0] != b[0];
      assert Lower(a)[0] == LowerChar(a[0]);
      assert Lower(b)[0] == LowerChar(b[0]);
    }
  }

  /** `STAGES.get(stage)`: the emoji of the first entry named `stage`. */
  function EmojiFor(stage: string): (r: Option<string>)
    ensures r.Some? <==> exists i :: 0 <= i < |Stages| && Stages[i].0 == stage
    ensures r.Some? ==> exists i :: 0 <= i < |Stages| && Stages[i] == (stage, r.value)
  {
    FindByName(Stages, stage)
  }

  function FindByName(table: seq<(string, string)>, stage: string): (r: Option<string>)
    ensures r.Some? <==> exists i :: 0 <= i < |table| && table[i].0 == stage
    ensures r.Some? ==> exists i :: 0 <= i < |table| && table[i] == (stage, r.value)
  {
    if table == [] then None
    else if table[0].0 == stage then Some(table[0].1)
    else
      var r := FindByName(table[1..], stage);
      assert forall i :: 1 <= i < |table| ==> table[i] == table[1..][i - 1];
      r
  }

  /** The stage the `/stage` loop settles on: the first entry whose name equals
      the command text once both are lower-cased. */
  function StageNamed(text: string): (r: Option<string>)
    ensures r.Some? ==> exists i :: 0 <= i < |Stages| && Stages[i].0 == r.value && Lower(r.value) == Lower(text)
    ensures r.None? <==> forall i :: 0 <= i < |Stages| ==> Lower(Stages[i].0) != Lower(text)
  {
    FirstNamed(Stages, text)
  }

  function FirstNamed(table: seq<(string, string)>, text: string): (r: Option<string>)
    ensures r.Some? ==> exists i :: 0 <= i < |table| && table[i].0 == r.value && Lower(r.value) == Lower(text)
    ensures r.None? <==> forall i :: 0 <= i < |table| ==> Lower(table[i].0) != Lower(text)
  {
    if table == [] then None
    else if Lower(table[0].0) == Lower(text) then Some(table[0].0)
    else
      var r := FirstNamed(table[1..], text);
      assert forall i :: 1 <= i < |table| ==> table[i] == table[1..][i - 1];
      r
  }

  /** The stage the reaction loop settles on: the first entry whose emoji is
      the reaction. */
  function StageForEmoji(reaction: string): (r: Option<string>)
    ensures r.Some? ==> exists i :: 0 <= i < |Stages| && Stages[i] == (r.value, reaction)
    ensures r.None? <==> forall i :: 0 <= i < |Stages| ==> Stages[i].1 != reaction
  {
    FirstWithEmoji(Stages, reaction)
  }

  function FirstWithEmoji(table: seq<(string, string)>, reaction: string): (r: Option<string>)
    ensures r.Some? ==> exists i :: 0 <= i < |table| && table[i] == (r.value, reaction)
    ensures r.None? <==> forall i :: 0 <= i < |table| ==> table[i].1 != reaction
  {
    if table == [] then None
    else if table[0].1 == reaction then Some(table[0].0)
    else
      var r := FirstWithEmoji(table[1..], reaction);
      assert forall i :: 1 <= i < |table| ==> table[i] == table[1..][i - 1];
      r
  }

  /** The `for valid_stage in STAGES.keys()` loop of `handle_stage_command`,
      over the table `stages`. */
  method MatchStage(stages: seq<(string, string)>, commandText: string) returns (stage: Option<string>)
    ensures stage == FirstNamed(stages, commandText)
  {
    stage := None;
    var i := 0;
    while i < |stages|
      invariant 0 <= i <= |stages|
      invariant FirstNamed(stages, commandText) == FirstNamed(stages[i..], commandText)
    {
      if Lower(stages[i].0) == Lower(commandText) {
        stage := Some(stages[i].0);
        return;
      }
      assert stages[i..][1..] == stages[i + 1..];
      i := i + 1;
    }
  }

  /** The `for s, emoji in STAGES.items()` loop of `handle_reaction_added`,
      over the table `stages`. */
  method FindStageByEmoji(stages: seq<(string, string)>, reaction: string) returns (stage: Option<string>)
    ensures stage == FirstWithEmoji(stages, reaction)
  {
    stage := None;
    var i := 0;
    while i < |stages|
      invariant 0 <= i <= |stages|
      invariant FirstWithEmoji(stages, reaction) == FirstWithEmoji(stages[i..], reaction)
    {
      if stages[i].1 == reaction {
        stage := Some(stages[i].0);
        return;
      }
      assert stages[i..][1..] == stages[i + 1..];
      i := i + 1;
    }
  }

  lemma EmojiToStage(i: nat)
    requires i < |Stages|
    ensures StageForEmoji(Stages[i].1) == Some(Stages[i].0)
  {
    EmojisDistinct();
    var e := Stages[i].1;
    var r := StageForEmoji(e);
    assert r.Some?;
    var j :| 0 <= j < |Stages| && Stages[j] == (r.value, e);
    assert j == i;
  }

  /** Each stage's name leads to its emoji. */
  lemma StageToEmoji(i: nat)
    requires i < |Stages|
    ensures EmojiFor(Stages[i].0) == Some(Stages[i].1)
  {
    NamesDistinct();
    var s := Stages[i].0;
    var r := EmojiFor(s);
    assert r.Some?;
    var j :| 0 <= j < |Stages| && Stages[j] == (s, r.value);
    assert j == i;
  }

  /** The reaction lookup inverts the stage table: the stage a reaction names
      has that reaction as its emoji. */
  lemma EmojiLookupInverts(reaction: string)
    requires StageForEmoji(reaction).Some?
    ensures EmojiFor(StageForEmoji(reaction).value) == Some(reaction)
  {
    var m :| 0 <= m < |Stages| && Stages[m] == (StageForEmoji(reaction).value, reaction);
    StageToEmoji(m);
  }

  /** Command matching is whole-string and case-insensitive: a text matches a
      stage exactly when it is that stage's name in some casing, and the
      result is the canonical spelling. */
  lemma {:induction false} StageNamedExactly(text: string, i: nat)
    requires i < |Stages|
    ensures StageNamed(text) == Some(Stages[i].0) <==> Lower(text) == Lower(Stages[i].0)
    ensures StageNamed(text).Some? ==> |text| == |StageNamed(text).value|
  {
    NamesDistinct();
    if StageNamed(text) == Some(Stages[i].0) {
      var j :| 0 <= j < |Stages| && Stages[j].0 == Stages[i].0 && Lower(Stages[j].0) == Lower(text);
    }
    if StageNamed(text).Some? {
      var j :| 0 <= j < |Stages| && Stages[j].0 == StageNamed(text).value && Lower(Stages[j].0) == Lower(text);
      assert |Lower(text)| == |text|;
    }
  }

  /** The `• <stage> :<emoji>:` lines of the stage list, in table order. */
  function StageLines(table: seq<(string, string)>): (r: seq<string>)
    ensures |r| == |table|
  {
    if table == [] then [] else ["• " + table[0].0 + " :" + table[0].1 + ":"] + StageLines(table[1..])
  }

  function StagesList(): string {
    Join(StageLines(Stages), "\n")
  }

  /** The reply to `/stage` with no stage. */
  function PromptReply(): string {
    "Please specify a stage. Valid options are:\n" + StagesList() + "\n\nExample: `/stage Contacted`"
  }

  function InvalidCommandReply(commandText: string): string {
    "Invalid stage: '" + commandText + "'. Valid options are:\n" + StagesList()
  }

  /** What `update_lead_stage` returns for a stage missing from the table. */
  function InvalidStageError(stage: string): string {
    "Invalid stage: " + stage + ". Valid stages are: " + Join(StageNames(Stages), ", ")
  }

  /** `STAGES.keys()`, in table order. */
  function StageNames(table: seq<(string, string)>): seq<string> {
    seq(|table|, i requires 0 <= i < |table| => table[i].0)
  }

  function ErrorReply(e: string): string {
    "⚠️ An error occurred while processing your stage update: " + e
  }

  function UpdateFailedReply(e: string): string {
    "⚠️ An error occurred while updating the stage: " + e
  }

  /** The confirmation posted in the thread. */
  function StatusText(stage: string, emoji: string, userId: string): string {
    "*Status Updated:* " + stage + " :" + emoji + ": by <@" + userId + ">"
  }

  /** The columns `update_lead_stage` writes. */
  function StagePatch(stage: string, userId: string, now: string): (p: Patch)
    ensures p.Keys == {Status, LastActivity, UpdatedBy}
    ensures p[Status] == Some(stage) && p[UpdatedBy] == Some(userId)
  {
    map[Status := Some(stage), LastActivity := Some(now), UpdatedBy := Some(userId)]
  }

  /** The reactions after the add-if-absent step: unchanged when the fetched
      parent already carried the emoji. */
  function ReactIfAbsent(reactions: map<(string, string), set<string>>, channel: string, parent: Message, emoji: string)
    : (r: map<(string, string), set<string>>)
    ensures emoji in parent.reactions ==> r == reactions
    ensures emoji in parent.reactions || emoji in ReactionsAt(r, (channel, parent.ts))
    ensures emoji !in parent.reactions ==> r == AddReaction(reactions, (channel, parent.ts), emoji)
  {
    if emoji in parent.reactions then reactions else AddReaction(reactions, (channel, parent.ts), emoji)
  }

  /** The step is idempotent: repeating it changes nothing more. */
  lemma ReactIfAbsentIdempotent(reactions: map<(string, string), set<string>>, channel: string, parent: Message, emoji: string)
    ensures ReactIfAbsent(ReactIfAbsent(reactions, channel, parent, emoji), channel, parent, emoji)
         == ReactIfAbsent(reactions, channel, parent, emoji)
  {
    if emoji !in parent.reactions {
      AddReactionIdempotent(reactions, (channel, parent.ts), emoji);
    }
  }

  /** The effect of a successful `update_lead_stage`: only the row keyed by
      `str(leadId)` changes, the emoji is on the parent unless it already was,
      and one confirmation is posted in the thread. */
  twostate predicate StageApplied(table: LeadsTable, ws: Workspace, channel: string, threadTs: string,
                                  parent: Message, leadId: Value, stage: string, emoji: string,
                                  userId: string, now: string)
    reads table, ws
  {
    table.rows == UpdateRows(old(table.rows), PyStr(leadId), StagePatch(stage, userId, now))
    && ws.reactions == ReactIfAbsent(old(ws.reactions), channel, parent, emoji)
    && ws.posts == old(ws.posts) + [Post(channel, Some(threadTs), StatusText(stage, emoji, userId))]
    && ws.invites == old(ws.invites)
  }

  /** `update_lead_stage(...)`, returning `(success, error)`. */
  method UpdateLeadStage(table: LeadsTable, ws: Workspace, channel: string, threadTs: string,
                         parent: Message, leadId: Value, stage: string, userId: string,
                         users: Users, now: string)
    returns (success: bool, error: Option<string>)
    modifies table, ws
    ensures EmojiFor(stage).None? ==>
      !success && error == Some(InvalidStageError(stage)) && Untouched(table, ws)
    ensures EmojiFor(stage).Some? && users(userId).Raise? ==>
      !success && error == Some(users(userId).message) && Untouched(table, ws)
    ensures EmojiFor(stage).Some? && users(userId).Ok? ==>
      success && error.None?
      && StageApplied(table, ws, channel, threadTs, parent, leadId, stage, EmojiFor(stage).value, userId, now)
  {
    var emoji := EmojiFor(stage);
    if emoji.None? {
      return false, Some(InvalidStageError(stage));
    }
    var userName := users(userId);
    if userName.Raise? {
      return false, Some(userName.message);
    }
    table.Update(PyStr(leadId), StagePatch(stage, userId, now));
    if emoji.value !in parent.reactions {
      ws.React(channel, parent.ts, emoji.value);
    }
    ws.PostMessage(Post(channel, Some(threadTs), StatusText(stage, emoji.value, userId)));
    return true, None;
  }

  /** Where `handle_stage_command` goes before `update_lead_stage`: a reply
      that ends the command, or the update to make. */
  datatype StageGate =
    | StageReply(text: string)
    | StageUpdate(channel: string, threadTs: string, parent: Message, leadId: Value, stage: string)

  /** The guards of `handle_stage_command`, in order. */
  function StageCommandGate(body: CommandBody, history: History, decode: Decoder): StageGate {
    match LeadThread(body, history, "stage")
    case Stop(reply) => StageReply(reply)
    case Go(parent) =>
      match ThreadTsOf(body)
      case Raise(e) => StageReply(ErrorReply(e))
      case Ok(threadTs) => StageFromText(body, parent, threadTs, decode)
  }

  /** The guards on the command text: it names a stage. */
  function StageFromText(body: CommandBody, parent: Message, threadTs: string, decode: Decoder): (g: StageGate)
    ensures g.StageUpdate? ==> g.channel == body.channelId && g.threadTs == threadTs && g.parent == parent
    ensures g.StageUpdate? ==> EmojiFor(g.stage).Some? && Truthy(g.leadId)
    ensures g.StageUpdate? ==> StageNamed(CommandText(body)) == Some(g.stage)
  {
    var commandText := CommandText(body);
    if commandText == [] then StageReply(PromptReply())
    else
      match StageNamed(commandText)
      case None => StageReply(InvalidCommandReply(commandText))
      case Some(stage) => StageForLead(body.channelId, threadTs, parent, stage, decode)
  }

  /** The guard on the parent: a truthy lead id can be extracted from it. */
  function StageForLead(channel: string, threadTs: string, parent: Message, stage: string, decode: Decoder)
    : (g: StageGate)
    ensures g.StageUpdate? ==> g == StageUpdate(channel, threadTs, parent, g.leadId, stage) && Truthy(g.leadId)
    ensures g.StageUpdate? ==> LeadIdFromMessage(Some(parent), decode) == Ok(Some(g.leadId))
  {
    match LeadIdFromMessage(Some(parent), decode)
    case Raise(e) => StageReply(ErrorReply(e))
    case Ok(found) =>
      if found.None? || !Truthy(found.value) then StageReply(CouldNotExtractReply)
      else StageUpdate(channel, threadTs, parent, found.value, stage)
  }

  /** An update is only ever made in a lead thread, for a stage of the table,
      with the truthy lead id extracted from the thread's parent. */
  lemma StageUpdateGuarded(body: CommandBody, history: History, decode: Decoder)
    requires StageCommandGate(body, history, decode).StageUpdate?
    ensures IsThread(body)
    ensures ParentMessage(body, history) == Some(StageCommandGate(body, history, decode).parent)
    ensures Contains(TextOf(StageCommandGate(body, history, decode).parent), "lead_id")
    ensures EmojiFor(StageCommandGate(body, history, decode).stage).Some?
    ensures LeadIdFromMessage(ParentMessage(body, history), decode)
         == Ok(Some(StageCommandGate(body, history, decode).leadId))
    ensures Truthy(StageCommandGate(body, history, decode).leadId)
    ensures StageNamed(CommandText(body)) == Some(StageCommandGate(body, history, decode).stage)
  {
  }

  /** A `/stage` with blank text in a lead thread gets the stage list. */
  lemma BlankCommandPrompts(body: CommandBody, history: History, decode: Decoder)
    requires LeadThread(body, history, "stage").Go?
    requires ThreadTsOf(body).Ok?
    requires body.text.None? || AllSpace(body.text.value)
    ensures StageCommandGate(body, history, decode) == StageReply(PromptReply())
  {
  }

  /** The part of `handle_stage_command` after the thread checks: the stage
      named by the command text is applied to the lead of the parent. */
  method ApplyStageText(table: LeadsTable, ws: Workspace, body: CommandBody, parent: Message, threadTs: string,
                        decode: Decoder, users: Users, now: string)
    returns (reply: Option<string>)
    modifies table, ws
    ensures StageFromText(body, parent, threadTs, decode).StageReply? ==>
      reply == Some(StageFromText(body, parent, threadTs, decode).text) && Untouched(table, ws)
    ensures StageFromText(body, parent, threadTs, decode).StageUpdate? ==>
      var g := StageFromText(body, parent, threadTs, decode);
      if users(body.userId).Raise? then
        reply == Some(UpdateFailedReply(users(body.userId).message)) && Untouched(table, ws)
      else
        reply.None?
        && StageApplied(table, ws, g.channel, g.threadTs, g.parent, g.leadId, g.stage,
                        EmojiFor(g.stage).value, body.userId, now)
  {
    var commandText := CommandText(body);
    if commandText == [] {
      return Some(PromptReply());
    }
    var stage := MatchStage(Stages, commandText);
    if stage.None? {
      return Some(InvalidCommandReply(commandText));
    }
    reply := ApplyStageForLead(table, ws, body.channelId, threadTs, parent, stage.value, body.userId,
                               decode, users, now);
  }

  /** The last part of `handle_stage_command`: a valid stage is applied to
      the lead id extracted from the parent. */
  method ApplyStageForLead(table: LeadsTable, ws: Workspace, channel: string, threadTs: string,
                           parent: Message, stage: string, userId: string,
                           decode: Decoder, users: Users, now: string)
    returns (reply: Option<string>)
    requires EmojiFor(stage).Some?
    modifies table, ws
    ensures StageForLead(channel, threadTs, parent, stage, decode).StageReply? ==>
      reply == Some(StageForLead(channel, threadTs, parent, stage, decode).text) && Untouched(table, ws)
    ensures StageForLead(channel, threadTs, parent, stage, decode).StageUpdate? ==>
      var g := StageForLead(channel, threadTs, parent, stage, decode);
      if users(userId).Raise? then
        reply == Some(UpdateFailedReply(users(userId).message)) && Untouched(table, ws)
      else
        reply.None?
        && StageApplied(table, ws, channel, threadTs, parent, g.leadId, stage, EmojiFor(stage).value, userId, now)
  {
    var leadId := LeadIdFromMessage(Some(parent), decode);
    if leadId.Raise? {
      return Some(ErrorReply(leadId.message));
    }
    if leadId.value.None? || !Truthy(leadId.value.value) {
      return Some(CouldNotExtractReply);
    }
    var success, error := UpdateLeadStage(table, ws, channel, threadTs, parent,
                                          leadId.value.value, stage, userId, users, now);
    reply := if success then None else Some(UpdateFailedReply(ShowOpt(error)));
  }

  /** `handle_stage_command`; the result is the ephemeral reply, if any. */
  method HandleStageCommand(table: LeadsTable, ws: Workspace, body: CommandBody, history: History,
                            decode: Decoder, users: Users, now: string)
    returns (reply: Option<string>)
    modifies table, ws
    ensures StageCommandGate(body, history, decode).StageReply? ==>
      reply == Some(StageCommandGate(body, history, decode).text) && Untouched(table, ws)
    ensures StageCommandGate(body, history, decode).StageUpdate? ==>
      var g := StageCommandGate(body, history, decode);
      if users(body.userId).Raise? then
        reply == Some(UpdateFailedReply(users(body.userId).message)) && Untouched(table, ws)
      else
        reply.None?
        && StageApplied(table, ws, g.channel, g.threadTs, g.parent, g.leadId, g.stage,
                        EmojiFor(g.stage).value, body.userId, now)
  {
    var thread := LeadThread(body, history, "stage");
    if thread.Stop? {
      return Some(thread.reply);
    }
    var threadTs := ThreadTsOf(body);
    if threadTs.Raise? {
      return Some(ErrorReply(threadTs.message));
    }
    reply := ApplyStageText(table, ws, body, thread.value, threadTs.value, decode, users, now);
  }

  /** What `handle_reaction_added` updates, if anything. */
  datatype ReactionTarget = ReactionTarget(message: Message, leadId: Value, stage: string)

  /** The guards of `handle_reaction_added`: a stage emoji, a fetched message
      whose text mentions `lead_id`, and a lead id extracted from it. */
  function ReactionGate(event: ReactionEvent, history: History, decode: Decoder): Option<ReactionTarget> {
    match StageForEmoji(event.reaction)
    case None => None
    case Some(stage) =>
      match history(event.channel, event.ts)
      case None => None
      case Some(messages) =>
        if messages == [] then None
        else
          var message := messages[0];
          if !Contains(TextOf(message), "lead_id") then None
          else
            match LeadIdFromMessage(Some(message), decode)
            case Raise(_) => None
            case Ok(found) =>
              if found.None? || !Truthy(found.value) then None
              else Some(ReactionTarget(message, found.value, stage))
  }

  /** A reaction that is no stage emoji, or one on a message whose text lacks
      `lead_id`, updates nothing. */
  lemma ReactionSkips(event: ReactionEvent, history: History, decode: Decoder)
    ensures (forall i :: 0 <= i < |Stages| ==> Stages[i].1 != event.reaction) ==>
      ReactionGate(event, history, decode).None?
    ensures (history(event.channel, event.ts).Some? && history(event.channel, event.ts).value != []
             && !Contains(TextOf(history(event.channel, event.ts).value[0]), "lead_id")) ==>
      ReactionGate(event, history, decode).None?
    ensures ReactionGate(event, history, decode).Some? ==>
      EmojiFor(ReactionGate(event, history, decode).value.stage) == Some(event.reaction)
  {
    if StageForEmoji(event.reaction).Some? {
      EmojiLookupInverts(event.reaction);
    }
  }

  /** `handle_reaction_added`: the reacted message is the parent and its
      timestamp the thread. */
  method HandleReactionAdded(table: LeadsTable, ws: Workspace, event: ReactionEvent, history: History,
                             decode: Decoder, users: Users, now: string)
    modifies table, ws
    ensures ReactionGate(event, history, decode).None? ==> Untouched(table, ws)
    ensures ReactionGate(event, history, decode).Some? ==>
      var t := ReactionGate(event, history, decode).value;
      if users(event.user).Raise? then Untouched(table, ws)
      else StageApplied(table, ws, event.channel, event.ts, t.message, t.leadId, t.stage,
                        event.reaction, event.user, now)
  {
    var stage := FindStageByEmoji(Stages, event.reaction);
    if stage.None? {
      return;
    }
    var messages := history(event.channel, event.ts);
    if messages.None? || messages.value == [] {
      return;
    }
    var message := messages.value[0];
    if !Contains(TextOf(message), "lead_id") {
      return;
    }
    var leadId := LeadIdFromMessage(Some(message), decode);
    if leadId.Raise? || leadId.value.None? || !Truthy(leadId.value.value) {
      return;
    }
    ReactionSkips(event, history, decode);
    var _, _ := UpdateLeadStage(table, ws, event.channel, event.ts, message, leadId.value.value,
                                stage.value, event.user, users, now);
  }
}
