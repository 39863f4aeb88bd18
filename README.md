# Slack lead bot, modelled in Dafny

This project models the Slack bot that carries sales leads from SharpSpring into a Slack
inbox channel and tracks them in a Supabase `leads` table. It covers:

- the SharpSpring webhook, which turns a lead payload into a JSON message in the leads channel;
- the inbox handler, which announces a new lead in a thread, marks it 🆕 and upserts it
  by `lead_id`;
- the thread helpers (`is_thread`, `get_parent_message`, `get_lead_id_from_message`);
- the slash commands `/claim`, `/stage` and `/escalate`, and the stage reactions;
- the hourly job that sends each owner of an idle lead a direct message and stamps
  `last_reminder`.

The table is a class, `Store.LeadsTable`, that holds a map from the text key `lead_id`
to rows. Slack is a class, `Slack.Workspace`, holding the posts, reactions and invites
so far. Each Slack handler and the reminder job is a method that changes both, and its
contract states the whole new state. The SharpSpring webhook changes neither: it is a
function that returns the message it schedules. The guards of each handler are a function naming the reply a command stops
with. Lemmas state what the guards, the channel name, the summary and the reminders
promise.

The following are inputs of the model:

- Slack's read calls: `conversations.history`, `users.info` and `conversations.replies`;
- the outcomes of two Slack writes: `conversations.create` and `conversations.invite`.
  A successful invite is also recorded in the workspace's invites;
- `json.loads`;
- `datetime.fromisoformat`;
- the clock.

Python's semantics are written out where the handlers depend on them:

- `str` and `repr` of decoded JSON values, and `json.dumps` with `ensure_ascii`;
- truthiness, `.strip()`, `.split()` and `.lower()`;
- slicing;
- the leftmost-match `re.search`;
- floor division;
- the CPython 3.11 texts of the exceptions the handlers report back to the user.

Module layout:

- `base.dfy`, `text.dfy` and `json.dfy` hold Python values and string functions.
- `store.dfy` is the table. `slack.dfy` is the workspace and Slack's payload shapes.
- `slack_helpers.dfy` and `common.dfy` hold the thread helpers and the guards shared by
  the commands.
- Then there is one file per handler: `stage.dfy`, `claim.dfy`, `new_lead.dfy`,
  `webhook.dfy`, `escalate.dfy` and `reminders.dfy`.

## Model

| member | source | states |
|---|---|---|
| Json.Lookup | slack_bot/handlers/new_lead.py:49-61 | a dict lookup finds nothing exactly when no entry has the key, and otherwise returns the value of an entry with that key |
| Json.LookupAt | slack_bot/handlers/new_lead.py:49-61 | the value found for a key is that of its first entry |
| Json.Get | slack_bot/handlers/new_lead.py:49-61 | `.get` works exactly on a dict: the key's value, or the default when the key is absent |
| Json.Subscript | slack_bot/utils/slack_helpers.py:88 | `data["lead_id"]` succeeds exactly on a dict holding the key, and returns its value |
| Json.PyStr | slack_bot/app.py:52 | `str` of a string is the string itself |
| Json.JsonQuote | slack_bot/app.py:69 | a string written out by `json.dumps` is printable ASCII, and a string of plain characters is written as itself between quotes |
| Json.DumpsPrintable | slack_bot/app.py:69 | every text `json.dumps` produces is printable ASCII |
| Json.DumpsFirstKey | slack_bot/app.py:69 | a dumped dict contains its first key |
| Text.Strip | slack_bot/handlers/stage.py:127 | `.strip()` is empty exactly for an all-whitespace text and otherwise starts and ends with a non-space |
| Text.StripSlice | slack_bot/handlers/stage.py:127 | `.strip()` is a slice of the text with only whitespace before and after it |
| Text.Split | slack_bot/handlers/escalate.py:78 | `.split()` gives non-empty words without whitespace |
| Text.SplitLast | slack_bot/handlers/escalate.py:78 | `.split()` is empty exactly for an all-whitespace text, and its last word is the text's last word |
| Text.Lower | slack_bot/handlers/stage.py:139 | `.lower()` keeps the length and lower-cases each ASCII capital, leaving every other character alone |
| Text.ConcatAppend | slack_bot/handlers/escalate.py:131-150 | concatenating two lists of pieces is concatenating their concatenations |
| Store.ColumnText | slack_bot/supabase_init.py:30-53 | a JSON value stored in a text column is `NULL` exactly for `null`, and a string is stored as itself |
| Store.Patched | slack_bot/handlers/stage.py:58 | a write sets the columns it names, to `NULL` where it says so, and keeps every other column |
| Store.UpdateRows | slack_bot/handlers/claim.py:86 | `update(...).eq("lead_id", key)` changes only the row whose key is `key`, if there is one, and adds no row |
| Store.InsertDefaults | slack_bot/supabase_init.py:40-45 | a new row starts with exactly the defaulted columns: status "New", and `last_activity` and `created_at` equal to now |
| Store.UpsertRows | slack_bot/supabase_init.py:31 | an upsert keyed by the primary key adds exactly that key, merges the record into an existing row, and otherwise writes it over the defaults; other rows are unchanged |
| Store.PatchedOverDefaults | slack_bot/supabase_init.py:40-45 | a write naming every column a new row has by default leaves none of those defaults |
| Store.PatchedIdempotent | slack_bot/handlers/stage.py:58 | writing the same columns twice is writing them once |
| Store.UpsertIdempotent | slack_bot/handlers/new_lead.py:119 | upserting the same record twice is upserting it once, so the same lead message seen twice leaves one row |
| Store.LeadsTable.Update | slack_bot/handlers/claim.py:86 | the table after an update is the update of the old rows |
| Store.LeadsTable.Upsert | slack_bot/handlers/new_lead.py:119 | the table after an upsert is the upsert into the old rows |
| Store.LeadsTable.Select | slack_bot/handlers/reminders.py:31-36 | `select("*")` with filters returns every row the filters keep, each once, with its key |
| Slack.TextOf | slack_bot/handlers/stage.py:114 | `message.get("text", "")` is the text, or "" when the message has none |
| Slack.AddReaction | slack_bot/handlers/claim.py:89-94 | adding a reaction puts it on that message and changes no other message |
| Slack.AddReactionIdempotent | slack_bot/handlers/claim.py:89-94 | adding the same reaction twice is adding it once |
| Slack.Workspace.PostMessage | slack_bot/handlers/claim.py:99-103 | a post is appended to the posts, and the reactions and invites are unchanged |
| Slack.Workspace.React | slack_bot/handlers/claim.py:89-94 | a reaction is added, and the posts and invites are unchanged |
| Slack.Workspace.Invite | slack_bot/handlers/escalate.py:100-103 | an invite is appended, and the posts and reactions are unchanged |
| SlackHelpers.ParentTs | slack_bot/utils/slack_helpers.py:41-46 | a parent timestamp exists exactly when the body is in a thread; the top-level `thread_ts` wins over the nested one |
| SlackHelpers.ParentMessage | slack_bot/utils/slack_helpers.py:37-66 | the parent is found exactly in a thread whose history call returns a non-empty list, and it is the first message of that list |
| SlackHelpers.ThreadTsOf | slack_bot/handlers/stage.py:123 | `body.get("thread_ts") or body["message"]["thread_ts"]`: a non-empty top-level value is used, a falsy one falls through to the nested one, and it raises exactly when neither is there |
| SlackHelpers.ThreadTsMatchesParent | slack_bot/handlers/stage.py:123 | in a thread, unless the top-level `thread_ts` is "", replies go to the thread whose parent was fetched |
| SlackHelpers.QuoteFreeRun | slack_bot/utils/slack_helpers.py:94 | `[^"]+` takes the longest run without a quote |
| SlackHelpers.WordRun | slack_bot/utils/slack_helpers.py:99 | `\w+` takes the longest run of word characters |
| SlackHelpers.MatchValue | slack_bot/utils/slack_helpers.py:94-101 | the capture after the colon is non-empty, and quote-free for the quoted pattern or made of word characters for the unquoted one |
| SlackHelpers.MatchAt | slack_bot/utils/slack_helpers.py:94-101 | a match at a position starts with `"lead_id"`, and its capture is non-empty and quote-free, or made of word characters, as the pattern says |
| SlackHelpers.SearchFrom | slack_bot/utils/slack_helpers.py:94-101 | `re.search` returns the match at the leftmost matching position, and nothing only when no position matches |
| SlackHelpers.Search | slack_bot/utils/slack_helpers.py:94-101 | a capture is non-empty and has the shape of its pattern, and is found only in a text containing `"lead_id"` |
| SlackHelpers.JsonLeadId | slack_bot/utils/slack_helpers.py:83-91 | a text that does not decode, or a dict without the key, gives nothing; a dict with `lead_id` gives its value |
| SlackHelpers.RegexLeadId | slack_bot/utils/slack_helpers.py:94-103 | the quoted pattern's capture when it matches, otherwise the unquoted pattern's, otherwise nothing |
| SlackHelpers.LeadIdFromMessage | slack_bot/utils/slack_helpers.py:78-103 | no message gives nothing; an error of the JSON stage other than a decode error propagates |
| SlackHelpers.JsonTakesPrecedence | slack_bot/utils/slack_helpers.py:84-88 | a text decoding to a dict with `lead_id` yields that value, whatever the patterns find |
| SlackHelpers.RegexResultShape | slack_bot/utils/slack_helpers.py:94-101 | whenever the quoted pattern matches, the fallbacks return exactly its quote-free capture; only when it fails do they return the unquoted capture; what they return is non-empty |
| SlackHelpers.NoneWhenNothingMatches | slack_bot/utils/slack_helpers.py:78-103 | nothing is found exactly when the JSON stage finds nothing and neither pattern matches |
| SlackHelpers.NoKeyNoRegexMatch | slack_bot/utils/slack_helpers.py:94-101 | a text without `"lead_id"` matches neither pattern |
| Common.LeadThread | slack_bot/handlers/claim.py:28-43 | a command goes on exactly in a thread whose parent was found and mentions `lead_id`; otherwise it gets the not-in-thread or the not-a-lead-thread reply |
| Stage.EmojisDistinct | slack_bot/handlers/stage.py:17-22 | no two stages share an emoji |
| Stage.NamesDistinct | slack_bot/handlers/stage.py:17-22 | no two stage names are equal, even ignoring case |
| Stage.EmojiFor | slack_bot/handlers/stage.py:39-41 | `STAGES.get(stage)` is found exactly for a stage of the table, and it is that stage's emoji |
| Stage.StageNamed | slack_bot/handlers/stage.py:137-141 | the stage matched by the command text equals the text ignoring case; nothing is matched exactly when no stage does |
| Stage.StageForEmoji | slack_bot/handlers/stage.py:195-199 | the stage of a reaction is the one whose emoji it is; nothing exactly when no stage has that emoji |
| Stage.MatchStage | slack_bot/handlers/stage.py:137-141 | the loop over the stages finds the stage named by the command text |
| Stage.FindStageByEmoji | slack_bot/handlers/stage.py:195-199 | the loop over the stages finds the stage of the reaction |
| Stage.EmojiToStage | slack_bot/handlers/stage.py:195-199 | each stage's emoji leads back to that stage |
| Stage.StageToEmoji | slack_bot/handlers/stage.py:39 | each stage's name leads to its emoji |
| Stage.EmojiLookupInverts | slack_bot/handlers/stage.py:195-199 | the stage found for a reaction has that reaction as its emoji |
| Stage.StageNamedExactly | slack_bot/handlers/stage.py:137-141 | a text names a stage exactly when it equals that stage's name ignoring case, and it has the name's length |
| Stage.StagePatch | slack_bot/handlers/stage.py:52-56 | a stage change writes `status`, `last_activity` and `updated_by` and no other column |
| Stage.ReactIfAbsent | slack_bot/handlers/stage.py:63-71 | the parent carries the stage's emoji afterwards; nothing changes when it already had it, and otherwise the result is adding that reaction to the parent |
| Stage.ReactIfAbsentIdempotent | slack_bot/handlers/stage.py:63-71 | repeating the add-if-absent step changes nothing more |
| Stage.UpdateLeadStage | slack_bot/handlers/stage.py:39-87 | an unknown stage, or a failed user lookup, gives its error and changes nothing; otherwise it updates the row keyed by `str(lead_id)`, adds the emoji unless present, posts the confirmation, and returns success |
| Stage.StageFromText | slack_bot/handlers/stage.py:127-158 | an update is only made for the stage the command text names, a truthy lead id, and the command's channel and thread |
| Stage.StageForLead | slack_bot/handlers/stage.py:152-158 | the lead id updated is the truthy one extracted from the parent |
| Stage.StageUpdateGuarded | slack_bot/handlers/stage.py:104-158 | a stage update happens only in a lead thread, for the stage the command text names, with the truthy lead id of the thread's parent |
| Stage.BlankCommandPrompts | slack_bot/handlers/stage.py:127-134 | a blank `/stage` in a lead thread gets the list of stages |
| Stage.ApplyStageText | slack_bot/handlers/stage.py:127-169 | a blank or unknown stage name, or a lead id that cannot be extracted, gives its reply and changes nothing; a failed user lookup gives the update error; otherwise the stage is applied |
| Stage.ApplyStageForLead | slack_bot/handlers/stage.py:152-169 | without a truthy lead id from the parent nothing changes; otherwise the named stage is applied to that lead, or the update error is returned |
| Stage.HandleStageCommand | slack_bot/handlers/stage.py:100-176 | each guard's reply ends the command with nothing changed; a failed user lookup gives the update error; otherwise the stage is applied |
| Stage.ReactionSkips | slack_bot/handlers/stage.py:195-228 | a reaction that is not a stage emoji, or one on a message without `lead_id`, updates nothing; an update is always for the stage of that emoji |
| Stage.HandleReactionAdded | slack_bot/handlers/stage.py:186-242 | a reaction the guards skip changes nothing; otherwise the reacted message's stage is applied in its own thread |
| Claim.ClaimPatch | slack_bot/handlers/claim.py:78-83 | a claim writes the owner, their name, `last_activity` and status "Claimed" |
| Claim.ClaimLeadId | slack_bot/handlers/claim.py:57-72 | the decoded text's `.get("lead_id")`, which works exactly on a dict; only when decoding fails, the quoted pattern's capture, or nothing |
| Claim.NoUnquotedFallback | slack_bot/handlers/claim.py:60-72 | a text that does not decode and lacks a quoted id is not claimed, even when the unquoted pattern would match |
| Claim.MissingKeyClaimsNone | slack_bot/handlers/claim.py:58-59 | a decoded dict without `lead_id` claims the id `None`, filtered on as the text "None" |
| Claim.ClaimGate | slack_bot/handlers/claim.py:28-72 | a claim goes ahead only in a lead thread, with the user's name, the thread and the extracted id |
| Claim.ClaimForParent | slack_bot/handlers/claim.py:45-72 | after the thread checks, a failed user lookup gives its error; a claim goes ahead only with the user's name, the thread and the id extracted from the parent |
| Claim.ClaimParent | slack_bot/handlers/claim.py:45-103 | after the thread checks, a guard's reply changes nothing; otherwise the row is updated, 🤝 added to the parent and the confirmation posted |
| Claim.HandleClaimCommand | slack_bot/handlers/claim.py:26-112 | a guard's reply changes nothing; otherwise the row keyed by `str(lead_id)` is updated, 🤝 is added to the parent and the confirmation posted |
| NewLead.GetOr | slack_bot/handlers/new_lead.py:49-61 | `.get(key, default)` is the key's value, or the default when absent |
| NewLead.FullName | slack_bot/handlers/new_lead.py:52-54 | the stripped first and last names, or when blank the `name` field, or "Unknown Lead" |
| NewLead.Fields | slack_bot/handlers/new_lead.py:49-61 | every field is `.get` of its key: the key's value when present, otherwise "", or "Hot Tub" for the product and "SharpSpring" for the source |
| NewLead.FullNameNotBlank | slack_bot/handlers/new_lead.py:52-54 | the full name is never blank unless the message's own `name` is |
| NewLead.CityClause | slack_bot/handlers/new_lead.py:68-69 | the city clause appears exactly for a truthy city |
| NewLead.Assignment | slack_bot/handlers/new_lead.py:73-76 | the owner line names the owner, or "Unclaimed" for a falsy one |
| NewLead.Announcement | slack_bot/handlers/new_lead.py:64-78 | the announcement starts with the header and ends with the owner line and the footer; with a truthy city it is exactly header, city clause, contact, owner line, footer, and without one the city clause is left out |
| NewLead.Record | slack_bot/handlers/new_lead.py:100-116 | the record writes every column except the owner's display name, `last_reminder`, `updated_by` and the escalation columns; it sets status "New", the event's thread and channel, and the lead's name and owner |
| NewLead.NewRowIsRecord | slack_bot/handlers/new_lead.py:100-119 | a lead new to the table is stored as exactly its record, since the record overrides every default |
| NewLead.IntakeOf | slack_bot/handlers/new_lead.py:33-46 | a text without `lead_id` is ignored; a text with it gets the parse warning when it does not decode, is not a dict when it decodes to another value, and otherwise is accepted with that dict's fields; only such a text is accepted |
| NewLead.HandleNewLead | slack_bot/handlers/new_lead.py:30-124 | a text without `lead_id`, or one decoding to no dict, changes nothing; one that does not decode gets only the parse warning in its thread; an accepted lead posts the announcement in its thread, adds 🆕 and upserts the record unless `lead_id` is `null` |
| Webhook.SharpspringWebhook | slack_bot/app.py:45-76 | success exactly for a body decoding to a dict, which schedules the dumped 8-key lead message to the leads channel; otherwise the error answer with the exception's text and no post |
| Webhook.LeadIdText | slack_bot/app.py:52 | the `lead_id` sent is the payload's string id, or "None" without one |
| Webhook.PostedTextMentionsLeadId | slack_bot/app.py:51-69 | every message the webhook posts mentions `lead_id`, so the inbox handler does not ignore it |
| Webhook.NameLookups | slack_bot/app.py:53-55 | the name keys of the lead message read back their values |
| Webhook.LeadLookups | slack_bot/app.py:52-59 | the id, product and source keys read back their values |
| Webhook.WebhookToIntake | slack_bot/app.py:51-70 | a webhook message read back by the inbox handler is accepted with the payload's id, joined name, product and source; the handler's defaults never apply |
| Webhook.MissingIdStoredAsNone | slack_bot/app.py:52 | a payload without `id` is stored under the lead id "None" |
| Escalate.LastName | slack_bot/handlers/escalate.py:78 | the last word of the name, non-empty and without spaces, or "unknown" for a blank name |
| Escalate.KeepAlnum | slack_bot/handlers/escalate.py:79 | `re.sub(r'[^a-zA-Z0-9]', '', s)` keeps only ASCII letters and digits, and changes a text made only of them not at all |
| Escalate.KeepAlnumChar | slack_bot/handlers/escalate.py:79 | one character is kept exactly when it is an ASCII letter or digit |
| Escalate.KeepAlnumAppend | slack_bot/handlers/escalate.py:79 | the substitution works character by character: that of a concatenation is the concatenation of the two results |
| Escalate.Sanitize | slack_bot/handlers/escalate.py:79 | the sanitised last name is `[a-z0-9]` only and no longer than before |
| Escalate.SanitizeIdempotent | slack_bot/handlers/escalate.py:79 | sanitising changes a name exactly when it is not all `[a-z0-9]`, and sanitising twice is sanitising once |
| Escalate.IdTail | slack_bot/handlers/escalate.py:83 | `lead_id[-4:]` is the last four characters of a string id (all of a shorter one), and fails exactly on values that are no string or list |
| Escalate.Take | slack_bot/handlers/escalate.py:83 | `s[:n]` is a prefix of the text: the whole text when it fits, otherwise exactly its first `n` characters |
| Escalate.ChannelName | slack_bot/handlers/escalate.py:83 | the channel name has at most 21 characters and starts with "deal-"; it is "deal-<lastname>-<tail>" whenever that fits, and otherwise exactly that text's first 21 characters |
| Escalate.ChannelNameOfLead | slack_bot/handlers/escalate.py:78-83 | when it fits, the sanitised last name follows "deal-" and is followed by "-" |
| Escalate.LastNameOfTwoWords | slack_bot/handlers/escalate.py:78 | whatever comes before it, a word after a space is the last name |
| Escalate.LeadSurname | slack_bot/handlers/escalate.py:78-79 | any stored name ending in the word "Lead" gives the sanitised last name "lead"; among them is "Unknown Lead", the name the inbox handler stores for a lead without a name (new_lead.py:52-54) |
| Escalate.LeadChannelPrefix | slack_bot/handlers/escalate.py:83 | the channel of a lead named "... Lead" starts with "deal-lead-" |
| Escalate.SummaryEntries | slack_bot/handlers/escalate.py:131-150 | there is one entry per thread message, in the thread's order |
| Escalate.SummaryOrder | slack_bot/handlers/escalate.py:129-150 | the summary of a thread split in two is the first part's summary followed by the second part's entries |
| Escalate.SummaryShape | slack_bot/handlers/escalate.py:129-150 | the summary starts with the header, and a further message adds exactly its entry |
| Escalate.BuildSummary | slack_bot/handlers/escalate.py:129-150 | the loop builds the header followed by every message's entry in thread order |
| Escalate.EscalatePatch | slack_bot/handlers/escalate.py:159-165 | an escalation writes status "Escalated", `escalated_by`, `escalated_at`, `escalated_channel` and `last_activity` |
| Escalate.EscalationRecorded | slack_bot/handlers/escalate.py:159-167 | the escalated row records status, requester, channel and time and keeps its other columns; every other row is unchanged |
| Escalate.EscalateGate | slack_bot/handlers/escalate.py:31-60 | the command goes on only in a lead thread, with the thread's `thread_ts` and a truthy lead id extracted from the parent |
| Escalate.LeadRowGate | slack_bot/handlers/escalate.py:64-83 | no row for `str(lead_id)` gives the not-found reply; a NULL name gives the `split` error; otherwise the channel name is built from the row's name and the id's tail |
| Escalate.NoRowNoChannel | slack_bot/handlers/escalate.py:64-71 | a lead id without a row gets the not-found reply, so no channel is created |
| Escalate.CompleteEscalation | slack_bot/handlers/escalate.py:109-174 | the managers are invited or, when that fails, the note is posted; then the summary, the row update and the thread confirmation follow, in that order |
| Escalate.HandleEscalateCommand | slack_bot/handlers/escalate.py:26-190 | a guard's reply or a failed create changes nothing; a failed invite of the requester stops after the initial post; otherwise the channel gets the initial post, the requester, the rest of the escalation, and the row is updated |
| Reminders.Col | slack_bot/handlers/reminders.py:49-54 | a column reads as `None` exactly when it is NULL |
| Reminders.Sub | slack_bot/handlers/reminders.py:69 | two datetimes can be subtracted exactly when both are naive or both aware, giving the difference |
| Reminders.ReplaceZ | slack_bot/handlers/reminders.py:67 | `.replace("Z", "+00:00")` leaves no "Z" and changes a text without one not at all |
| Reminders.ReplaceZChar | slack_bot/handlers/reminders.py:67 | "Z" becomes "+00:00" and any other character stays |
| Reminders.ReplaceZAppend | slack_bot/handlers/reminders.py:67 | the replacement works character by character: that of a concatenation is the concatenation of the two results |
| Reminders.DaysHours | slack_bot/handlers/reminders.py:69-71 | on a difference in microseconds the hours are 0 to 23, days and hours round the elapsed time down to the hour, and the days are 0 under a day and never negative for a past time |
| Reminders.ElapsedFormat | slack_bot/handlers/reminders.py:73-76 | under a day only the hours are shown; from a day on the days come first, then the hours of the last day |
| Reminders.ActivityDisplayAt | slack_bot/handlers/reminders.py:61-78 | "Unknown" without a truthy last activity, when the timestamp does not parse, or when the subtraction from the job's clock raises; otherwise the elapsed time since it |
| Reminders.AsWrittenAlwaysUnknown | slack_bot/handlers/reminders.py:67-69 | with the naive `datetime.now()`, every stored `timestamptz` reads "Unknown" |
| Reminders.CorrectedShowsElapsed | slack_bot/handlers/reminders.py:67-76 | with an aware UTC clock a stored timestamp reads as the time elapsed since it |
| Reminders.TwoDaysThreeHours | slack_bot/handlers/reminders.py:67-76 | a lead idle two days and three hours reads "Unknown" as written and "2 days, 3 hours ago" with the aware clock |
| Reminders.TwoDaysThreeHoursText | slack_bot/handlers/reminders.py:73-74 | two days and three hours print as "2 days, 3 hours ago" |
| Reminders.FractionRoundsDown | slack_bot/handlers/reminders.py:69-76 | with the aware clock, 0.3 seconds short of three hours reads "2 hours ago": the hours round down on the exact difference |
| Reminders.TwoHoursText | slack_bot/handlers/reminders.py:71-76 | 0.3 seconds short of three hours prints as "2 hours ago" |
| Reminders.PositionsKept | slack_bot/handlers/reminders.py:47-93 | each position picked out is that of a lead whose reminder went through |
| Reminders.PositionsAscending | slack_bot/handlers/reminders.py:47 | the positions are strictly ascending, so no lead is picked twice and the leads' order is kept |
| Reminders.PositionsComplete | slack_bot/handlers/reminders.py:47-93 | every lead whose reminder went through is picked |
| Reminders.PingPostsCount | slack_bot/handlers/reminders.py:47-93 | there are as many messages as leads whose reminder went through |
| Reminders.PingPostAt | slack_bot/handlers/reminders.py:81-93 | the `k`-th message is the reminder of the `k`-th lead whose reminder went through, to that lead's owner, with the text built from its row and the job's clock |
| Reminders.PingPostsDelivered | slack_bot/handlers/reminders.py:47-93 | exactly one message per lead whose reminder went through and none for the others, in the leads' order, each the lead's reminder sent to its owner |
| Reminders.PingPostsLast | slack_bot/handlers/reminders.py:47-93 | the last lead adds its own message, if any, after those of the leads before it |
| Reminders.StampPatch | slack_bot/handlers/reminders.py:98-101 | a reminder writes `last_reminder` and no other column |
| Reminders.StampLead | slack_bot/handlers/reminders.py:98-101 | stamping one lead adds and drops no row |
| Reminders.StampRowsLast | slack_bot/handlers/reminders.py:90-101 | the last lead is stamped, if at all, after the leads before it |
| Reminders.StampRows | slack_bot/handlers/reminders.py:98-101 | stamping adds and drops no lead |
| Reminders.PingPostsAppend | slack_bot/handlers/reminders.py:47 | the messages for two runs of leads are the first run's followed by the second's |
| Reminders.SkipIncomplete | slack_bot/handlers/reminders.py:56-58 | a lead without an owner or a `lead_id` adds no message and no stamp |
| Reminders.StampOnlyDelivered | slack_bot/handlers/reminders.py:90-106 | a row is stamped only for a lead whose reminder went through; a failed message leaves its row alone |
| Reminders.DeliveredIsStamped | slack_bot/handlers/reminders.py:90-101 | a lead whose reminder went through has `last_reminder` stamped, whatever the later leads do |
| Reminders.PingLead | slack_bot/handlers/reminders.py:48-106 | one lead: skipped when incomplete; when its reminder, measured against the job's clock, goes through, that reminder is posted to the owner and its row stamped; otherwise nothing changes |
| Reminders.PingAll | slack_bot/handlers/reminders.py:47-106 | the loop posts exactly the reminders of the delivered leads, in order and with texts measured against the job's clock, and stamps exactly those leads; one lead's failure does not stop the others |
| Reminders.SendIdlePings | slack_bot/handlers/reminders.py:31-106 | the selected leads are exactly the claimed, open, stale rows, each once; the job posts the delivered leads' reminders, measured against its clock, and stamps exactly those rows |
| Reminders.NoIdleNoPings | slack_bot/handlers/reminders.py:40-42 | with no idle lead nothing is sent and nothing stamped |

## Left out

- Logging, `ack()`, each handler's registration, and the FastAPI server and its health
  endpoint are not modelled. They produce no state the handlers read.
- None of the Slack or Supabase calls can fail in the model. The exceptions are:
  - the user lookup,
  - the parent-message history,
  - the channel create,
  - the invites,
  - the reminder's direct message.

  A failed post, reaction or table write is not modelled. The behaviour of the handlers'
  outer `except` blocks for those calls is therefore not covered.
- Escalate.HandleEscalateCommand: the channel `conversations.create` makes is not part of the
  workspace state. After a failed invite of the requester, the contract shows only the
  initial post. It does not show that the private channel stays behind, orphaned.
- The reactions already on a message are only those the fetched parent reports. The
  model adds reactions to a set and does not model Slack's `already_reacted` error.
- `datetime.fromtimestamp(...).strftime(...)` in the summary depends on the host's time
  zone, so it is an input function.
- Four more things are input functions, and the model proves nothing about what they return:
  - `json.loads`;
  - `datetime.fromisoformat`;
  - `users.info` (the real name);
  - the webhook's `request.json()`. This one enters as a decoded value.
- "now()" in written records is one text `now` per handler call. The database does not
  turn it into a timestamp in the model.
- Reminders.SendIdlePings: assumes the query's `.lte("last_activity", "now() - interval
  '48 hours'")` filter works as intended, keeping the rows the input `stale` accepts. As
  written, that text is sent as a literal value, and PostgreSQL cannot read it as a
  timestamp. So `.execute()` (reminders.py:31-36) would raise, and the outer `except`
  (reminders.py:108-109) would end the job before any message is sent. This reading is
  not executed, and the model does not capture that failure.
- The reminder job's clock is the input `env.clock`. As written it is the naive
  `datetime.now()`, which `Reminders.AsWrittenAlwaysUnknown` is about. The aware clock
  of the finding below is `Reminders.CorrectedShowsElapsed`. The message texts of
  `PingLead`, `PingAll` and `SendIdlePings` are measured against whichever clock is given.
- The order in which the database returns rows is also an input: `Select` promises
  every kept row once, in some order.
- The bot's `team_id` can be missing; then the thread link shows "None".
- `@sales-managers` is passed to `conversations.invite` as it is written. Whether Slack
  accepts it is an input: the `invite` function.
- The `value numeric` column and the `stage_changes` table are not modelled; no
  modelled handler writes them.
- Floating-point JSON numbers are not modelled; only integers are.
- Non-ASCII characters count as printable in `repr`.
- Text.Lower: lower-cases only ASCII capitals. Python's `str.lower` also maps other
  letters. The only results that matter are comparisons with the four stage names, and
  those contain no letter a non-ASCII capital lower-cases to.
- SlackHelpers.IsWordChar: `\w` is ASCII letters, digits and `_`. Python's Unicode `\w`
  also takes other letters, so an unquoted id with non-ASCII letters would be captured
  further in Python.
- The command body, reaction event and inbox message are typed records. A body that is
  not a dict, or one missing `channel_id` or `user_id`, is not modelled.

## Findings

| source | as written | input that shows it | evidently intended | confidence | as-written member | corrected member |
|---|---|---|---|---|---|---|
| slack_bot/handlers/reminders.py:67-69 | `datetime.now()` is a naive datetime. `last_activity` is a `timestamptz`, returned with a UTC offset, so `fromisoformat` gives an aware datetime. Subtracting them raises `TypeError`, and the except branch leaves the display "Unknown". | a lead whose `last_activity` is two days and three hours ago, e.g. `2024-05-01T09:00:00+00:00` with the clock at `2024-05-03T12:00:00Z`: it reads "inactive for Unknown" | the elapsed time, "2 days, 3 hours ago", measured against `datetime.now(timezone.utc)` | not executed | Reminders.AsWrittenAlwaysUnknown | Reminders.CorrectedShowsElapsed |
