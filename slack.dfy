/** What the handlers see of Slack: the payloads Bolt hands them, the messages
    the Web API returns, and the workspace state their calls change. */
module Slack {
  import opened Base

  /** A message returned by `conversations.history` or `conversations.replies`:
      its `text` and `user` may be missing; `reactions` are the names of the
      reactions it carried when it was fetched. */
  datatype Message = Message(text: Option<string>, ts: string, user: Option<string>, reactions: seq<string>)

  /** `message.get("text", "")`. */
  function TextOf(m: Message): (r: string)
    ensures m.text.Some? ==> r == m.text.value
    ensures m.text.None? ==> r == ""
  {
    match m.text
    case Some(t) => t
    case None => ""
  }

  /** The `message` object a slash-command body may carry. */
  datatype Nested = Nested(threadTs: Option<string>)

  /** The body of a slash command as the handlers read it: `channel_id` and
      `user_id` are always there; `text`, `thread_ts` and `message` may not
      be. */
  datatype CommandBody = CommandBody(
    channelId: string,
    userId: string,
    text: Option<string>,
    threadTs: Option<string>,
    message: Option<Nested>)

  /** The `event` of a `message` event: its text, timestamp and channel. */
  datatype MessageEvent = MessageEvent(text: string, ts: string, channel: string)

  /** The `event` of a `reaction_added` event: the reaction, who added it, and
      the channel and timestamp of the message it was added to. */
  datatype ReactionEvent = ReactionEvent(reaction: string, user: string, channel: string, ts: string)

  /** A message the bot posted: `threadTs` is `None` for a top-level post. */
  datatype Post = Post(channel: string, threadTs: Option<string>, text: string)

  /** `conversations.history(channel, latest, inclusive=True, limit=1)`:
      `None` when the call raises. */
  type History = (string, string) -> Option<seq<Message>>

  /** `users.info(user)["user"]["real_name"]`, or what it raises. */
  type Users = string -> Result<string>

  /** The reactions stored on the message at `at` (channel, timestamp). */
  function ReactionsAt(reactions: map<(string, string), set<string>>, at: (string, string)): set<string> {
    if at in reactions then reactions[at] else {}
  }

  /** `reactions.add`: adding a reaction the message already has changes
      nothing (Slack refuses it as `already_reacted`, which the handlers only
      log). */
  function AddReaction(reactions: map<(string, string), set<string>>, at: (string, string), name: string)
    : (r: map<(string, string), set<string>>)
    ensures r.Keys == reactions.Keys + {at}
    ensures r[at] == ReactionsAt(reactions, at) + {name}
    ensures forall k :: k in reactions && k != at ==> r[k] == reactions[k]
  {
    reactions[at := ReactionsAt(reactions, at) + {name}]
  }

  lemma AddReactionIdempotent(reactions: map<(string, string), set<string>>, at: (string, string), name: string)
    ensures AddReaction(AddReaction(reactions, at, name), at, name) == AddReaction(reactions, at, name)
  {
    var once := AddReaction(reactions, at, name);
    assert ReactionsAt(once, at) + {name} == once[at];
    assert once[at := once[at]] == once;
  }

  /** The state of the workspace that the handlers change. */
  class Workspace {
    /** Every message the bot posted, oldest first. */
    var posts: seq<Post>
    /** The reactions on each message, by (channel, timestamp). */
    var reactions: map<(string, string), set<string>>
    /** Every (channel, users) pair the bot invited, oldest first. */
    var invites: seq<(string, string)>

    constructor(reactions0: map<(string, string), set<string>>)
      ensures posts == [] && reactions == reactions0 && invites == []
    {
      posts := [];
      reactions := reactions0;
      invites := [];
    }

    /** `chat.postMessage` (or `say`). */
    method PostMessage(p: Post)
      modifies this
      ensures posts == old(posts) + [p]
      ensures reactions == old(reactions) && invites == old(invites)
    {
      posts := posts + [p];
    }

    /** `reactions.add`. */
    method React(channel: string, ts: string, name: string)
      modifies this
      ensures reactions == AddReaction(old(reactions), (channel, ts), name)
      ensures posts == old(posts) && invites == old(invites)
    {
      reactions := AddReaction(reactions, (channel, ts), name);
    }

    /** A `conversations.invite` that went through. */
    method Invite(channel: string, users: string)
      modifies this
      ensures invites == old(invites) + [(channel, users)]
      ensures posts == old(posts) && reactions == old(reactions)
    {
      invites := invites + [(channel, users)];
    }
  }
}
