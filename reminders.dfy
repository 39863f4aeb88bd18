/** The hourly idle-lead reminder job (`slack_bot/handlers/reminders.py`):
    each claimed, open lead without recent activity gets a direct message to
    its owner, and the reminder is stamped on the lead's row once the message
    went through. */
module Reminders {
  import opened Base
  import opened Text
  import opened Store
  import opened Slack

  /** A stored column, `None` when it is NULL. */
  function Col(row: Row, c: Column): (r: Option<string>)
    ensures r.Some? <==> c in row
    ensures c in row ==> r.value == row[c]
  {
    if c in row then Some(row[c]) else None
  }

  /** The query's filters: an owner that is not NULL; a status that is not
      NULL (SQL's `NOT IN` is unknown for NULL) and neither "Won" nor "Lost";
      and a last activity the database compares as stale (`stale`, see
      README). */
  predicate IdleRow(row: Row, stale: Row -> bool) {
    Owner in row && Status in row && row[Status] != "Won" && row[Status] != "Lost" && stale(row)
  }

  /** A `datetime`: microseconds on its clock, and whether it carries a UTC
      offset. An aware value counts from the epoch in UTC, a naive one on the
      host's wall clock. */
  datatype Instant = Instant(micros: int, aware: bool)

  /** Microseconds in a day and in an hour. */
  const Day: int := 86_400_000_000
  const Hour: int := 3_600_000_000

  /** `a - b` for two datetimes, in microseconds; Python refuses to mix
      naive and aware values. */
  function Sub(a: Instant, b: Instant): (r: Result<int>)
    ensures r.Ok? <==> a.aware == b.aware
    ensures r.Ok? ==> r.value == a.micros - b.micros
  {
    if a.aware != b.aware then Raise("can't subtract offset-naive and offset-aware datetimes")
    else Ok(a.micros - b.micros)
  }

  /** `s.replace("Z", "+00:00")`. */
  function ReplaceZ(s: string): (r: string)
    ensures forall i :: 0 <= i < |r| ==> r[i] != 'Z'
    ensures (forall i :: 0 <= i < |s| ==> s[i] != 'Z') ==> r == s
  {
    if s == [] then []
    else (if s[0] == 'Z' then "+00:00" else [s[0]]) + ReplaceZ(s[1..])
  }

  /** A "Z" becomes "+00:00" and any other character stays. */
  lemma ReplaceZChar(c: char)
    ensures ReplaceZ([c]) == (if c == 'Z' then "+00:00" else [c])
  {
    assert [c][1..] == [];
  }

  /** Each part of a text is replaced on its own, in order. */
  lemma {:induction false} ReplaceZAppend(a: string, b: string)
    ensures ReplaceZ(a + b) == ReplaceZ(a) + ReplaceZ(b)
    decreases |a|
  {
    if a != [] {
      assert (a + b)[0] == a[0] && (a + b)[1..] == a[1..] + b;
      ReplaceZAppend(a[1..], b);
    } else {
      assert a + b == b;
    }
  }

  /** `datetime.fromisoformat`: the parsed value, `None` when the text is not
      an ISO timestamp. */
  type ParseIso = string -> Option<Instant>

  /** The whole days and the whole hours within the last day of an elapsed
      time of `delta` microseconds, as `timedelta.days` and
      `timedelta.seconds // 3600` give them: both round down, the
      microseconds and the seconds of the last hour included. */
  function DaysHours(delta: int): (dh: (int, int))
    ensures 0 <= dh.1 <= 23
    ensures dh.0 * Day + dh.1 * Hour <= delta < dh.0 * Day + dh.1 * Hour + Hour
    ensures delta >= 0 ==> dh.0 >= 0
    ensures 0 <= delta < Day ==> dh.0 == 0
  {
    var days := delta / Day;
    var rest := delta % Day;
    var hours := rest / Hour;
    assert delta == days * Day + rest;
    assert rest == hours * Hour + rest % Hour;
    (days, hours)
  }

  /** The elapsed time as the reminder prints it. */
  function Elapsed(delta: int): string {
    var (days, hours) := DaysHours(delta);
    if days > 0 then IntToString(days) + " days, " + IntToString(hours) + " hours ago"
    else IntToString(hours) + " hours ago"
  }

  /** Within a day of the last activity only the hours are printed; from a
      day on, the days come first. */
  lemma ElapsedFormat(delta: int)
    requires delta >= 0
    ensures delta < Day ==> Elapsed(delta) == IntToString(delta / Hour) + " hours ago"
    ensures delta >= Day ==>
      Elapsed(delta) == IntToString(delta / Day) + " days, " + IntToString(delta % Day / Hour) + " hours ago"
  {
    var (days, hours) := DaysHours(delta);
    if delta < Day {
      assert days == 0;
      assert delta % Day == delta;
    } else {
      assert days == delta / Day && days > 0;
    }
  }

  /** The activity display against the clock `clock`: "Unknown" without a
      last activity, for a timestamp that does not parse, and when the
      subtraction raises. */
  function ActivityDisplayAt(lastActivity: Option<string>, parse: ParseIso, clock: Instant): (r: string)
    ensures lastActivity.None? || lastActivity.value == "" ==> r == "Unknown"
    ensures lastActivity.Some? && lastActivity.value != "" && parse(ReplaceZ(lastActivity.value)).None? ==>
      r == "Unknown"
    ensures lastActivity.Some? && lastActivity.value != "" && parse(ReplaceZ(lastActivity.value)).Some?
            && Sub(clock, parse(ReplaceZ(lastActivity.value)).value).Ok? ==>
      r == Elapsed(clock.micros - parse(ReplaceZ(lastActivity.value)).value.micros)
    ensures lastActivity.Some? && lastActivity.value != "" && parse(ReplaceZ(lastActivity.value)).Some?
            && Sub(clock, parse(ReplaceZ(lastActivity.value)).value).Raise? ==>
      r == "Unknown"
  {
    match lastActivity
    case None => "Unknown"
    case Some(s) =>
      if s == "" then "Unknown"
      else
        match parse(ReplaceZ(s))
        case None => "Unknown"
        case Some(t) =>
          match Sub(clock, t)
          case Raise(_) => "Unknown"
          case Ok(delta) => Elapsed(delta)
  }

  /** The display as written: `datetime.now()` is naive, `localNow` microseconds on
      the host's wall clock. */
  function ActivityDisplayAsWritten(lastActivity: Option<string>, parse: ParseIso, localNow: int): string {
    ActivityDisplayAt(lastActivity, parse, Instant(localNow, false))
  }

  /** `last_activity` is a `timestamptz`, which the database returns with a
      UTC offset, so it parses to an aware datetime; the naive clock can
      never be subtracted from it and the reminder always reads "Unknown". */
  lemma AsWrittenAlwaysUnknown(lastActivity: Option<string>, parse: ParseIso, localNow: int)
    requires lastActivity.Some? && parse(ReplaceZ(lastActivity.value)).Some?
    requires parse(ReplaceZ(lastActivity.value)).value.aware
    ensures ActivityDisplayAsWritten(lastActivity, parse, localNow) == "Unknown"
  {
    var t := parse(ReplaceZ(lastActivity.value)).value;
    assert Sub(Instant(localNow, false), t).Raise?;
  }

  /** The display with an aware clock, `datetime.now(timezone.utc)`, at
      `utcNow` microseconds since the epoch. */
  function ActivityDisplay(lastActivity: Option<string>, parse: ParseIso, utcNow: int): string {
    ActivityDisplayAt(lastActivity, parse, Instant(utcNow, true))
  }

  /** With the aware clock a stored timestamp gives the elapsed time. */
  lemma CorrectedShowsElapsed(lastActivity: Option<string>, parse: ParseIso, utcNow: int)
    requires lastActivity.Some? && lastActivity.value != "" && parse(ReplaceZ(lastActivity.value)).Some?
    requires parse(ReplaceZ(lastActivity.value)).value.aware
    ensures ActivityDisplay(lastActivity, parse, utcNow)
         == Elapsed(utcNow - parse(ReplaceZ(lastActivity.value)).value.micros)
  {
    var t := parse(ReplaceZ(lastActivity.value)).value;
    assert Sub(Instant(utcNow, true), t) == Ok(utcNow - t.micros);
  }

  /** The input that shows the difference: a lead last active two days and
      three hours ago reads "Unknown" as written and "2 days, 3 hours ago"
      with the aware clock. */
  lemma TwoDaysThreeHours(lastActivity: Option<string>, parse: ParseIso, t: int, localNow: int)
    requires lastActivity.Some? && lastActivity.value != ""
    requires parse(ReplaceZ(lastActivity.value)) == Some(Instant(t, true))
    ensures ActivityDisplayAsWritten(lastActivity, parse, localNow) == "Unknown"
    ensures ActivityDisplay(lastActivity, parse, t + 2 * Day + 3 * Hour) == "2 days, 3 hours ago"
  {
    var d := 2 * Day + 3 * Hour;
    CorrectedShowsElapsed(lastActivity, parse, t + d);
    TwoDaysThreeHoursText(d);
  }

  lemma TwoDaysThreeHoursText(d: int)
    requires d == 2 * Day + 3 * Hour
    ensures Elapsed(d) == "2 days, 3 hours ago"
  {
    ElapsedFormat(d);
    var days, hours := d / Day, d % Day / Hour;
    assert days == 2 && hours == 3;
    DaysText(days, hours, "2", "3");
  }

  /** The days-and-hours display for one-digit counts. */
  lemma DaysText(days: int, hours: int, d1: string, d2: string)
    requires 0 <= days <= 9 && d1 == [DigitChar(days)]
    requires 0 <= hours <= 9 && d2 == [DigitChar(hours)]
    ensures IntToString(days) + " days, " + IntToString(hours) + " hours ago" == d1 + " days, " + d2 + " hours ago"
  {
    assert NatToString(days) == [DigitChar(days)];
    assert NatToString(hours) == [DigitChar(hours)];
  }

  /** The hours round down on the exact difference: from 09:00:00.5 to
      12:00:00.2 is 2 hours, 59 minutes and 59.7 seconds, shown as
      "2 hours ago". */
  lemma FractionRoundsDown(lastActivity: Option<string>, parse: ParseIso, t: int)
    requires lastActivity.Some? && lastActivity.value != ""
    requires parse(ReplaceZ(lastActivity.value)) == Some(Instant(t, true))
    ensures ActivityDisplay(lastActivity, parse, t + 3 * Hour - 300_000) == "2 hours ago"
  {
    var d := 3 * Hour - 300_000;
    CorrectedShowsElapsed(lastActivity, parse, t + d);
    TwoHoursText(d);
  }

  lemma TwoHoursText(d: int)
    requires d == 3 * Hour - 300_000
    ensures Elapsed(d) == "2 hours ago"
  {
    ElapsedFormat(d);
    assert d / Hour == 2;
    HoursText(d / Hour, "2");
  }

  /** The hours-only display for a one-digit count. */
  lemma HoursText(n: int, digit: string)
    requires 0 <= n <= 9 && digit == [DigitChar(n)]
    ensures IntToString(n) + " hours ago" == digit + " hours ago"
  {
    assert NatToString(n) == [DigitChar(n)];
  }

  /** What the job takes from outside: the direct-message call (`true` when
      it went through), the timestamp parser, the clock the display is
      measured against and the workspace's `team_id`. As written the clock
      is `datetime.now()`, a naive value; the intended one is aware. */
  datatype Env = Env(deliver: (string, string) -> bool, parse: ParseIso, clock: Instant, teamId: Option<string>)

  /** A selected lead, as the database returns it: its `lead_id` and row. */
  type Lead = (string, Row)

  /** A lead has an owner and a `lead_id` that are not empty. */
  predicate Complete(lead: Lead) {
    Owner in lead.1 && lead.1[Owner] != "" && lead.0 != ""
  }

  /** The link to the lead's thread: NULL parts print as "None". */
  function ThreadLink(teamId: Option<string>, row: Row): string {
    "https://app.slack.com/client/" + ShowOpt(teamId) + "/" + ShowOpt(Col(row, ChannelId))
    + "/thread/" + ShowOpt(Col(row, ThreadTs))
  }

  /** The reminder for a row whose activity reads `display`. */
  function ReminderMessage(row: Row, teamId: Option<string>, display: string): string {
    "🔔 *Reminder:* Lead *" + ShowOpt(Col(row, Name)) + "* (Status: " + ShowOpt(Col(row, Status))
    + ") has been inactive for " + display + ".\n"
    + "Please follow up or update the status.\n"
    + "<" + ThreadLink(teamId, row) + "|View Lead Thread>"
  }

  /** The reminder sent for a lead. */
  function ReminderText(lead: Lead, env: Env): string {
    ReminderMessage(lead.1, env.teamId, ActivityDisplayAt(Col(lead.1, LastActivity), env.parse, env.clock))
  }

  /** The reminder for a complete lead went through. */
  predicate Delivered(lead: Lead, env: Env) {
    Complete(lead) && env.deliver(lead.1[Owner], ReminderText(lead, env))
  }

  /** The direct messages the job posts for `leads`, in their order: one to
      the owner of each lead whose reminder went through. */
  function PingPosts(leads: seq<Lead>, env: Env): seq<Post>
    decreases |leads|
  {
    if leads == [] then []
    else PingPosts(leads[..|leads| - 1], env) + LeadPost(leads[|leads| - 1], env)
  }

  /** The direct message for one lead: to its owner, if its reminder went
      through. */
  function LeadPost(lead: Lead, env: Env): seq<Post> {
    if Delivered(lead, env) then [ReminderPost(lead, env)] else []
  }

  /** The reminder of a complete lead, addressed to its owner. */
  function ReminderPost(lead: Lead, env: Env): Post
    requires Complete(lead)
  {
    Post(lead.1[Owner], None, ReminderText(lead, env))
  }

  /** The positions of the elements of `xs` that `keep` holds for, in order. */
  function Positions<T>(xs: seq<T>, keep: T -> bool): seq<nat>
    decreases |xs|
  {
    if xs == [] then []
    else Positions(xs[..|xs| - 1], keep) + (if keep(xs[|xs| - 1]) then [|xs| - 1] else [])
  }

  /** Each position is that of an element `keep` holds for. */
  lemma {:induction false} PositionsKept<T>(xs: seq<T>, keep: T -> bool)
    ensures forall k :: 0 <= k < |Positions(xs, keep)| ==>
      Positions(xs, keep)[k] < |xs| && keep(xs[Positions(xs, keep)[k]])
    decreases |xs|
  {
    if xs != [] {
      var init := xs[..|xs| - 1];
      PositionsKept(init, keep);
      var r0, r := Positions(init, keep), Positions(xs, keep);
      assert r == r0 + (if keep(xs[|xs| - 1]) then [|xs| - 1] else []);
      forall k | 0 <= k < |r| ensures r[k] < |xs| && keep(xs[r[k]]) {
        if k < |r0| {
          assert r[k] == r0[k] && xs[r0[k]] == init[r0[k]];
        }
      }
    }
  }

  /** The positions are strictly ascending. */
  lemma {:induction false} PositionsAscending<T>(xs: seq<T>, keep: T -> bool)
    ensures forall k :: 0 <= k < |Positions(xs, keep)| ==> Positions(xs, keep)[k] < |xs|
    ensures forall k, l :: 0 <= k < l < |Positions(xs, keep)| ==> Positions(xs, keep)[k] < Positions(xs, keep)[l]
    decreases |xs|
  {
    if xs != [] {
      var init := xs[..|xs| - 1];
      PositionsAscending(init, keep);
      var r0, r := Positions(init, keep), Positions(xs, keep);
      assert r == r0 + (if keep(xs[|xs| - 1]) then [|xs| - 1] else []);
      forall k | 0 <= k < |r| ensures r[k] < |xs| {
        if k < |r0| {
          assert r[k] == r0[k];
        }
      }
      forall k, l | 0 <= k < l < |r| ensures r[k] < r[l] {
        if l < |r0| {
          assert r[k] == r0[k] && r[l] == r0[l];
        } else {
          assert r[k] == r0[k] && r0[k] < |init|;
        }
      }
    }
  }

  /** Every element `keep` holds for has its position among them. */
  lemma {:induction false} PositionsComplete<T>(xs: seq<T>, keep: T -> bool)
    ensures forall j :: 0 <= j < |xs| && keep(xs[j]) ==> j in Positions(xs, keep)
    decreases |xs|
  {
    if xs != [] {
      var init := xs[..|xs| - 1];
      PositionsComplete(init, keep);
      var r0, r := Positions(init, keep), Positions(xs, keep);
      assert r == r0 + (if keep(xs[|xs| - 1]) then [|xs| - 1] else []);
      forall j | 0 <= j < |xs| && keep(xs[j]) ensures j in r {
        if j < |init| {
          assert init[j] == xs[j];
        }
      }
    }
  }

  /** Whether a lead's reminder went through, as a function value. */
  function DeliveredTo(env: Env): Lead -> bool {
    lead => Delivered(lead, env)
  }

  /** The positions of the leads whose reminder went through, in order. */
  function DeliveredAt(leads: seq<Lead>, env: Env): seq<nat> {
    Positions(leads, DeliveredTo(env))
  }

  /** The columns a reminder writes. */
  function StampPatch(now: string): (p: Patch)
    ensures p.Keys == {LastReminder} && p[LastReminder] == Some(now)
  {
    map[LastReminder := Some(now)]
  }

  /** The rows after the job: `last_reminder` stamped on each lead whose
      reminder went through, in order. */
  function StampRows(rows: map<string, Row>, leads: seq<Lead>, env: Env, now: string): (r: map<string, Row>)
    ensures r.Keys == rows.Keys
    decreases |leads|
  {
    if leads == [] then rows
    else StampLead(StampRows(rows, leads[..|leads| - 1], env, now), leads[|leads| - 1], env, now)
  }

  /** The rows after one lead: stamped, if its reminder went through. */
  function StampLead(rows: map<string, Row>, lead: Lead, env: Env, now: string): (r: map<string, Row>)
    ensures r.Keys == rows.Keys
  {
    if Delivered(lead, env) then UpdateRows(rows, lead.0, StampPatch(now)) else rows
  }

  /** The last lead is stamped, if at all, after the others. */
  lemma StampRowsLast(rows: map<string, Row>, init: seq<Lead>, last: Lead, env: Env, now: string)
    ensures StampRows(rows, init + [last], env, now) == StampLead(StampRows(rows, init, env, now), last, env, now)
  {
    var leads := init + [last];
    assert leads[..|leads| - 1] == init && leads[|leads| - 1] == last;
  }

  /** The last lead adds its own message, if any, after the others'. */
  lemma PingPostsLast(init: seq<Lead>, last: Lead, env: Env)
    ensures PingPosts(init + [last], env) == PingPosts(init, env) + LeadPost(last, env)
  {
    var leads := init + [last];
    assert leads[..|leads| - 1] == init && leads[|leads| - 1] == last;
  }

  /** One message per lead whose reminder went through. */
  lemma {:induction false} PingPostsCount(leads: seq<Lead>, env: Env)
    ensures |PingPosts(leads, env)| == |DeliveredAt(leads, env)|
    decreases |leads|
  {
    if leads != [] {
      var init, last := leads[..|leads| - 1], leads[|leads| - 1];
      PingPostsCount(init, env);
      assert DeliveredAt(leads, env) == DeliveredAt(init, env) + (if Delivered(last, env) then [|leads| - 1] else []);
      assert PingPosts(leads, env) == PingPosts(init, env) + LeadPost(last, env);
    }
  }

  /** The `k`-th message is the reminder of the `k`-th lead whose reminder
      went through, sent to its owner. */
  lemma {:induction false} PingPostAt(leads: seq<Lead>, env: Env, k: nat)
    requires k < |DeliveredAt(leads, env)|
    ensures DeliveredAt(leads, env)[k] < |leads| && Delivered(leads[DeliveredAt(leads, env)[k]], env)
    ensures k < |PingPosts(leads, env)| && PingPosts(leads, env)[k] == ReminderPost(leads[DeliveredAt(leads, env)[k]], env)
    decreases |leads|
  {
    PositionsKept(leads, DeliveredTo(env));
    PingPostsCount(leads, env);
    var init, last := leads[..|leads| - 1], leads[|leads| - 1];
    var idx, idx0 := DeliveredAt(leads, env), DeliveredAt(init, env);
    assert idx == idx0 + (if Delivered(last, env) then [|leads| - 1] else []);
    assert PingPosts(leads, env) == PingPosts(init, env) + LeadPost(last, env);
    if k < |idx0| {
      PingPostAt(init, env, k);
      assert idx[k] == idx0[k] && leads[idx0[k]] == init[idx0[k]];
    }
  }

  /** Exactly one message per lead whose reminder went through, in the
      leads' order: the `k`-th message is the reminder of the `k`-th such
      lead, sent to its owner. */
  lemma PingPostsDelivered(leads: seq<Lead>, env: Env)
    ensures |PingPosts(leads, env)| == |DeliveredAt(leads, env)|
    ensures forall k :: 0 <= k < |PingPosts(leads, env)| ==>
      DeliveredAt(leads, env)[k] < |leads| && Delivered(leads[DeliveredAt(leads, env)[k]], env)
      && PingPosts(leads, env)[k] == ReminderPost(leads[DeliveredAt(leads, env)[k]], env)
  {
    PingPostsCount(leads, env);
    forall k | 0 <= k < |PingPosts(leads, env)|
      ensures DeliveredAt(leads, env)[k] < |leads| && Delivered(leads[DeliveredAt(leads, env)[k]], env)
      ensures PingPosts(leads, env)[k] == ReminderPost(leads[DeliveredAt(leads, env)[k]], env)
    {
      PingPostAt(leads, env, k);
    }
  }

  /** Splitting the leads splits the messages the same way. */
  lemma {:induction false} PingPostsAppend(a: seq<Lead>, b: seq<Lead>, env: Env)
    ensures PingPosts(a + b, env) == PingPosts(a, env) + PingPosts(b, env)
    decreases |b|
  {
    if b == [] {
      assert a + b == a;
    } else {
      var c, x := b[..|b| - 1], b[|b| - 1];
      InitOfAppend(a, b);
      var ab := a + b;
      assert ab != [] && ab[..|ab| - 1] == a + c && ab[|ab| - 1] == x;
      assert PingPosts(ab, env) == PingPosts(a + c, env) + LeadPost(x, env);
      assert PingPosts(b, env) == PingPosts(c, env) + LeadPost(x, env);
      PingPostsAppend(a, c, env);
    }
  }

  /** Dropping the last element of `a + b` drops the last of `b`. */
  lemma InitOfAppend<T>(a: seq<T>, b: seq<T>)
    requires b != []
    ensures (a + b)[..|a + b| - 1] == a + b[..|b| - 1]
    ensures (a + b)[|a + b| - 1] == b[|b| - 1]
  {
  }

  /** A lead without an owner or a `lead_id` adds no message and no stamp. */
  lemma SkipIncomplete(rows: map<string, Row>, leads: seq<Lead>, lead: Lead, env: Env, now: string)
    requires !Complete(lead)
    ensures PingPosts(leads + [lead], env) == PingPosts(leads, env)
    ensures StampRows(rows, leads + [lead], env, now) == StampRows(rows, leads, env, now)
  {
    assert (leads + [lead])[..|leads|] == leads;
  }

  /** A row is stamped only for a lead whose reminder went through: a row
      with no such lead is unchanged. */
  lemma {:induction false} StampOnlyDelivered(rows: map<string, Row>, leads: seq<Lead>, env: Env, now: string, key: string)
    requires key in rows
    requires forall j :: 0 <= j < |leads| && leads[j].0 == key ==> !Delivered(leads[j], env)
    ensures StampRows(rows, leads, env, now)[key] == rows[key]
    decreases |leads|
  {
    if leads != [] {
      var init := leads[..|leads| - 1];
      assert forall j :: 0 <= j < |init| ==> init[j] == leads[j];
      StampOnlyDelivered(rows, init, env, now, key);
    }
  }

  /** A stored lead whose reminder went through has `last_reminder` stamped,
      whatever comes after it. */
  lemma {:induction false} DeliveredIsStamped(rows: map<string, Row>, leads: seq<Lead>, env: Env, now: string, j: nat)
    requires j < |leads| && Delivered(leads[j], env) && leads[j].0 in rows
    ensures var r := StampRows(rows, leads, env, now);
      LastReminder in r[leads[j].0] && r[leads[j].0][LastReminder] == now
    decreases |leads|
  {
    var init := leads[..|leads| - 1];
    var last := leads[|leads| - 1];
    var r0 := StampRows(rows, init, env, now);
    var key := leads[j].0;
    if j < |leads| - 1 {
      assert init[j] == leads[j];
      DeliveredIsStamped(rows, init, env, now, j);
      if Delivered(last, env) && last.0 == key {
        assert UpdateRows(r0, key, StampPatch(now))[key] == Patched(r0[key], StampPatch(now));
      }
    } else {
      assert UpdateRows(r0, key, StampPatch(now))[key] == Patched(r0[key], StampPatch(now));
    }
  }

  /** The body of the loop for one lead: skip it when incomplete, send its
      reminder, and stamp it only when the message went through. */
  method PingLead(table: LeadsTable, ws: Workspace, lead: Lead, env: Env, now: string)
    modifies table, ws
    ensures ws.posts == old(ws.posts) + LeadPost(lead, env)
    ensures table.rows == StampLead(old(table.rows), lead, env, now)
    ensures ws.reactions == old(ws.reactions) && ws.invites == old(ws.invites)
  {
    var owner := Col(lead.1, Owner);
    if owner.None? || owner.value == "" || lead.0 == "" {
      return;
    }
    var text := ReminderText(lead, env);
    if !env.deliver(owner.value, text) {
      return;
    }
    ws.PostMessage(Post(owner.value, None, text));
    table.Update(lead.0, StampPatch(now));
  }

  /** One more lead of the loop adds its own message and stamp. */
  lemma PingStep(rows: map<string, Row>, leads: seq<Lead>, i: nat, env: Env, now: string)
    requires i < |leads|
    ensures PingPosts(leads[..i + 1], env) == PingPosts(leads[..i], env) + LeadPost(leads[i], env)
    ensures StampRows(rows, leads[..i + 1], env, now) == StampLead(StampRows(rows, leads[..i], env, now), leads[i], env, now)
  {
    assert leads[..i + 1] == leads[..i] + [leads[i]];
    PingPostsLast(leads[..i], leads[i], env);
    StampRowsLast(rows, leads[..i], leads[i], env, now);
  }

  /** The loop of `send_idle_pings` over the selected leads, in order. */
  method PingAll(table: LeadsTable, ws: Workspace, leads: seq<Lead>, env: Env, now: string)
    modifies table, ws
    ensures ws.posts == old(ws.posts) + PingPosts(leads, env)
    ensures table.rows == StampRows(old(table.rows), leads, env, now)
    ensures ws.reactions == old(ws.reactions) && ws.invites == old(ws.invites)
  {
    var i := 0;
    while i < |leads|
      invariant 0 <= i <= |leads|
      invariant ws.posts == old(ws.posts) + PingPosts(leads[..i], env)
      invariant table.rows == StampRows(old(table.rows), leads[..i], env, now)
      invariant ws.reactions == old(ws.reactions) && ws.invites == old(ws.invites)
    {
      PingStep(old(table.rows), leads, i, env, now);
      PingLead(table, ws, leads[i], env, now);
      i := i + 1;
    }
    assert leads[..i] == leads;
  }

  /** `send_idle_pings`: select the idle leads, then for each complete one
      send its reminder and, when it went through, stamp it. A failed
      message only skips that lead. */
  method SendIdlePings(table: LeadsTable, ws: Workspace, env: Env, stale: Row -> bool, now: string)
    returns (idle: seq<Lead>)
    modifies table, ws
    ensures forall i :: 0 <= i < |idle| ==>
      idle[i].0 in old(table.rows) && idle[i].1 == old(table.rows)[idle[i].0] && IdleRow(idle[i].1, stale)
    ensures forall k :: k in old(table.rows) && IdleRow(old(table.rows)[k], stale) ==>
      exists i :: 0 <= i < |idle| && idle[i].0 == k
    ensures forall i, j :: 0 <= i < j < |idle| ==> idle[i].0 != idle[j].0
    ensures ws.posts == old(ws.posts) + PingPosts(idle, env)
    ensures table.rows == StampRows(old(table.rows), idle, env, now)
    ensures ws.reactions == old(ws.reactions) && ws.invites == old(ws.invites)
  {
    idle := table.Select(row => IdleRow(row, stale));
    if idle == [] {
      return;
    }
    PingAll(table, ws, idle, env, now);
  }

  /** With no idle lead the job sends nothing and stamps nothing. */
  lemma NoIdleNoPings(rows: map<string, Row>, env: Env, now: string)
    ensures PingPosts([], env) == [] && StampRows(rows, [], env, now) == rows
  {
  }
}
