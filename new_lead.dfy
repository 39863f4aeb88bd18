/** New leads arriving as JSON messages in the leads inbox
    (`slack_bot/handlers/new_lead.py`). */
module NewLead {
  import opened Base
  import opened Text
  import opened Json
  import opened Store
  import opened Slack

  /** `lead_data.get(key, default)` on a decoded dict. */
  function GetOr(fields: seq<(string, Value)>, key: string, default: Value): (r: Value)
    ensures Lookup(fields, key).Some? ==> r == Lookup(fields, key).value
    ensures Lookup(fields, key).None? ==> r == default
  {
    match Lookup(fields, key) case Some(v) => v case None => default
  }

  /** The fields `handle_new_lead` takes from the decoded message. */
  datatype LeadFields = LeadFields(
    leadId: Value, firstName: Value, lastName: Value, fullName: Value,
    email: Value, phone: Value, city: Value, owner: Value, product: Value, source: Value)

  /** `f"{first_name} {last_name}".strip()`. */
  function JoinedName(first: Value, last: Value): string {
    Strip(PyStr(first) + " " + PyStr(last))
  }

  /** The full name: the joined first and last names, or when that is blank
      the `name` field, or "Unknown Lead" when there is no `name` either. */
  function FullName(fields: seq<(string, Value)>): (r: Value)
    ensures var joined := JoinedName(GetOr(fields, "first_name", Str("")), GetOr(fields, "last_name", Str("")));
      && (joined != "" ==> r == Str(joined))
      && (joined == "" && Lookup(fields, "name").Some? ==> r == Lookup(fields, "name").value)
      && (joined == "" && Lookup(fields, "name").None? ==> r == Str("Unknown Lead"))
  {
    var joined := JoinedName(GetOr(fields, "first_name", Str("")), GetOr(fields, "last_name", Str("")));
    if joined != "" then Str(joined) else GetOr(fields, "name", Str("Unknown Lead"))
  }

  /** The fields of a decoded dict, with their defaults. */
  function Fields(fields: seq<(string, Value)>): (f: LeadFields)
    ensures f.leadId == GetOr(fields, "lead_id", Null)
    ensures f.firstName == GetOr(fields, "first_name", Str("")) && f.lastName == GetOr(fields, "last_name", Str(""))
    ensures f.email == GetOr(fields, "email", Str("")) && f.phone == GetOr(fields, "phone", Str(""))
    ensures f.city == GetOr(fields, "city", Str("")) && f.owner == GetOr(fields, "owner", Str(""))
    ensures f.product == GetOr(fields, "product", Str("Hot Tub"))
    ensures f.source == GetOr(fields, "source", Str("SharpSpring"))
    ensures f.fullName == FullName(fields)
  {
    LeadFields(
      GetOr(fields, "lead_id", Null),
      GetOr(fields, "first_name", Str("")),
      GetOr(fields, "last_name", Str("")),
      FullName(fields),
      GetOr(fields, "email", Str("")),
      GetOr(fields, "phone", Str("")),
      GetOr(fields, "city", Str("")),
      GetOr(fields, "owner", Str("")),
      GetOr(fields, "product", Str("Hot Tub")),
      GetOr(fields, "source", Str("SharpSpring")))
  }

  /** A full name is never blank unless the message's own `name` is. */
  lemma FullNameNotBlank(fields: seq<(string, Value)>)
    requires Lookup(fields, "name").None? || Truthy(Lookup(fields, "name").value)
    ensures Truthy(FullName(fields))
  {
  }

  function Header(f: LeadFields): string {
    "*New Lead*: " + PyStr(f.fullName)
  }

  /** The city clause, present only for a truthy city. */
  function CityClause(f: LeadFields): (r: string)
    ensures Truthy(f.city) ==> r == " from *" + PyStr(f.city) + "* 🏙️"
    ensures !Truthy(f.city) ==> r == ""
  {
    if Truthy(f.city) then " from *" + PyStr(f.city) + "* 🏙️" else ""
  }

  function Contact(f: LeadFields): string {
    "\n📞 " + PyStr(f.phone) + "\n📧 " + PyStr(f.email)
  }

  /** The owner line: "Unclaimed" for a falsy owner. */
  function Assignment(f: LeadFields): (r: string)
    ensures Truthy(f.owner) ==> r == "\nAssigned to: " + PyStr(f.owner)
    ensures !Truthy(f.owner) ==> r == "\nAssigned to: Unclaimed"
  {
    "\nAssigned to: " + (if Truthy(f.owner) then PyStr(f.owner) else "Unclaimed")
  }

  const Footer: string := "\n\nUse `/claim` to take ownership of this lead."

  /** The announcement posted in the lead's thread, built by successive
      `message +=`: the header first, the city clause only for a truthy
      city, then phone and email, the owner line and the footer last. */
  function Announcement(f: LeadFields): (r: string)
    ensures |r| >= |Header(f)| + |Footer| && r[..|Header(f)|] == Header(f) && r[|r| - |Footer|..] == Footer
    ensures var tail := Assignment(f) + Footer;
      |r| >= |tail| && r[|r| - |tail|..] == tail
    ensures !Truthy(f.city) ==> r == Header(f) + Contact(f) + Assignment(f) + Footer
    ensures Truthy(f.city) ==> r == Header(f) + CityClause(f) + Contact(f) + Assignment(f) + Footer
  {
    Framed(Header(f), CityClause(f) + Contact(f), Assignment(f), Footer);
    Regrouped(Header(f), CityClause(f), Contact(f), Assignment(f), Footer);
    Header(f) + (CityClause(f) + Contact(f)) + (Assignment(f) + Footer)
  }

  /** The columns `handle_new_lead` writes: all but the owner's display
      name, the reminder stamp, the last editor and the escalation columns. */
  predicate Recorded(c: Column) {
    !(c.OwnerName? || c.LastReminder? || c.UpdatedBy? || c.EscalatedBy? || c.EscalatedAt? || c.EscalatedChannel?)
  }

  /** The text the record gives a written column. */
  function RecordValue(f: LeadFields, event: MessageEvent, now: string, c: Column): Option<string> {
    match c
    case FirstName => ColumnText(f.firstName)
    case LastName => ColumnText(f.lastName)
    case Name => ColumnText(f.fullName)
    case Email => ColumnText(f.email)
    case Phone => ColumnText(f.phone)
    case City => ColumnText(f.city)
    case Product => ColumnText(f.product)
    case Source => ColumnText(f.source)
    case Status => Some("New")
    case Owner => ColumnText(f.owner)
    case CreatedAt => Some(now)
    case LastActivity => Some(now)
    case ThreadTs => Some(event.ts)
    case ChannelId => Some(event.channel)
    case _ => None
  }

  /** Where the pieces of a message built from a head, a middle and a tail
      of two parts sit in it. */
  lemma Framed(h: string, mid: string, a: string, ft: string)
    ensures var r := h + mid + (a + ft);
      && |r| >= |h| + |ft| && r[..|h|] == h && r[|r| - |ft|..] == ft
      && |r| >= |a + ft| && r[|r| - |a + ft|..] == a + ft
  {
    var r := h + mid + (a + ft);
    assert r[..|h|] == h;
    assert r[|r| - |a + ft|..] == a + ft;
    assert (a + ft)[|a + ft| - |ft|..] == ft;
  }

  /** The announcement is the plain concatenation of its pieces, and
      without a city clause that piece drops out. */
  lemma Regrouped(h: string, city: string, c: string, a: string, ft: string)
    ensures h + (city + c) + (a + ft) == h + city + c + a + ft
    ensures city == [] ==> h + (city + c) + (a + ft) == h + c + a + ft
  {
    assert h + (city + c) == h + city + c;
    assert h + city + c + (a + ft) == h + city + c + a + ft;
    if city == [] {
      assert city + c == c;
    }
  }

  /** The record upserted for the lead, without its key. */
  function Record(f: LeadFields, event: MessageEvent, now: string): (p: Patch)
    ensures forall c :: c in p <==> Recorded(c)
    ensures Status in p && p[Status] == Some("New")
    ensures ThreadTs in p && p[ThreadTs] == Some(event.ts)
    ensures ChannelId in p && p[ChannelId] == Some(event.channel)
    ensures Name in p && p[Name] == ColumnText(f.fullName)
    ensures Owner in p && p[Owner] == ColumnText(f.owner)
  {
    map c | Recorded(c) :: RecordValue(f, event, now, c)
  }

  /** A lead new to the table is stored as exactly its record: the table
      defaults are all overwritten by the record's own columns. */
  lemma {:induction false} NewRowIsRecord(rows: map<string, Row>, key: string, f: LeadFields, event: MessageEvent, now: string)
    requires key !in rows
    ensures var p := Record(f, event, now);
      UpsertRows(rows, key, p, now)[key] == map c | c in p && p[c].Some? :: p[c].value
  {
    var p := Record(f, event, now);
    assert Recorded(Status) && Recorded(LastActivity) && Recorded(CreatedAt);
    PatchedOverDefaults(InsertDefaults(now), p);
  }

  /** What a message in the inbox leads to. */
  datatype Intake =
    | Ignored                  // no "lead_id" in the text
    | ParseWarning             // the text does not decode
    | NotADict                 // `.get` on a decoded value that is no dict raises
    | Accepted(f: LeadFields)

  /** The inbox's classification of a message: ignored without "lead_id",
      otherwise by what the text decodes to. */
  function IntakeOf(event: MessageEvent, decode: Decoder): (r: Intake)
    ensures !Contains(event.text, "lead_id") ==> r == Ignored
    ensures Contains(event.text, "lead_id") && decode(event.text).DecodeError? ==> r == ParseWarning
    ensures Contains(event.text, "lead_id") && decode(event.text).Parsed? && !decode(event.text).value.Obj? ==>
      r == NotADict
    ensures Contains(event.text, "lead_id") && decode(event.text).Parsed? && decode(event.text).value.Obj? ==>
      r == Accepted(Fields(decode(event.text).value.fields))
    ensures r.Accepted? ==>
      (Contains(event.text, "lead_id")
       && decode(event.text).Parsed? && decode(event.text).value.Obj?
       && r.f == Fields(decode(event.text).value.fields))
  {
    if !Contains(event.text, "lead_id") then Ignored
    else
      match decode(event.text)
      case DecodeError(_) => ParseWarning
      case Parsed(data) => if data.Obj? then Accepted(Fields(data.fields)) else NotADict
  }

  const ParseWarningText: string := "⚠️ Failed to parse lead data. Please check the message format."

  /** `handle_new_lead`. A `lead_id` of `null` violates the primary key, so
      that upsert raises and stores nothing, after the announcement and the
      reaction. */
  method HandleNewLead(table: LeadsTable, ws: Workspace, event: MessageEvent, decode: Decoder, now: string)
    modifies table, ws
    ensures IntakeOf(event, decode) in {Ignored, NotADict} ==>
      table.rows == old(table.rows) && ws.posts == old(ws.posts)
      && ws.reactions == old(ws.reactions) && ws.invites == old(ws.invites)
    ensures IntakeOf(event, decode) == ParseWarning ==>
      table.rows == old(table.rows) && ws.reactions == old(ws.reactions) && ws.invites == old(ws.invites)
      && ws.posts == old(ws.posts) + [Post(event.channel, Some(event.ts), ParseWarningText)]
    ensures IntakeOf(event, decode).Accepted? ==>
      var f := IntakeOf(event, decode).f;
      && ws.posts == old(ws.posts) + [Post(event.channel, Some(event.ts), Announcement(f))]
      && ws.reactions == AddReaction(old(ws.reactions), (event.channel, event.ts), "new")
      && ws.invites == old(ws.invites)
      && table.rows == (match ColumnText(f.leadId)
                        case None => old(table.rows)
                        case Some(key) => UpsertRows(old(table.rows), key, Record(f, event, now), now))
  {
    if !Contains(event.text, "lead_id") {
      return;
    }
    var decoded := decode(event.text);
    if decoded.DecodeError? {
      ws.PostMessage(Post(event.channel, Some(event.ts), ParseWarningText));
      return;
    }
    if !decoded.value.Obj? {
      return;
    }
    var f := Fields(decoded.value.fields);
    var message := Announcement(f);
    ws.PostMessage(Post(event.channel, Some(event.ts), message));
    ws.React(event.channel, event.ts, "new");
    var key := ColumnText(f.leadId);
    if key.Some? {
      table.Upsert(key.value, Record(f, event, now), now);
    }
  }
}
