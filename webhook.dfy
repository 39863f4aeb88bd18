/** The SharpSpring webhook endpoint (`slack_bot/app.py`): it maps the
    payload to the lead message the inbox handler reads, and answers with a
    status. */
module Webhook {
  import opened Base
  import opened Text
  import opened Json
  import opened Slack
  import opened Store
  import opened NewLead

  /** The JSON answer of the endpoint. */
  datatype Response = Response(status: string, message: string)

  const Success: Response := Response("success", "Lead received and being processed")

  /** The name the webhook sends: first and last name joined by a space and
      stripped, each printed as an f-string prints it. */
  function WebhookName(fields: seq<(string, Value)>): string {
    JoinedName(GetOr(fields, "first_name", Str("")), GetOr(fields, "last_name", Str("")))
  }

  /** The lead message the webhook builds from a payload dict, before it is
      written out as JSON. */
  datatype LeadMessage = LeadMessage(
    id: string, first: Value, last: Value, name: string,
    email: Value, phone: Value, product: Value, source: Value)

  /** The payload's fields mapped to the lead message: `id` printed with
      `str`, `product_interest` and `lead_source` renamed, missing fields
      empty. */
  function LeadOf(fields: seq<(string, Value)>): LeadMessage {
    LeadMessage(
      PyStr(GetOr(fields, "id", Null)),
      GetOr(fields, "first_name", Str("")),
      GetOr(fields, "last_name", Str("")),
      WebhookName(fields),
      GetOr(fields, "email", Str("")),
      GetOr(fields, "phone", Str("")),
      GetOr(fields, "product_interest", Str("")),
      GetOr(fields, "lead_source", Str("")))
  }

  /** The lead message as the dict written out, keys in insertion order. */
  function Entries(m: LeadMessage): seq<(string, Value)> {
    [("lead_id", Str(m.id)), ("first_name", m.first), ("last_name", m.last), ("name", Str(m.name)),
     ("email", m.email), ("phone", m.phone), ("product", m.product), ("source", m.source)]
  }

  /** The webhook's handling of a request body as `request.json()` reads it:
      the answer, and the message it schedules for the inbox channel. A body
      that does not decode, or one that is no dict (whose `.get` raises),
      gets the error answer with the exception's text and schedules
      nothing. */
  function SharpspringWebhook(data: Decoded, leadsChannel: string): (out: (Response, Option<Post>))
    ensures out.0.status == "success" <==> data.Parsed? && data.value.Obj?
    ensures out.0.status == "success" ==>
      out.0 == Success
      && out.1 == Some(Post(leadsChannel, None, Dumps(Obj(Entries(LeadOf(data.value.fields))))))
    ensures data.DecodeError? ==> out == (Response("error", data.message), None)
    ensures data.Parsed? && !data.value.Obj? ==>
      out == (Response("error", "'" + TypeName(data.value) + "' object has no attribute 'get'"), None)
  {
    match data
    case DecodeError(e) => (Response("error", e), None)
    case Parsed(v) =>
      match Get(v, "id", Null)
      case Raise(e) => (Response("error", e), None)
      case Ok(_) => (Success, Some(Post(leadsChannel, None, Dumps(Obj(Entries(LeadOf(v.fields)))))))
  }

  /** The `lead_id` sent is the text of the payload's `id`: the string itself,
      or "None" for a payload without one. */
  lemma LeadIdText(fields: seq<(string, Value)>)
    ensures Lookup(fields, "id").None? ==> LeadOf(fields).id == "None"
    ensures Lookup(fields, "id").Some? && Lookup(fields, "id").value.Str? ==>
      LeadOf(fields).id == Lookup(fields, "id").value.s
  {
  }

  /** Every message the webhook schedules mentions `lead_id`, so the inbox
      handler does not ignore it. */
  lemma PostedTextMentionsLeadId(m: LeadMessage)
    ensures Contains(Dumps(Obj(Entries(m))), "lead_id")
  {
    var e := Entries(m);
    assert e == [e[0]] + e[1..];
    DumpsFirstKey("lead_id", e[0].1, e[1..]);
  }

  /** The name keys of the lead message read back their own values. */
  lemma NameLookups(m: LeadMessage)
    ensures Lookup(Entries(m), "first_name") == Some(m.first)
    ensures Lookup(Entries(m), "last_name") == Some(m.last)
    ensures Lookup(Entries(m), "name") == Some(Str(m.name))
  {
    var e := Entries(m);
    LookupAt(e, "first_name", 1);
    LookupAt(e, "last_name", 2);
    FullNameLookup(m);
  }

  /** The `name` key comes after three other keys of the lead message. */
  lemma FullNameLookup(m: LeadMessage)
    ensures Lookup(Entries(m), "name") == Some(Str(m.name))
  {
    var e := Entries(m);
    assert e[0].0 != "name" && e[1].0 != "name" && e[2].0 != "name";
    LookupAt(e, "name", 3);
  }

  /** The id, product and source keys read back their own values. */
  lemma LeadLookups(m: LeadMessage)
    ensures Lookup(Entries(m), "lead_id") == Some(Str(m.id))
    ensures Lookup(Entries(m), "product") == Some(m.product)
    ensures Lookup(Entries(m), "source") == Some(m.source)
  {
    var e := Entries(m);
    assert Lookup(e, "lead_id") == Some(Str(m.id)) by { LookupAt(e, "lead_id", 0); }
    assert Lookup(e, "product") == Some(m.product) by { LookupAt(e, "product", 6); }
    assert Lookup(e, "source") == Some(m.source) by { LookupAt(e, "source", 7); }
  }

  /** The round trip from the webhook to the inbox handler: when the posted
      text decodes back to the lead message, the handler accepts it with the
      webhook's lead id, name, product and source; the defaults of the
      handler ("Unknown Lead", "Hot Tub", "SharpSpring") never apply. */
  lemma {:induction false} WebhookToIntake(fields: seq<(string, Value)>, event: MessageEvent, decode: Decoder)
    requires event.text == Dumps(Obj(Entries(LeadOf(fields))))
    requires decode(event.text) == Parsed(Obj(Entries(LeadOf(fields))))
    ensures IntakeOf(event, decode).Accepted?
    ensures IntakeOf(event, decode).f.leadId == Str(PyStr(GetOr(fields, "id", Null)))
    ensures IntakeOf(event, decode).f.fullName == Str(WebhookName(fields))
    ensures IntakeOf(event, decode).f.product == GetOr(fields, "product_interest", Str(""))
    ensures IntakeOf(event, decode).f.source == GetOr(fields, "lead_source", Str(""))
  {
    var m := LeadOf(fields);
    PostedTextMentionsLeadId(m);
    NameLookups(m);
    LeadLookups(m);
    assert IntakeOf(event, decode) == Accepted(Fields(Entries(m)));
  }

  /** A payload without `id` reaches the table as the lead "None": every
      such payload lands on the same row. */
  lemma MissingIdStoredAsNone(fields: seq<(string, Value)>, event: MessageEvent, decode: Decoder)
    requires event.text == Dumps(Obj(Entries(LeadOf(fields))))
    requires decode(event.text) == Parsed(Obj(Entries(LeadOf(fields))))
    requires Lookup(fields, "id").None?
    ensures IntakeOf(event, decode).Accepted?
    ensures ColumnText(IntakeOf(event, decode).f.leadId) == Some("None")
  {
    WebhookToIntake(fields, event, decode);
  }
}
