/** The Supabase `leads` table: one row per lead, keyed by its text primary key
    `lead_id`, with the row operations the handlers issue through the
    PostgREST query builder. */
module Store {
  import opened Base
  import opened Json

  /** The columns of `leads` other than the key `lead_id`. */
  datatype Column =
    | FirstName | LastName | Name | Email | Phone | City | Product | Source
    | Status | Owner | OwnerName | LastActivity | LastReminder | CreatedAt
    | UpdatedBy | ThreadTs | ChannelId | EscalatedBy | EscalatedAt
    | EscalatedChannel

  /** A row without its key: a column that is absent holds SQL `NULL`. */
  type Row = map<Column, string>

  /** The columns a write names: `Some(t)` stores the text `t`, `None` stores
      `NULL`. */
  type Patch = map<Column, Option<string>>

  /** The text a JSON value becomes in a text column: `null` is `NULL`, a
      string is itself, anything else its JSON text. */
  function ColumnText(v: Value): (r: Option<string>)
    ensures r.None? <==> v.Null?
    ensures v.Str? ==> r == Some(v.s)
  {
    match v
    case Null => None
    case Str(s) => Some(s)
    case _ => Some(Dumps(v))
  }

  /** The row after the columns of `patch` are written into it. */
  function Patched(row: Row, patch: Patch): (r: Row)
    ensures forall c :: c in patch ==> (c in r <==> patch[c].Some?)
    ensures forall c :: c in patch && patch[c].Some? ==> r[c] == patch[c].value
    ensures forall c :: c !in patch ==> (c in r <==> c in row)
    ensures forall c :: c !in patch && c in row ==> r[c] == row[c]
  {
    map c | c in row.Keys + patch.Keys && (c in patch ==> patch[c].Some?) ::
      if c in patch then patch[c].value else row[c]
  }

  /** A patch naming every column of a row leaves nothing of the row. */
  lemma PatchedOverDefaults(row: Row, p: Patch)
    requires row.Keys <= p.Keys
    ensures Patched(row, p) == map c | c in p && p[c].Some? :: p[c].value
  {
    var r := Patched(row, p);
    var expected := map c | c in p && p[c].Some? :: p[c].value;
    assert r.Keys == expected.Keys;
    forall c | c in r ensures r[c] == expected[c] {}
  }

  /** `update(patch).eq("lead_id", key)`: the row whose key is `key`, if there
      is one, gets the patch; no other row changes and no row appears. */
  function UpdateRows(rows: map<string, Row>, key: string, patch: Patch): (r: map<string, Row>)
    ensures r.Keys == rows.Keys
    ensures forall k :: k in rows && k != key ==> r[k] == rows[k]
    ensures key in rows ==> r[key] == Patched(rows[key], patch)
  {
    if key in rows then rows[key := Patched(rows[key], patch)] else rows
  }

  /** The values a row takes from the column defaults of the table when it is
      inserted: `status` 'New' and the current time in `last_activity` and
      `created_at`. */
  function InsertDefaults(now: string): (r: Row)
    ensures r.Keys == {Status, LastActivity, CreatedAt}
    ensures r[Status] == "New" && r[LastActivity] == now && r[CreatedAt] == now
  {
    map[Status := "New", LastActivity := now, CreatedAt := now]
  }

  /** `upsert(record)` with PostgREST's default merge of duplicates: a new key
      is inserted with the table defaults under the record's columns; an
      existing row has the record's columns replaced and keeps the others. */
  function UpsertRows(rows: map<string, Row>, key: string, payload: Patch, now: string): (r: map<string, Row>)
    ensures r.Keys == rows.Keys + {key}
    ensures forall k :: k in rows && k != key ==> r[k] == rows[k]
    ensures key in rows ==> r[key] == Patched(rows[key], payload)
    ensures key !in rows ==> r[key] == Patched(InsertDefaults(now), payload)
  {
    var base := if key in rows then rows[key] else InsertDefaults(now);
    rows[key := Patched(base, payload)]
  }

  /** Writing the same patch twice leaves the row as writing it once. */
  lemma PatchedIdempotent(row: Row, patch: Patch)
    ensures Patched(Patched(row, patch), patch) == Patched(row, patch)
  {
    var once := Patched(row, patch);
    var twice := Patched(once, patch);
    assert twice.Keys == once.Keys;
    forall c | c in once ensures twice[c] == once[c] {}
  }

  /** Re-posting a lead upserts the same record: the second upsert changes
      nothing. */
  lemma UpsertIdempotent(rows: map<string, Row>, key: string, payload: Patch, now: string)
    ensures UpsertRows(UpsertRows(rows, key, payload, now), key, payload, now)
         == UpsertRows(rows, key, payload, now)
  {
    var base := if key in rows then rows[key] else InsertDefaults(now);
    var once := UpsertRows(rows, key, payload, now);
    PatchedIdempotent(base, payload);
    assert key in once && once[key] == Patched(base, payload);
    assert once[key := Patched(once[key], payload)] == once;
  }

  /** The leads table. */
  class LeadsTable {
    var rows: map<string, Row>

    constructor(initial: map<string, Row>)
      ensures rows == initial
    {
      rows := initial;
    }

    /** `update(patch).eq("lead_id", key).execute()`. */
    method Update(key: string, patch: Patch)
      modifies this
      ensures rows == UpdateRows(old(rows), key, patch)
    {
      rows := UpdateRows(rows, key, patch);
    }

    /** `upsert(record).execute()` for a record whose `lead_id` is `key`. */
    method Upsert(key: string, payload: Patch, now: string)
      modifies this
      ensures rows == UpsertRows(old(rows), key, payload, now)
    {
      rows := UpsertRows(rows, key, payload, now);
    }

    /** `select("*")` with the filters `keep`: every row the filters keep,
        each once, in an order the database chooses. */
    method Select(keep: Row -> bool) returns (found: seq<(string, Row)>)
      ensures forall i :: 0 <= i < |found| ==>
        found[i].0 in rows && found[i].1 == rows[found[i].0] && keep(found[i].1)
      ensures forall k :: k in rows && keep(rows[k]) ==>
        exists i :: 0 <= i < |found| && found[i].0 == k
      ensures forall i, j :: 0 <= i < j < |found| ==> found[i].0 != found[j].0
    {
      var left := rows.Keys;
      found := [];
      while left != {}
        invariant left <= rows.Keys
        invariant forall i :: 0 <= i < |found| ==>
          found[i].0 in rows && found[i].0 !in left && found[i].1 == rows[found[i].0] && keep(found[i].1)
        invariant forall k :: k in rows && k !in left && keep(rows[k]) ==>
          exists i :: 0 <= i < |found| && found[i].0 == k
        invariant forall i, j :: 0 <= i < j < |found| ==> found[i].0 != found[j].0
        decreases left
      {
        var k :| k in left;
        ghost var before := found;
        if keep(rows[k]) {
          found := found + [(k, rows[k])];
          assert found[|found| - 1].0 == k;
        }
        assert forall i :: 0 <= i < |before| ==> found[i] == before[i];
        left := left - {k};
      }
    }
  }
}
