/**
 * The relational store as the collectors use it: a resource table is the
 * sequence of its rows (there is no uniqueness constraint), the change log
 * is an append-only sequence of entries, and `cloudtrail_events` is a
 * sequence of event rows in insertion order. The SQL statements the
 * collectors issue are functions on these sequences.
 */
module Store {
  import opened Text
  import opened Values

  /** One row, by lower-case column name (PostgreSQL folds unquoted names). */
  type Row = map<string, Value>

  /** A column name with a value: an INSERT column, a SET clause or a WHERE equality. */
  type Column = (string, Value)

  /** `db_row.get(col)`. */
  function Cell(row: Row, col: string): Value {
    if col in row then row[col] else Null
  }

  /** One `log_change(resource_type, resource_id, field, old, new, changed_by, account_id, region)`. */
  datatype ChangeEntry = ChangeEntry(
    resourceType: string, resourceId: Value, field: string,
    oldValue: Value, newValue: Value, changedBy: Value,
    accountId: Value, region: Value)

  datatype Failure = NoConnection | RolledBack

  /**
   * How the database behaves for one batch: whether `get_db_connection`
   * returns a connection, whether the statements outside the per-record work
   * (the initial SELECT, the final commit) succeed, and the batch positions
   * whose own statement raises.
   */
  datatype Outcomes = Outcomes(connected: bool, committed: bool, rejects: set<nat>)

  /** `{"processed", "inserted", "updated"}` with the optional `"error"`. */
  datatype Summary = Summary(processed: nat, inserted: nat, updated: nat, error: Option<Failure>)

  const Zero := Summary(0, 0, 0, None)

  /** What a failed batch reports: every count zero. */
  function Fails(f: Failure): (s: Summary)
    ensures s.processed == s.inserted == s.updated == 0 && s.error == Some(f)
  {
    Summary(0, 0, 0, Some(f))
  }

  /**
   * The row `INSERT INTO t (cols..., last_updated) VALUES (..., now)` creates:
   * exactly the listed columns and `last_updated`, which holds `now`; every
   * other column holds its value (the last one listed, were a name repeated).
   */
  function NewRow(cols: seq<Column>, now: Value): (r: Row)
    ensures "last_updated" in r && r["last_updated"] == now
    ensures forall c :: c in r ==> c == "last_updated" || exists k :: 0 <= k < |cols| && cols[k].0 == c
    ensures forall k :: 0 <= k < |cols| ==> cols[k].0 in r
    ensures forall k :: 0 <= k < |cols| && cols[k].0 != "last_updated" && LastFor(cols, k) ==>
              cols[k].0 in r && r[cols[k].0] == cols[k].1
    decreases |cols|
  {
    if cols == [] then map["last_updated" := now]
    else
      var last := cols[|cols| - 1];
      var init := cols[..|cols| - 1];
      var r := NewRow(init, now);
      LastForInit(cols);
      if last.0 == "last_updated" then r else r[last.0 := last.1]
  }

  /** No later column of `cols` has the name of column `k`: its value is the one that stays. */
  predicate LastFor(cols: seq<Column>, k: nat)
    requires k < |cols|
  {
    forall j :: k < j < |cols| ==> cols[j].0 != cols[k].0
  }

  /** Dropping the last column keeps the earlier ones and whether they are last for their name. */
  lemma LastForInit(cols: seq<Column>)
    requires cols != []
    ensures forall k :: 0 <= k < |cols| - 1 ==> cols[..|cols| - 1][k] == cols[k]
    ensures forall k :: 0 <= k < |cols| - 1 && LastFor(cols, k) ==>
              LastFor(cols[..|cols| - 1], k) && cols[k].0 != cols[|cols| - 1].0
  {
  }

  /**
   * The SET clauses applied to one row, left to right: the assigned columns
   * are added, each holds the value of its last assignment, and every other
   * column keeps its value.
   */
  function Assign(row: Row, sets: seq<Column>): (r: Row)
    ensures forall c :: c in r <==> c in row || exists k :: 0 <= k < |sets| && sets[k].0 == c
    ensures forall c :: c in row && (forall k :: 0 <= k < |sets| ==> sets[k].0 != c) ==> r[c] == row[c]
    ensures forall k :: 0 <= k < |sets| && LastFor(sets, k) ==>
              sets[k].0 in r && r[sets[k].0] == sets[k].1
    decreases |sets|
  {
    if sets == [] then row
    else
      var r := Assign(row, sets[..|sets| - 1]);
      LastForInit(sets);
      r[sets[|sets| - 1].0 := sets[|sets| - 1].1]
  }

  /**
   * The WHERE clause `c1 = v1 AND c2 = v2 ...`. As in SQL, `c = NULL` is never
   * true, so a condition on a NULL value matches no row.
   */
  predicate Matches(row: Row, conds: seq<Column>) {
    forall k :: 0 <= k < |conds| ==> conds[k].1 != Null && conds[k].0 in row && row[conds[k].0] == conds[k].1
  }

  /** `UPDATE t SET sets WHERE conds`, over the rows the transaction sees. */
  function UpdateWhere(rows: seq<Row>, conds: seq<Column>, sets: seq<Column>): (r: seq<Row>)
    ensures |r| == |rows|
    ensures forall k :: 0 <= k < |rows| && !Matches(rows[k], conds) ==> r[k] == rows[k]
    ensures forall k :: 0 <= k < |rows| && Matches(rows[k], conds) ==> r[k] == Assign(rows[k], sets)
    decreases |rows|
  {
    if rows == [] then []
    else
      var row := rows[|rows| - 1];
      UpdateWhere(rows[..|rows| - 1], conds, sets) + [if Matches(row, conds) then Assign(row, sets) else row]
  }

  /** The identity key of a row: (natural id, account id). */
  function KeyOf(row: Row, idCol: string, accountCol: string): (Value, Value) {
    (Cell(row, idCol), Cell(row, accountCol))
  }

  /**
   * `{(row[id], row[account]): row for row in rows}`: the table loaded once
   * before the loop; of two rows with one key, the later one is kept.
   */
  function Existing(rows: seq<Row>, idCol: string, accountCol: string): (m: map<(Value, Value), Row>)
    ensures forall key :: key in m ==> KeyOf(m[key], idCol, accountCol) == key
    ensures forall k :: 0 <= k < |rows| ==> KeyOf(rows[k], idCol, accountCol) in m
    ensures forall key :: key in m ==> exists k :: 0 <= k < |rows| && rows[k] == m[key]
    decreases |rows|
  {
    if rows == [] then map[]
    else
      var row := rows[|rows| - 1];
      var m := Existing(rows[..|rows| - 1], idCol, accountCol);
      assert forall k :: 0 <= k < |rows| - 1 ==> rows[..|rows| - 1][k] == rows[k];
      m[KeyOf(row, idCol, accountCol) := row]
  }

  /** A key is loaded exactly when some row of the table carries it. */
  lemma ExistingKeys(rows: seq<Row>, idCol: string, accountCol: string, key: (Value, Value))
    ensures key in Existing(rows, idCol, accountCol) <==>
            exists k :: 0 <= k < |rows| && KeyOf(rows[k], idCol, accountCol) == key
  {
    var m := Existing(rows, idCol, accountCol);
    if key in m {
      var k :| 0 <= k < |rows| && rows[k] == m[key];
    }
  }

  /** One row of `cloudtrail_events`; `eventId` and `eventTime` are NULL-able. */
  datatype EventRow = EventRow(
    eventId: Option<string>, eventTime: Option<int>, eventName: string,
    eventSource: Value, userName: Value, resourceName: Value,
    resourceType: string, region: string, changes: Value, createdAt: int)

  /**
   * `WHERE resource_name = name AND resource_type = rtype [AND event_name IN names]`;
   * `None` is the query without the event-name filter.
   */
  predicate Selected(e: EventRow, rtype: string, name: Value, names: Option<set<string>>) {
    e.resourceName == name && e.resourceType == rtype &&
    (names.Some? ==> e.eventName in names.value)
  }

  /** `a` sorts no later than `b` under `ORDER BY event_time DESC` (NULLs first). */
  predicate NoEarlier(a: Option<int>, b: Option<int>) {
    a.None? || (b.Some? && a.value >= b.value)
  }

  /**
   * `... ORDER BY event_time DESC LIMIT 1`: a selected row that no selected
   * row sorts before. PostgreSQL leaves ties unordered; this picks the first.
   */
  function Latest(rows: seq<EventRow>, rtype: string, name: Value, names: Option<set<string>>)
    : (r: Option<EventRow>)
    ensures r.Some? ==> r.value in rows && Selected(r.value, rtype, name, names)
    ensures r.Some? ==> forall e :: e in rows && Selected(e, rtype, name, names) ==>
      NoEarlier(r.value.eventTime, e.eventTime)
    ensures r.None? ==> forall e :: e in rows ==> !Selected(e, rtype, name, names)
  {
    if rows == [] then None
    else
      var rest := Latest(rows[1..], rtype, name, names);
      assert forall e :: e in rows ==> e == rows[0] || e in rows[1..];
      if !Selected(rows[0], rtype, name, names) then rest
      else if rest.Some? && !NoEarlier(rows[0].eventTime, rest.value.eventTime) then rest
      else Some(rows[0])
  }

  /** The rows `SELECT user_name ... LIMIT 1` leaves in the cursor. */
  function LatestUsers(rows: seq<EventRow>, rtype: string, name: Value, names: Option<set<string>>)
    : (r: seq<Value>)
    ensures |r| <= 1
  {
    match Latest(rows, rtype, name, names)
    case Some(e) => [e.userName]
    case None => []
  }

  /** `cursor.fetchone()` after `n` earlier fetches: the next row or None. */
  function FetchOne(cursor: seq<Value>, n: nat): Option<Value> {
    if n < |cursor| then Some(cursor[n]) else None
  }

  /** The event names a field→events map lists for a field; `[]` when absent. */
  function EventsFor(fieldEvents: map<string, set<string>>, field: string): set<string> {
    if field in fieldEvents then fieldEvents[field] else {}
  }

  /**
   * The latest-event attribution the RDS, Lambda and EKS lookups issue: filter
   * by the field's events when it has some, else by resource alone; "unknown"
   * when the lookup cannot connect (`trail == None`) or nothing matches.
   */
  function LatestActor(trail: Option<seq<EventRow>>, rtype: string, name: Value,
                       fieldEvents: map<string, set<string>>, field: string): Value
  {
    match trail
    case None => Unknown
    case Some(rows) =>
      var events := EventsFor(fieldEvents, field);
      var cursor := LatestUsers(rows, rtype, name, if events != {} then Some(events) else None);
      match FetchOne(cursor, 0)
      case Some(u) => u
      case None => Unknown
  }

  /**
   * The lookup as `get_function_changed_by` and `get_cluster_changed_by` write
   * it: the condition's `fetchone()` consumes the query's only row, so the
   * second `fetchone()` yields None and `None[0]` raises TypeError, which the
   * bare `except` turns into "unknown". Whatever the trail holds, the answer
   * is "unknown".
   */
  function LatestActorAsWritten(trail: Option<seq<EventRow>>, rtype: string, name: Value,
                                fieldEvents: map<string, set<string>>, field: string): (r: Value)
    ensures r == Unknown
  {
    match trail
    case None => Unknown
    case Some(rows) =>
      var events := EventsFor(fieldEvents, field);
      var cursor := LatestUsers(rows, rtype, name, if events != {} then Some(events) else None);
      if FetchOne(cursor, 0).None? then Unknown
      else
        match FetchOne(cursor, 1)
        case Some(u) => u
        case None => Unknown   // `None[0]` raises TypeError
  }

  /** The attribution names the user of a latest matching event, or is "unknown" exactly when none matches. */
  lemma LatestActorSpec(rows: seq<EventRow>, rtype: string, name: Value,
                        fieldEvents: map<string, set<string>>, field: string)
    ensures var events := EventsFor(fieldEvents, field);
            var names := if events != {} then Some(events) else None;
            var r := LatestActor(Some(rows), rtype, name, fieldEvents, field);
            ((forall e :: e in rows ==> !Selected(e, rtype, name, names)) ==> r == Unknown) &&
            ((exists e :: e in rows && Selected(e, rtype, name, names)) ==>
              exists e :: e in rows && Selected(e, rtype, name, names) && r == e.userName &&
                forall f :: f in rows && Selected(f, rtype, name, names) ==> NoEarlier(e.eventTime, f.eventTime))
  {
  }
}
