/**
 * The Athena collector (services/athena_functions.py): the snapshot record
 * of one query execution, the attribution by the CloudTrail event closest in
 * time, and the reconciliation into the `athena` table, keyed and updated by
 * (query_id, account_id).
 */
module Athena {
  import opened Text
  import opened Values
  import opened Store
  import opened Diff
  import opened Reconcile

  /** `ABS(EXTRACT(EPOCH FROM (event_time - at)))`. */
  function Gap(t: int, at: int): nat {
    if t >= at then t - at else at - t
  }

  /**
   * `resource_type = 'ATHENA' AND resource_name = qid AND ABS(...) < 86400`;
   * a NULL event time makes the comparison NULL, so the row is not selected.
   */
  predicate Near(e: EventRow, qid: Value, at: int) {
    e.resourceType == "ATHENA" && e.resourceName == qid && e.eventTime.Some? && Gap(e.eventTime.value, at) < 86400
  }

  /** `... ORDER BY ABS(...) ASC LIMIT 1`: a selected row no selected row is closer than (ties: the first). */
  function Closest(rows: seq<EventRow>, qid: Value, at: int): (r: Option<EventRow>)
    ensures r.Some? ==> r.value in rows && Near(r.value, qid, at)
    ensures r.Some? ==> forall e :: e in rows && Near(e, qid, at) ==>
      Gap(r.value.eventTime.value, at) <= Gap(e.eventTime.value, at)
    ensures r.None? ==> forall e :: e in rows ==> !Near(e, qid, at)
  {
    if rows == [] then None
    else
      var rest := Closest(rows[1..], qid, at);
      assert forall e :: e in rows ==> e == rows[0] || e in rows[1..];
      if !Near(rows[0], qid, at) then rest
      else if rest.Some? && Gap(rest.value.eventTime.value, at) < Gap(rows[0].eventTime.value, at) then rest
      else Some(rows[0])
  }

  /** `get_query_changed_by(query_id, update_date)`; `None` is a failed connection. */
  function QueryChangedBy(trail: Option<seq<EventRow>>, qid: Value, at: int): Value {
    match trail
    case None => Unknown
    case Some(rows) =>
      match Closest(rows, qid, at)
      case Some(e) => e.userName
      case None => Unknown
  }

  /**
   * The attribution names the user of an ATHENA event of the query less than a
   * day from `at` that no such event is closer than, and is "unknown" when
   * there is none or no connection.
   */
  lemma QueryChangedBySpec(trail: Option<seq<EventRow>>, qid: Value, at: int)
    ensures trail.None? ==> QueryChangedBy(trail, qid, at) == Unknown
    ensures trail.Some? && (forall e :: e in trail.value ==> !Near(e, qid, at)) ==> QueryChangedBy(trail, qid, at) == Unknown
    ensures trail.Some? && (exists e :: e in trail.value && Near(e, qid, at)) ==>
      exists e :: e in trail.value && Near(e, qid, at) && QueryChangedBy(trail, qid, at) == e.userName &&
        forall f :: f in trail.value && Near(f, qid, at) ==> Gap(e.eventTime.value, at) <= Gap(f.eventTime.value, at)
  {
    if trail.Some? {
      var r := Closest(trail.value, qid, at);
      if r.Some? {
        assert Near(r.value, qid, at) && QueryChangedBy(trail, qid, at) == r.value.userName;
      }
    }
  }

  /** An event exactly a day away is not attributed; one a second closer is. */
  lemma DayWindowIsExclusive(qid: Value, at: int)
    ensures var far := EventRow(Some("e-1"), Some(at - 86400), "StartQueryExecution", Text("athena.amazonaws.com"),
                                Text("carol"), qid, "ATHENA", "us-east-1", Dict([]), at);
            var near := far.(eventTime := Some(at - 86399));
            QueryChangedBy(Some([far]), qid, at) == Unknown &&
            QueryChangedBy(Some([near]), qid, at) == Text("carol")
  {
    var far := EventRow(Some("e-1"), Some(at - 86400), "StartQueryExecution", Text("athena.amazonaws.com"),
                        Text("carol"), qid, "ATHENA", "us-east-1", Dict([]), at);
    assert !Near(far, qid, at);
    assert Near(far.(eventTime := Some(at - 86399)), qid, at);
  }

  /**
   * A `QueryExecution` of `get_query_execution`; `None` is an absent key
   * (`database` is `QueryExecutionContext.Database`, `totalMillis` is
   * `Statistics.TotalExecutionTimeInMillis`).
   */
  datatype QueryExecution = QueryExecution(
    id: string, query: Option<string>, database: Option<string>,
    totalMillis: Option<nat>, workGroup: Option<string>)

  /** The record `extract_query_data` returns. */
  datatype AthenaRecord = AthenaRecord(
    accountName: Value, accountId: Value, queryId: Value, queryName: Value, domain: Value,
    description: Value, database: Value, tablesUsed: Value, executionDuration: Value,
    executionFrequency: Value, owner: Value, region: Value)

  /**
   * The "tables used" of a query: the first word after the first "FROM" of the
   * upper-cased text, `Ok(None)` when there is no "FROM", and `Raised` when
   * nothing but whitespace follows it (`split()[0]` raises IndexError).
   */
  function TablesUsed(query: string): (r: Result<Option<string>>)
  {
    var upper := Upper(query);
    if !Contains(upper, "FROM") then Ok(None)
    else
      var parts := SplitOn(upper, "FROM");
      if |parts| <= 1 then Ok(None)
      else
        match FirstToken(parts[1])
        case None => Raised
        case Some(t) => Ok(Some(t))
  }

  /** `extract_query_data`; `None` where it raises. */
  function ExtractQueryData(q: QueryExecution, accountName: string, accountId: string, region: string)
    : Option<AthenaRecord>
  {
    var query := if q.query.Some? then q.query.value else "";
    var database := if q.database.Some? then q.database.value else "N/A";
    var tables := TablesUsed(query);
    if tables.Raised? then None
    else
      Some(AthenaRecord(
        Text(Prefix(accountName, 255)), Text(Prefix(accountId, 20)), Text(Prefix(q.id, 255)),
        Text(Prefix("Query-" + Prefix(q.id, 8), 255)), Text(Prefix(database, 255)),
        Text(if query != "" then Prefix(query, 500) else "N/A"),
        Text(Prefix(database, 255)),
        Text(if tables.value.Some? then Prefix(tables.value.value, 500) else "N/A"),
        Duration(if q.totalMillis.Some? then q.totalMillis.value else 0),
        Text(Prefix("On-demand", 100)),
        Text(Prefix(if q.workGroup.Some? then q.workGroup.value else "primary", 255)),
        Text(Prefix(region, 50))))
  }

  /**
   * A query with "FROM" records the first word after the first upper-cased
   * "FROM", up to a blank, the next "FROM" or the end, as
   * `split("FROM")[1].split()[0]` does; only a "FROM" followed by nothing but
   * blanks makes it raise.
   */
  lemma TablesUsedFollowsFrom(query: string, i: nat)
    requires FindFrom(Upper(query), "FROM", 0) == Some(i)
    ensures TablesUsed(query) != Ok(None)
    ensures TablesUsed(query).Ok? ==>
            var after := Upper(query)[i + 4..];
            FirstWordUpTo(after, |after| - |TrimStart(after)|, TablesUsed(query).value.value, "FROM")
  {
    var next := AfterFirstFrom(query, i);
    if FirstToken(next).Some? {
      WordOfPrefix(next, Upper(query)[i + 4..], "FROM");
    }
  }

  /** With a "FROM" at `i`, the tables are the first word of the piece after it, which ends at the next "FROM" or the end. */
  lemma AfterFirstFrom(query: string, i: nat) returns (next: string)
    requires FindFrom(Upper(query), "FROM", 0) == Some(i)
    ensures |next| <= |Upper(query)| - i - 4 && next == Upper(query)[i + 4..][..|next|]
    ensures |next| == |Upper(query)[i + 4..]| || OccursAt(Upper(query)[i + 4..], "FROM", |next|)
    ensures TablesUsed(query) == if FirstToken(next).None? then Raised else Ok(Some(FirstToken(next).value))
  {
    var upper := Upper(query);
    SplitHead(upper, "FROM", i);
    assert Contains(upper, "FROM");
    var parts := SplitOn(upper, "FROM");
    next := parts[1];
  }

  /** A query without "FROM" (in any case) uses no tables. */
  lemma NoFromNoTables(query: string, accountName: string, accountId: string, region: string)
    requires FindFrom(Upper(query), "FROM", 0).None?
    ensures var r := ExtractQueryData(QueryExecution("q", Some(query), None, None, None), accountName, accountId, region);
            r.Some? && r.value.tablesUsed == NA && r.value.database == NA && r.value.owner == Text("primary")
  {
  }

  /** Nothing but whitespace after "FROM" makes the extraction raise, so the query is skipped. */
  lemma TrailingFromRaises(accountName: string, accountId: string, region: string)
    ensures ExtractQueryData(QueryExecution("q", Some("from "), None, None, None),
                             accountName, accountId, region).None?
  {
    TrailingFromTables();
  }

  lemma TrailingFromTables()
    ensures TablesUsed("from ") == Raised
  {
    UpperFromSpace();
    assert OccursAt("FROM ", "FROM", 0);
    var next := AfterFirstFrom("from ", 0);
    assert "FROM "[4..] == " ";
    assert forall k :: 0 <= k < |next| ==> next[k] == ' ';
    assert FirstToken(next).None?;
  }

  lemma UpperFromSpace()
    ensures Upper("from ") == "FROM "
  {
    var u := Upper("from ");
    assert u[0] == 'F' && u[1] == 'R' && u[2] == 'O' && u[3] == 'M' && u[4] == ' ';
  }

  /**
   * Every text column is its source value cut to the column width: the
   * account name, id, query id, database and work group (default "primary")
   * to 255, 20, 255, 255 and 255 characters, the query text and the tables
   * to 500 ("N/A" when absent), the region to 50. The name is "Query-" and
   * the id's first 8 characters, the duration the execution's milliseconds.
   */
  lemma RecordWidths(q: QueryExecution, accountName: string, accountId: string, region: string)
    requires ExtractQueryData(q, accountName, accountId, region).Some?
    ensures var r := ExtractQueryData(q, accountName, accountId, region).value;
            |r.accountName.s| <= 255 && |r.accountId.s| <= 20 && |r.queryId.s| <= 255 &&
            |r.domain.s| <= 255 && |r.description.s| <= 500 && |r.tablesUsed.s| <= 500 &&
            |r.owner.s| <= 255 && |r.region.s| <= 50 &&
            r.queryName.s == "Query-" + Prefix(q.id, 8) && r.domain == r.database
    ensures var r := ExtractQueryData(q, accountName, accountId, region).value;
            var query := if q.query.Some? then q.query.value else "";
            var tables := TablesUsed(query);
            r.accountName == Text(Prefix(accountName, 255)) && r.accountId == Text(Prefix(accountId, 20)) &&
            r.queryId == Text(Prefix(q.id, 255)) &&
            r.database == Text(Prefix(if q.database.Some? then q.database.value else "N/A", 255)) &&
            r.description == Text(if query != "" then Prefix(query, 500) else "N/A") &&
            tables.Ok? &&
            r.tablesUsed == Text(if tables.value.Some? then Prefix(tables.value.value, 500) else "N/A") &&
            r.owner == Text(Prefix(if q.workGroup.Some? then q.workGroup.value else "primary", 255)) &&
            r.region == Text(Prefix(region, 50)) &&
            r.executionDuration == Duration(if q.totalMillis.Some? then q.totalMillis.value else 0)
  {
  }

  /** `get_athena_queries`: an execution that cannot be fetched or extracted is skipped. */
  method GetAthenaQueries(listing: Option<seq<Option<QueryExecution>>>, accountName: string, accountId: string,
                          region: string)
    returns (records: seq<AthenaRecord>)
    ensures listing.None? ==> records == []
    ensures listing.Some? ==> records == Extracted(listing.value, accountName, accountId, region)
  {
    if listing.None? {
      return [];
    }
    records := [];
    for i := 0 to |listing.value|
      invariant records == Extracted(listing.value[..i], accountName, accountId, region)
    {
      assert listing.value[..i + 1][..i] == listing.value[..i];
      var details := listing.value[i];
      if details.Some? {
        var info := ExtractQueryData(details.value, accountName, accountId, region);
        if info.Some? {
          records := records + [info.value];
        }
      }
    }
    assert listing.value[..|listing.value|] == listing.value;
  }

  /** The records of the executions that could be fetched and extracted, in listing order. */
  function Extracted(executions: seq<Option<QueryExecution>>, accountName: string, accountId: string, region: string)
    : (r: seq<AthenaRecord>)
    ensures |r| <= |executions|
    ensures forall k :: 0 <= k < |r| ==>
              exists j :: 0 <= j < |executions| && executions[j].Some? &&
                ExtractQueryData(executions[j].value, accountName, accountId, region) == Some(r[k])
  {
    if executions == [] then []
    else
      var init := executions[..|executions| - 1];
      var last := executions[|executions| - 1];
      var rest := Extracted(init, accountName, accountId, region);
      assert forall j :: 0 <= j < |init| ==> init[j] == executions[j];
      var extra := if last.Some? && ExtractQueryData(last.value, accountName, accountId, region).Some?
                   then [ExtractQueryData(last.value, accountName, accountId, region).value] else [];
      rest + extra
  }

  /** The `campos` dict, in the INSERT's column order. */
  function Columns(r: AthenaRecord): (cols: seq<Column>)
    ensures forall i, j :: 0 <= i < j < |cols| ==> cols[i].0 != cols[j].0
  {
    [("account_name", r.accountName), ("account_id", r.accountId), ("query_id", r.queryId),
     ("query_name", r.queryName), ("domain", r.domain), ("description", r.description),
     ("database_name", r.database), ("tables_used", r.tablesUsed),
     ("execution_duration", r.executionDuration), ("execution_frequency", r.executionFrequency),
     ("owner", r.owner), ("region", r.region)]
  }

  /**
   * Identity (query_id, account_id), `str` comparison, UPDATE by both columns,
   * and an UPDATE for every loaded record (`last_updated` is always set).
   */
  const AthenaProfile := Profile("ATHENA", "query_id", "account_id", StrDiffers, true, true)

  function SnapshotOf(r: AthenaRecord): Snapshot {
    Snapshot(r.queryId, r.accountId, Columns(r), r.region)
  }

  /** Every change of the batch is attributed relative to the one clock reading `now`. */
  function ChangedBy(trail: Option<seq<EventRow>>, now: int): (Value, string) -> Value {
    (qid: Value, field: string) => QueryChangedBy(trail, qid, now)
  }

  /** `insert_or_update_athena_data`. */
  method InsertOrUpdateAthenaData(rows: seq<Row>, log: seq<ChangeEntry>, db: Outcomes, data: seq<AthenaRecord>,
                                  trail: Option<seq<EventRow>>, now: int)
    returns (rows': seq<Row>, log': seq<ChangeEntry>, summary: Summary)
    ensures (rows', log', summary) == Engine(AthenaProfile, rows, log, db, SnapshotsOf(data, SnapshotOf), ChangedBy(trail, now), now)
  {
    rows', log', summary := Upsert(AthenaProfile, rows, log, db, SnapshotsOf(data, SnapshotOf), ChangedBy(trail, now), now);
  }

  /** Every loaded query is counted as updated, changed or not: the record is inserted or updated, never skipped. */
  lemma LoadedQueryIsUpdated(rows: seq<Row>, r: AthenaRecord)
    ensures var existing := Existing(rows, "query_id", "account_id");
            Executes(AthenaProfile, existing, SnapshotOf(r)) &&
            (KeyOfSnapshot(SnapshotOf(r)) in existing <==> Updates(AthenaProfile, existing, SnapshotOf(r)))
  {
    var existing := Existing(rows, "query_id", "account_id");
    if KeyOfSnapshot(SnapshotOf(r)) in existing {
      IdentityBranchDead(AthenaProfile, rows, SnapshotOf(r));
    }
  }

  /** A committed batch counts every record as inserted or updated. */
  lemma {:induction false} EveryRecordCounted(rows: seq<Row>, data: seq<AthenaRecord>)
    ensures var existing := Existing(rows, "query_id", "account_id");
            CountInserts(AthenaProfile, existing, SnapshotsOf(data, SnapshotOf)) + CountUpdates(AthenaProfile, existing, SnapshotsOf(data, SnapshotOf)) == |data|
    decreases |data|
  {
    if data != [] {
      var init := data[..|data| - 1];
      EveryRecordCounted(rows, init);
      var existing := Existing(rows, "query_id", "account_id");
      assert SnapshotsOf(data, SnapshotOf)[..|data| - 1] == SnapshotsOf(init, SnapshotOf);
      LoadedQueryIsUpdated(rows, data[|data| - 1]);
    }
  }

  /**
   * A committed batch processed every record, inserted or updated each one,
   * and stamped every row it added with `now`; it logged only ATHENA changes
   * of non-identity columns of its records whose `str` differs, from the
   * loaded row's value to the record's, each attributed by the closest event
   * to the batch's clock reading.
   */
  lemma AthenaBatchEffects(rows: seq<Row>, log: seq<ChangeEntry>, db: Outcomes, data: seq<AthenaRecord>,
                           trail: Option<seq<EventRow>>, now: int)
    ensures var (rows', log', s) := Engine(AthenaProfile, rows, log, db, SnapshotsOf(data, SnapshotOf), ChangedBy(trail, now), now);
            var existing := Existing(rows, "query_id", "account_id");
            s.error.None? ==>
              s.processed == |data| && s.inserted + s.updated == s.processed &&
              |rows'| == |rows| + s.inserted &&
              (forall k :: |rows| <= k < |rows'| ==> Stamped(rows'[k], now)) &&
              |log| <= |log'| && log'[..|log|] == log &&
              forall j :: |log| <= j < |log'| ==>
                log'[j].resourceType == "ATHENA" && log'[j].field !in {"query_id", "account_id"} &&
                Str(log'[j].oldValue) != Str(log'[j].newValue) &&
                log'[j].changedBy == QueryChangedBy(trail, log'[j].resourceId, now) &&
                exists i :: 0 <= i < |data| && LoggedFrom(existing, log'[j], SnapshotOf(data[i]))
  {
    var snaps := SnapshotsOf(data, SnapshotOf);
    EngineEffects(AthenaProfile, rows, log, db, snaps, ChangedBy(trail, now), now);
    EveryRecordCounted(rows, data);
    var (rows', log', s) := Engine(AthenaProfile, rows, log, db, snaps, ChangedBy(trail, now), now);
    var existing := Existing(rows, "query_id", "account_id");
    if s.error.None? {
      EngineSummary(AthenaProfile, rows, log, db, snaps, ChangedBy(trail, now), now);
      forall j | |log| <= j < |log'|
        ensures exists i :: 0 <= i < |data| && LoggedFrom(existing, log'[j], SnapshotOf(data[i]))
      {
        var i :| 0 <= i < |snaps| && LoggedFrom(existing, log'[j], snaps[i]);
        assert snaps[i] == SnapshotOf(data[i]);
      }
    }
  }

  /** The first run, on an empty table: every query becomes one row holding its columns, in order. */
  lemma AthenaFirstRun(log: seq<ChangeEntry>, db: Outcomes, data: seq<AthenaRecord>, trail: Option<seq<EventRow>>, now: int)
    ensures var (rows', log', s) := Engine(AthenaProfile, [], log, db, SnapshotsOf(data, SnapshotOf), ChangedBy(trail, now), now);
            s.error.None? ==>
              |rows'| == |data| && log' == log && s.inserted == |data| &&
              forall i :: 0 <= i < |data| ==> rows'[i] == NewRow(Columns(data[i]), Timestamp(now))
  {
    EmptyTableInsertsAll(AthenaProfile, log, db, SnapshotsOf(data, SnapshotOf), ChangedBy(trail, now), now);
  }

  /** The UPDATE touches exactly the rows with the record's query id and account id (neither NULL). */
  lemma UpdateIsScoped(existing: map<(Value, Value), Row>, trail: Option<seq<EventRow>>, now: int,
                       start: Progress, r: AthenaRecord, k: nat)
    requires Updates(AthenaProfile, existing, SnapshotOf(r)) && k < |start.rows|
    ensures var pr := Run(AthenaProfile, existing, ChangedBy(trail, now), now, start, [SnapshotOf(r)], {});
            var row := start.rows[k];
            pr.Some? && k < |pr.value.rows| &&
            pr.value.rows[k] ==
              if r.queryId != Null && "query_id" in row && row["query_id"] == r.queryId &&
                 r.accountId != Null && "account_id" in row && row["account_id"] == r.accountId
              then Assign(row, Sets(AthenaProfile, existing, SnapshotOf(r), now)) else row
  {
    UpdateTargets(AthenaProfile, existing, ChangedBy(trail, now), now, start, SnapshotOf(r), k);
  }
}
