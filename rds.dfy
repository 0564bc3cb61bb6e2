/**
 * The RDS collector (services/rds_functions.py): the snapshot record of one
 * DB instance, the per-field attribution lookup, and the store step, which
 * inserts unknown instances and only refreshes `last_updated` of known ones.
 */
module Rds {
  import opened Text
  import opened Values
  import opened Store
  import opened Diff
  import opened Reconcile

  /** Which CloudTrail event names can change each column. */
  const FieldEventMap: map<string, set<string>> := map[
    "dbname" := {"CreateDBInstance", "ModifyDBInstance"},
    "enginetype" := {"CreateDBInstance"},
    "engineversion" := {"ModifyDBInstance"},
    "storagesize" := {"ModifyDBInstance"},
    "instancetype" := {"ModifyDBInstance"},
    "status" := {"StartDBInstance", "StopDBInstance", "RebootDBInstance", "CreateDBInstance", "DeleteDBInstance"},
    "endpoint" := {"CreateDBInstance", "ModifyDBInstance"},
    "port" := {"CreateDBInstance", "ModifyDBInstance"},
    "hasreplica" := {"CreateDBInstanceReadReplica", "DeleteDBInstance"}
  ]

  /** `get_instance_changed_by`, which fetches its one row once. */
  function InstanceChangedBy(trail: Option<seq<EventRow>>, instanceId: Value, field: string): Value {
    LatestActor(trail, "RDS", instanceId, FieldEventMap, field)
  }

  /**
   * The lookup names a latest RDS event of the instance among the field's
   * events (any event for a field not listed), and "unknown" when there is
   * none or no connection.
   */
  lemma InstanceChangedBySpec(trail: Option<seq<EventRow>>, instanceId: Value, field: string)
    ensures trail.None? ==> InstanceChangedBy(trail, instanceId, field) == Unknown
    ensures trail.Some? ==>
            var events := EventsFor(FieldEventMap, field);
            var names := if events != {} then Some(events) else None;
            var r := InstanceChangedBy(trail, instanceId, field);
            ((forall e :: e in trail.value ==> !Selected(e, "RDS", instanceId, names)) ==> r == Unknown) &&
            ((exists e :: e in trail.value && Selected(e, "RDS", instanceId, names)) ==>
              exists e :: e in trail.value && Selected(e, "RDS", instanceId, names) && r == e.userName &&
                forall f :: f in trail.value && Selected(f, "RDS", instanceId, names) ==> NoEarlier(e.eventTime, f.eventTime))
  {
    if trail.Some? {
      LatestActorSpec(trail.value, "RDS", instanceId, FieldEventMap, field);
    }
  }

  /** A stop followed by a reboot: the status change goes to whoever rebooted. */
  lemma LatestEventWins()
    ensures var stop := EventRow(Some("e-1"), Some(10), "StopDBInstance", Text("rds.amazonaws.com"),
                                 Text("dave"), Text("db1"), "RDS", "us-east-1", Dict([]), 10);
            var reboot := stop.(eventId := Some("e-2"), eventTime := Some(20), eventName := "RebootDBInstance",
                                userName := Text("erin"));
            InstanceChangedBy(Some([stop, reboot]), Text("db1"), "status") == Text("erin")
  {
    var stop := EventRow(Some("e-1"), Some(10), "StopDBInstance", Text("rds.amazonaws.com"),
                         Text("dave"), Text("db1"), "RDS", "us-east-1", Dict([]), 10);
    var reboot := stop.(eventId := Some("e-2"), eventTime := Some(20), eventName := "RebootDBInstance",
                        userName := Text("erin"));
    var names := Some(FieldEventMap["status"]);
    assert Selected(stop, "RDS", Text("db1"), names) && Selected(reboot, "RDS", Text("db1"), names);
    assert [stop, reboot][1..] == [reboot];
  }

  /** The `Endpoint` of a DB instance. */
  datatype Endpoint = Endpoint(address: Option<string>, port: Option<int>)

  /**
   * A `DBInstances` entry of `describe_db_instances`; `None` is an absent key,
   * the other fields are the keys the collector indexes directly.
   */
  datatype DbInstance = DbInstance(
    id: string, dbName: Option<string>, engine: string, engineVersion: Option<string>,
    allocatedStorage: Option<int>, instanceClass: string, status: string,
    endpoint: Option<Endpoint>, replicas: Option<seq<string>>)

  /** The record `extract_rds_data` returns. */
  datatype RdsRecord = RdsRecord(
    accountName: Value, accountId: Value, dbInstanceId: Value, dbName: Value, engineType: Value,
    engineVersion: Value, storageSize: Value, instanceType: Value, status: Value, region: Value,
    endpoint: Value, port: Value, hasReplica: Value)

  /** `extract_rds_data`. */
  function ExtractRdsData(db: DbInstance, accountName: string, accountId: string, region: string): RdsRecord {
    var endpoint := if db.endpoint.Some? then db.endpoint.value else Endpoint(None, None);
    RdsRecord(
      Text(accountName), Text(accountId), Text(db.id),
      Text(if db.dbName.Some? then db.dbName.value else "N/A"),
      Text(db.engine),
      Text(if db.engineVersion.Some? then db.engineVersion.value else "N/A"),
      if db.allocatedStorage.Some? then Int(db.allocatedStorage.value) else NA,
      Text(db.instanceClass), Text(db.status), Text(region),
      Text(if endpoint.address.Some? then endpoint.address.value else "N/A"),
      if endpoint.port.Some? then Int(endpoint.port.value) else NA,
      Bool(db.replicas.Some? && db.replicas.value != []))
  }

  /** The replica flag is set exactly when the instance lists a read replica. */
  lemma HasReplicaIff(db: DbInstance, accountName: string, accountId: string, region: string)
    ensures ExtractRdsData(db, accountName, accountId, region).hasReplica == Bool(true) <==>
            db.replicas.Some? && |db.replicas.value| > 0
  {
  }

  /** Absent optional keys read "N/A", also for the numeric storage size and port. */
  lemma MissingKeysReadNA(db: DbInstance, accountName: string, accountId: string, region: string)
    requires db.dbName.None? && db.engineVersion.None? && db.allocatedStorage.None? && db.endpoint.None?
    ensures var r := ExtractRdsData(db, accountName, accountId, region);
            r.dbName == NA && r.engineVersion == NA && r.storageSize == NA && r.endpoint == NA && r.port == NA &&
            r.hasReplica == Bool(db.replicas.Some? && db.replicas.value != [])
  {
  }

  /** `get_rds_instances`; `listing` is `None` without a client or when paging raises a ClientError. */
  method GetRdsInstances(listing: Option<seq<DbInstance>>, accountName: string, accountId: string, region: string)
    returns (records: seq<RdsRecord>)
    ensures listing.None? ==> records == []
    ensures listing.Some? ==> |records| == |listing.value|
    ensures listing.Some? ==>
              forall k :: 0 <= k < |records| ==> records[k] == ExtractRdsData(listing.value[k], accountName, accountId, region)
  {
    if listing.None? {
      return [];
    }
    records := [];
    for i := 0 to |listing.value|
      invariant |records| == i
      invariant forall k :: 0 <= k < i ==> records[k] == ExtractRdsData(listing.value[k], accountName, accountId, region)
    {
      records := records + [ExtractRdsData(listing.value[i], accountName, accountId, region)];
    }
  }

  /** The INSERT's columns, in order. */
  function Columns(r: RdsRecord): (cols: seq<Column>)
    ensures forall i, j :: 0 <= i < j < |cols| ==> cols[i].0 != cols[j].0
  {
    [("accountname", r.accountName), ("accountid", r.accountId), ("dbinstanceid", r.dbInstanceId),
     ("dbname", r.dbName), ("enginetype", r.engineType), ("engineversion", r.engineVersion),
     ("storagesize", r.storageSize), ("instancetype", r.instanceType), ("status", r.status),
     ("region", r.region), ("endpoint", r.endpoint), ("port", r.port), ("hasreplica", r.hasReplica)]
  }

  /** The RDS store step compares no column. */
  predicate NeverDiffers(stored: Value, current: Value) {
    false
  }

  /**
   * Identity (dbinstanceid, accountid); no column is compared or logged, and
   * a loaded instance always gets `UPDATE rds SET last_updated = NOW() WHERE
   * dbinstanceid = ... AND accountid = ...`.
   */
  const RdsProfile := Profile("RDS", "dbinstanceid", "accountid", NeverDiffers, true, true)

  function SnapshotOf(r: RdsRecord): Snapshot {
    Snapshot(r.dbInstanceId, r.accountId, Columns(r), r.region)
  }

  /** The store step never asks who changed anything. */
  function NoActor(instanceId: Value, field: string): Value {
    Unknown
  }

  /** `insert_or_update_rds_data`; it writes nothing to the change log. */
  method InsertOrUpdateRdsData(rows: seq<Row>, log: seq<ChangeEntry>, db: Outcomes, data: seq<RdsRecord>, now: int)
    returns (rows': seq<Row>, log': seq<ChangeEntry>, summary: Summary)
    ensures (rows', log', summary) == Engine(RdsProfile, rows, log, db, SnapshotsOf(data, SnapshotOf), NoActor, now)
  {
    rows', log', summary := Upsert(RdsProfile, rows, log, db, SnapshotsOf(data, SnapshotOf), NoActor, now);
  }

  /** A loaded instance gets only its timestamp set. */
  lemma OnlyTimestampSet(existing: map<(Value, Value), Row>, s: Snapshot, now: int)
    requires KeyOfSnapshot(s) in existing
    ensures ChangesFor(RdsProfile, existing, s) == []
    ensures Sets(RdsProfile, existing, s, now) == [("last_updated", Timestamp(now))]
  {
    NothingChangedIff(existing[KeyOfSnapshot(s)], s.cols, Identity(RdsProfile), NeverDiffers);
  }

  /** Every record is inserted or updated: known instances are always updated. */
  lemma {:induction false} EveryRecordCounted(rows: seq<Row>, data: seq<RdsRecord>)
    ensures var existing := Existing(rows, "dbinstanceid", "accountid");
            CountInserts(RdsProfile, existing, SnapshotsOf(data, SnapshotOf)) + CountUpdates(RdsProfile, existing, SnapshotsOf(data, SnapshotOf)) == |data|
    decreases |data|
  {
    if data != [] {
      var init := data[..|data| - 1];
      EveryRecordCounted(rows, init);
      assert SnapshotsOf(data, SnapshotOf)[..|data| - 1] == SnapshotsOf(init, SnapshotOf);
      var s := SnapshotOf(data[|data| - 1]);
      if KeyOfSnapshot(s) in Existing(rows, "dbinstanceid", "accountid") {
        IdentityBranchDead(RdsProfile, rows, s);
      }
    }
  }

  /** The store step leaves the change log as it was, whatever the outcome. */
  lemma RdsLogUnchanged(rows: seq<Row>, log: seq<ChangeEntry>, db: Outcomes, data: seq<RdsRecord>, now: int)
    ensures Engine(RdsProfile, rows, log, db, SnapshotsOf(data, SnapshotOf), NoActor, now).1 == log
  {
    var snaps := SnapshotsOf(data, SnapshotOf);
    if data != [] && db.connected {
      var existing := Existing(rows, "dbinstanceid", "accountid");
      var r := Run(RdsProfile, existing, NoActor, now, Progress(rows, log, 0, 0), snaps, db.rejects);
      if r.Some? {
        SilentProfileLogsNothing(RdsProfile, existing, NoActor, now, Progress(rows, log, 0, 0), snaps, db.rejects);
      }
    }
  }

  /**
   * A committed batch processed every record, inserted or updated each, and
   * added one row per insert, stamped with `now`.
   */
  lemma RdsBatchEffects(rows: seq<Row>, log: seq<ChangeEntry>, db: Outcomes, data: seq<RdsRecord>, now: int)
    ensures var (rows', _, s) := Engine(RdsProfile, rows, log, db, SnapshotsOf(data, SnapshotOf), NoActor, now);
            s.error.None? ==>
              s.processed == |data| && s.inserted + s.updated == s.processed && |rows'| == |rows| + s.inserted &&
              forall k :: |rows| <= k < |rows'| ==> Stamped(rows'[k], now)
  {
    var snaps := SnapshotsOf(data, SnapshotOf);
    EngineEffects(RdsProfile, rows, log, db, snaps, NoActor, now);
    EngineSummary(RdsProfile, rows, log, db, snaps, NoActor, now);
    EveryRecordCounted(rows, data);
  }

  /** The first run, on an empty table: every instance becomes one row holding its columns, in order. */
  lemma RdsFirstRun(log: seq<ChangeEntry>, db: Outcomes, data: seq<RdsRecord>, now: int)
    ensures var (rows', log', s) := Engine(RdsProfile, [], log, db, SnapshotsOf(data, SnapshotOf), NoActor, now);
            s.error.None? ==>
              |rows'| == |data| && log' == log && s.inserted == |data| &&
              forall i :: 0 <= i < |data| ==> rows'[i] == NewRow(Columns(data[i]), Timestamp(now))
  {
    EmptyTableInsertsAll(RdsProfile, log, db, SnapshotsOf(data, SnapshotOf), NoActor, now);
  }

  /**
   * A known instance keeps every stored column but `last_updated`, even when
   * its engine version, status or endpoint has changed: the row goes stale.
   * A NULL instance id or account id matches no row, which then stays as it was.
   */
  lemma KnownInstanceKeepsColumns(loaded: seq<Row>, start: Progress, r: RdsRecord, k: nat, now: int)
    requires KeyOfSnapshot(SnapshotOf(r)) in Existing(loaded, "dbinstanceid", "accountid") && k < |start.rows|
    requires var row := start.rows[k];
             "dbinstanceid" in row && row["dbinstanceid"] == r.dbInstanceId &&
             "accountid" in row && row["accountid"] == r.accountId
    ensures var pr := Run(RdsProfile, Existing(loaded, "dbinstanceid", "accountid"), NoActor, now, start,
                          [SnapshotOf(r)], {});
            var row := start.rows[k];
            pr.Some? && k < |pr.value.rows| &&
            pr.value.rows[k] == if r.dbInstanceId != Null && r.accountId != Null then row["last_updated" := Timestamp(now)] else row
  {
    var existing := Existing(loaded, "dbinstanceid", "accountid");
    var s := SnapshotOf(r);
    IdentityBranchDead(RdsProfile, loaded, s);
    OnlyTimestampSet(existing, s, now);
    UpdateTargets(RdsProfile, existing, NoActor, now, start, s, k);
    var row := start.rows[k];
    var sets := [("last_updated", Timestamp(now))];
    assert Assign(row, sets) == Assign(row, sets[..0])[sets[0].0 := sets[0].1];
    assert sets[..0] == [];
  }
}
