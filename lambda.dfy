/**
 * The Lambda collector (services/lambda_functions.py): the snapshot record
 * built from a function's listing and three per-function SDK calls, the
 * per-field attribution lookup, and the reconciliation of a batch of
 * records into the `lambda_functions` table.
 */
module Lambda {
  import opened Text
  import opened Values
  import opened Store
  import opened Diff
  import opened Reconcile

  /** Which CloudTrail event names can change each column. */
  const FieldEventMap: map<string, set<string>> := map[
    "functionname" := {"CreateFunction", "UpdateFunctionConfiguration"},
    "description" := {"UpdateFunctionConfiguration"},
    "handler" := {"UpdateFunctionConfiguration"},
    "runtime" := {"UpdateFunctionConfiguration"},
    "memorysize" := {"UpdateFunctionConfiguration"},
    "timeout" := {"UpdateFunctionConfiguration"},
    "role" := {"UpdateFunctionConfiguration"},
    "environment" := {"UpdateFunctionConfiguration"},
    "vpcconfig" := {"UpdateFunctionConfiguration"},
    "tags" := {"TagResource", "UntagResource"}
  ]

  /** `get_function_changed_by` as written, with its double `fetchone()` (see `LatestActorAsWritten`). */
  function FunctionChangedByAsWritten(trail: Option<seq<EventRow>>, name: Value, field: string): Value {
    LatestActorAsWritten(trail, "LAMBDA", name, FieldEventMap, field)
  }

  /** `get_function_changed_by` with one `fetchone()`: the user of the latest matching event. */
  function FunctionChangedBy(trail: Option<seq<EventRow>>, name: Value, field: string): Value {
    LatestActor(trail, "LAMBDA", name, FieldEventMap, field)
  }

  /**
   * The corrected lookup names a latest LAMBDA event of the function among
   * the field's events (any event when the field has none listed), and
   * "unknown" when there is none or no connection.
   */
  lemma FunctionChangedBySpec(trail: Option<seq<EventRow>>, name: Value, field: string)
    ensures trail.None? ==> FunctionChangedBy(trail, name, field) == Unknown
    ensures trail.Some? ==>
            var events := EventsFor(FieldEventMap, field);
            var names := if events != {} then Some(events) else None;
            var r := FunctionChangedBy(trail, name, field);
            ((forall e :: e in trail.value ==> !Selected(e, "LAMBDA", name, names)) ==> r == Unknown) &&
            ((exists e :: e in trail.value && Selected(e, "LAMBDA", name, names)) ==>
              exists e :: e in trail.value && Selected(e, "LAMBDA", name, names) && r == e.userName &&
                forall f :: f in trail.value && Selected(f, "LAMBDA", name, names) ==> NoEarlier(e.eventTime, f.eventTime))
  {
    if trail.Some? {
      LatestActorSpec(trail.value, "LAMBDA", name, FieldEventMap, field);
    }
  }

  /** One matching event by "alice": the lookup as written answers "unknown", the corrected one "alice". */
  lemma DoubleFetchLosesActor()
    ensures var e := EventRow(Some("e-1"), Some(100), "UpdateFunctionConfiguration", Text("lambda.amazonaws.com"),
                              Text("alice"), Text("orders"), "LAMBDA", "us-east-1", Dict([]), 100);
            FunctionChangedByAsWritten(Some([e]), Text("orders"), "handler") == Unknown &&
            FunctionChangedBy(Some([e]), Text("orders"), "handler") == Text("alice")
  {
    var e := EventRow(Some("e-1"), Some(100), "UpdateFunctionConfiguration", Text("lambda.amazonaws.com"),
                      Text("alice"), Text("orders"), "LAMBDA", "us-east-1", Dict([]), 100);
    assert Selected(e, "LAMBDA", Text("orders"), Some({"UpdateFunctionConfiguration"}));
    assert [e][1..] == [];
  }

  /** `VpcConfig` of a function configuration. */
  datatype VpcConfig = VpcConfig(vpcId: Option<string>, subnetIds: Option<seq<string>>)

  /**
   * A `FunctionConfiguration` as `list_functions` and `get_function_configuration`
   * return it; `None` is an absent key. `variables` is `Environment.Variables`.
   */
  datatype FunctionConfiguration = FunctionConfiguration(
    functionName: string, functionArn: Option<string>, description: Option<string>,
    handler: Option<string>, runtime: Option<string>, memorySize: Option<int>, timeout: Option<int>,
    role: Option<string>, vpcConfig: Option<VpcConfig>, variables: Option<seq<(string, string)>>)

  /**
   * What the SDK returns for one listed function: the listing entry, the
   * configuration, the number of event-source mappings and the tags, each
   * call `None` when it raises.
   */
  datatype FunctionCalls = FunctionCalls(
    listing: FunctionConfiguration, config: Option<FunctionConfiguration>,
    mappings: Option<nat>, tags: Option<seq<(string, string)>>)

  /** The record `extract_lambda_data` returns. */
  datatype LambdaRecord = LambdaRecord(
    accountName: Value, accountId: Value, functionId: Value, functionName: Value,
    description: Value, handler: Value, runtime: Value, memorySize: Value, timeout: Value,
    role: Value, environment: Value, triggers: Value, vpcConfig: Value, region: Value, tags: Value)

  function OrText(o: Option<string>, default: string): Value {
    if o.Some? then Text(o.value) else Text(default)
  }

  function OrInt(o: Option<int>, default: int): Value {
    if o.Some? then Int(o.value) else Int(default)
  }

  /** A string-to-string dict. */
  function StringDict(entries: seq<(string, string)>): (r: Value)
    ensures r.Dict? && |r.entries| == |entries|
  {
    Dict(seq(|entries|, k requires 0 <= k < |entries| => (entries[k].0, Text(entries[k].1))))
  }

  /** `"VPC: <id>, Subnets: <n>"` when the configuration names a VPC, else "N/A". */
  function VpcInfo(c: FunctionConfiguration): string {
    match c.vpcConfig
    case None => "N/A"
    case Some(vc) =>
      if vc.vpcId.Some? && vc.vpcId.value != "" then
        "VPC: " + vc.vpcId.value + ", Subnets: " + NatToString(if vc.subnetIds.Some? then |vc.subnetIds.value| else 0)
      else "N/A"
  }

  /** `extract_lambda_data`. When the configuration call raises, the listing stands in for it. */
  function ExtractLambdaData(calls: FunctionCalls, accountName: string, accountId: string, region: string)
    : LambdaRecord
  {
    var listed := calls.listing;
    var config := if calls.config.Some? then calls.config.value else listed;
    var vpcInfo := if calls.config.Some? then VpcInfo(config) else "N/A";
    var envVars := if calls.config.Some? && config.variables.Some? then |config.variables.value| else 0;
    var triggers := if calls.mappings.Some? then calls.mappings.value else 0;
    var tags := if calls.tags.Some? then calls.tags.value else [];
    LambdaRecord(
      Text(accountName), Text(accountId),
      Text(if listed.functionArn.Some? && listed.functionArn.value != ""
           then LastSegment(listed.functionArn.value, ':') else listed.functionName),
      Text(listed.functionName),
      OrText(config.description, "N/A"), OrText(config.handler, "N/A"), OrText(config.runtime, "N/A"),
      OrInt(config.memorySize, 0), OrInt(config.timeout, 0),
      Text(if config.role.Some? && config.role.value != "" then LastSegment(config.role.value, '/') else "N/A"),
      Int(envVars), Int(triggers), Text(vpcInfo), Text(region), StringDict(tags))
  }

  /**
   * The function id is the ARN's whole last ':'-segment: a suffix without ':'
   * that is the ARN itself or follows a ':'. Without an ARN it is the name.
   */
  lemma FunctionIdFromArn(calls: FunctionCalls, accountName: string, accountId: string, region: string)
    ensures var r := ExtractLambdaData(calls, accountName, accountId, region);
            var arn := calls.listing.functionArn;
            r.functionId.Text? &&
            (arn.Some? && arn.value != "" ==>
               ':' !in r.functionId.s && |r.functionId.s| <= |arn.value| &&
               r.functionId.s == arn.value[|arn.value| - |r.functionId.s|..] &&
               (|r.functionId.s| == |arn.value| || arn.value[|arn.value| - |r.functionId.s| - 1] == ':')) &&
            (arn.None? || arn.value == "" ==> r.functionId == Text(calls.listing.functionName))
  {
    var arn := calls.listing.functionArn;
    if arn.Some? && arn.value != "" {
      LastSegmentIsSuffix(arn.value, ':');
    }
  }

  /**
   * The role is the role ARN's whole last '/'-segment (a suffix without '/'
   * that is the ARN itself or follows a '/'), or "N/A" without one.
   */
  lemma RoleIsRoleName(calls: FunctionCalls, accountName: string, accountId: string, region: string)
    ensures var r := ExtractLambdaData(calls, accountName, accountId, region);
            var config := if calls.config.Some? then calls.config.value else calls.listing;
            var role := if config.role.Some? then config.role.value else "";
            r.role.Text? &&
            (role != "" ==>
               '/' !in r.role.s && |r.role.s| <= |role| && r.role.s == role[|role| - |r.role.s|..] &&
               (|r.role.s| == |role| || role[|role| - |r.role.s| - 1] == '/')) &&
            (config.role.None? || config.role.value == "" ==> r.role == NA)
  {
    var config := if calls.config.Some? then calls.config.value else calls.listing;
    if config.role.Some? && config.role.value != "" {
      LastSegmentIsSuffix(config.role.value, '/');
    }
  }

  /** Without the configuration call, the listing's fields are used, with no VPC and no variables. */
  lemma ConfigFallback(calls: FunctionCalls, accountName: string, accountId: string, region: string)
    requires calls.config.None?
    ensures var r := ExtractLambdaData(calls, accountName, accountId, region);
            r.vpcConfig == NA && r.environment == Int(0) &&
            r.description == OrText(calls.listing.description, "N/A") &&
            r.memorySize == OrInt(calls.listing.memorySize, 0)
  {
  }

  /**
   * VPCConfig is "N/A" exactly when the configuration call failed or names no
   * VPC id; otherwise it is "VPC: <id>, Subnets: <count>", the count being the
   * number of subnet ids listed (0 when the key is absent).
   */
  lemma VpcConfigReported(calls: FunctionCalls, accountName: string, accountId: string, region: string)
    ensures var r := ExtractLambdaData(calls, accountName, accountId, region);
            var vc := if calls.config.Some? && calls.config.value.vpcConfig.Some?
                      then Some(calls.config.value.vpcConfig.value) else None;
            var vpcId := if vc.Some? then vc.value.vpcId else None;
            var subnets := if vc.Some? && vc.value.subnetIds.Some? then |vc.value.subnetIds.value| else 0;
            r.vpcConfig.Text? &&
            (r.vpcConfig == NA <==> vpcId.None? || vpcId.value == "") &&
            (vpcId.Some? && vpcId.value != "" ==>
               r.vpcConfig == Text("VPC: " + vpcId.value + ", Subnets: " + NatToString(subnets)))
  {
    var r := ExtractLambdaData(calls, accountName, accountId, region);
    if calls.config.Some? && calls.config.value.vpcConfig.Some? {
      var vc := calls.config.value.vpcConfig.value;
      if vc.vpcId.Some? && vc.vpcId.value != "" {
        assert r.vpcConfig.s[0] == 'V';
      }
    }
  }

  /** A failed mappings or tags call leaves zero triggers and no tags. */
  lemma FailedCallsDefault(calls: FunctionCalls, accountName: string, accountId: string, region: string)
    requires calls.mappings.None? && calls.tags.None?
    ensures var r := ExtractLambdaData(calls, accountName, accountId, region);
            r.triggers == Int(0) && r.tags == Dict([])
  {
  }

  /** `get_lambda_functions`; `listing` is `None` without a client or when the paginator raises. */
  method GetLambdaFunctions(listing: Option<seq<FunctionCalls>>, accountName: string, accountId: string, region: string)
    returns (records: seq<LambdaRecord>)
    ensures listing.None? ==> records == []
    ensures listing.Some? ==> |records| == |listing.value|
    ensures listing.Some? ==> forall k :: 0 <= k < |records| ==> records[k] == ExtractLambdaData(listing.value[k], accountName, accountId, region)
  {
    if listing.None? {
      return [];
    }
    records := [];
    for i := 0 to |listing.value|
      invariant |records| == i
      invariant forall k :: 0 <= k < i ==> records[k] == ExtractLambdaData(listing.value[k], accountName, accountId, region)
    {
      records := records + [ExtractLambdaData(listing.value[i], accountName, accountId, region)];
    }
  }

  /** The `campos` dict, in the INSERT's column order. */
  function Columns(f: LambdaRecord): (cols: seq<Column>)
    ensures forall i, j :: 0 <= i < j < |cols| ==> cols[i].0 != cols[j].0
  {
    [("accountname", f.accountName), ("accountid", f.accountId), ("functionid", f.functionId),
     ("functionname", f.functionName), ("description", f.description), ("handler", f.handler),
     ("runtime", f.runtime), ("memorysize", f.memorySize), ("timeout", f.timeout), ("role", f.role),
     ("environment", f.environment), ("triggers", f.triggers), ("vpcconfig", f.vpcConfig),
     ("region", f.region), ("tags", f.tags)]
  }

  /** Identity (functionname, accountid); list-aware comparison; UPDATE by function name alone. */
  const LambdaProfile := Profile("LAMBDA", "functionname", "accountid", ListAwareDiffers, false, false)

  function SnapshotOf(f: LambdaRecord): Snapshot {
    Snapshot(f.functionName, f.accountId, Columns(f), f.region)
  }

  /** The attribution each logged change gets. */
  function ChangedBy(trail: Option<seq<EventRow>>): (Value, string) -> Value {
    (name: Value, field: string) => FunctionChangedBy(trail, name, field)
  }

  /** `insert_or_update_lambda_data`. */
  method InsertOrUpdateLambdaData(rows: seq<Row>, log: seq<ChangeEntry>, db: Outcomes, data: seq<LambdaRecord>,
                                  trail: Option<seq<EventRow>>, now: int)
    returns (rows': seq<Row>, log': seq<ChangeEntry>, summary: Summary)
    ensures (rows', log', summary) == Engine(LambdaProfile, rows, log, db, SnapshotsOf(data, SnapshotOf), ChangedBy(trail), now)
  {
    rows', log', summary := Upsert(LambdaProfile, rows, log, db, SnapshotsOf(data, SnapshotOf), ChangedBy(trail), now);
  }

  /**
   * A committed batch processed every record and stamped every row it added
   * with `now`; each new log entry is a LAMBDA change of a non-identity
   * column of one of the records, from the loaded row's value to the
   * record's, attributed by the corrected lookup. On an empty table every
   * record becomes one row holding its columns.
   */
  lemma LambdaBatchEffects(rows: seq<Row>, log: seq<ChangeEntry>, db: Outcomes, data: seq<LambdaRecord>,
                           trail: Option<seq<EventRow>>, now: int)
    ensures var (rows', log', s) := Engine(LambdaProfile, rows, log, db, SnapshotsOf(data, SnapshotOf), ChangedBy(trail), now);
            var existing := Existing(rows, "functionname", "accountid");
            s.error.None? ==>
              s.processed == |data| && s.inserted + s.updated <= s.processed &&
              |rows'| == |rows| + s.inserted &&
              (forall k :: |rows| <= k < |rows'| ==> Stamped(rows'[k], now)) &&
              |log| <= |log'| && log'[..|log|] == log &&
              forall j :: |log| <= j < |log'| ==>
                log'[j].resourceType == "LAMBDA" && log'[j].field !in {"functionname", "accountid"} &&
                !SameValue(log'[j].oldValue, log'[j].newValue) &&
                log'[j].changedBy == FunctionChangedBy(trail, log'[j].resourceId, log'[j].field) &&
                exists i :: 0 <= i < |data| && LoggedFrom(existing, log'[j], SnapshotOf(data[i]))
  {
    var snaps := SnapshotsOf(data, SnapshotOf);
    EngineEffects(LambdaProfile, rows, log, db, snaps, ChangedBy(trail), now);
    var (rows', log', s) := Engine(LambdaProfile, rows, log, db, snaps, ChangedBy(trail), now);
    var existing := Existing(rows, "functionname", "accountid");
    if s.error.None? {
      forall j | |log| <= j < |log'|
        ensures exists i :: 0 <= i < |data| && LoggedFrom(existing, log'[j], SnapshotOf(data[i]))
      {
        var i :| 0 <= i < |snaps| && LoggedFrom(existing, log'[j], snaps[i]);
        assert snaps[i] == SnapshotOf(data[i]);
      }
    }
  }

  /** The first run, on an empty table: every function becomes one row holding its columns, in order. */
  lemma LambdaFirstRun(log: seq<ChangeEntry>, db: Outcomes, data: seq<LambdaRecord>, trail: Option<seq<EventRow>>, now: int)
    ensures var (rows', log', s) := Engine(LambdaProfile, [], log, db, SnapshotsOf(data, SnapshotOf), ChangedBy(trail), now);
            s.error.None? ==>
              |rows'| == |data| && log' == log && s.inserted == |data| &&
              forall i :: 0 <= i < |data| ==> rows'[i] == NewRow(Columns(data[i]), Timestamp(now))
  {
    EmptyTableInsertsAll(LambdaProfile, log, db, SnapshotsOf(data, SnapshotOf), ChangedBy(trail), now);
  }

  /** The attribution the collector as written gives each logged change. */
  function ChangedByAsWritten(trail: Option<seq<EventRow>>): (Value, string) -> Value {
    (name: Value, field: string) => FunctionChangedByAsWritten(trail, name, field)
  }

  /** With the lookup as written, every change a committed batch logs is blamed on "unknown". */
  lemma AsWrittenLogsUnknown(rows: seq<Row>, log: seq<ChangeEntry>, db: Outcomes, data: seq<LambdaRecord>,
                             trail: Option<seq<EventRow>>, now: int)
    ensures var (_, log', s) := Engine(LambdaProfile, rows, log, db, SnapshotsOf(data, SnapshotOf), ChangedByAsWritten(trail), now);
            s.error.None? ==> |log| <= |log'| && forall j :: |log| <= j < |log'| ==> log'[j].changedBy == Unknown
  {
    EngineEffects(LambdaProfile, rows, log, db, SnapshotsOf(data, SnapshotOf), ChangedByAsWritten(trail), now);
  }

  /**
   * The UPDATE filters on the function name alone: a row of another account
   * with the same function name is rewritten with this record's values
   * (unless the name is NULL, which matches nothing).
   */
  lemma UpdateCrossesAccounts(existing: map<(Value, Value), Row>, trail: Option<seq<EventRow>>, now: int,
                              start: Progress, f: LambdaRecord, k: nat)
    requires Updates(LambdaProfile, existing, SnapshotOf(f)) && k < |start.rows|
    requires var r := start.rows[k]; "functionname" in r && r["functionname"] == f.functionName
    ensures var pr := Run(LambdaProfile, existing, ChangedBy(trail), now, start, [SnapshotOf(f)], {});
            pr.Some? && k < |pr.value.rows| &&
            pr.value.rows[k] ==
              if f.functionName != Null then Assign(start.rows[k], Sets(LambdaProfile, existing, SnapshotOf(f), now))
              else start.rows[k]
  {
    UpdateTargets(LambdaProfile, existing, ChangedBy(trail), now, start, SnapshotOf(f), k);
  }

  /** Each differing column of an updated function is logged exactly once. */
  lemma OneEntryPerChangedColumn(existing: map<(Value, Value), Row>, f: LambdaRecord, k: nat)
    requires KeyOfSnapshot(SnapshotOf(f)) in existing && k < |Columns(f)|
    ensures var db := existing[KeyOfSnapshot(SnapshotOf(f))];
            var col := Columns(f)[k];
            CountFor(ChangesFor(LambdaProfile, existing, SnapshotOf(f)), col.0) ==
              if col.0 !in {"functionname", "accountid"} && !SameValue(Cell(db, col.0), col.1) then 1 else 0
  {
    OneChangePerColumn(existing[KeyOfSnapshot(SnapshotOf(f))], Columns(f), Identity(LambdaProfile), ListAwareDiffers, k);
  }
}
