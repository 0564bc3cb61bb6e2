/**
 * The EKS collector (services/eks_functions.py): the snapshot record built
 * from `describe_cluster` and `list_addons`, the per-field attribution
 * lookup, and the reconciliation of a batch of records into the `eks` table.
 */
module Eks {
  import opened Text
  import opened Values
  import opened Store
  import opened Diff
  import opened Reconcile

  /** Which CloudTrail event names can change each column. */
  const FieldEventMap: map<string, set<string>> := map[
    "clustername" := {"CreateCluster", "UpdateClusterConfig"},
    "status" := {"CreateCluster", "DeleteCluster", "UpdateClusterConfig"},
    "kubernetesversion" := {"UpdateClusterVersion"},
    "supportperiod" := {"UpdateClusterConfig"},
    "addons" := {"CreateAddon", "DeleteAddon", "UpdateAddon"},
    "tags" := {"TagResource", "UntagResource"}
  ]

  /** `get_cluster_changed_by` as written, with its double `fetchone()` (see `LatestActorAsWritten`). */
  function ClusterChangedByAsWritten(trail: Option<seq<EventRow>>, name: Value, field: string): Value {
    LatestActorAsWritten(trail, "EKS", name, FieldEventMap, field)
  }

  /** `get_cluster_changed_by` with one `fetchone()`: the user of the latest matching event. */
  function ClusterChangedBy(trail: Option<seq<EventRow>>, name: Value, field: string): Value {
    LatestActor(trail, "EKS", name, FieldEventMap, field)
  }

  /**
   * The corrected lookup names a latest EKS event of the cluster among the
   * field's events (any event for a field not listed), and "unknown" when
   * there is none or no connection.
   */
  lemma ClusterChangedBySpec(trail: Option<seq<EventRow>>, name: Value, field: string)
    ensures trail.None? ==> ClusterChangedBy(trail, name, field) == Unknown
    ensures trail.Some? ==>
            var events := EventsFor(FieldEventMap, field);
            var names := if events != {} then Some(events) else None;
            var r := ClusterChangedBy(trail, name, field);
            ((forall e :: e in trail.value ==> !Selected(e, "EKS", name, names)) ==> r == Unknown) &&
            ((exists e :: e in trail.value && Selected(e, "EKS", name, names)) ==>
              exists e :: e in trail.value && Selected(e, "EKS", name, names) && r == e.userName &&
                forall f :: f in trail.value && Selected(f, "EKS", name, names) ==> NoEarlier(e.eventTime, f.eventTime))
  {
    if trail.Some? {
      LatestActorSpec(trail.value, "EKS", name, FieldEventMap, field);
    }
  }

  /** One version upgrade by "bob": the lookup as written answers "unknown", the corrected one "bob". */
  lemma DoubleFetchLosesActor()
    ensures var e := EventRow(Some("e-7"), Some(50), "UpdateClusterVersion", Text("eks.amazonaws.com"),
                              Text("bob"), Text("prod"), "EKS", "eu-west-1", Dict([]), 50);
            ClusterChangedByAsWritten(Some([e]), Text("prod"), "kubernetesversion") == Unknown &&
            ClusterChangedBy(Some([e]), Text("prod"), "kubernetesversion") == Text("bob")
  {
    var e := EventRow(Some("e-7"), Some(50), "UpdateClusterVersion", Text("eks.amazonaws.com"),
                      Text("bob"), Text("prod"), "EKS", "eu-west-1", Dict([]), 50);
    assert Selected(e, "EKS", Text("prod"), Some({"UpdateClusterVersion"}));
  }

  /**
   * The `cluster` dict of `describe_cluster`; `None` is an absent key and
   * `securityGroup` is `resourcesVpcConfig.clusterSecurityGroupId`.
   */
  datatype Cluster = Cluster(
    name: string, arn: Option<string>, version: Option<string>, supportType: Option<string>,
    status: Option<string>, securityGroup: Option<string>, tags: seq<(string, string)>)

  /** The record `extract_eks_data` returns. */
  datatype EksRecord = EksRecord(
    accountName: Value, accountId: Value, clusterId: Value, clusterName: Value, status: Value,
    kubernetesVersion: Value, provider: Value, clusterSecurityGroup: Value, supportPeriod: Value,
    addons: Value, tags: Value)

  /** End of standard support for the versions the collector knows. */
  function EndOfSupport(version: string): string {
    if version == "1.31" then "Nov 25, 2025"
    else if version == "1.30" then "Jul 25, 2025"
    else if version == "1.29" then "Mar 25, 2025"
    else "N/A"
  }

  /** `"<SupportType title-cased> - Ends <date>"` for a cluster with a version, else "Standard". */
  function SupportPeriod(c: Cluster): string {
    var version := if c.version.Some? then c.version.value else "";
    var supportType := if c.supportType.Some? then c.supportType.value else "STANDARD";
    if version != "" then Title(supportType) + " - Ends " + EndOfSupport(version) else "Standard"
  }

  /** `extract_eks_data`; `addons` is `None` when `list_addons` raises. */
  function ExtractEksData(c: Cluster, addons: Option<seq<string>>, accountName: string, accountId: string)
    : EksRecord
  {
    var version := if c.version.Some? then c.version.value else "";
    var names := if addons.Some? then addons.value else [];
    EksRecord(
      Text(accountName), Text(accountId),
      Text(LastSegment(if c.arn.Some? then c.arn.value else c.name, '/')),
      Text(c.name),
      Text(if c.status.Some? then c.status.value else "N/A"),
      Text(if version != "" then version else "N/A"),
      Text("AWS"),
      Text(if c.securityGroup.Some? then c.securityGroup.value else "N/A"),
      Text(SupportPeriod(c)),
      List(seq(|names|, k requires 0 <= k < |names| => Text(names[k]))),
      Dict(seq(|c.tags|, k requires 0 <= k < |c.tags| => (c.tags[k].0, Text(c.tags[k].1)))))
  }

  /**
   * The cluster id is the whole last '/'-segment of the ARN (of the name when
   * there is no ARN): a suffix without '/' that is all of it or follows a '/'.
   */
  lemma ClusterIdFromArn(c: Cluster, addons: Option<seq<string>>, accountName: string, accountId: string)
    ensures var r := ExtractEksData(c, addons, accountName, accountId);
            var src := if c.arn.Some? then c.arn.value else c.name;
            r.clusterId.Text? && '/' !in r.clusterId.s && |r.clusterId.s| <= |src| &&
            r.clusterId.s == src[|src| - |r.clusterId.s|..] &&
            (|r.clusterId.s| == |src| || src[|src| - |r.clusterId.s| - 1] == '/')
  {
    var src := if c.arn.Some? then c.arn.value else c.name;
    assert ExtractEksData(c, addons, accountName, accountId).clusterId == Text(LastSegment(src, '/'));
    LastSegmentIsSuffix(src, '/');
  }

  /** Exactly the three known versions get a date. */
  lemma KnownVersions(v: string)
    ensures EndOfSupport(v) != "N/A" <==> v in {"1.29", "1.30", "1.31"}
  {
  }

  /**
   * A failed `list_addons` leaves no add-ons; a missing version reads "N/A"
   * with the "Standard" support period; a cluster with a version gets its
   * title-cased support type (STANDARD when absent) and the version's date.
   */
  lemma Defaults(c: Cluster, accountName: string, accountId: string)
    ensures var r := ExtractEksData(c, None, accountName, accountId);
            r.addons == List([]) && r.provider == Text("AWS") &&
            (c.version.None? || c.version.value == "" ==> r.kubernetesVersion == NA && r.supportPeriod == Text("Standard"))
    ensures var r := ExtractEksData(c, None, accountName, accountId);
            var supportType := if c.supportType.Some? then c.supportType.value else "STANDARD";
            c.version.Some? && c.version.value != "" ==>
              r.kubernetesVersion == Text(c.version.value) &&
              r.supportPeriod == Text(Title(supportType) + " - Ends " + EndOfSupport(c.version.value))
  {
  }

  /**
   * The support period as a reader sees it: a 1.31 cluster without a support
   * type ends standard support on Nov 25, 2025, an EXTENDED 1.29 one reads
   * "Extended - Ends Mar 25, 2025", and an unknown version has no date.
   */
  lemma SupportPeriodExamples(c: Cluster)
    ensures c.version == Some("1.31") && c.supportType.None? ==> SupportPeriod(c) == "Standard - Ends Nov 25, 2025"
    ensures c.version == Some("1.29") && c.supportType == Some("EXTENDED") ==>
              SupportPeriod(c) == "Extended - Ends Mar 25, 2025"
    ensures c.version == Some("1.28") && c.supportType.None? ==> SupportPeriod(c) == "Standard - Ends N/A"
  {
    if c.version == Some("1.31") && c.supportType.None? {
      StandardSupportExample(c);
    }
    if c.version == Some("1.29") && c.supportType == Some("EXTENDED") {
      ExtendedSupportExample(c);
    }
    if c.version == Some("1.28") && c.supportType.None? {
      UnknownVersionExample(c);
    }
  }

  lemma StandardSupportExample(c: Cluster)
    requires c.version == Some("1.31") && c.supportType.None?
    ensures SupportPeriod(c) == "Standard - Ends Nov 25, 2025"
  {
    SupportTypeTitles();
    assert SupportPeriod(c) == "Standard" + " - Ends " + "Nov 25, 2025";
  }

  lemma ExtendedSupportExample(c: Cluster)
    requires c.version == Some("1.29") && c.supportType == Some("EXTENDED")
    ensures SupportPeriod(c) == "Extended - Ends Mar 25, 2025"
  {
    SupportTypeTitles();
    assert SupportPeriod(c) == "Extended" + " - Ends " + "Mar 25, 2025";
  }

  lemma UnknownVersionExample(c: Cluster)
    requires c.version == Some("1.28") && c.supportType.None?
    ensures SupportPeriod(c) == "Standard - Ends N/A"
  {
    SupportTypeTitles();
    assert EndOfSupport("1.28") == "N/A" by {
      assert "1.28"[3] != "1.31"[3] && "1.28"[3] != "1.30"[3] && "1.28"[3] != "1.29"[3];
    }
    assert SupportPeriod(c) == "Standard" + " - Ends " + "N/A";
  }

  /** The two support types AWS reports, title-cased. */
  lemma SupportTypeTitles()
    ensures Title("STANDARD") == "Standard" && Title("EXTENDED") == "Extended"
  {
    TitleOfUpper("STANDARD", "Standard");
    TitleOfUpper("EXTENDED", "Extended");
  }

  /** `title()` of an upper-case ASCII word capitalises it. */
  lemma TitleOfUpper(word: string, titled: string)
    requires |word| == |titled| > 0 && titled[0] == word[0] && 'A' <= word[0] <= 'Z'
    requires forall i :: 0 < i < |word| ==> 'A' <= word[i] <= 'Z' && titled[i] == LowerChar(word[i])
    ensures Title(word) == titled
  {
  }

  /** What the SDK returns for one listed cluster: the described cluster, or `None` when describing raises. */
  datatype ClusterCalls = ClusterCalls(cluster: Option<Cluster>, addons: Option<seq<string>>)

  /** `get_eks_clusters`: a cluster that cannot be described is skipped; a failed listing gives []. */
  method GetEksClusters(listing: Option<seq<ClusterCalls>>, accountName: string, accountId: string)
    returns (records: seq<EksRecord>)
    ensures listing.None? ==> records == []
    ensures listing.Some? ==> records == Described(listing.value, accountName, accountId)
  {
    if listing.None? {
      return [];
    }
    records := [];
    for i := 0 to |listing.value|
      invariant records == Described(listing.value[..i], accountName, accountId)
    {
      assert listing.value[..i + 1][..i] == listing.value[..i];
      var calls := listing.value[i];
      if calls.cluster.Some? {
        records := records + [ExtractEksData(calls.cluster.value, calls.addons, accountName, accountId)];
      }
    }
    assert listing.value[..|listing.value|] == listing.value;
  }

  /** The records of the describable clusters, in listing order. */
  function Described(calls: seq<ClusterCalls>, accountName: string, accountId: string): (r: seq<EksRecord>)
    ensures |r| <= |calls|
  {
    if calls == [] then []
    else
      var last := calls[|calls| - 1];
      Described(calls[..|calls| - 1], accountName, accountId) +
        (if last.cluster.Some? then [ExtractEksData(last.cluster.value, last.addons, accountName, accountId)] else [])
  }

  /** The positions of the describable clusters. */
  function DescribablePositions(calls: seq<ClusterCalls>): set<nat> {
    set k: nat | k < |calls| && calls[k].cluster.Some?
  }

  lemma DescribablePositionsSnoc(calls: seq<ClusterCalls>)
    requires calls != []
    ensures var init := calls[..|calls| - 1];
            |DescribablePositions(calls)| ==
              |DescribablePositions(init)| + (if calls[|calls| - 1].cluster.Some? then 1 else 0)
  {
    var init := calls[..|calls| - 1];
    var a := DescribablePositions(init);
    var b := DescribablePositions(calls);
    assert forall k :: 0 <= k < |init| ==> init[k] == calls[k];
    if calls[|calls| - 1].cluster.Some? {
      assert b == a + {|calls| - 1};
    } else {
      assert b == a;
    }
  }

  /** Exactly the describable clusters give a record. */
  lemma {:induction false} DescribedCount(calls: seq<ClusterCalls>, accountName: string, accountId: string)
    ensures |Described(calls, accountName, accountId)| == |DescribablePositions(calls)|
  {
    if calls != [] {
      DescribedCount(calls[..|calls| - 1], accountName, accountId);
      DescribablePositionsSnoc(calls);
    }
  }

  /** The `campos` dict, in the INSERT's column order. */
  function Columns(r: EksRecord): (cols: seq<Column>)
    ensures forall i, j :: 0 <= i < j < |cols| ==> cols[i].0 != cols[j].0
  {
    [("accountname", r.accountName), ("accountid", r.accountId), ("clusterid", r.clusterId),
     ("clustername", r.clusterName), ("status", r.status), ("kubernetesversion", r.kubernetesVersion),
     ("provider", r.provider), ("clustersecuritygroup", r.clusterSecurityGroup),
     ("supportperiod", r.supportPeriod), ("addons", r.addons), ("tags", r.tags)]
  }

  /** Identity (clustername, accountid); list-aware comparison; UPDATE by cluster name alone. */
  const EksProfile := Profile("EKS", "clustername", "accountid", ListAwareDiffers, false, false)

  /** Log entries of the EKS collector carry the region "N/A". */
  function SnapshotOf(r: EksRecord): Snapshot {
    Snapshot(r.clusterName, r.accountId, Columns(r), NA)
  }

  function ChangedBy(trail: Option<seq<EventRow>>): (Value, string) -> Value {
    (name: Value, field: string) => ClusterChangedBy(trail, name, field)
  }

  /** `insert_or_update_eks_data`. */
  method InsertOrUpdateEksData(rows: seq<Row>, log: seq<ChangeEntry>, db: Outcomes, data: seq<EksRecord>,
                               trail: Option<seq<EventRow>>, now: int)
    returns (rows': seq<Row>, log': seq<ChangeEntry>, summary: Summary)
    ensures (rows', log', summary) == Engine(EksProfile, rows, log, db, SnapshotsOf(data, SnapshotOf), ChangedBy(trail), now)
  {
    rows', log', summary := Upsert(EksProfile, rows, log, db, SnapshotsOf(data, SnapshotOf), ChangedBy(trail), now);
  }

  /**
   * A committed batch processed every record and stamped every row it added
   * with `now`; each new log entry is an EKS change of a non-identity column
   * of one of the records, from the loaded row's value to the record's, with
   * region "N/A", attributed by the corrected lookup.
   */
  lemma EksBatchEffects(rows: seq<Row>, log: seq<ChangeEntry>, db: Outcomes, data: seq<EksRecord>,
                        trail: Option<seq<EventRow>>, now: int)
    ensures var (rows', log', s) := Engine(EksProfile, rows, log, db, SnapshotsOf(data, SnapshotOf), ChangedBy(trail), now);
            var existing := Existing(rows, "clustername", "accountid");
            s.error.None? ==>
              s.processed == |data| && s.inserted + s.updated <= s.processed &&
              |rows'| == |rows| + s.inserted &&
              (forall k :: |rows| <= k < |rows'| ==> Stamped(rows'[k], now)) &&
              |log| <= |log'| && log'[..|log|] == log &&
              forall j :: |log| <= j < |log'| ==>
                log'[j].resourceType == "EKS" && log'[j].field !in {"clustername", "accountid"} &&
                log'[j].region == NA &&
                !SameValue(log'[j].oldValue, log'[j].newValue) &&
                log'[j].changedBy == ClusterChangedBy(trail, log'[j].resourceId, log'[j].field) &&
                exists i :: 0 <= i < |data| && LoggedFrom(existing, log'[j], SnapshotOf(data[i]))
  {
    var snaps := SnapshotsOf(data, SnapshotOf);
    EngineEffects(EksProfile, rows, log, db, snaps, ChangedBy(trail), now);
    var (rows', log', s) := Engine(EksProfile, rows, log, db, snaps, ChangedBy(trail), now);
    var existing := Existing(rows, "clustername", "accountid");
    if s.error.None? {
      forall j | |log| <= j < |log'|
        ensures log'[j].region == NA && exists i :: 0 <= i < |data| && LoggedFrom(existing, log'[j], SnapshotOf(data[i]))
      {
        var i :| 0 <= i < |snaps| && LoggedFrom(existing, log'[j], snaps[i]);
        assert snaps[i] == SnapshotOf(data[i]);
      }
    }
  }

  /** The first run, on an empty table: every cluster becomes one row holding its columns, in order. */
  lemma EksFirstRun(log: seq<ChangeEntry>, db: Outcomes, data: seq<EksRecord>, trail: Option<seq<EventRow>>, now: int)
    ensures var (rows', log', s) := Engine(EksProfile, [], log, db, SnapshotsOf(data, SnapshotOf), ChangedBy(trail), now);
            s.error.None? ==>
              |rows'| == |data| && log' == log && s.inserted == |data| &&
              forall i :: 0 <= i < |data| ==> rows'[i] == NewRow(Columns(data[i]), Timestamp(now))
  {
    EmptyTableInsertsAll(EksProfile, log, db, SnapshotsOf(data, SnapshotOf), ChangedBy(trail), now);
  }

  /** The attribution the collector as written gives each logged change. */
  function ChangedByAsWritten(trail: Option<seq<EventRow>>): (Value, string) -> Value {
    (name: Value, field: string) => ClusterChangedByAsWritten(trail, name, field)
  }

  /** With the lookup as written, every change a committed batch logs is blamed on "unknown". */
  lemma AsWrittenClusterLogUnknown(rows: seq<Row>, log: seq<ChangeEntry>, db: Outcomes, data: seq<EksRecord>,
                                   trail: Option<seq<EventRow>>, now: int)
    ensures var (_, log', s) := Engine(EksProfile, rows, log, db, SnapshotsOf(data, SnapshotOf), ChangedByAsWritten(trail), now);
            s.error.None? ==> |log| <= |log'| && forall j :: |log| <= j < |log'| ==> log'[j].changedBy == Unknown
  {
    EngineEffects(EksProfile, rows, log, db, SnapshotsOf(data, SnapshotOf), ChangedByAsWritten(trail), now);
  }

  /** Add-ons listed in another order are not a change. */
  lemma AddonOrderIsNoChange(stored: seq<Value>, current: seq<Value>, reordered: seq<Value>)
    requires multiset(current) == multiset(reordered)
    ensures ListAwareDiffers(List(stored), List(current)) <==> ListAwareDiffers(List(stored), List(reordered))
  {
    NewOrderIrrelevant(List(stored), current, reordered);
  }
}
