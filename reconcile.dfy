/**
 * The reconciliation loop shared by `insert_or_update_lambda_data`,
 * `insert_or_update_eks_data` and `insert_or_update_athena_data`: load the
 * table once into a map keyed by (natural id, account id), then for each
 * snapshot record either insert it, or diff it column by column against the
 * loaded row, log every differing column with its attributed actor, and
 * issue one UPDATE. `insert_or_update_rds_data` is the same loop with a
 * comparison that never reports a change and an UPDATE that always runs.
 * The collectors differ only in the parameters a `Profile` gathers.
 * Everything happens in one transaction: a raising statement rolls the
 * whole batch back.
 */
module Reconcile {
  import opened Text
  import opened Values
  import opened Store
  import opened Diff

  /** What distinguishes the collectors. */
  datatype Profile = Profile(
    rtype: string,                    // the change log's resource type
    nameCol: string,                  // the natural-id column
    accountCol: string,               // the account column
    differs: (Value, Value) -> bool,  // when a column counts as changed
    scoped: bool,                     // the UPDATE also filters on the account column
    always: bool)                     // the UPDATE is issued even when no column changed

  /**
   * One snapshot record: its natural id, its account, the `campos` columns in
   * order (also the INSERT's column order) and the region its log entries carry.
   */
  datatype Snapshot = Snapshot(name: Value, account: Value, cols: seq<Column>, logRegion: Value)

  /** The identification columns, skipped by the diff. */
  function Identity(p: Profile): set<string> {
    {p.nameCol, p.accountCol}
  }

  function KeyOfSnapshot(s: Snapshot): (Value, Value) {
    (s.name, s.account)
  }

  /** The UPDATE's WHERE clause. */
  function Where(p: Profile, s: Snapshot): seq<Column> {
    if p.scoped then [(p.nameCol, s.name), (p.accountCol, s.account)] else [(p.nameCol, s.name)]
  }

  /** The branch for a changed account or name, which re-inserts the record. */
  predicate IdentityChanged(p: Profile, db: Row, s: Snapshot) {
    Str(Cell(db, p.accountCol)) != Str(s.account) || Str(Cell(db, p.nameCol)) != Str(s.name)
  }

  /** The `log_change` call for one differing column. */
  function Entry(p: Profile, s: Snapshot, c: Change, changedBy: (Value, string) -> Value): ChangeEntry {
    ChangeEntry(p.rtype, s.name, c.column, c.stored, c.current, changedBy(s.name, c.column), s.account, s.logRegion)
  }

  /** The `log_change` calls for a record's differing columns, in column order. */
  function Entries(p: Profile, s: Snapshot, changes: seq<Change>, changedBy: (Value, string) -> Value)
    : (r: seq<ChangeEntry>)
    ensures |r| == |changes|
    decreases |changes|
  {
    if changes == [] then []
    else Entries(p, s, changes[..|changes| - 1], changedBy) + [Entry(p, s, changes[|changes| - 1], changedBy)]
  }

  /** The `j`-th entry logs the `j`-th differing column. */
  lemma {:induction false} EntriesAt(p: Profile, s: Snapshot, changes: seq<Change>,
                                     changedBy: (Value, string) -> Value, j: nat)
    requires j < |changes|
    ensures Entries(p, s, changes, changedBy)[j] == Entry(p, s, changes[j], changedBy)
    decreases |changes|
  {
    if j < |changes| - 1 {
      EntriesAt(p, s, changes[..|changes| - 1], changedBy, j);
    }
  }

  /** The record is inserted: its key was not loaded, or (never, see `IdentityBranchDead`) the identity changed. */
  predicate Inserts(p: Profile, existing: map<(Value, Value), Row>, s: Snapshot) {
    KeyOfSnapshot(s) !in existing || IdentityChanged(p, existing[KeyOfSnapshot(s)], s)
  }

  /** The diff of a loaded record. */
  function ChangesFor(p: Profile, existing: map<(Value, Value), Row>, s: Snapshot): seq<Change>
    requires KeyOfSnapshot(s) in existing
  {
    Changed(existing[KeyOfSnapshot(s)], s.cols, Identity(p), p.differs)
  }

  /** The record is updated: it was loaded and the profile updates it. */
  predicate Updates(p: Profile, existing: map<(Value, Value), Row>, s: Snapshot) {
    !Inserts(p, existing, s) && (p.always || ChangesFor(p, existing, s) != [])
  }

  /** The record's handling executes a statement that can raise. */
  predicate Executes(p: Profile, existing: map<(Value, Value), Row>, s: Snapshot) {
    Inserts(p, existing, s) || Updates(p, existing, s)
  }

  /** The table, the change log and the counters part-way through the loop. */
  datatype Progress = Progress(rows: seq<Row>, log: seq<ChangeEntry>, inserted: nat, updated: nat)

  /** The SET clauses of the record's UPDATE. */
  function Sets(p: Profile, existing: map<(Value, Value), Row>, s: Snapshot, now: int): seq<Column>
    requires KeyOfSnapshot(s) in existing
  {
    SetClauses(ChangesFor(p, existing, s)) + [("last_updated", Timestamp(now))]
  }

  /** One iteration of the loop; `None` when its statement raises. */
  function Step(p: Profile, existing: map<(Value, Value), Row>, changedBy: (Value, string) -> Value, now: int,
                acc: Progress, s: Snapshot, fails: bool): Option<Progress>
  {
    if Inserts(p, existing, s) then
      if fails then None
      else Some(acc.(rows := acc.rows + [NewRow(s.cols, Timestamp(now))], inserted := acc.inserted + 1))
    else
      var log := acc.log + Entries(p, s, ChangesFor(p, existing, s), changedBy);
      if !Updates(p, existing, s) then Some(acc.(log := log))
      else if fails then None
      else Some(Progress(UpdateWhere(acc.rows, Where(p, s), Sets(p, existing, s, now)), log, acc.inserted, acc.updated + 1))
  }

  /** The loop over a batch of snapshots, from `start`; `None` once a statement raises. */
  function Run(p: Profile, existing: map<(Value, Value), Row>, changedBy: (Value, string) -> Value, now: int,
               start: Progress, snaps: seq<Snapshot>, rejects: set<nat>): Option<Progress>
    decreases |snaps|
  {
    if snaps == [] then Some(start)
    else
      match Run(p, existing, changedBy, now, start, snaps[..|snaps| - 1], rejects)
      case None => None
      case Some(acc) => Step(p, existing, changedBy, now, acc, snaps[|snaps| - 1], |snaps| - 1 in rejects)
  }

  /** The records of a batch as snapshots, in order. */
  function SnapshotsOf<R>(data: seq<R>, f: R -> Snapshot): (r: seq<Snapshot>)
    ensures |r| == |data| && forall k :: 0 <= k < |data| ==> r[k] == f(data[k])
  {
    seq(|data|, k requires 0 <= k < |data| => f(data[k]))
  }

  /** The whole operation as a value: the committed table and log, and the summary. */
  function Engine(p: Profile, rows: seq<Row>, log: seq<ChangeEntry>, db: Outcomes, snaps: seq<Snapshot>,
                  changedBy: (Value, string) -> Value, now: int): (seq<Row>, seq<ChangeEntry>, Summary)
  {
    if snaps == [] then (rows, log, Zero)
    else if !db.connected then (rows, log, Fails(NoConnection))
    else
      var existing := Existing(rows, p.nameCol, p.accountCol);
      match Run(p, existing, changedBy, now, Progress(rows, log, 0, 0), snaps, db.rejects)
      case None => (rows, log, Fails(RolledBack))
      case Some(pr) =>
        if !db.committed then (rows, log, Fails(RolledBack))
        else (pr.rows, pr.log, Summary(|snaps|, pr.inserted, pr.updated, None))
  }

  /** The loop over the batch, statement by statement. */
  method Upsert(p: Profile, rows0: seq<Row>, log0: seq<ChangeEntry>, db: Outcomes, snaps: seq<Snapshot>,
                changedBy: (Value, string) -> Value, now: int)
    returns (rows: seq<Row>, log: seq<ChangeEntry>, summary: Summary)
    ensures (rows, log, summary) == Engine(p, rows0, log0, db, snaps, changedBy, now)
  {
    if snaps == [] {
      return rows0, log0, Zero;
    }
    if !db.connected {
      return rows0, log0, Fails(NoConnection);
    }
    var existing := Existing(rows0, p.nameCol, p.accountCol);
    var start := Progress(rows0, log0, 0, 0);
    var acc := start;
    var processed := 0;
    for i := 0 to |snaps|
      invariant processed == i
      invariant Run(p, existing, changedBy, now, start, snaps[..i], db.rejects) == Some(acc)
    {
      assert snaps[..i + 1][..i] == snaps[..i];
      processed := processed + 1;
      var next := Handle(p, existing, changedBy, now, acc, snaps[i], i in db.rejects);
      if next.None? {
        RunStopsAtFailure(p, existing, changedBy, now, start, snaps, db.rejects, i + 1);
        return rows0, log0, Fails(RolledBack);
      }
      acc := next.value;
    }
    assert snaps[..|snaps|] == snaps;
    if !db.committed {
      return rows0, log0, Fails(RolledBack);
    }
    return acc.rows, acc.log, Summary(processed, acc.inserted, acc.updated, None);
  }

  /** The body of the loop for one record; `None` when its statement raises (`fails`). */
  method Handle(p: Profile, existing: map<(Value, Value), Row>, changedBy: (Value, string) -> Value, now: int,
                acc: Progress, s: Snapshot, fails: bool) returns (r: Option<Progress>)
    ensures r == Step(p, existing, changedBy, now, acc, s, fails)
  {
    var key := (s.name, s.account);
    if key !in existing || IdentityChanged(p, existing[key], s) {
      if fails {
        return None;
      }
      return Some(acc.(rows := acc.rows + [NewRow(s.cols, Timestamp(now))], inserted := acc.inserted + 1));
    }
    var changes, log := DiffColumns(p, existing[key], s, changedBy, acc.log);
    if !(p.always || changes != []) {
      return Some(acc.(log := log));
    }
    if fails {
      return None;
    }
    var rows := UpdateWhere(acc.rows, Where(p, s), SetClauses(changes) + [("last_updated", Timestamp(now))]);
    return Some(Progress(rows, log, acc.inserted, acc.updated + 1));
  }

  /** The loop over `campos`: collect the differing columns and log each one. */
  method DiffColumns(p: Profile, dbRow: Row, s: Snapshot, changedBy: (Value, string) -> Value, log0: seq<ChangeEntry>)
    returns (changes: seq<Change>, log: seq<ChangeEntry>)
    ensures changes == Changed(dbRow, s.cols, Identity(p), p.differs)
    ensures log == log0 + Entries(p, s, changes, changedBy)
  {
    changes, log := [], log0;
    for j := 0 to |s.cols|
      invariant changes == Changed(dbRow, s.cols[..j], Identity(p), p.differs)
      invariant log == log0 + Entries(p, s, changes, changedBy)
    {
      changes, log := DiffColumn(p, dbRow, s, changedBy, log0, j, changes, log);
    }
    assert s.cols[..|s.cols|] == s.cols;
  }

  /** One pass of the loop over `campos`: column `j`, skipped when it is an identity column. */
  method DiffColumn(p: Profile, dbRow: Row, s: Snapshot, changedBy: (Value, string) -> Value, log0: seq<ChangeEntry>,
                    j: nat, changes0: seq<Change>, log1: seq<ChangeEntry>)
    returns (changes: seq<Change>, log: seq<ChangeEntry>)
    requires j < |s.cols|
    requires changes0 == Changed(dbRow, s.cols[..j], Identity(p), p.differs)
    requires log1 == log0 + Entries(p, s, changes0, changedBy)
    ensures changes == Changed(dbRow, s.cols[..j + 1], Identity(p), p.differs)
    ensures log == log0 + Entries(p, s, changes, changedBy)
  {
    changes, log := changes0, log1;
    var col, v := s.cols[j].0, s.cols[j].1;
    ChangedSnoc(dbRow, s.cols, j, Identity(p), p.differs);
    if col !in Identity(p) && p.differs(Cell(dbRow, col), v) {
      var c := Change(col, Cell(dbRow, col), v);
      assert Reported(dbRow, col, v, Identity(p), p.differs) == [c];
      var e := Entry(p, s, c, changedBy);
      EntriesSnoc(p, s, changes, c, changedBy);
      AppendAssoc(log0, Entries(p, s, changes, changedBy), e);
      changes := changes + [c];
      log := log + [e];
    } else {
      assert Reported(dbRow, col, v, Identity(p), p.differs) == [];
      assert changes0 + [] == changes0;
    }
  }

  lemma ChangedSnoc(row: Row, cols: seq<Column>, j: nat, identity: set<string>, differs: (Value, Value) -> bool)
    requires j < |cols|
    ensures Changed(row, cols[..j + 1], identity, differs) ==
            Changed(row, cols[..j], identity, differs) + Reported(row, cols[j].0, cols[j].1, identity, differs)
  {
    assert cols[..j + 1][..j] == cols[..j];
  }

  lemma AppendAssoc<T>(a: seq<T>, b: seq<T>, x: T)
    ensures (a + b) + [x] == a + (b + [x])
  {
  }

  lemma EntriesSnoc(p: Profile, s: Snapshot, changes: seq<Change>, c: Change, changedBy: (Value, string) -> Value)
    ensures Entries(p, s, changes + [c], changedBy) == Entries(p, s, changes, changedBy) + [Entry(p, s, c, changedBy)]
  {
    assert (changes + [c])[..|changes|] == changes;
  }

  /** Once a statement has raised, the rest of the batch does not matter. */
  lemma {:induction false} RunStopsAtFailure(p: Profile, existing: map<(Value, Value), Row>,
                                             changedBy: (Value, string) -> Value, now: int,
                                             start: Progress, snaps: seq<Snapshot>, rejects: set<nat>, n: nat)
    requires n <= |snaps| && Run(p, existing, changedBy, now, start, snaps[..n], rejects) == None
    ensures Run(p, existing, changedBy, now, start, snaps, rejects) == None
    decreases |snaps|
  {
    if n < |snaps| {
      var init := snaps[..|snaps| - 1];
      assert init[..n] == snaps[..n];
      RunStopsAtFailure(p, existing, changedBy, now, start, init, rejects, n);
    } else {
      assert snaps[..n] == snaps;
    }
  }

  /**
   * Transaction atomicity: the batch is rolled back exactly when the
   * statement of some record that executes one raises.
   */
  lemma {:induction false} RolledBackIff(p: Profile, existing: map<(Value, Value), Row>,
                                         changedBy: (Value, string) -> Value, now: int,
                                         start: Progress, snaps: seq<Snapshot>, rejects: set<nat>)
    ensures Run(p, existing, changedBy, now, start, snaps, rejects) == None <==>
            exists i :: 0 <= i < |snaps| && i in rejects && Executes(p, existing, snaps[i])
    decreases |snaps|
  {
    if snaps != [] {
      var init := snaps[..|snaps| - 1];
      RolledBackIff(p, existing, changedBy, now, start, init, rejects);
      assert forall i :: 0 <= i < |init| ==> init[i] == snaps[i];
      if exists i :: 0 <= i < |snaps| && i in rejects && Executes(p, existing, snaps[i]) {
        var i :| 0 <= i < |snaps| && i in rejects && Executes(p, existing, snaps[i]);
        if i < |init| {
          assert init[i] == snaps[i];
        }
      }
    }
  }

  /** How many records of a batch are inserted. */
  function CountInserts(p: Profile, existing: map<(Value, Value), Row>, snaps: seq<Snapshot>): (n: nat)
    ensures n <= |snaps|
    decreases |snaps|
  {
    if snaps == [] then 0
    else CountInserts(p, existing, snaps[..|snaps| - 1]) + (if Inserts(p, existing, snaps[|snaps| - 1]) then 1 else 0)
  }

  /** How many records of a batch are updated. */
  function CountUpdates(p: Profile, existing: map<(Value, Value), Row>, snaps: seq<Snapshot>): (n: nat)
    decreases |snaps|
  {
    if snaps == [] then 0
    else CountUpdates(p, existing, snaps[..|snaps| - 1]) + (if Updates(p, existing, snaps[|snaps| - 1]) then 1 else 0)
  }

  /** A record is inserted or updated or neither, never both. */
  lemma {:induction false} CountsBounded(p: Profile, existing: map<(Value, Value), Row>, snaps: seq<Snapshot>)
    ensures CountInserts(p, existing, snaps) + CountUpdates(p, existing, snaps) <= |snaps|
    decreases |snaps|
  {
    if snaps != [] {
      CountsBounded(p, existing, snaps[..|snaps| - 1]);
    }
  }

  /**
   * A completed loop counts the inserted and the updated records, adds one
   * row per insert, never removes a row, and only appends to the log; every
   * logged column is a non-identity column of the profile's resource type
   * whose values differ, attributed by `changedBy`.
   */
  lemma {:induction false} RunEffects(p: Profile, existing: map<(Value, Value), Row>,
                                      changedBy: (Value, string) -> Value, now: int,
                                      start: Progress, snaps: seq<Snapshot>, rejects: set<nat>)
    requires Run(p, existing, changedBy, now, start, snaps, rejects).Some?
    ensures var pr := Run(p, existing, changedBy, now, start, snaps, rejects).value;
            pr.inserted == start.inserted + CountInserts(p, existing, snaps) &&
            pr.updated == start.updated + CountUpdates(p, existing, snaps) &&
            |pr.rows| == |start.rows| + CountInserts(p, existing, snaps) &&
            |start.log| <= |pr.log| && pr.log[..|start.log|] == start.log &&
            forall j :: |start.log| <= j < |pr.log| ==>
              pr.log[j].resourceType == p.rtype && pr.log[j].field !in Identity(p) &&
              p.differs(pr.log[j].oldValue, pr.log[j].newValue) &&
              pr.log[j].changedBy == changedBy(pr.log[j].resourceId, pr.log[j].field)
    decreases |snaps|
  {
    if snaps != [] {
      var init := snaps[..|snaps| - 1];
      var s := snaps[|snaps| - 1];
      RunEffects(p, existing, changedBy, now, start, init, rejects);
      var acc := Run(p, existing, changedBy, now, start, init, rejects).value;
      if !Inserts(p, existing, s) {
        var changes := ChangesFor(p, existing, s);
        var extra := Entries(p, s, changes, changedBy);
        forall j | 0 <= j < |extra|
          ensures extra[j].resourceType == p.rtype && extra[j].field !in Identity(p) &&
                  p.differs(extra[j].oldValue, extra[j].newValue) &&
                  extra[j].changedBy == changedBy(extra[j].resourceId, extra[j].field)
        {
          EntriesAt(p, s, changes, changedBy, j);
        }
        var pr := Run(p, existing, changedBy, now, start, snaps, rejects).value;
        assert pr.log == acc.log + extra;
        assert pr.log[..|start.log|] == acc.log[..|start.log|];
      }
    }
  }

  /** A profile that compares no column never writes to the change log. */
  lemma {:induction false} SilentProfileLogsNothing(p: Profile, existing: map<(Value, Value), Row>,
                                                    changedBy: (Value, string) -> Value, now: int,
                                                    start: Progress, snaps: seq<Snapshot>, rejects: set<nat>)
    requires forall a, b :: !p.differs(a, b)
    ensures var r := Run(p, existing, changedBy, now, start, snaps, rejects);
            r.Some? ==> r.value.log == start.log
    decreases |snaps|
  {
    if snaps != [] {
      var init := snaps[..|snaps| - 1];
      var s := snaps[|snaps| - 1];
      SilentProfileLogsNothing(p, existing, changedBy, now, start, init, rejects);
      if KeyOfSnapshot(s) in existing {
        NothingChangedIff(existing[KeyOfSnapshot(s)], s.cols, Identity(p), p.differs);
        assert ChangesFor(p, existing, s) == [];
      }
    }
  }

  /**
   * A log entry about record `s` of the batch: its name, account and log
   * region, the logged column's stored value in the loaded row as the old
   * value, and the record's own value for that column as the new one.
   */
  predicate LoggedFrom(existing: map<(Value, Value), Row>, e: ChangeEntry, s: Snapshot) {
    e.resourceId == s.name && e.accountId == s.account && e.region == s.logRegion &&
    KeyOfSnapshot(s) in existing && e.oldValue == Cell(existing[KeyOfSnapshot(s)], e.field) &&
    exists k :: 0 <= k < |s.cols| && s.cols[k] == (e.field, e.newValue)
  }

  /** Every entry a completed loop appends is about one of the batch's records, with its old and new values. */
  lemma {:induction false} RunLogFromBatch(p: Profile, existing: map<(Value, Value), Row>,
                                           changedBy: (Value, string) -> Value, now: int,
                                           start: Progress, snaps: seq<Snapshot>, rejects: set<nat>)
    requires Run(p, existing, changedBy, now, start, snaps, rejects).Some?
    ensures var pr := Run(p, existing, changedBy, now, start, snaps, rejects).value;
            |start.log| <= |pr.log| &&
            forall j :: |start.log| <= j < |pr.log| ==> exists k :: 0 <= k < |snaps| && LoggedFrom(existing, pr.log[j], snaps[k])
    decreases |snaps|
  {
    if snaps != [] {
      var init := snaps[..|snaps| - 1];
      var s := snaps[|snaps| - 1];
      RunLogFromBatch(p, existing, changedBy, now, start, init, rejects);
      var acc := Run(p, existing, changedBy, now, start, init, rejects).value;
      assert forall k :: 0 <= k < |init| ==> init[k] == snaps[k];
      StepLogFrom(p, existing, changedBy, now, acc, s, |snaps| - 1 in rejects);
      var pr := Run(p, existing, changedBy, now, start, snaps, rejects).value;
      forall j | |start.log| <= j < |pr.log|
        ensures exists k :: 0 <= k < |snaps| && LoggedFrom(existing, pr.log[j], snaps[k])
      {
        if j < |acc.log| {
          var k :| 0 <= k < |init| && LoggedFrom(existing, acc.log[j], init[k]);
          assert LoggedFrom(existing, pr.log[j], snaps[k]);
        } else {
          assert LoggedFrom(existing, pr.log[j], snaps[|snaps| - 1]);
        }
      }
    }
  }

  /** One iteration keeps the log so far and appends only entries about its own record. */
  lemma StepLogFrom(p: Profile, existing: map<(Value, Value), Row>, changedBy: (Value, string) -> Value, now: int,
                    acc: Progress, s: Snapshot, fails: bool)
    requires Step(p, existing, changedBy, now, acc, s, fails).Some?
    ensures var pr := Step(p, existing, changedBy, now, acc, s, fails).value;
            |acc.log| <= |pr.log| && pr.log[..|acc.log|] == acc.log &&
            forall j :: |acc.log| <= j < |pr.log| ==> LoggedFrom(existing, pr.log[j], s)
  {
    var pr := Step(p, existing, changedBy, now, acc, s, fails).value;
    if !Inserts(p, existing, s) {
      var extra := Entries(p, s, ChangesFor(p, existing, s), changedBy);
      StepAppends(p, existing, changedBy, now, acc, s, fails);
      EntriesFromRecord(p, existing, s, changedBy);
      assert forall j :: |acc.log| <= j < |pr.log| ==> pr.log[j] == extra[j - |acc.log|];
    }
  }

  /** A loaded record's iteration appends exactly its entries to the log. */
  lemma StepAppends(p: Profile, existing: map<(Value, Value), Row>, changedBy: (Value, string) -> Value, now: int,
                    acc: Progress, s: Snapshot, fails: bool)
    requires Step(p, existing, changedBy, now, acc, s, fails).Some? && !Inserts(p, existing, s)
    ensures Step(p, existing, changedBy, now, acc, s, fails).value.log ==
            acc.log + Entries(p, s, ChangesFor(p, existing, s), changedBy)
  {
  }

  /** Every entry of a loaded record's diff is about that record, with its stored and its new value. */
  lemma EntriesFromRecord(p: Profile, existing: map<(Value, Value), Row>, s: Snapshot, changedBy: (Value, string) -> Value)
    requires KeyOfSnapshot(s) in existing
    ensures var extra := Entries(p, s, ChangesFor(p, existing, s), changedBy);
            forall j :: 0 <= j < |extra| ==> LoggedFrom(existing, extra[j], s)
  {
    var changes := ChangesFor(p, existing, s);
    var extra := Entries(p, s, changes, changedBy);
    forall j | 0 <= j < |extra|
      ensures LoggedFrom(existing, extra[j], s)
    {
      EntriesAt(p, s, changes, changedBy, j);
      var k :| 0 <= k < |s.cols| && s.cols[k] == (changes[j].column, changes[j].current);
      assert s.cols[k] == (extra[j].field, extra[j].newValue);
    }
  }

  /** No later change of `changes` concerns the column of change `j`. */
  predicate LastChange(changes: seq<Change>, j: nat)
    requires j < |changes|
  {
    forall i :: j < i < |changes| ==> changes[i].column != changes[j].column
  }

  /**
   * What one iteration writes to the table. An inserted record appends the
   * row holding its columns and `last_updated = now`. An updated record's
   * UPDATE gives every row its WHERE clause matches the value of each changed
   * column (the last change, were a name repeated) and `last_updated = now`,
   * and leaves their other columns and every other row as they were. A record
   * that executes nothing leaves the table alone.
   */
  lemma StepWrites(p: Profile, existing: map<(Value, Value), Row>, changedBy: (Value, string) -> Value, now: int,
                   acc: Progress, s: Snapshot, fails: bool)
    requires Step(p, existing, changedBy, now, acc, s, fails).Some?
    ensures var pr := Step(p, existing, changedBy, now, acc, s, fails).value;
            (Inserts(p, existing, s) ==> pr.rows == acc.rows + [NewRow(s.cols, Timestamp(now))]) &&
            (!Executes(p, existing, s) ==> pr.rows == acc.rows)
    ensures var pr := Step(p, existing, changedBy, now, acc, s, fails).value;
            Updates(p, existing, s) ==>
              var changes := ChangesFor(p, existing, s);
              |pr.rows| == |acc.rows| &&
              forall k :: 0 <= k < |acc.rows| ==>
                (!Matches(acc.rows[k], Where(p, s)) ==> pr.rows[k] == acc.rows[k]) &&
                (Matches(acc.rows[k], Where(p, s)) ==> UpdatedRow(acc.rows[k], pr.rows[k], changes, now))
  {
    if Updates(p, existing, s) {
      var changes := ChangesFor(p, existing, s);
      var pr := Step(p, existing, changedBy, now, acc, s, fails).value;
      assert pr.rows == UpdateWhere(acc.rows, Where(p, s), SetClauses(changes) + [("last_updated", Timestamp(now))]);
      forall k | 0 <= k < |acc.rows| && Matches(acc.rows[k], Where(p, s))
        ensures UpdatedRow(acc.rows[k], pr.rows[k], changes, now)
      {
        AssignSets(acc.rows[k], changes, now);
      }
    }
  }

  /**
   * `after` is the row `before` once the UPDATE of `changes` ran:
   * `last_updated = now`, each changed column its new value (the last
   * change, were a name repeated), and every other column its old value.
   */
  predicate UpdatedRow(before: Row, after: Row, changes: seq<Change>, now: int) {
    "last_updated" in after && after["last_updated"] == Timestamp(now) &&
    (forall j :: 0 <= j < |changes| && changes[j].column != "last_updated" && LastChange(changes, j) ==>
       changes[j].column in after && after[changes[j].column] == changes[j].current) &&
    (forall c :: (c in before && c != "last_updated" && forall j :: 0 <= j < |changes| ==> changes[j].column != c) ==>
       c in after && after[c] == before[c])
  }

  /** The SET of an UPDATE writes the changes and the timestamp and nothing else. */
  lemma AssignSets(row: Row, changes: seq<Change>, now: int)
    ensures UpdatedRow(row, Assign(row, SetClauses(changes) + [("last_updated", Timestamp(now))]), changes, now)
  {
    var sets := SetClauses(changes) + [("last_updated", Timestamp(now))];
    assert |sets| == |changes| + 1;
    assert forall j :: 0 <= j < |changes| ==> sets[j] == (changes[j].column, changes[j].current);
    assert sets[|changes|] == ("last_updated", Timestamp(now));
    assert LastFor(sets, |changes|);
    assert forall j :: 0 <= j < |changes| && changes[j].column != "last_updated" && LastChange(changes, j) ==>
      LastFor(sets, j);
  }

  /** The row's `last_updated` column holds `now`. */
  predicate Stamped(row: Row, now: int) {
    "last_updated" in row && row["last_updated"] == Timestamp(now)
  }

  /** Every row a completed loop appends carries `last_updated = now`, whatever later UPDATEs did to it. */
  lemma {:induction false} RunStampsNewRows(p: Profile, existing: map<(Value, Value), Row>,
                                            changedBy: (Value, string) -> Value, now: int,
                                            start: Progress, snaps: seq<Snapshot>, rejects: set<nat>)
    requires Run(p, existing, changedBy, now, start, snaps, rejects).Some?
    ensures var pr := Run(p, existing, changedBy, now, start, snaps, rejects).value;
            |start.rows| <= |pr.rows| &&
            forall k :: |start.rows| <= k < |pr.rows| ==> Stamped(pr.rows[k], now)
    decreases |snaps|
  {
    if snaps != [] {
      var init := snaps[..|snaps| - 1];
      var s := snaps[|snaps| - 1];
      RunStampsNewRows(p, existing, changedBy, now, start, init, rejects);
      var acc := Run(p, existing, changedBy, now, start, init, rejects).value;
      StepWrites(p, existing, changedBy, now, acc, s, |snaps| - 1 in rejects);
    }
  }

  /** One new row per record, in order, each holding the record's columns and `last_updated = now`. */
  function NewRows(snaps: seq<Snapshot>, now: int): (r: seq<Row>)
    ensures |r| == |snaps| && forall i :: 0 <= i < |snaps| ==> r[i] == NewRow(snaps[i].cols, Timestamp(now))
    decreases |snaps|
  {
    if snaps == [] then [] else NewRows(snaps[..|snaps| - 1], now) + [NewRow(snaps[|snaps| - 1].cols, Timestamp(now))]
  }

  /** Against a table with no loaded rows every record is inserted, and nothing is logged. */
  lemma {:induction false} RunFromEmpty(p: Profile, changedBy: (Value, string) -> Value, now: int,
                                        start: Progress, snaps: seq<Snapshot>, rejects: set<nat>)
    requires Run(p, map[], changedBy, now, start, snaps, rejects).Some?
    ensures Run(p, map[], changedBy, now, start, snaps, rejects).value ==
            Progress(start.rows + NewRows(snaps, now), start.log, start.inserted + |snaps|, start.updated)
    decreases |snaps|
  {
    if snaps != [] {
      var init := snaps[..|snaps| - 1];
      RunFromEmpty(p, changedBy, now, start, init, rejects);
      assert start.rows + NewRows(init, now) + [NewRow(snaps[|snaps| - 1].cols, Timestamp(now))] ==
             start.rows + NewRows(snaps, now);
    } else {
      assert start.rows + [] == start.rows;
    }
  }

  /**
   * The first run, on an empty table: a committed batch leaves one row per
   * record, in batch order, each holding the record's columns and
   * `last_updated = now`, counts every record as inserted and logs nothing.
   */
  lemma EmptyTableInsertsAll(p: Profile, log: seq<ChangeEntry>, db: Outcomes, snaps: seq<Snapshot>,
                             changedBy: (Value, string) -> Value, now: int)
    ensures var (rows', log', s) := Engine(p, [], log, db, snaps, changedBy, now);
            s.error.None? ==>
              rows' == NewRows(snaps, now) && log' == log && s.inserted == |snaps| && s.updated == 0
  {
    assert Existing([], p.nameCol, p.accountCol) == map[];
    if snaps != [] && db.connected {
      var r := Run(p, map[], changedBy, now, Progress([], log, 0, 0), snaps, db.rejects);
      if r.Some? {
        RunFromEmpty(p, changedBy, now, Progress([], log, 0, 0), snaps, db.rejects);
        assert [] + NewRows(snaps, now) == NewRows(snaps, now);
      }
    }
  }

  /** The summary of a committed batch: every record processed, inserts and updates as counted. */
  lemma EngineSummary(p: Profile, rows: seq<Row>, log: seq<ChangeEntry>, db: Outcomes, snaps: seq<Snapshot>,
                      changedBy: (Value, string) -> Value, now: int)
    ensures var (_, _, s) := Engine(p, rows, log, db, snaps, changedBy, now);
            var existing := Existing(rows, p.nameCol, p.accountCol);
            s.error.None? ==>
              s.processed == |snaps| &&
              s.inserted == CountInserts(p, existing, snaps) &&
              s.updated == CountUpdates(p, existing, snaps) &&
              s.inserted + s.updated <= s.processed
  {
    var existing := Existing(rows, p.nameCol, p.accountCol);
    if snaps != [] && db.connected {
      var r := Run(p, existing, changedBy, now, Progress(rows, log, 0, 0), snaps, db.rejects);
      if r.Some? {
        RunEffects(p, existing, changedBy, now, Progress(rows, log, 0, 0), snaps, db.rejects);
      }
      CountsBounded(p, existing, snaps);
    }
  }

  /**
   * A committed batch: every record processed, inserts and updates as
   * counted, one row added per insert and every added row stamped with
   * `now`; the log only grows, and each new entry is a differing
   * non-identity column of one of the batch's records, with the loaded row's
   * value as old value and the record's as new value, attributed by
   * `changedBy`.
   */
  lemma EngineEffects(p: Profile, rows: seq<Row>, log: seq<ChangeEntry>, db: Outcomes, snaps: seq<Snapshot>,
                      changedBy: (Value, string) -> Value, now: int)
    ensures var (rows', log', s) := Engine(p, rows, log, db, snaps, changedBy, now);
            var existing := Existing(rows, p.nameCol, p.accountCol);
            s.error.None? ==>
              s.processed == |snaps| && s.inserted + s.updated <= s.processed &&
              |rows'| == |rows| + s.inserted &&
              (forall k :: |rows| <= k < |rows'| ==> Stamped(rows'[k], now)) &&
              |log| <= |log'| && log'[..|log|] == log &&
              forall j :: |log| <= j < |log'| ==>
                log'[j].resourceType == p.rtype && log'[j].field !in Identity(p) &&
                p.differs(log'[j].oldValue, log'[j].newValue) &&
                log'[j].changedBy == changedBy(log'[j].resourceId, log'[j].field) &&
                exists i :: 0 <= i < |snaps| && LoggedFrom(existing, log'[j], snaps[i])
  {
    EngineSummary(p, rows, log, db, snaps, changedBy, now);
    var existing := Existing(rows, p.nameCol, p.accountCol);
    if snaps != [] && db.connected {
      var start := Progress(rows, log, 0, 0);
      if Run(p, existing, changedBy, now, start, snaps, db.rejects).Some? {
        RunEffects(p, existing, changedBy, now, start, snaps, db.rejects);
        RunLogFromBatch(p, existing, changedBy, now, start, snaps, db.rejects);
        RunStampsNewRows(p, existing, changedBy, now, start, snaps, db.rejects);
      }
    }
  }


  /** A failed batch leaves the table and the log as they were and reports zero counts. */
  lemma FailureLeavesTables(p: Profile, rows: seq<Row>, log: seq<ChangeEntry>, db: Outcomes, snaps: seq<Snapshot>,
                            changedBy: (Value, string) -> Value, now: int)
    ensures var (rows', log', s) := Engine(p, rows, log, db, snaps, changedBy, now);
            s.error.Some? ==> rows' == rows && log' == log && s.processed == s.inserted == s.updated == 0
    ensures snaps == [] ==> Engine(p, rows, log, db, snaps, changedBy, now) == (rows, log, Zero)
    ensures snaps != [] && !db.connected ==> Engine(p, rows, log, db, snaps, changedBy, now).2.error == Some(NoConnection)
  {
  }

  /** The loaded row of a key carries that key, so the identity branch is never taken. */
  lemma IdentityBranchDead(p: Profile, rows: seq<Row>, s: Snapshot)
    requires KeyOfSnapshot(s) in Existing(rows, p.nameCol, p.accountCol)
    ensures !IdentityChanged(p, Existing(rows, p.nameCol, p.accountCol)[KeyOfSnapshot(s)], s)
  {
  }

  /**
   * The map is loaded once, before the loop: records whose key was not loaded
   * are all inserted, even when two of them share a key.
   */
  lemma DuplicateKeysBothInserted(p: Profile, existing: map<(Value, Value), Row>,
                                  changedBy: (Value, string) -> Value, now: int, start: Progress, s: Snapshot)
    requires KeyOfSnapshot(s) !in existing
    ensures var r := Run(p, existing, changedBy, now, start, [s, s], {});
            r.Some? && r.value.inserted == start.inserted + 2 &&
            r.value.rows == start.rows + [NewRow(s.cols, Timestamp(now)), NewRow(s.cols, Timestamp(now))]
  {
    var row := NewRow(s.cols, Timestamp(now));
    assert [s, s][..1] == [s];
    assert [s][..0] == [];
    var once := start.(rows := start.rows + [row], inserted := start.inserted + 1);
    assert Run(p, existing, changedBy, now, start, [s], {}) == Some(once);
    assert Run(p, existing, changedBy, now, start, [s, s], {}) ==
           Some(once.(rows := once.rows + [row], inserted := once.inserted + 1));
    assert once.rows + [row] == start.rows + [row, row];
  }

  /** A batch whose every record is loaded and unchanged (and not always updated) changes nothing. */
  lemma {:induction false} UnchangedIsNoop(p: Profile, existing: map<(Value, Value), Row>,
                                           changedBy: (Value, string) -> Value, now: int,
                                           start: Progress, snaps: seq<Snapshot>, rejects: set<nat>)
    requires forall i :: 0 <= i < |snaps| ==> !Executes(p, existing, snaps[i])
    ensures Run(p, existing, changedBy, now, start, snaps, rejects) == Some(start)
    decreases |snaps|
  {
    if snaps != [] {
      var init := snaps[..|snaps| - 1];
      var s := snaps[|snaps| - 1];
      assert forall i :: 0 <= i < |init| ==> init[i] == snaps[i];
      UnchangedIsNoop(p, existing, changedBy, now, start, init, rejects);
      assert ChangesFor(p, existing, s) == [];
      assert start.log + Entries(p, s, [], changedBy) == start.log;
    }
  }

  /** A record is unchanged exactly when every non-identity column compares equal to the loaded row. */
  lemma UnchangedIff(p: Profile, existing: map<(Value, Value), Row>, s: Snapshot)
    requires KeyOfSnapshot(s) in existing && !p.always
    requires !IdentityChanged(p, existing[KeyOfSnapshot(s)], s)
    ensures !Executes(p, existing, s) <==>
      forall k :: 0 <= k < |s.cols| && s.cols[k].0 !in Identity(p) ==>
        !p.differs(Cell(existing[KeyOfSnapshot(s)], s.cols[k].0), s.cols[k].1)
  {
    NothingChangedIff(existing[KeyOfSnapshot(s)], s.cols, Identity(p), p.differs);
  }

  /**
   * Rows no updated record's WHERE clause matches keep their contents. (A row
   * added by the batch may still be changed by a later update.)
   */
  lemma {:induction false} UntouchedRowsKept(p: Profile, existing: map<(Value, Value), Row>,
                                             changedBy: (Value, string) -> Value, now: int,
                                             start: Progress, snaps: seq<Snapshot>, rejects: set<nat>, k: nat)
    requires Run(p, existing, changedBy, now, start, snaps, rejects).Some?
    requires k < |start.rows|
    requires forall i :: 0 <= i < |snaps| && Updates(p, existing, snaps[i]) ==> !Matches(start.rows[k], Where(p, snaps[i]))
    ensures var pr := Run(p, existing, changedBy, now, start, snaps, rejects).value;
            k < |pr.rows| && pr.rows[k] == start.rows[k]
    decreases |snaps|
  {
    if snaps != [] {
      var init := snaps[..|snaps| - 1];
      assert forall i :: 0 <= i < |init| ==> init[i] == snaps[i];
      UntouchedRowsKept(p, existing, changedBy, now, start, init, rejects, k);
    }
  }

  /**
   * The rows one updated record's UPDATE rewrites: those with its name, and,
   * only when the profile is scoped, its account as well. A NULL name or
   * (scoped) account matches no row.
   */
  lemma UpdateTargets(p: Profile, existing: map<(Value, Value), Row>, changedBy: (Value, string) -> Value,
                      now: int, start: Progress, s: Snapshot, k: nat)
    requires Updates(p, existing, s) && k < |start.rows|
    ensures var pr := Run(p, existing, changedBy, now, start, [s], {});
            var r := start.rows[k];
            pr.Some? && k < |pr.value.rows| &&
            pr.value.rows[k] ==
              if s.name != Null && p.nameCol in r && r[p.nameCol] == s.name &&
                 (p.scoped ==> s.account != Null && p.accountCol in r && r[p.accountCol] == s.account)
              then Assign(r, Sets(p, existing, s, now)) else r
  {
    assert [s][..0] == [];
    var r := start.rows[k];
    if p.scoped {
      assert Matches(r, Where(p, s)) <==> s.name != Null && p.nameCol in r && r[p.nameCol] == s.name &&
                                          s.account != Null && p.accountCol in r && r[p.accountCol] == s.account by {
        assert Where(p, s)[0] == (p.nameCol, s.name);
        assert Where(p, s)[1] == (p.accountCol, s.account);
      }
    } else {
      assert Matches(r, Where(p, s)) <==> s.name != Null && p.nameCol in r && r[p.nameCol] == s.name by {
        assert Where(p, s)[0] == (p.nameCol, s.name);
      }
    }
  }
}
