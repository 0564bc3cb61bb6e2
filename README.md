# CMDB collectors: a Dafny model

The repository keeps a configuration-management database of AWS resources.
For each account and region it lists the resources of a service, turns each
one into a flat snapshot record, and reconciles the batch with that service's
PostgreSQL table. A record whose (natural id, account id) key is new is
inserted; a known record is diffed column by column
(list-valued columns ignore order). Each differing column is written to a
change log, with the user the CloudTrail history blames for it, and then
updated. Separately, the CloudTrail collector normalises recent audit events
(the actor, the affected resource id and a summary of the change) and stores
them idempotently by event id. Those stored events are what attribution
queries read.

This project models the service layer of five collectors:

| file | module | models |
|---|---|---|
| `values.dfy` | `Values` | Python values as the collectors see them: `None`, booleans, integers, strings, lists and dicts, with `str()`, truthiness, `or`, `dict.get`, `in` and `[]` (a wrong-typed access raises) |
| `text.dfy` | `Text` | `str.split` and its inverse, `split()[0]`, `strip`, `upper`, `title`, slicing, integer rendering |
| `sorting.dfy` | `Sorting` | `sorted()` on strings (code-point order) and the uniqueness of a sorted permutation |
| `store.dfy` | `Store` | tables as sequences of rows, INSERT/UPDATE as functions on them, the change log, the `cloudtrail_events` table and the `ORDER BY event_time DESC LIMIT 1` attribution query |
| `diff.dfy` | `Diff` | `normalize_list_comparison` and the per-column diff of one record |
| `reconcile.dfy` | `Reconcile` | the shared `insert_or_update_*_data` loop, as a specification function `Engine` and a method `Upsert` proved equal to it |
| `cloudtrail.dfy` | `CloudTrail` | `extract_resource_id`, `extract_changes`, `get_cloudtrail_events`, `insert_or_update_cloudtrail_events` |
| `lambda.dfy`, `eks.dfy`, `athena.dfy`, `rds.dfy` | `Lambda`, `Eks`, `Athena`, `Rds` | each service's extractor, listing loop, attribution resolver and reconciliation profile |

The AWS SDK and the database are not called. Their answers are parameters.
- A listing is `None` when the client or paginator fails, else one typed response per resource. Per-resource sub-calls are `None` when they raise.
- A CloudTrail detail is a parsed JSON `Value`, or `None` when `json.loads` raises.
- The database's behaviour for one batch is an `Outcomes` value. It says whether a connection is obtained, whether the SELECT and the commit succeed, and which batch positions' statements raise.
- The attribution resolvers read `cloudtrail_events` as an `Option<seq<EventRow>>`, where `None` means no connection.
- `NOW()` and `datetime.now()` are one integer timestamp per batch.

Each reconciliation collector is `Reconcile.Engine` with that collector's `Profile`. A profile sets:
- the change-log type;
- the identity columns;
- the column comparison: list-aware for Lambda and EKS, `str()` equality for Athena, always-equal for RDS;
- whether the UPDATE filters on the account (Athena, RDS) or on the name alone (Lambda, EKS);
- whether the UPDATE runs even when nothing changed (Athena, RDS).

Where the repository's documented behaviour and its code differ, the model follows the code:
- A known RDS instance is never diffed. Only `last_updated` is refreshed, so re-running with a changed status writes no change-log entry (`Rds.OnlyTimestampSet`, `Rds.RdsLogUnchanged`).
- The CloudTrail insert counts an event whose id is already stored as inserted (`CloudTrail.InsertedCountsConflicts`). An event with no id is stored again on every run (`CloudTrail.NullIdStoredTwice`).
- A CloudTrail INSERT that raises aborts the PostgreSQL transaction. Every later INSERT raises too, and `conn.commit()` rolls the batch back without raising, so the summary reports the inserts before the failure while nothing of the batch is stored (`CloudTrail.AbortedBatchRollsBack`).
- The re-insert branch for a changed identity cannot be reached from a loaded row (`Reconcile.IdentityBranchDead`). It is still modelled.
- Two records with the same new key in one batch are both inserted (`Reconcile.DuplicateKeysBothInserted`).
- A record whose name or account is `None` updates no row, since `= NULL` is never true in SQL (`Reconcile.UpdateTargets`).

One place departs from the code on purpose. The Lambda and EKS attribution
lookups fetch their single row twice, so as written they always answer
"unknown", and every change-log entry of those two collectors blames
"unknown" (`Lambda.AsWrittenLogsUnknown`, `Eks.AsWrittenClusterLogUnknown`).
The reconciliation models use the corrected one-fetch lookups instead; see
"Findings" below.

## Model

| member | source | states |
|---|---|---|
| `Values.Or` | services/cloudtrail_functions.py:227 | Python `a or b` is one of its operands, and is truthy exactly when either operand is |
| `Values.Lookup` | services/cloudtrail_functions.py:28-30 | a dict lookup finds a value exactly when some entry has the key, and the value found is that entry's |
| `Values.Put` | services/cloudtrail_functions.py:119 | `d[key] = v` makes `key` read `v`, leaves every other key as it was, and does not grow the dict when the key was present |
| `Values.PutNewKeyAppends` | services/cloudtrail_functions.py:150-151 | assigning a key the dict does not hold appends that entry at the end, as Python's insertion order does |
| `Values.GetAfterPut` | services/cloudtrail_functions.py:117-119 | after `d[key] = v`, both `d.get(key, default)` and `d[key]` give `v`, and `d.get` of any other key is what it was |
| `Values.GetAgreesWithIndex` | services/cloudtrail_functions.py:40-46 | `d.get(key, default)` and `d[key]` agree when the key is present, `d.get` falls back to the default exactly when `d[key]` raises on a dict, and both raise off a dict |
| `Values.InMeansKeyPresent` | services/cloudtrail_functions.py:45 | on a dict `key in d` holds exactly when some entry has the key, and exactly when `d[key]` succeeds; on a scalar it raises; after assigning a key it is present |
| `Values.FirstIsHead` | services/cloudtrail_functions.py:38 | `items[0]` of a non-empty list is its first element, succeeds exactly on a non-empty list or string, and of a string is its first character |
| `Values.StrCoercesIntegers` | services/lambda_functions.py:27 | under `str()` comparison an integer and its decimal text are equal |
| `Text.FindFrom` | services/athena_functions.py:39 | the first occurrence of a pattern at or after a position, or none at all |
| `Text.JoinSplit` | services/lambda_functions.py:25 | joining the parts of `s.split(sep)` with `sep` gives back `s` |
| `Text.SplitHead` | services/athena_functions.py:40-41 | when the separator occurs first at `i`, `split` has at least two parts; the first is the text before `i`; the second is the text after the separator up to the next separator or the end, and contains no separator |
| `Text.LastSegmentIsSuffix` | services/lambda_functions.py:80 | `s.split(c)[-1]` is the whole last segment: a suffix of `s` without `c` that is either all of `s` or preceded by `c` |
| `Text.Prefix` | services/athena_functions.py:57-68 | `s[:n]` is the prefix of `s` with exactly `n` characters, or all of `s` when it is shorter |
| `Text.TrimStart` | services/athena_functions.py:42 | dropping leading whitespace leaves a suffix beginning with a non-blank, and everything dropped is blank |
| `Text.TrimEnd` | services/lambda_functions.py:26 | dropping trailing whitespace leaves a prefix ending with a non-blank, and everything dropped is blank |
| `Text.Strip` | services/lambda_functions.py:26 | `strip()` neither begins nor ends with whitespace, and leaves text without whitespace unchanged |
| `Text.StripSlice` | services/lambda_functions.py:26 | `strip()` is the part of `s` between a leading run and a trailing run that are blank only |
| `Text.FirstToken` | services/athena_functions.py:42 | `split()[0]` is absent (the `IndexError`) exactly when the text is all whitespace; otherwise it is the non-empty, blank-free start of the text without its leading blanks, ending at a blank or at the end |
| `Text.TakeWord` | services/athena_functions.py:42 | the longest blank-free prefix |
| `Text.UpperNormalises` | services/athena_functions.py:39 | `upper()` leaves no lower-case ASCII letter, keeps every other character, and is idempotent, so the "FROM" search ignores case |
| `Text.RemoveAllTrailing` | services/cloudtrail_functions.py:137 | `(w + p).replace(p, "")` is `w` when `w` does not contain the first character of `p` |
| `Text.NatToString` | services/lambda_functions.py:54 | a count renders as a non-empty run of decimal digits |
| `Text.NatToStringValue` | services/lambda_functions.py:54 | the digits of `str(n)` denote `n`, with no leading zero unless `n` is 0 |
| `Text.TrimStartPrefix` | services/athena_functions.py:40-42 | trimming a prefix of a text gives a prefix of the trimmed text, and drops the same blanks, when something non-blank remains |
| `Text.WordOfPrefix` | services/athena_functions.py:40-42 | the first word of a prefix that ends at a separator or at the end is the first word of the whole text, and it ends at a blank, at that separator or at the end |
| `Sorting.BelowTotal` | services/lambda_functions.py:26 | string order compares any two strings |
| `Sorting.BelowAntisymmetric` | services/lambda_functions.py:26 | strings ordered both ways are equal |
| `Sorting.BelowTransitive` | services/lambda_functions.py:26 | string order is transitive |
| `Sorting.Insert` | services/lambda_functions.py:26 | inserting into a sorted list keeps it sorted and adds exactly that element |
| `Sorting.Sort` | services/lambda_functions.py:26 | `sorted()` is sorted and a permutation of its input |
| `Sorting.SortedUnique` | services/lambda_functions.py:26 | two sorted permutations of each other are equal |
| `Sorting.SortEqualIff` | services/lambda_functions.py:26 | `sorted(a) == sorted(b)` exactly when `a` and `b` hold the same elements with the same multiplicities |
| `Store.NewRow` | services/lambda_functions.py:131-137 | an inserted row holds exactly the inserted columns and `last_updated`; each column holds the last value listed for it, and `last_updated` holds `NOW()` |
| `Store.Assign` | services/lambda_functions.py:159 | a SET keeps the row's columns and adds the assigned ones; each assigned column holds the last value assigned to it, and every other column keeps its value |
| `Store.UpdateWhere` | services/lambda_functions.py:159 | an UPDATE keeps the table's length, leaves non-matching rows unchanged, and applies the SET to every matching row |
| `Store.Existing` | services/lambda_functions.py:123 | the loaded map files each row under its own (name, account) key, holds every row's key, and maps only to rows of the table |
| `Store.ExistingKeys` | services/lambda_functions.py:123 | a key is in the loaded map exactly when some row has it |
| `Store.Latest` | services/lambda_functions.py:38-40 | `ORDER BY event_time DESC LIMIT 1` picks a selected row that no selected row is later than, and none only when no row is selected |
| `Store.LatestUsers` | services/rds_functions.py:51-53 | `LIMIT 1` yields at most one user name |
| `Store.LatestActorSpec` | services/rds_functions.py:25-58 | a single-fetch resolver returns the user of the latest event of the resource, type and (when mapped) field events, and "unknown" when there is none |
| `Store.LatestActorAsWritten` | services/lambda_functions.py:29-45 | the lookup that calls `fetchone()` in its condition and again for its value answers "unknown" whatever the trail holds |
| `Diff.SameValueIsMultisetEquality` | services/lambda_functions.py:22-26 | a list compared with a stored list or string is unchanged exactly when the stripped `str()` keys hold the same elements with the same multiplicities |
| `Diff.MapPermutation` | services/lambda_functions.py:26 | mapping `str(x).strip()` over two permutations gives permutations |
| `Diff.NewOrderIrrelevant` | services/lambda_functions.py:22-26 | reordering the new list never turns "unchanged" into "changed" or back |
| `Diff.OldOrderIrrelevant` | services/lambda_functions.py:22-26 | reordering the stored list never changes the verdict |
| `Diff.EmptyStringIsEmptyList` | services/lambda_functions.py:25 | an empty stored string equals exactly the empty list |
| `Diff.Changed` | services/lambda_functions.py:147-156 | every reported change is a non-identity column of the record, with the stored cell as old value and the record's own value as new value, and the two differ |
| `Diff.NothingChangedIff` | services/lambda_functions.py:147-158 | no change is reported exactly when every non-identity column compares equal |
| `Diff.OneChangePerColumn` | services/lambda_functions.py:147-156 | with distinct column names each column is reported once if it differs and never otherwise |
| `Diff.ColumnAbsent` | services/lambda_functions.py:147-156 | a column the record does not have is never reported |
| `Reconcile.EntriesAt` | services/lambda_functions.py:156 | the j-th log entry is the `log_change` call for the j-th change |
| `Reconcile.Upsert` | services/lambda_functions.py:111-168 | the loop's committed rows, change log and summary are exactly `Engine`'s |
| `Reconcile.Handle` | services/lambda_functions.py:125-160 | one record's handling is exactly one `Step`: insert, re-insert, diff-and-update or nothing, or a raised statement |
| `Reconcile.DiffColumns` | services/lambda_functions.py:147-156 | the column loop computes exactly the reported changes and appends their log entries in column order |
| `Reconcile.DiffColumn` | services/lambda_functions.py:147-156 | one column step extends the changes and the log by that column's report |
| `Reconcile.StepWrites` | services/lambda_functions.py:130-160 | an inserting record appends exactly its new row; an updating one keeps the table's length, leaves rows its WHERE misses alone, and gives each matched row `last_updated = NOW()`, each changed column its new value and every other column its old value; a record issuing nothing leaves the rows |
| `Reconcile.RunStampsNewRows` | services/lambda_functions.py:131 | every row the loop appends carries `last_updated = NOW()`, whatever later UPDATEs do to it |
| `Reconcile.RunFromEmpty` | services/lambda_functions.py:123-137 | from an empty loaded table every record is inserted as its own new row, in order, and nothing is logged |
| `Reconcile.EmptyTableInsertsAll` | services/lambda_functions.py:111-163 | a committed batch against an empty table holds one new row per record, in order, logs nothing and counts every record as inserted |
| `Reconcile.RunStopsAtFailure` | services/lambda_functions.py:164-166 | once a statement raises, the rest of the batch cannot undo the failure |
| `Reconcile.RolledBackIff` | services/lambda_functions.py:119-166 | the batch fails exactly when some record issues a statement and that statement raises |
| `Reconcile.CountInserts` | services/lambda_functions.py:130-145 | the inserted count never exceeds the batch |
| `Reconcile.CountsBounded` | services/lambda_functions.py:125-160 | inserted plus updated never exceeds the batch |
| `Reconcile.RunEffects` | services/lambda_functions.py:125-160 | a completed loop counts exactly the inserting and updating records, grows the table by the inserts, only appends to the log, and each new entry is of the profile's type, for a non-identity column, records a real difference and carries the resolver's actor |
| `Reconcile.SilentProfileLogsNothing` | services/rds_functions.py:142-147 | with a comparison that never differs the log is untouched |
| `Reconcile.RunLogFromBatch` | services/lambda_functions.py:156 | every new log entry is about some record of the batch: its name, account and region, the loaded row's stored value as old value and the record's value as new value |
| `Reconcile.StepLogFrom` | services/lambda_functions.py:147-156 | one record only appends entries, each about that record with its stored and its new value |
| `Reconcile.EngineSummary` | services/lambda_functions.py:162-163 | a committed batch reports every record as processed and the exact insert and update counts |
| `Reconcile.EngineEffects` | services/lambda_functions.py:119-163 | a committed batch processes every record, grows the table by its inserts and stamps each new row; each new log entry is of the profile's type, for a non-identity column whose values differ, blamed by the resolver, and about a record with its stored and new value |
| `Reconcile.FailureLeavesTables` | services/lambda_functions.py:112-116 | a failed batch changes neither table nor log and reports zero counts; an empty batch is a no-op; no connection reports that error |
| `Reconcile.IdentityBranchDead` | services/lambda_functions.py:139-145 | a row found by its key never takes the changed-identity branch |
| `Reconcile.DuplicateKeysBothInserted` | services/lambda_functions.py:123-132 | two records with the same new key in one batch insert two rows |
| `Reconcile.UnchangedIsNoop` | services/lambda_functions.py:158-160 | a batch where no record issues a statement leaves everything as it was |
| `Reconcile.UnchangedIff` | services/lambda_functions.py:147-160 | without the always-update policy, a known record issues no statement exactly when every non-identity column compares equal |
| `Reconcile.UntouchedRowsKept` | services/lambda_functions.py:159 | a row no UPDATE's WHERE matches keeps its contents |
| `Reconcile.UpdateTargets` | services/lambda_functions.py:159 | an UPDATE rewrites exactly the rows its WHERE matches, by name alone or by name and account, and a `None` name or account matches no row |
| `CloudTrail.LifecycleUsesFirstInstance` | services/cloudtrail_functions.py:35-38 | an instance-lifecycle event's resource is the first listed instance's `instanceId`, or "unknown" |
| `CloudTrail.Ec2GenericPrecedence` | services/cloudtrail_functions.py:40-46 | otherwise `ModifyInstanceAttribute` reads `instanceId`, and other events take the first truthy of `instanceId`, `resourceId`, then "unknown" |
| `CloudTrail.RdsPrecedence` | services/cloudtrail_functions.py:51-59 | an RDS resource is the request's, else the response's instance id, else the snapshot id, else "unknown" outside tag events |
| `CloudTrail.TaggedArnSegment` | services/cloudtrail_functions.py:62-67 | a tag event on an `rds:db:` ARN names its seventh ':'-segment, or "unknown" |
| `CloudTrail.VpcPrecedence` | services/cloudtrail_functions.py:72-99 | a VPC resource is the first found of VPC, subnet, internet gateway and NAT gateway ids, else "unknown" |
| `CloudTrail.VpcRuleRequestFirst` | services/cloudtrail_functions.py:72-76 | each VPC rule reads the request's id first, the response object's only without it, and finds nothing when both are absent |
| `CloudTrail.UnrecognisedTypeUnknown` | services/cloudtrail_functions.py:99 | any other resource type is "unknown" |
| `CloudTrail.CopiedPresentRaises` | services/cloudtrail_functions.py:132-134 | once copying a key raises, copying the remaining keys raises too |
| `CloudTrail.ExtractChanges` | services/cloudtrail_functions.py:101-185 | the method runs the `ModifyInstanceAttribute`, `ModifyDBInstance` and `ModifyVpcAttribute` branches as loops and every other branch as one computation, and its result is exactly `ChangesOf` |
| `CloudTrail.CopyPresent` | services/cloudtrail_functions.py:132-134 | the `ModifyDBInstance` loop copies exactly the listed keys present in the request |
| `CloudTrail.CopyExcept` | services/cloudtrail_functions.py:117-119 | the `req.items()` loop copies exactly the non-excluded entries |
| `CloudTrail.CopiedExceptContents` | services/cloudtrail_functions.py:117-119 | a key reads its request value in the copy unless it is excluded, then it is absent |
| `CloudTrail.ModifyInstanceAttributeCopies` | services/cloudtrail_functions.py:116-119 | `ModifyInstanceAttribute` details hold every request field except `instanceId`, `attribute` and `value` |
| `CloudTrail.EventTypeIsName` | services/cloudtrail_functions.py:107 | the summary's `eventType` is the event's name |
| `CloudTrail.UnlistedEventNoDetails` | services/cloudtrail_functions.py:107-185 | an event no branch handles has empty details |
| `CloudTrail.DbLifecycleAction` | services/cloudtrail_functions.py:136-137 | a `StartDBInstance`, `StopDBInstance` or `RebootDBInstance` event records only its action, the name without "DBInstance": "Start", "Stop" or "Reboot" |
| `CloudTrail.LifecycleActionNames` | services/cloudtrail_functions.py:137 | removing "DBInstance" from the three lifecycle names leaves "Start", "Stop" and "Reboot" |
| `CloudTrail.ModifyDbCopiesPresent` | services/cloudtrail_functions.py:131-134 | `ModifyDBInstance` details hold a key exactly when it is listed and present in the request, with the request's value |
| `CloudTrail.WithNestedAppends` | services/cloudtrail_functions.py:150-151 | `if "vpc" in res: details["vpcId"] = res["vpc"].get("vpcId")` adds nothing without the object, appends its id (or null) when it is a dict, and raises otherwise |
| `CloudTrail.CreateVpcTenancy` | services/cloudtrail_functions.py:145-151 | `CreateVpc` records the CIDR block (or null) and the tenancy ("default" when absent), then the response VPC's `vpcId` (or null) when the response has a `vpc`, and raises when that `vpc` is not a dict |
| `CloudTrail.ActorOf` | services/cloudtrail_functions.py:226-227 | the actor is "unknown" or a truthy value, and is found whenever `userIdentity` is a dict |
| `CloudTrail.ActorFallback` | services/cloudtrail_functions.py:226-227 | the actor is a truthy `userName`, else a truthy `principalId`, else "unknown" |
| `CloudTrail.NormaliseEvent` | services/cloudtrail_functions.py:218-250 | a kept event is important, carries the collector's type and region and its own event id |
| `CloudTrail.NormaliseEventFields` | services/cloudtrail_functions.py:218-247 | an unimportant event is dropped; a kept event's actor, resource, changes, source and time are the extractors' results; an important event whose extraction succeeds is kept |
| `CloudTrail.NormaliseAllKeepsImportant` | services/cloudtrail_functions.py:217-250 | the loop keeps at most the incoming events, each important and of the collector's type and region |
| `CloudTrail.NormaliseAllConcat` | services/cloudtrail_functions.py:217-250 | events are handled independently: normalising a concatenation concatenates the results |
| `CloudTrail.GetCloudtrailEvents` | services/cloudtrail_functions.py:199-256 | a failed lookup gives no events and an error; otherwise the normalised events of the lookup, in order |
| `CloudTrail.NormaliseOne` | services/cloudtrail_functions.py:218-250 | one loop body computed statement by statement is exactly `NormaliseEvent` |
| `CloudTrail.Accepted` | services/cloudtrail_functions.py:300-324 | the number of INSERTs that succeed never exceeds the events, is all of them when none raises, and is otherwise the position of the first that raises |
| `CloudTrail.StoreAll` | services/cloudtrail_functions.py:300-324 | the insert loop counts exactly the statements that succeed, and from the first failure on no statement stores or counts anything |
| `CloudTrail.InsertOrUpdateCloudtrailEvents` | services/cloudtrail_functions.py:258-336 | the stored table and the summary are exactly `StoreEvents`' |
| `CloudTrail.StoreKeepsRows` | services/cloudtrail_functions.py:300-324 | stored events are never altered or removed |
| `CloudTrail.StoreKeepsIdsUnique` | services/cloudtrail_functions.py:300-322 | storing keeps non-null event ids unique |
| `CloudTrail.StoredIdsPresent` | services/cloudtrail_functions.py:300-322 | every event with an id whose INSERT runs before any failure is in the table afterwards |
| `CloudTrail.StoreOfStoredIsNoop` | services/cloudtrail_functions.py:308 | events whose ids are all stored add nothing |
| `CloudTrail.StoreIdempotent` | services/cloudtrail_functions.py:308 | storing the same identified events again leaves the table as the first run left it |
| `CloudTrail.NullIdStoredTwice` | services/cloudtrail_functions.py:302-322 | an event without an id is stored once per run |
| `CloudTrail.InsertedCountsConflicts` | services/cloudtrail_functions.py:322-327 | with no failures the count is the number of events, conflicts included |
| `CloudTrail.AbortedBatchRollsBack` | services/cloudtrail_functions.py:300-327 | once an INSERT raises, the commit stores nothing of the batch, yet the summary reports the INSERTs before that one as inserted |
| `CloudTrail.MissingTypeIsEc2` | services/cloudtrail_functions.py:317 | an event without a resource type is stored as EC2 |
| `CloudTrail.StoreFailurePaths` | services/cloudtrail_functions.py:260-332 | no events report zero counts; no connection and a rollback report their errors and leave the table |
| `Lambda.DoubleFetchLosesActor` | services/lambda_functions.py:41 | with one matching event the written resolver says "unknown" where the intended one names the user |
| `Lambda.AsWrittenLogsUnknown` | services/lambda_functions.py:29-45 | under the resolver as written, every entry a committed batch appends blames "unknown" |
| `Lambda.FunctionChangedBySpec` | services/lambda_functions.py:29-45 | the resolver names the user of the latest LAMBDA event of the function among the field's events (any event for an unmapped field), and "unknown" when there is none or no connection |
| `Lambda.FunctionIdFromArn` | services/lambda_functions.py:80 | the function id is the ARN's whole last ':'-segment, or the name without an ARN |
| `Lambda.RoleIsRoleName` | services/lambda_functions.py:87 | the role is the role ARN's whole last '/'-segment, or "N/A" without a role |
| `Lambda.ConfigFallback` | services/lambda_functions.py:51-59 | without a configuration the listing's fields stand in, with no VPC and no variables |
| `Lambda.VpcConfigReported` | services/lambda_functions.py:53-54 | VPCConfig is "N/A" exactly without a configured VPC id, and otherwise "VPC: <id>, Subnets: <number of subnets>" |
| `Lambda.FailedCallsDefault` | services/lambda_functions.py:62-75 | failed trigger and tag calls give zero triggers and no tags |
| `Lambda.GetLambdaFunctions` | services/lambda_functions.py:95-109 | a failed listing gives no records; otherwise one extracted record per function, in order |
| `Lambda.Columns` | services/lambda_functions.py:137 | the record's columns have distinct names |
| `Lambda.InsertOrUpdateLambdaData` | services/lambda_functions.py:111-168 | the batch is `Engine` under the Lambda profile with the corrected resolver |
| `Lambda.LambdaBatchEffects` | services/lambda_functions.py:125-163 | a committed batch processes every record, grows the table by its inserts and stamps each new row; it only appends LAMBDA entries for non-identity columns whose list-aware comparison fails, each blamed by the resolver and about a function of the batch with its stored and new value |
| `Lambda.LambdaFirstRun` | services/lambda_functions.py:125-137 | a committed batch against an empty table stores each function's columns with `last_updated = NOW()`, in order, and logs nothing |
| `Lambda.UpdateCrossesAccounts` | services/lambda_functions.py:159 | the UPDATE rewrites a same-named function's row in any account |
| `Lambda.OneEntryPerChangedColumn` | services/lambda_functions.py:147-156 | a known function logs each non-identity column once if it differs and never otherwise |
| `Eks.DoubleFetchLosesActor` | services/eks_functions.py:37 | with one matching event the written resolver says "unknown" where the intended one names the user |
| `Eks.AsWrittenClusterLogUnknown` | services/eks_functions.py:25-41 | under the resolver as written, every entry a committed batch appends blames "unknown" |
| `Eks.ClusterChangedBySpec` | services/eks_functions.py:25-41 | the resolver names the user of the latest EKS event of the cluster among the field's events, and "unknown" when there is none or no connection |
| `Eks.ClusterIdFromArn` | services/eks_functions.py:57 | the cluster id is the whole last '/'-segment of the ARN, or of the name without one |
| `Eks.KnownVersions` | services/eks_functions.py:51-52 | an end-of-support date is known exactly for versions 1.29, 1.30 and 1.31 |
| `Eks.Defaults` | services/eks_functions.py:44-61 | a failed add-on listing gives no add-ons and the provider is AWS; without a version the version is "N/A" and support "Standard"; with one, support reads "<support type title-cased> - Ends <date>" |
| `Eks.SupportPeriodExamples` | services/eks_functions.py:49-52 | 1.31 without a support type reads "Standard - Ends Nov 25, 2025", EXTENDED 1.29 "Extended - Ends Mar 25, 2025", and 1.28 "Standard - Ends N/A" |
| `Eks.GetEksClusters` | services/eks_functions.py:68-83 | a failed listing gives no records; otherwise the records of the clusters that could be described, in order |
| `Eks.Described` | services/eks_functions.py:74-80 | no more records than listed clusters |
| `Eks.DescribedCount` | services/eks_functions.py:76-80 | exactly one record per describable cluster |
| `Eks.Columns` | services/eks_functions.py:111 | the record's columns have distinct names |
| `Eks.InsertOrUpdateEksData` | services/eks_functions.py:85-142 | the batch is `Engine` under the EKS profile with the corrected resolver |
| `Eks.EksBatchEffects` | services/eks_functions.py:99-137 | a committed batch processes every record, grows the table by its inserts and stamps each new row; it only appends EKS entries with region "N/A" for non-identity columns that differ, each blamed by the resolver and about a cluster of the batch with its stored and new value |
| `Eks.EksFirstRun` | services/eks_functions.py:99-111 | a committed batch against an empty table stores each cluster's columns with `last_updated = NOW()`, in order, and logs nothing |
| `Eks.AddonOrderIsNoChange` | services/eks_functions.py:18-22 | reordering the add-on list never changes whether it differs |
| `Athena.Closest` | services/athena_functions.py:13-18 | the chosen event is one of the query's ATHENA events within a day of the update time, none of which is closer; none only when there is no such event |
| `Athena.QueryChangedBySpec` | services/athena_functions.py:5-27 | the resolver names the user of that closest event, and "unknown" without one or without a connection |
| `Athena.DayWindowIsExclusive` | services/athena_functions.py:16 | an event exactly a day away is ignored, one a second closer is used |
| `Athena.TablesUsedFollowsFrom` | services/athena_functions.py:38-43 | a query containing "FROM" never records "no tables"; unless it raises, it records the first word after its first upper-cased "FROM": non-empty and blank-free, after nothing but blanks, and ending at a blank, at the next "FROM" or at the end |
| `Athena.AfterFirstFrom` | services/athena_functions.py:40-42 | the text examined is the part of what follows the first "FROM" up to the next "FROM" or the end; nothing but blanks there raises |
| `Athena.NoFromNoTables` | services/athena_functions.py:34-64 | a query without "FROM" records no tables, and default database and owner |
| `Athena.TrailingFromRaises` | services/athena_functions.py:42-92 | the query "from " raises, so the listing skips it |
| `Athena.TrailingFromTables` | services/athena_functions.py:42 | `"FROM ".split("FROM")[1].split()[0]` raises |
| `Athena.RecordWidths` | services/athena_functions.py:56-69 | each text column is its value cut to its width (255; 20 for the account id; 500 for description and tables; 50 for the region), with "N/A", "primary" and a zero duration for absent values; the name is "Query-" and the id's first 8 characters, and domain equals database |
| `Athena.GetAthenaQueries` | services/athena_functions.py:71-97 | a failed listing gives no records; otherwise the records of the executions that extract without raising, in order |
| `Athena.Extracted` | services/athena_functions.py:85-92 | each record comes from some listed execution |
| `Athena.Columns` | services/athena_functions.py:149-162 | the record's columns have distinct names |
| `Athena.InsertOrUpdateAthenaData` | services/athena_functions.py:99-204 | the batch is `Engine` under the Athena profile, blamed by the closest event |
| `Athena.LoadedQueryIsUpdated` | services/athena_functions.py:141-190 | every record issues a statement, and a loaded query is updated rather than inserted |
| `Athena.EveryRecordCounted` | services/athena_functions.py:141-190 | inserts plus updates equal the batch |
| `Athena.AthenaBatchEffects` | services/athena_functions.py:130-197 | a committed batch counts every record as inserted or updated and stamps each new row; it only appends ATHENA entries for non-identity columns whose `str()` differs, each blamed by the closest event and about a query of the batch with its stored and new value |
| `Athena.AthenaFirstRun` | services/athena_functions.py:141-170 | a committed batch against an empty table stores each query's columns with `last_updated = NOW()`, in order, and logs nothing |
| `Athena.UpdateIsScoped` | services/athena_functions.py:187 | the UPDATE rewrites exactly the rows with the query's id and account, and none when either is `None` |
| `Rds.InstanceChangedBySpec` | services/rds_functions.py:25-58 | the resolver names the user of the latest RDS event of the instance among the field's events, and "unknown" when there is none or no connection |
| `Rds.LatestEventWins` | services/rds_functions.py:12-41 | of a stop and a later reboot, the status change is blamed on the reboot's user |
| `Rds.HasReplicaIff` | services/rds_functions.py:75 | HasReplica is true exactly when the instance lists read replicas |
| `Rds.MissingKeysReadNA` | services/rds_functions.py:61-75 | absent optional keys read "N/A" |
| `Rds.GetRdsInstances` | services/rds_functions.py:78-93 | a failed listing gives no records; otherwise one record per instance, in order |
| `Rds.Columns` | services/rds_functions.py:131-137 | the record's columns have distinct names |
| `Rds.InsertOrUpdateRdsData` | services/rds_functions.py:95-161 | the batch is `Engine` under the RDS profile |
| `Rds.OnlyTimestampSet` | services/rds_functions.py:142-147 | a known instance changes nothing but `last_updated` |
| `Rds.EveryRecordCounted` | services/rds_functions.py:139-147 | inserts plus updates equal the batch |
| `Rds.RdsLogUnchanged` | services/rds_functions.py:95-161 | the RDS collector never writes the change log |
| `Rds.RdsBatchEffects` | services/rds_functions.py:127-154 | a committed batch counts every record as inserted or updated, grows the table by the inserts and stamps each new row |
| `Rds.RdsFirstRun` | services/rds_functions.py:127-139 | a committed batch against an empty table stores each instance's columns with `last_updated = NOW()`, in order, and logs nothing |
| `Rds.KnownInstanceKeepsColumns` | services/rds_functions.py:144-147 | a known instance's row keeps every column but gets the new `last_updated`, and is left alone when the id or account is `None` |

## Definitions

These members define what the source computes and carry no contract of their
own. The rows above state their behaviour.

| definition | source | stated by |
|---|---|---|
| `Store.LatestActor` | services/rds_functions.py:25-58 | `Store.LatestActorSpec`, `Store.Latest`, `Store.LatestUsers` |
| `Diff.SameValue` | services/lambda_functions.py:22-27 | `Diff.SameValueIsMultisetEquality`, `Diff.NewOrderIrrelevant`, `Diff.OldOrderIrrelevant`, `Diff.EmptyStringIsEmptyList`, `Values.StrCoercesIntegers` |
| `Reconcile.Step` | services/lambda_functions.py:125-160 | `Reconcile.Handle`, `Reconcile.StepWrites`, `Reconcile.StepLogFrom`, `Reconcile.IdentityBranchDead` |
| `Reconcile.Run` | services/lambda_functions.py:125-160 | `Reconcile.RunEffects`, `Reconcile.RunLogFromBatch`, `Reconcile.RunStampsNewRows`, `Reconcile.RunFromEmpty`, `Reconcile.RunStopsAtFailure`, `Reconcile.UpdateTargets` |
| `Reconcile.Engine` | services/lambda_functions.py:111-168 | `Reconcile.Upsert`, `Reconcile.EngineSummary`, `Reconcile.EngineEffects`, `Reconcile.RolledBackIff`, `Reconcile.FailureLeavesTables`, `Reconcile.EmptyTableInsertsAll` |
| `CloudTrail.ExtractResourceId` | services/cloudtrail_functions.py:26-99 | `CloudTrail.LifecycleUsesFirstInstance`, `CloudTrail.Ec2GenericPrecedence`, `CloudTrail.RdsPrecedence`, `CloudTrail.TaggedArnSegment`, `CloudTrail.VpcPrecedence`, `CloudTrail.UnrecognisedTypeUnknown` |
| `CloudTrail.DetailsOf` | services/cloudtrail_functions.py:109-185 | `CloudTrail.ModifyInstanceAttributeCopies`, `CloudTrail.ModifyDbCopiesPresent`, `CloudTrail.DbLifecycleAction`, `CloudTrail.CreateVpcTenancy`, `CloudTrail.UnlistedEventNoDetails` |
| `CloudTrail.ChangesOf` | services/cloudtrail_functions.py:101-185 | `CloudTrail.ExtractChanges`, `CloudTrail.EventTypeIsName` |
| `CloudTrail.NormaliseAll` | services/cloudtrail_functions.py:217-250 | `CloudTrail.NormaliseAllKeepsImportant`, `CloudTrail.NormaliseAllConcat`, `CloudTrail.NormaliseOne` |
| `CloudTrail.StoreEvents` | services/cloudtrail_functions.py:258-336 | `CloudTrail.InsertOrUpdateCloudtrailEvents`, `CloudTrail.StoreIdempotent`, `CloudTrail.AbortedBatchRollsBack`, `CloudTrail.StoreFailurePaths` |
| `Lambda.FunctionChangedBy` | services/lambda_functions.py:29-45 | `Lambda.FunctionChangedBySpec` |
| `Lambda.ExtractLambdaData` | services/lambda_functions.py:47-93 | `Lambda.FunctionIdFromArn`, `Lambda.RoleIsRoleName`, `Lambda.ConfigFallback`, `Lambda.VpcConfigReported`, `Lambda.FailedCallsDefault` |
| `Eks.ClusterChangedBy` | services/eks_functions.py:25-41 | `Eks.ClusterChangedBySpec` |
| `Eks.EndOfSupport` | services/eks_functions.py:51-52 | `Eks.KnownVersions` |
| `Eks.SupportPeriod` | services/eks_functions.py:49-52 | `Eks.Defaults`, `Eks.SupportPeriodExamples` |
| `Eks.ExtractEksData` | services/eks_functions.py:43-66 | `Eks.ClusterIdFromArn`, `Eks.Defaults` |
| `Athena.QueryChangedBy` | services/athena_functions.py:5-27 | `Athena.QueryChangedBySpec`, `Athena.Closest`, `Athena.DayWindowIsExclusive` |
| `Athena.TablesUsed` | services/athena_functions.py:38-43 | `Athena.TablesUsedFollowsFrom`, `Athena.AfterFirstFrom`, `Athena.TrailingFromTables` |
| `Athena.ExtractQueryData` | services/athena_functions.py:29-69 | `Athena.RecordWidths`, `Athena.NoFromNoTables`, `Athena.TrailingFromRaises` |
| `Rds.InstanceChangedBy` | services/rds_functions.py:25-58 | `Rds.InstanceChangedBySpec`, `Rds.LatestEventWins` |
| `Rds.ExtractRdsData` | services/rds_functions.py:60-76 | `Rds.HasReplicaIff`, `Rds.MissingKeysReadNA` |

## Findings

| source | as written | input that shows it | evidently intended | confidence | as-written member | corrected member |
|---|---|---|---|---|---|---|
| services/lambda_functions.py:41 | `cursor.fetchone()[0] if cursor.fetchone() else "unknown"` fetches twice; the guard consumes the only row of `LIMIT 1`, then indexes `None`, and the `except` answers "unknown" | one stored `UpdateFunctionConfiguration` event by "alice" for function "orders", field `handler` | one fetch, returning the latest matching event's user (as `rds_functions.py:51-53` does) | not executed | `Lambda.DoubleFetchLosesActor` | `Lambda.FunctionChangedBySpec` |
| services/eks_functions.py:37 | the same double fetch | one stored `UpdateClusterVersion` event by "bob" for cluster "prod", field `kubernetesversion` | one fetch, returning the latest matching event's user | not executed | `Eks.DoubleFetchLosesActor` | `Eks.ClusterChangedBySpec` |

Both lookups as written are `Store.LatestActorAsWritten`, which answers
"unknown" for every trail. `Lambda.DoubleFetchLosesActor` and
`Eks.DoubleFetchLosesActor` prove the counterexamples, and
`Lambda.AsWrittenLogsUnknown` and `Eks.AsWrittenClusterLogUnknown` show that
every change-log entry then blames "unknown". The reconciliation models use the
corrected resolvers `Lambda.FunctionChangedBy` and `Eks.ClusterChangedBy`.

## Left out

- `script.py` and `lambda_function.py` (orchestration over accounts, regions and credentials) are not part of this model.
- `services/utils.py` is not part of this model. `log_change` is taken to append one change-log entry inside the collector's transaction, and `create_aws_client` and `get_db_connection` become the `None`/`Outcomes` parameters.
- AWS SDK calls are inputs: typed responses per resource with absent keys as `None`. Pagination is already flattened, and the server-side filters (the `EventSource` attribute, the three-day window, `MaxResults`) are taken as already applied.
- SQL is modelled by its effect on the rows. Table creation, PostgreSQL casts and psycopg2 parameter adaptation are left out, and so are `json.loads`/`json.dumps` beyond a parsed value and a stand-in string.
- Clocks (`NOW()`, `CURRENT_TIMESTAMP`, `datetime.now()`, `utcnow()`) are one integer timestamp per batch.
- `ExecutionDuration` is a float number of seconds in the source. Here it is the integer millisecond count, rendered by `str()` as Python renders the division by 1000.
- Athena's `Status`/`State` is computed by the source and never used; it is not modelled.
- Attribution with several events at the same time follows the table order; PostgreSQL leaves such ties unspecified.
- The four per-module copies of `normalize_list_comparison` are one `Diff.SameValue`. The RDS copy and `get_instance_changed_by` are never called by the RDS reconciliation, which uses no resolver (`Rds.NoActor`).
- `extract_rds_data` raising `KeyError` on a missing required key ends the whole listing in the source; the model's instances always carry the required keys.
- A non-`ClientError` exception escaping the Athena or RDS listing propagates to the caller in the source; the model only has the caught failure.
- `Text.Title`: states only that the length is kept; `title()` is modelled on ASCII letters only, as is `Text.Upper`.
- `Values.Str`: `str()` and `repr()` are concrete renderings of the modelled values, not Python's for every type.
- The aborted CloudTrail transaction is modelled by PostgreSQL's rule that every statement after a failure raises (`CloudTrail.Accepted`); psycopg2's connection state itself is not modelled.
- LambdaBatchEffects: states the contents of the rows a batch writes per record (`Reconcile.StepWrites`) and for a first run over an empty table (`Lambda.LambdaFirstRun`), but not the final table of an arbitrary batch as one formula.
- EksBatchEffects: the same as `LambdaBatchEffects`, with `Eks.EksFirstRun`.
- AthenaBatchEffects: the same as `LambdaBatchEffects`, with `Athena.AthenaFirstRun`.
- RdsBatchEffects: the same as `LambdaBatchEffects`, with `Rds.RdsFirstRun`; a known instance's row is stated by `Rds.KnownInstanceKeepsColumns`.
- `Lambda.StringDict`: states only that the dict has one entry per tag; the tags are plain text values.
