# Verified models of the Wyfy Guest backend's operational code

The backend's maintenance scripts and schema migrations run unattended against live files, live
object storage and live tables. This project models the ones that are real protocols and proves
what they keep, for every input, every pattern of failures and every interleaving:

- **Staged publication** (`GeoFetch`, `GeoSafety`, `GeoScript`, `ThreatFetch`, `ThreatSafety`,
  `ThreatScript`, over `Directory`). A directory is a map from names to bytes and a script is the
  list of file operations it issues, so a crash is a prefix of that list. The threat list's
  lookup table (`NetBlocks`) is included: its sweep is only right because CIDR blocks nest.
- **Two-store backfill** (`Backfill`, `BackfillSafety`, `BackfillScript`). Objects, committed rows
  and pending rows, with a stop after any call.
- **Gather and apply under interference** (`VendorRemediation`). Other sessions are arbitrary
  functions on the table, run before every turn of the apply loop.
- **Migrations** (`Schema`, `SchemaUndo`, `BaseModel`, `ColumnFill`, and one module per revision).
  A small interpreter of schema and data statements, each of which may fail; the revisions are
  the statement lists the files contain, run by `BaseModel.Connection`.
- **Demo bookings** (`BookingGrid`, `Bookings`, `BookingService`) and **RADIUS client
  registration** (`NasRegistry`): the tables under their unique indexes, over every run.
- **Demo traffic** (`DemoTraffic`, `SeedDemo`). Every random draw is an arbitrary value in its range.

Where the source changes state step by step the model is a class with methods; each method is
proved equal to a specification function or event list, and the theorems are about those.

## Where the code and its documentation disagree

The models follow the code; each disagreement is stated with the exact condition under which the
documented promise does hold.

- Both fetch scripts say a failure leaves existing files untouched. An attempt that dies between
  its replaces leaves a mixed pair (`GeoSafety.MixedPairAfterFailure`,
  `ThreatSafety.MixedListsAfterFailure`); the promise holds exactly when no attempt got past its
  first replace (`GeoSafety.FailureUntouchedExactlyWhen`, `ThreatSafety.FailureUntouchedExactlyWhen`).
- The backfill says failure is per organization. An exception it does not catch costs every row
  its result (`BackfillSafety.ConvertedRowIsLost`, `BackfillSafety.FailureIsPerRowExactlyWhen`).
- The vendor remediation says a row acquiring an integration before the apply must not be
  corrected. The apply re-reads only the vendor (`VendorRemediation.CorrectedDespiteIntegration`,
  `VendorRemediation.AcquiredIntegrationExactlyWhen`).
- `day_grid` says its starts ascend and that "same start" and "overlapping" are one question.
  Both can fail across a clock change (`BookingGrid.ClockChangeOverlaps`), and then bookings do
  overlap (`Bookings.ClockChangeDoubleBooks`). With at most one change in a working day the first
  holds exactly under the condition of `BookingGrid.DayGrid` and the second under that of
  `BookingGrid.DistinguishesExactlyWhen`, both arithmetic on the change, the slot and the buffer.
- The generator clips a session's end to now, so a session drawn for later today ends before it
  starts (`DemoTraffic.EndPrecedesStartExactlyWhen`). Likewise some of today's live sessions fall on
  yesterday, just after midnight (`DemoTraffic.LiveSinceYesterdayExactlyWhen`).

## Model

| member | source | states |
|---|---|---|
| Directory.AlwaysAtEveryPrefix | backend/scripts/fetch_geo_data.py:97-130 | a property proved step by step over a run's file operations holds after every prefix of them, that is, at every crash |
| Directory.Confined | backend/scripts/fetch_geo_data.py:97-130 | operations that touch only given names leave every other file as it was |
| GeoScript.CandidateMonths | backend/scripts/fetch_geo_data.py:54-61 | an explicit month alone, otherwise this month and the calendar month before it, also across a year's end |
| GeoScript.Download | backend/scripts/fetch_geo_data.py:64-81 | file bytes, digest input and accepted chunks are equal at every turn and never exceed MAX_BYTES, also when it raises; a digest is returned exactly when the whole payload arrived within the limit |
| GeoSafety.AppendsWrite | backend/scripts/fetch_geo_data.py:75-80 | the writes of the chunk loop leave a prefix of the payload, the whole of it when nothing raised |
| GeoSafety.DownloadLeaves | backend/scripts/fetch_geo_data.py:64-81 | a download that returns leaves exactly the payload under the temporary name |
| GeoSafety.StageDelivers | backend/scripts/fetch_geo_data.py:101-112 | when every edition is good, every temporary file is its complete, checked download, and no live file was touched |
| GeoSafety.ReplaceMoves | backend/scripts/fetch_geo_data.py:113-115 | after any number of replaces exactly that many live files are new, the others old |
| GeoSafety.CleanupRemoves | backend/scripts/fetch_geo_data.py:116-120 | the finally block removes every .part file and touches nothing else |
| GeoSafety.FetchTheorem | backend/scripts/fetch_geo_data.py:97-130 | at every step of one attempt each live database is as before or a complete checked download; what is left is determined by how far the attempt got |
| GeoSafety.MainAlways | backend/scripts/fetch_geo_data.py:133-149 | the same at every step of a run over any number of attempts, each file being from before the run or from some attempt's checked download |
| GeoSafety.MainSafeAtEveryCrash | backend/scripts/fetch_geo_data.py:133-149 | the same read at every prefix: killing the run anywhere never exposes a partial or unchecked database |
| GeoSafety.MainLive | backend/scripts/fetch_geo_data.py:113-149 | the exact content of each live database after any run: the last attempt that replaced it, else what was there |
| GeoSafety.MainSucceeds | backend/scripts/fetch_geo_data.py:139-147 | exit status 0, even after an earlier attempt left a mixed pair: the live databases are the whole streams of the first attempt that raised nothing, no .part file is left, and SOURCE.json renders that attempt's release and time and, for each edition in order, the digest, the size and the build epoch of the bytes now live under its name |
| GeoSafety.SucceedsWhenUnhindered | backend/scripts/fetch_geo_data.py:97-130 | an attempt raises nothing if and only if the directory can be made, both streams end within 200 MiB and pass the reader under their own keys, both moves go through and the manifest is written |
| GeoSafety.MainLeavesNoPart | backend/scripts/fetch_geo_data.py:116-120 | on exit a .part file remains if and only if it was there before and no attempt that ran could make the directory |
| GeoSafety.FailureUntouchedExactlyWhen | backend/scripts/fetch_geo_data.py:16-20 | a failing run leaves every file but its temporary ones as it was, live databases and SOURCE.json included and whatever they were, if and only if no attempt got past its first replace |
| GeoSafety.MixedPairAfterFailure | backend/scripts/fetch_geo_data.py:113-130 | a concrete failing run that leaves a new country database beside an old ASN database and an old SOURCE.json |
| GeoScript.Stage | backend/scripts/fetch_geo_data.py:99-112 | the staging loop issues the specified calls, stages a prefix of the editions and builds the manifest entries exactly when all are good; a file accepted without a build epoch is good |
| GeoScript.Publish | backend/scripts/fetch_geo_data.py:113-115 | the replace loop issues the specified moves, stopping at the first that raises |
| GeoScript.Fetch | backend/scripts/fetch_geo_data.py:97-130 | one attempt issues exactly the specified calls and returns normally exactly when the specification succeeds; the manifest it returns is what SOURCE.json renders: the month it was asked for and, edition by edition, digest, size and epoch of the live files |
| GeoScript.RunMain | backend/scripts/fetch_geo_data.py:133-149 | the loop over the candidate months of the given date issues exactly the specified calls, one attempt per month; it exits 0 exactly when in some attempt every stream ended within 200 MiB, passed the reader, was moved and the manifest written, and then SOURCE.json carries the month of the first such attempt and describes the live files |
| NetBlocks.CidrBlocksAreLaminar | backend/app/domains/traffic_flow/threat_list.py:131-134 | two CIDR blocks are nested or disjoint |
| NetBlocks.SortRowsSorts | backend/app/domains/traffic_flow/threat_list.py:138-140 | the sort orders by start and then widest first, and is a permutation |
| NetBlocks.KeepSweeps | backend/app/domains/traffic_flow/threat_list.py:136-145 | the sweep over sorted nested rows keeps sorted disjoint rows that cover every row seen |
| NetBlocks.FreezeTheorem | backend/app/domains/traffic_flow/threat_list.py:136-145 | freezing any set of CIDR blocks gives sorted, disjoint rows, all of them from the list |
| NetBlocks.FreezeCovers | backend/app/domains/traffic_flow/threat_list.py:136-145 | every listed row starts inside a kept row that sorts no later |
| NetBlocks.KeptBlock | backend/app/domains/traffic_flow/threat_list.py:136-145 | every listed CIDR block lies within a kept one |
| NetBlocks.DisjointListIsKept | backend/app/domains/traffic_flow/threat_list.py:121-145 | a list published in order and without overlaps is kept whole |
| NetBlocks.LookupTheorem | backend/app/domains/traffic_flow/threat_list.py:121-152 | the frozen table answers for an address if and only if some listed block contains it, and answers with the widest |
| NetBlocks.RangeIsNetwork | backend/app/domains/traffic_flow/threat_list.py:129-134 | the integer range of a net-block holds exactly the addresses whose leading bits, shifted one by one, are its prefix, and carries its entry |
| NetBlocks.BlockSizes | backend/app/domains/traffic_flow/threat_list.py:129-134 | a block with no host bits is one address, and one with eight is 256 |
| NetBlocks.LookupByPrefix | backend/app/domains/traffic_flow/threat_list.py:121-152 | an address is answered if and only if its leading bits are those of a listed network, with the entry of the shortest such prefix |
| NetBlocks.Ranges.Freeze | backend/app/domains/traffic_flow/threat_list.py:136-145 | the sweep loop computes the specified frozen rows and their starts |
| NetBlocks.Ranges.Find | backend/app/domains/traffic_flow/threat_list.py:147-152 | bisection finds exactly the row the specification finds |
| ThreatSafety.FetchTheorem | backend/scripts/fetch_threat_data.py:66-100 | at every step each live list is as before or a complete list of a set the application's own reader accepted; on every exit this run's staging directory is gone, and the manifest changed only after every replace |
| ThreatSafety.LeftoversStay | backend/scripts/fetch_threat_data.py:71-72 | a crashed run's staging directory, whose random suffix differs, survives a later run |
| ThreatSafety.MovesSafe | backend/scripts/fetch_threat_data.py:87-89 | after any number of moves exactly that many live lists are the staged ones |
| ThreatSafety.CleanupRemoves | backend/scripts/fetch_threat_data.py:71-72 | leaving the with block removes the staging directory and its files and nothing else |
| ThreatSafety.SafeAtEveryCrash | backend/scripts/fetch_threat_data.py:66-100 | the same at every prefix of the calls |
| ThreatSafety.FailureUntouchedExactlyWhen | backend/scripts/fetch_threat_data.py:19-23 | a raising fetch leaves every file but its own temporary ones as it was if and only if it did not get past its first replace |
| ThreatSafety.MixedListsAfterFailure | backend/scripts/fetch_threat_data.py:87-100 | a concrete failing run with a usable set of both families that leaves a new IPv4 list beside an old IPv6 list and an old manifest |
| ThreatSafety.PublishedListAnswers | backend/scripts/fetch_threat_data.py:82-89 | after exit 0 both live files parse and load, file after file, as a list of at least 100 ranges, SOURCE.json renders the live files and that count, and the list matches an address if and only if its leading bits are those of a network in one of the files |
| ThreatSafety.LoadsAllOrNothing | backend/app/domains/traffic_flow/threat_list.py:158-215 | the set loads if and only if every file parses, and then holds every block of every file in file order |
| ThreatSafety.SucceedsWhenUnhindered | backend/scripts/fetch_threat_data.py:66-100 | the fetch raises nothing if and only if both files arrive within 20 MiB and are written, both parse and keep at least 100 ranges together, and every move and the manifest go through |
| ThreatScript.Stage | backend/scripts/fetch_threat_data.py:68-81 | the staging loop issues the specified writes and succeeds exactly when every file arrived within the limit |
| ThreatScript.Load | backend/scripts/fetch_threat_data.py:82-86 | the set is accepted exactly when the specification calls it usable |
| ThreatScript.Publish | backend/scripts/fetch_threat_data.py:87-89 | the replace loop issues the specified moves |
| ThreatScript.FetchMain | backend/scripts/fetch_threat_data.py:66-116 | the whole script issues exactly the specified calls and exits 0 exactly when nothing stands in the way: sizes, parsing, the number of ranges, the moves and the manifest |
| Backfill.NewKey | backend/scripts/backfill_background_images.py:88-92 | a new key is a key the script itself will skip |
| BackfillSafety.OneSafe | backend/scripts/backfill_background_images.py:95-148 | at every call for one row the store and the tables stay safe, and the row ends with its own result |
| BackfillSafety.RowsSafe | backend/scripts/backfill_background_images.py:173-174 | the same for the loop over any rows with any failures, including an exception that ends it early |
| BackfillSafety.SafeAtEveryCrash | backend/scripts/backfill_background_images.py:95-179 | stopping after any call, each committed row is as it was, or names branding/<organization>/background/<uuid>.webp of one of the jobs, where an object holds the content and type the processor made of the bytes under the old key, with its metrics and nothing else changed; no earlier object is removed or changed |
| BackfillSafety.RunLeaves | backend/scripts/backfill_background_images.py:155-179 | the committed table after a run: each selected row its own result when the commit happened, otherwise nothing new; a dry run stores nothing |
| BackfillSafety.RowChangesExactlyWhen | backend/scripts/backfill_background_images.py:95-148 | in a committed run a selected row changes if and only if its key does not end in .webp in any case, its object is there and downloads, the processor accepts it and the upload is stored; it is then re-encoded as above |
| BackfillSafety.NothingOldIsLeft | backend/scripts/backfill_background_images.py:159-174 | after a committed run over every row the query returns, storage working, each undeleted background has a .webp key or is as it was because its object is missing or unusable |
| BackfillSafety.FailsExactlyWhen | backend/scripts/backfill_background_images.py:207-210 | some outcome is a failure if and only if some row that needed converting met a failed or missing download, or an upload of a processed image failed; a refused image is no failure |
| BackfillSafety.CleanExactlyWhen | backend/scripts/backfill_background_images.py:104-138 | the loop reaches its end if and only if no row that needs converting meets an exception other than a storage error or a missing key, in its download or, live, in the upload of its processed image |
| BackfillSafety.RehearsalMatches | backend/scripts/backfill_background_images.py:129-130 | a dry run changes nothing; the live run after it, drawing its own keys and with every upload stored, has the same old keys, byte counts and totals and writes exactly the rows the dry run named; two new keys agree only if their draws do |
| BackfillSafety.SecondRunSkips | backend/scripts/backfill_background_images.py:104-105 | any later run over the table a committed run left, dry or live, committed or not, with any selection, storage and processing, skips each row that run wrote and leaves it as it is |
| BackfillSafety.RollbackRestores | backend/scripts/backfill_background_images.py:28-34 | putting the recorded old keys back restores the key column exactly, with every old object still stored unchanged |
| BackfillSafety.FailureIsPerRowExactlyWhen | backend/scripts/backfill_background_images.py:42-45 | every selected row ends with its own result if and only if no row meets an exception the script does not catch, or no row had anything to gain |
| BackfillSafety.ConvertedRowIsLost | backend/scripts/backfill_background_images.py:155-179 | a concrete two-row run in which the first image converts, the second download raises something uncaught, and the first row ends as it began |
| BackfillScript.Session.BackfillOne | backend/scripts/backfill_background_images.py:95-148 | one row's calls and outcome are the specified ones; a row reported written has been re-encoded: the new object holds the processor's content and type, the row its key and metrics, the report both byte counts; any other row is as it was |
| BackfillScript.Session.Rows | backend/scripts/backfill_background_images.py:173-174 | the loop's calls and outcomes are the specified ones |
| BackfillScript.Session.RunAll | backend/scripts/backfill_background_images.py:155-179 | the run's calls are the specified ones, ending in commit or rollback; it raises if and only if some row is interrupted by an uncaught exception or the commit fails, and exits 1 if and only if storage let some row down that needed converting |
| BackfillScript.Report | backend/scripts/backfill_background_images.py:185-210 | the totals and the exit status computed from the outcomes |
| VendorRemediation.Judge | backend/scripts/remediate_mislabelled_router_vendors.py:93-118 | keep if and only if integrated; correct if and only if not integrated and there is agent evidence or a MikroTik model, and then with evidence |
| VendorRemediation.TurnTouchesOnlyItsRow | backend/scripts/remediate_mislabelled_router_vendors.py:164-177 | a turn changes at most its own row, only when judged correct and still carrying the gathered vendor, and only its vendor, updated_by and updated_at |
| VendorRemediation.TrailIsExact | backend/scripts/remediate_mislabelled_router_vendors.py:159-202 | under arbitrary interference entries and writes correspond one to one: as many entries as turns that wrote, no row audited twice, exactly the written rows audited, each entry recording what was there when the row was re-read, with actor, reason, rule, evidence, organization and location |
| VendorRemediation.AuditedExactlyWhenWritten | backend/scripts/remediate_mislabelled_router_vendors.py:164-200 | a row is audited if and only if some turn wrote it |
| VendorRemediation.AloneCorrectsAll | backend/scripts/remediate_mislabelled_router_vendors.py:159-202 | without interference every row judged correct is corrected and every other row is untouched |
| VendorRemediation.AloneCorrectsTheMislabelled | backend/scripts/remediate_mislabelled_router_vendors.py:121-202 | without interference exactly the undeleted rows labelled tplink_omada or aruba_instant_on with no integration and an agent's trace or a MikroTik model become mikrotik, with who and when; every other row is untouched |
| VendorRemediation.AuditedRowsAreJustified | backend/scripts/remediate_mislabelled_router_vendors.py:121-202 | under arbitrary interference each audited row was undeleted, labelled with one of those two vendors, not integrated and with such evidence when gathered, and the entry names the vendor it had |
| VendorRemediation.OthersAreLeftAlone | backend/scripts/remediate_mislabelled_router_vendors.py:124-129 | under arbitrary interference a row that was deleted when gathered, or labelled otherwise, or integrated, or not there, is never audited and no turn changes it |
| VendorRemediation.ReplayUndoesWrites | backend/scripts/remediate_mislabelled_router_vendors.py:178-199 | under arbitrary interference, replaying the trail gives each written row the vendor it held when it was re-read, leaves every other row's vendor alone and adds or removes no row |
| VendorRemediation.ReplayRestores | backend/scripts/remediate_mislabelled_router_vendors.py:178-199 | without interference, replaying the audit entries' from values restores the vendor column exactly |
| VendorRemediation.SecondRunWritesNothing | backend/scripts/remediate_mislabelled_router_vendors.py:121-202 | after an undisturbed apply, a second gather and apply writes no row and adds no entry, whatever others do meanwhile, mikrotik not being a controller-managed vendor |
| VendorRemediation.AcquiredIntegrationExactlyWhen | backend/scripts/remediate_mislabelled_router_vendors.py:33-37 | over a whole run with any interference, a row judged correct that has been integrated since is never audited and never changed by the run if and only if, at its turn, it is gone or its vendor has moved |
| VendorRemediation.CorrectedDespiteIntegration | backend/scripts/remediate_mislabelled_router_vendors.py:33-37 | a concrete row that is corrected although judging it again would say keep |
| VendorRemediation.IntegratedAtGatherIsKept | backend/scripts/remediate_mislabelled_router_vendors.py:131-139 | a row integrated when the applying run gathers is never written, whatever others do |
| VendorRemediation.Fleet.Gather | backend/scripts/remediate_mislabelled_router_vendors.py:121-156 | over the whole table: one entry for each row that is not deleted and is labelled tplink_omada or aruba_instant_on, no others, with their verdicts |
| VendorRemediation.Fleet.Apply | backend/scripts/remediate_mislabelled_router_vendors.py:159-202 | the loop leaves the specified table and trail and returns the number of rows changed, equal to the entries added |
| VendorRemediation.Fleet.Remediate | backend/scripts/remediate_mislabelled_router_vendors.py:213-240 | nothing is written unless apply, approval and a reason of eight characters are all given; a refused apply exits 2; otherwise the audit grows by justified entries only, no turn touches a row outside the two labels, and undisturbed the table ends with exactly the mislabelled rows corrected |
| Schema.ExecuteConsistent | backend/alembic/versions/0029_create_policy_tables.py:111-229 | any statement that succeeds on a legal database leaves a legal one: no key to a missing table or column, no NULL in a NOT NULL column, every foreign key and unique index satisfied |
| Schema.MigrateConsistent | backend/alembic/versions/0029_create_policy_tables.py:111-229 | the same after every prefix of every migration |
| SchemaUndo.UndoStep | backend/alembic/versions/0029_create_policy_tables.py:207-229 | dropping what a statement created gives back the very database it ran on |
| SchemaUndo.RoundTrip | backend/alembic/versions/0029_create_policy_tables.py:207-229 | undoing a migration's creations in reverse order restores the database |
| SchemaUndo.ColumnsRoundTrip | backend/alembic/versions/0030_extend_radius_nas_clients.py:221-229 | columns added, filled, tightened and then dropped leave nothing behind |
| SchemaUndo.TableBlockSucceeds | backend/alembic/versions/0096_create_demo_bookings_table.py:126-179 | a new table and its indexes cannot fail when the names are free and the targets exist |
| BaseModel.RemovalsFollowShape | backend/alembic/versions/0029_create_policy_tables.py:207-229 | whether a downgrade succeeds and the schema it leaves depend only on the schema; surviving rows lose only dropped columns |
| BaseModel.CreationsTakenBack | backend/alembic/versions/0029_create_policy_tables.py:207-229 | the inverse of a creating migration restores the database, and on any database of the new schema, whatever was written since, succeeds and restores the old schema |
| BaseModel.CreationsStand | backend/alembic/versions/0029_create_policy_tables.py:111-204 | creating statements that succeed take nothing away, and each table, key and index they create is in the final database as written |
| BaseModel.StaysLegal | backend/alembic/versions/0029_create_policy_tables.py:111-229 | every prefix of an upgrade and of the downgrade after it leaves a legal database |
| BaseModel.Connection.Apply | backend/alembic/env.py:218-219 | statements run in order inside one transaction: all of them or, at the first failure, none |
| PolicyTables.CycleCreated | backend/alembic/versions/0029_create_policy_tables.py:111-204 | two tables, the late key that closes their cycle and a third table can always be created in that order when the names are free |
| PolicyTables.UpgradeSucceedsExactlyWhen | backend/alembic/versions/0029_create_policy_tables.py:111-204 | 0029 applies to any database if and only if organizations exists and every new name is free |
| PolicyTables.DowngradeIsUndo | backend/alembic/versions/0029_create_policy_tables.py:207-229 | the downgrade as written is the upgrade undone, last statement first |
| PolicyTables.UpgradeTakenBack | backend/alembic/versions/0029_create_policy_tables.py:111-229 | the downgrade restores the starting database, also the schema after use, and every statement of both keeps the database legal |
| PolicyTables.InlineKeyFails | backend/alembic/versions/0029_create_policy_tables.py:128-130 | with the current-version key inline, policies cannot be created while policy_versions is missing |
| PolicyTables.VersionsFirstFails | backend/alembic/versions/0029_create_policy_tables.py:136-146 | policy_versions cannot be created while policies is missing |
| PolicyTables.UpgradeLeavesCycle | backend/alembic/versions/0029_create_policy_tables.py:165-174 | after the upgrade both keys of the cycle stand, the keys to the organization and from the assignments too, and the unique index on policy and version number, each with its target, columns and delete action |
| PolicyTables.CycleBlocksDrops | backend/alembic/versions/0029_create_policy_tables.py:215-222 | while both keys of the cycle stand neither table can be dropped; after the late key is dropped policy_versions can, if and only if nothing else references it |
| PolicyTables.RunUpgrade | backend/alembic/versions/0029_create_policy_tables.py:111-204 | the migration on a connection applies exactly when ready, leaving those keys and that index, and otherwise changes nothing |
| ColumnFill.AddsSucceed | backend/alembic/versions/0030_extend_radius_nas_clients.py:95-123 | adding nullable or defaulted columns always succeeds, whatever rows there are |
| ColumnFill.WidenHolds | backend/alembic/versions/0030_extend_radius_nas_clients.py:95-123 | old columns are kept row by row and each new column holds its default |
| ColumnFill.CopySucceeds | backend/alembic/versions/0081_denormalize_organization_id_onto_vouchers.py:44-51 | an UPDATE over a required foreign key reaches every row, violates nothing and leaves the referenced row's non-NULL values |
| ColumnFill.JoinedRowIsUnique | backend/alembic/versions/0081_denormalize_organization_id_onto_vouchers.py:44-51 | primary keys being unique, the copied values are those of every row that matches the reference |
| ColumnFill.JoinedKeyHolds | backend/alembic/versions/0030_extend_radius_nas_clients.py:144-159 | copied references satisfy the new foreign key because they satisfied the source's |
| ColumnFill.RefinementSucceeds | backend/alembic/versions/0030_extend_radius_nas_clients.py:95-143 | adds, join update, conditional update and both tightenings succeed on any legal data, with what each column then holds |
| ColumnFill.MixedTakenBack | backend/alembic/versions/0030_extend_radius_nas_clients.py:198-229 | dropping keys, indexes and tables in reverse and then the columns restores the database |
| VoucherOrganization.UpgradeSucceeds | backend/alembic/versions/0081_denormalize_organization_id_onto_vouchers.py:39-73 | on every legal database with the constraints of 0013 nothing fails, every voucher's organization is its batch's and never NULL, nothing else changes, and the cascading key to organizations and the three indexes stand |
| VoucherOrganization.UpgradeTakenBack | backend/alembic/versions/0081_denormalize_organization_id_onto_vouchers.py:39-83 | the downgrade takes it back and both stay legal throughout |
| VoucherOrganization.RunUpgrade | backend/alembic/versions/0081_denormalize_organization_id_onto_vouchers.py:39-73 | the migration on a connection never fails on such a database and leaves the above |
| NasClients.UpgradeSucceeds | backend/alembic/versions/0030_extend_radius_nas_clients.py:94-195 | on every legal database with the constraints of 0007 and 0015 the tightenings, both keys and the partial unique index succeed; each client agrees with its router; status is disabled exactly where is_active is false, no client has a code, every vendor is MikroTik; old columns are unchanged; both cascading keys, the unique index over the codes that are not NULL and the unique constraint on counters stand |
| NasClients.UpgradeTakenBack | backend/alembic/versions/0030_extend_radius_nas_clients.py:94-229 | the downgrade takes it back and both stay legal throughout |
| NasClients.RunUpgrade | backend/alembic/versions/0030_extend_radius_nas_clients.py:94-195 | the migration on a connection never fails on such a database and leaves the above |
| NasUniqueness.UpgradeNeverFails | backend/alembic/versions/0061_fix_radius_nas_soft_delete_uniqueness.py:27-46 | the upgrade cannot fail on data the old indexes accepted and changes only the two indexes |
| NasUniqueness.UpgradedTableIsUnique | backend/alembic/versions/0061_fix_radius_nas_soft_delete_uniqueness.py:27-46 | any legal database with the schema 0061 leaves, whatever was written since, has no two undeleted clients for one router or one identifier |
| NasUniqueness.DowngradeExactlyWhen | backend/alembic/versions/0061_fix_radius_nas_soft_delete_uniqueness.py:49-66 | the downgrade succeeds if and only if both columns are distinct over all rows, deleted ones included |
| NasUniqueness.UpgradeThenDowngrade | backend/alembic/versions/0061_fix_radius_nas_soft_delete_uniqueness.py:27-66 | without writes in between, the two are inverse |
| NasUniqueness.IndexesAreUnique | backend/alembic/versions/0061_fix_radius_nas_soft_delete_uniqueness.py:27-46 | of any rows that are these clients, whatever their other columns hold, the two unique indexes of either scope hold exactly when the registry's rule does |
| NasUniqueness.RegisterIsIndexed | backend/alembic/versions/0061_fix_radius_nas_soft_delete_uniqueness.py:27-46 | the interpreter's two indexes of either scope accept the new row if and only if the registry accepts the registration |
| NasUniqueness.DeletionIsIndexed | backend/alembic/versions/0061_fix_radius_nas_soft_delete_uniqueness.py:27-46 | and they accept every deletion |
| NasUniqueness.DowngradeAfterTrace | backend/alembic/versions/0061_fix_radius_nas_soft_delete_uniqueness.py:49-66 | on any table filled by a trace under the new indexes the downgrade succeeds if and only if the rows before it were unique and no accepted registration of the trace reused a router or identifier of any row, deleted or not |
| NasUniqueness.ReuseBlocksDowngrade | backend/alembic/versions/0061_fix_radius_nas_soft_delete_uniqueness.py:49-66 | a legal two-row table filled by register, delete, register, on which the downgrade fails for a reused router and succeeds for a new one |
| NasRegistry.RunKeepsUnique | backend/alembic/versions/0061_fix_radius_nas_soft_delete_uniqueness.py:27-46 | every reachable table satisfies its indexes |
| NasRegistry.BlockedForever | backend/alembic/versions/0061_fix_radius_nas_soft_delete_uniqueness.py:3-9 | under the old indexes a router or identifier once registered can never be registered again, in any later state, deleted or not |
| NasRegistry.RegisterSucceedsExactlyWhen | backend/alembic/versions/0061_fix_radius_nas_soft_delete_uniqueness.py:27-46 | under the new ones registration succeeds if and only if no live row has that router or identifier |
| NasRegistry.DeletingFrees | backend/alembic/versions/0061_fix_radius_nas_soft_delete_uniqueness.py:3-13 | deleting a client always lets its router and identifier be registered again |
| NasRegistry.UniqueNarrows | backend/alembic/versions/0061_fix_radius_nas_soft_delete_uniqueness.py:27-46 | rows unique under the old indexes are unique under the new ones |
| NasRegistry.UniqueAfterExactlyWhen | backend/alembic/versions/0061_fix_radius_nas_soft_delete_uniqueness.py:49-66 | after a trace all rows are distinct if and only if they were before and the trace never reused anything |
| NasRegistry.ReuseIsIrreversible | backend/alembic/versions/0061_fix_radius_nas_soft_delete_uniqueness.py:49-66 | once something has been registered again the old indexes can never be restored, whatever happens afterwards |
| NasRegistry.Registry.RegisterClient | backend/alembic/versions/0061_fix_radius_nas_soft_delete_uniqueness.py:27-46 | scanning the rows decides registration as specified |
| NasRegistry.Registry.DeleteClient | backend/app/database/repositories/generic.py:65-69 | soft deletion changes its own row alone, as specified |
| BookingTable.UpgradeSucceedsExactlyWhen | backend/alembic/versions/0096_create_demo_bookings_table.py:126-179 | 0096 applies if and only if the referenced tables exist and the names are free |
| BookingTable.UpgradeGuardsSlots | backend/alembic/versions/0096_create_demo_bookings_table.py:126-179 | every successful upgrade leaves an index on demo_bookings, unique on the start alone, whose predicate holds of a row if and only if its status is confirmed and it is not deleted, and the three foreign keys with their targets |
| BookingTable.UpgradeRequiresSlots | backend/alembic/versions/0096_create_demo_bookings_table.py:126-160 | and the three columns that index looks at cannot be NULL |
| BookingTable.UpgradedTableIsExclusive | backend/alembic/versions/0096_create_demo_bookings_table.py:20-26 | any legal database with the schema 0096 leaves, whatever was written since, has no two confirmed, undeleted bookings for one start |
| BookingTable.UpgradeTakenBack | backend/alembic/versions/0096_create_demo_bookings_table.py:126-189 | the downgrade takes it back and both stay legal throughout |
| BookingTable.IndexIsExclusive | backend/alembic/versions/0096_create_demo_bookings_table.py:74-75 | of any rows that are these bookings, whatever their other columns hold, the partial unique index holds exactly when no start has two confirmed, undeleted bookings |
| BookingTable.InsertIsIndexed | backend/app/domains/demo_booking/repository.py:142-162 | the interpreter's partial unique index accepts the new row if and only if the booking operation accepts it |
| BookingTable.UpdateIsIndexed | backend/app/domains/demo_booking/repository.py:164-183 | and a changed row if and only if the update is accepted |
| BookingTable.LegalTableIsExclusive | backend/alembic/versions/0096_create_demo_bookings_table.py:166-172 | the bookings of any legal database that has the index are exclusive |
| BookingTable.TwoBookingsLegalExactlyWhen | backend/alembic/versions/0096_create_demo_bookings_table.py:166-172 | a table of two bookings is legal if and only if they do not conflict |
| BookingTable.RunUpgrade | backend/alembic/versions/0096_create_demo_bookings_table.py:126-179 | the migration on a connection applies exactly when ready, leaving that index and those keys, and otherwise changes nothing |
| Bookings.AlwaysExclusive | backend/alembic/versions/0096_create_demo_bookings_table.py:166-172 | over every interleaving of booking, cancelling, rescheduling, recording and deleting, the schedule changing as it likes, at most one active booking exists per start |
| Bookings.BookSucceedsExactlyWhen | backend/app/domains/demo_booking/service.py:333-396 | a booking is accepted if and only if the time is bookable and no active row holds it; refused, it changes nothing |
| Bookings.BookableIsPublished | backend/app/domains/demo_booking/availability.py:237-267 | bookable means, limit by limit: a slot counted from the settings on the instant's own date, an open weekday and no blackout, today to the horizon, in the future and with the notice asked for |
| Bookings.TimesAreAccounted | backend/app/domains/demo_booking/service.py:333-518 | over any run, the schedule changing as it likes, every row has the times it began with, or a slot that was published under all those limits when it was taken and that ends one slot length later |
| Bookings.EndingFrees | backend/app/domains/demo_booking/service.py:434-450 | cancelling, deleting or closing the holder never fails, writes exactly cancelled, the deletion mark or the recorded status on that row alone, frees its start and no other, and the start can be booked again |
| Bookings.ReconfirmingExactlyWhen | backend/app/domains/demo_booking/service.py:567-589 | confirming a closed booking again is refused if and only if someone has taken its start meanwhile |
| Bookings.RescheduleExactlyWhen | backend/app/domains/demo_booking/service.py:469-518 | a move succeeds if and only if nobody holds the target; refused, the original booking is untouched; accepted, that row alone has the new start and an end one slot later, and the old start is free |
| Bookings.FirstVisitorWins | backend/alembic/versions/0096_create_demo_bookings_table.py:20-26 | of any number of visitors racing for a free time exactly the first gets it |
| Bookings.NeverOverlap | backend/alembic/versions/0096_create_demo_bookings_table.py:33-38 | under one schedule whose slots overlap only if they start together, no two active bookings overlap in any reachable state |
| Bookings.ScheduleSafeExactlyWhen | backend/alembic/versions/0096_create_demo_bookings_table.py:38-42 | for any schedule and zone, bookings can never come to overlap in any run from a given table if and only if the times on offer overlap only if they start together and no undeleted row overlaps another, or a time on offer, with a different start |
| Bookings.SlotChangeOverlaps | backend/alembic/versions/0096_create_demo_bookings_table.py:38-42 | after the slot length goes from an hour to half an hour a new booking overlaps an old one |
| Bookings.ClockChangeDoubleBooks | backend/app/domains/demo_booking/availability.py:227-235 | a run on that grid in which both slots are on offer, both are accepted and the bookings overlap |
| BookingGrid.DayGrid | backend/app/domains/demo_booking/availability.py:198-225 | the loop returns exactly the slots that fit the working day, once each; with at most one clock change in the day they ascend if and only if the change is shorter than a step or a whole number of steps that reaches back to a slot of the day |
| BookingGrid.OrderKeptExactlyWhen | backend/app/domains/demo_booking/availability.py:198-225 | that condition on the change against the order of every slot of the day |
| BookingGrid.OverlapIsSameStart | backend/app/domains/demo_booking/availability.py:187-235 | where slots overlap only if they start together, two slots of any two days overlap if and only if they do |
| BookingGrid.DistinguishesExactlyWhen | backend/app/domains/demo_booking/availability.py:187-235 | in a zone with at most one clock change in a working day, slots of the whole grid overlap only if they start together if and only if each day's change is, for every number of steps the day has room for, exactly that or at least a slot length off |
| BookingGrid.DayApartExactlyWhen | backend/app/domains/demo_booking/availability.py:198-225 | the same for the slots of one day, by finding for every distance a pair that straddles the change |
| BookingGrid.KeepsApartByRemainder | backend/app/domains/demo_booking/availability.py:187-197 | by division: a change does no harm if and only if it is within the buffer, or leaves after whole steps nothing, or at least a slot on either side |
| BookingGrid.AbsorbedChangesAreHarmless | backend/app/domains/demo_booking/availability.py:26-46 | clock changes within the working day do no harm when the buffer absorbs them, as it does every change backwards, or when slots are back to back and the change is a whole number of them |
| BookingGrid.OnGridIsSomeGrid | backend/app/domains/demo_booking/availability.py:227-235 | looking only at the instant's own local date misses no grid slot |
| BookingGrid.FixedZoneIsRegular | backend/app/domains/demo_booking/availability.py:26-31 | in a zone with one offset, such as the default, dates agree, no clock changes, slots ascend and overlap only if they start together, for every configuration |
| BookingGrid.ClockChangeOverlaps | backend/app/domains/demo_booking/availability.py:198-225 | an hour's change under 45-minute slots meets neither condition: the grid lists a slot before one it comes after and overlaps it with a different start |
| BookingService.IsBookable | backend/app/domains/demo_booking/availability.py:237-267 | the four checks decide bookability |
| BookingService.DayAvailability | backend/app/domains/demo_booking/availability.py:271-311 | each date's status and free slots: exactly the offered times not taken, and what each status then means |
| BookingService.Calendar.Write | backend/app/domains/demo_booking/repository.py:164-183 | an update is kept unless the index refuses it, and then nothing changes |
| BookingService.Calendar.BookSlot | backend/app/domains/demo_booking/service.py:333-396 | refines the specified operation |
| BookingService.Calendar.CancelBooking | backend/app/domains/demo_booking/service.py:434-450 | refines the specified operation |
| BookingService.Calendar.RescheduleBooking | backend/app/domains/demo_booking/service.py:469-518 | refines the specified operation |
| BookingService.Calendar.AdminUpdate | backend/app/domains/demo_booking/service.py:567-589 | refines the specified operation |
| BookingService.Calendar.SoftDeleteBooking | backend/app/database/repositories/generic.py:65-69 | refines the specified operation |
| BookingService.Calendar.ConfirmedStartsBetween | backend/app/domains/demo_booking/repository.py:200-219 | exactly the held instants of the range |
| BookingService.Calendar.GetAvailability | backend/app/domains/demo_booking/service.py:292-327 | for a range of dates and any zone, what each date shows; where slots carry their own date and lie within the queried span, a slot is shown as free if and only if booking it would be accepted, and a date is fully booked if and only if something is offered and all of it is held |
| BookingService.FixedZoneIsCovered | backend/app/domains/demo_booking/service.py:305-321 | in a zone with one offset every range of dates meets that condition |
| DemoTraffic.SessionsForDay | backend/scripts/seed_demo.py:577-585 | three to eleven, at most nine on weekdays, at least five or at most six on weekends by kind of venue |
| DemoTraffic.DrawSession | backend/scripts/seed_demo.py:608-654 | whatever is drawn: a guest of the pool on a router of the place; an ended session starts on the day it is generated for, between 7:00 and 22:59 on a whole second, and lasts 8 to 210 minutes unless cut off now; a live one is today's, began 5 to 150 minutes ago and was active in the last 12; on earlier days it starts before it ends, today exactly when it starts by now; the reason goes with the status and the traffic is within the drawn range |
| DemoTraffic.EndPrecedesStartExactlyWhen | backend/scripts/seed_demo.py:614-637 | the clipped end precedes the start if and only if the start is after now, which no earlier day allows and today allows until 22:00 |
| DemoTraffic.LiveSinceYesterdayExactlyWhen | backend/scripts/seed_demo.py:624-629 | a live session of today began yesterday if and only if the day is younger than the minutes drawn, so that only yesterday's rows can include live ones |
| DemoTraffic.BalancedConcat | backend/scripts/seed_demo.py:677-712 | balanced books of sessions and login rows put together are balanced |
| DemoTraffic.LoginPerSession | backend/scripts/seed_demo.py:680-692 | in balanced books the i-th successful login is the i-th session's: its guest, its place, at the moment it starts |
| SeedDemo.VenueTraffic | backend/scripts/seed_demo.py:607-712 | a venue's day adds as many sound sessions of its own as such a day brings, weekends by kind of venue, on its own routers and by guests of the pool, one success row per session in order, at most one failure each, one to four minutes before it, and the counters grow by exactly that |
| SeedDemo.GenerateTraffic | backend/scripts/seed_demo.py:588-724 | thirty-one days of such batches per venue, nine snapshots per router, counters equal to the rows inserted, and the inserted rows themselves, counted by location and start day, serve every venue on each of the thirty days before today |
| SeedDemo.MonthVolume | backend/scripts/seed_demo.py:600-607 | with routers everywhere the month holds between three and eleven sessions per venue and day |
| SeedDemo.EveryDayIsServed | backend/scripts/seed_demo.py:600-637 | counting the rows by location and start day: for every venue and each of the thirty days before today between three and eleven ended sessions, within the limits of that weekday and kind of venue, and no live one unless the day is yesterday and now is within 150 minutes of midnight |
| SeedDemo.HealthCount | backend/scripts/seed_demo.py:707-724 | nine snapshots for every occurrence of every router |
| SeedDemo.ReadingAt | backend/scripts/seed_demo.py:709-712 | a router's readings are three hours apart and the last is taken now |
| SeedDemo.EnsureTemplate | backend/scripts/seed.py:173-202 | an active system template is on the first page afterwards; one is created, as the newest, exactly when none was |
| SeedDemo.EnsureLocations | backend/scripts/seed_demo.py:394-433 | one location per spec, in the specs' order; exactly the missing ones of this organization are created and none is changed |
| SeedDemo.EnsureRouters | backend/scripts/seed_demo.py:436-495 | two routers per location, those with its serials, in order; exactly the missing serials are created |
| SeedDemo.EnsureGuests | backend/scripts/seed_demo.py:512-564 | forty-eight guests of the organization, in order, with a device each; exactly the missing ones are created and the counts equal the growth |
| SeedDemo.RunSeedDemo | backend/scripts/seed_demo.py:732-832 | every run ends seeded, on the organization, the spec-aligned locations and the routers by serial that the database itself holds; on a seeded database it adds no row and creates nothing; the gate is closed exactly when that organization had sessions; otherwise the traffic added is as specified for those venues by the database's own forty-eight guests, between 279 and 1023 sessions and 54 snapshots, and, location ids being primary keys, every venue served on each of the thirty days when the rows are counted |
| SeedDemo.SeedTwice | backend/scripts/seed_demo.py:732-832 | a second run changes nothing at all |

## Left out

- HTTP, gzip, SHA-256, JSON, the MMDB reader and image processing are uninterpreted functions with failure outcomes.
- Removing temporary files is taken to succeed, and one chunk is written wholly or not at all.
- `_apply`'s compare and write is one atomic step per row; the ORM's flush at commit, and a commit that fails, are not modelled there.
- Concurrent writers of the branding rows during the backfill; fresh `uuid4` keys are assumed not to occur anywhere yet.
- PostgreSQL's isolation levels, trigger order, lock waits and identifier length limit: each statement is one atomic step.
- Names of tables, columns, keys and indexes are constructors that follow the naming convention, not strings; column types are recorded but values are not checked against them.
- BaseModel.Connection.Apply: one transaction covers one statement list; a run of several pending revisions is the concatenation of their lists.
- ON DELETE actions are part of the schema, but rows are never hard-deleted, so they are never exercised.
- The booking service's lead records, e-mail, rate limits, per-address cap, tokens and webhooks, and the generic repository's `restore`, which no booking path calls.
- `next_available_starts` and the parsing of the booking settings would only add easy members.
- Sub-page details of the template listing: templates are kept newest first, in creation order.
- SeedDemo.RunSeedDemo: the RBAC seed is not part of this model, so the admin role may or may not exist; routers by location is an aligned sequence, locations having distinct ids.
- The descriptive fields of the seeded entities, the auth-method weights, client addresses and user agents.
- Migrations that only add columns or create plain tables, the other seed scripts, argument parsing, printing and percentage formatting.
