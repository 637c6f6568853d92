# BucketReef: verified models of its migrations, release protocol and CI gates

BucketReef is an S3 storage manager. Most of its code is plumbing; this project models the parts that are
algorithms or protocols and proves what they promise, for all inputs, all runs and all crash points.

* **Health-check backfill** (`HealthStatistics`, `HealthBatch`, `HealthBackfill`, `HealthProperties`, `HealthFigures`, on
  top of `Sequences` and `Grouping`). One pass over the check log keeps a deque, an open segment and an open bucket per
  endpoint and mode, and writes through buffers. It refines three batch definitions: run-length encoding,
  group-by and statistics of the last 24 hours; and every figure of a row is said in terms of its checks alone.
* **Release publication** (`Release`, `ReleaseRetry`, `ReleaseSafety`, `ReleaseResume`, `ReleaseProgress`,
  `ReleaseOutcome`, `Publisher`). `finalize` as a program of single external writes, stopped by a refusal or a crash
  after any of them, and resumed from the same or a later checkout with its own CHANGELOG; retries converge, histories
  stay safe, aliases never go back, and it is known exactly when a run completes, and what it then leaves under every
  name. `Publisher` is the same protocol as methods on mutable stores.
* **Key repairs under unique constraints** (`Renaming`, `TagConflicts`, `Canonical`, `UsageScopes`, `IdentityTrim`):
  a fresh-name search with a pigeonhole argument, newest-wins deduplication, validate-then-rename.
* **Tags** (`TagLinks`, `TagRows`, `TagRoundTrip`, `TagBackfill`): legacy tag lists become definitions and links,
  restartable after any write, and the lists can be rebuilt from the links.
* **Account roles** (`AccountRoles`): SQL's three-valued conditions, a backup guard that is exact, and a split of one
  role column into two that resumes after any statement.
* **CI** (`Selection`, `SelectionCoverage`, `Evidence`, `Qualification`): monotone job selection that later gates
  accept, with the paths that call for each job; evidence issued by one gate and checked again by another;
  qualification records that tie images to passed scans.
* **Diagram layout** (`Grid`, `Layout`, `LayoutValidation`): any number of tables and domains, no overlaps, everything
  inside its area and on its grid, and the validator's own check of it.
* **Commit messages** (`CommitSections`, `CommitPrinting`): the section scanner loses nothing and inverts printing.
* **Historical releases** (`History`, `TagAlignment`): everything checked before the first write; tags moved by
  compare-and-swap.

Four promises turned out not to hold in general. The model keeps the code's behaviour, shows an input that fails and
proves exactly when the promise holds:

* unique rollups (`TwoSpellingsBreakUniqueness`, `UniqueRollupsIffContiguous`): the query sorts by the raw mode, so every
  log gives unique rollups exactly when the database's collation takes all spellings of a mode for equal
  (`UniqueForEveryLogIff`);
* re-verification of evidence on the list it was issued on (`ExtraMatrixJobIsRejected`, `RecheckIff`);
* completion of a retried release (`BackportOvertakes`, `NewerIsStuck`, `FinalizeCompletesIff`): GitLab calls the release
  that was created last its latest one, so a newer version that crashed behind its GitLab release and was overtaken by an
  older one is refused by the final check until a version newer still is published (`OvertakenCompletesIff`);
* the validator's containment check (`SharedSlugFails`, `AllPassIff`): it looks areas up by an id made of the domain's
  slug, and nothing demands distinct slugs; the six domains of the script have them.

The backup guard of 0069 depends on the NOT NULL columns of migrations 0040 and 0043 (`GuardOverlooksNulls`); with them
it is exact (`GuardIsExact`). The tag round trip is exact up to case; `SpellingSurvives` says when it is exact letter
for letter.

`dafny verify dfyconfig.toml` checks the whole project.

## Model

| member | source | states |
|---|---|---|
| `HealthStatistics.BucketStartNear` | backend/alembic/versions/0010_backfill_healthcheck_optimized_data.py:50-56 | the bucket never starts after its timestamp and lies less than max(60 s, resolution) before it |
| `HealthStatistics.BucketStartIdempotent` | backend/alembic/versions/0010_backfill_healthcheck_optimized_data.py:50-56 | flooring a bucket start again changes nothing, for every resolution |
| `HealthStatistics.BucketStartMonotone` | backend/alembic/versions/0010_backfill_healthcheck_optimized_data.py:50-56 | later timestamps never fall into earlier buckets |
| `HealthStatistics.RoundIsRounded` | backend/alembic/versions/0010_backfill_healthcheck_optimized_data.py:130-133 | rounding gives the nearest integer, the even one of two |
| `HealthStatistics.Average` | backend/alembic/versions/0010_backfill_healthcheck_optimized_data.py:130-133 | the average is the sum over the number, rounded half to even, and lies between the sample's minimum and maximum |
| `HealthStatistics.PercentileBetweenRanks` | backend/alembic/versions/0010_backfill_healthcheck_optimized_data.py:59-72 | the interpolated percentile lies between two adjacent order statistics |
| `HealthStatistics.PercentileBetween` | backend/alembic/versions/0010_backfill_healthcheck_optimized_data.py:59-72 | the percentile lies between the sample's minimum and maximum |
| `HealthStatistics.PercentileIsInterpolation` | backend/alembic/versions/0010_backfill_healthcheck_optimized_data.py:59-72 | the percentile is the height of the polyline through the sorted values at the fraction's place, rounded half to even |
| `HealthStatistics.PercentileAtRank` | backend/alembic/versions/0010_backfill_healthcheck_optimized_data.py:59-72 | where the place is a rank, it is exactly the value of that rank |
| `HealthStatistics.PercentileMonotone` | backend/alembic/versions/0010_backfill_healthcheck_optimized_data.py:59-72 | a greater fraction never gives a smaller percentile |
| `HealthStatistics.PercentileOfTwo` | backend/alembic/versions/0010_backfill_healthcheck_optimized_data.py:59-72 | of two values it is their weighted mean up to one half |
| `HealthStatistics.Availability` | backend/alembic/versions/0010_backfill_healthcheck_optimized_data.py:198-200 | the share of `up` among the known checks in percent, rounded half to even, in 0..100, and missing exactly when no check is known |
| `HealthBatch.DequeIsWindow` | backend/alembic/versions/0010_backfill_healthcheck_optimized_data.py:192-196 | popping stale rows from the left leaves exactly the rows of the last 24 hours, after every row of a time-ordered log |
| `Sequences.RunsDecompose` | backend/alembic/versions/0010_backfill_healthcheck_optimized_data.py:224-261 | run-length encoding: the runs concatenate to the log, are uniform, and neighbours differ |
| `Sequences.RunsUnique` | backend/alembic/versions/0010_backfill_healthcheck_optimized_data.py:224-261 | it is the only such decomposition |
| `HealthBackfill.BufferedTable.Flush` | backend/alembic/versions/0010_backfill_healthcheck_optimized_data.py:75-85 | chunked insertion of the buffer loses, repeats and reorders no row |
| `HealthBackfill.BufferedTable.Append` | backend/alembic/versions/0010_backfill_healthcheck_optimized_data.py:151-152 | the same through the automatic flush at 5000 rows |
| `HealthBackfill.Backfill.UpdateWindow` | backend/alembic/versions/0010_backfill_healthcheck_optimized_data.py:192-222 | after each row the deque and the latest row of every key agree with its part of the log |
| `HealthBackfill.Backfill.FlushSegment` | backend/alembic/versions/0010_backfill_healthcheck_optimized_data.py:126-152 | pops the open segment of a key and writes its row, or does nothing |
| `HealthBackfill.Backfill.UpdateSegment` | backend/alembic/versions/0010_backfill_healthcheck_optimized_data.py:224-261 | opens, extends, or closes and reopens the key's segment |
| `HealthBackfill.Backfill.FlushBucket` | backend/alembic/versions/0010_backfill_healthcheck_optimized_data.py:154-180 | pops the open bucket of a key and writes its rollup, or does nothing |
| `HealthBackfill.Backfill.UpdateBucket` | backend/alembic/versions/0010_backfill_healthcheck_optimized_data.py:263-287 | counts the row in its bucket and closes the previous bucket when it changes |
| `HealthBackfill.SegmentsTrackStep` | backend/alembic/versions/0010_backfill_healthcheck_optimized_data.py:224-261 | one more row keeps, for every key, written segments plus open segment equal to the run-length encoding |
| `HealthBackfill.RollupsTrackStep` | backend/alembic/versions/0010_backfill_healthcheck_optimized_data.py:263-287 | one more row keeps, for every key, written rollups plus open bucket equal to the grouping |
| `HealthBackfill.SegmentsFlushStep` | backend/alembic/versions/0010_backfill_healthcheck_optimized_data.py:289-290 | flushing one key's open segment completes that key and disturbs no other |
| `HealthBackfill.RollupsFlushStep` | backend/alembic/versions/0010_backfill_healthcheck_optimized_data.py:291-292 | flushing one key's open bucket completes that key and disturbs no other |
| `HealthBackfill.Backfill.QueueLatest` | backend/alembic/versions/0010_backfill_healthcheck_optimized_data.py:294-295 | exactly one latest row per key that was ever checked |
| `HealthBackfill.Backfill.Process` | backend/alembic/versions/0010_backfill_healthcheck_optimized_data.py:182-287 | the invariant of the single pass, for all keys at once |
| `HealthBackfill.Backfill.Upgrade` | backend/alembic/versions/0010_backfill_healthcheck_optimized_data.py:88-297 | the single pass writes, per key, exactly the run-length encoding, the grouped rollups and the latest statistics of that key's own checks |
| `HealthProperties.SegmentsTile` | backend/alembic/versions/0010_backfill_healthcheck_optimized_data.py:126-152 | neighbouring segments differ in status and meet in time; exactly the last is open and carries the latest status |
| `HealthProperties.Conservation` | backend/alembic/versions/0010_backfill_healthcheck_optimized_data.py:126-180 | segments and rollups of a key count the same checks and the same latency samples, namely all of its own |
| `HealthProperties.RollupsAreGroups` | backend/alembic/versions/0010_backfill_healthcheck_optimized_data.py:263-276 | on time-ordered checks a rollup summarises all checks of its bucket |
| `HealthProperties.RollupsCover` | backend/alembic/versions/0010_backfill_healthcheck_optimized_data.py:263-276 | every check's bucket has a rollup |
| `HealthProperties.UniqueRollupsIffContiguous` | backend/alembic/versions/0009_healthcheck_optimized_tables.py:106-114 | the rebuilt table meets the unique constraint exactly when, for every key, checks of one bucket stand together |
| `HealthProperties.QueryOrderIsTimeOrder` | backend/alembic/versions/0010_backfill_healthcheck_optimized_data.py:109-114 | the query's order is time order per key when the collation takes the raw spellings of a coerced mode for equal, per endpoint |
| `HealthProperties.TablesAreExact` | backend/alembic/versions/0010_backfill_healthcheck_optimized_data.py:88-297 | then rollups are unique and the latest rows are the 24-hour statistics |
| `HealthProperties.TwoSpellingsBreakUniqueness` | backend/alembic/versions/0010_backfill_healthcheck_optimized_data.py:109-114 | under every collation that tells two spellings of a mode apart, such as `S3` and `s3`, there are checks that in the order of the query give two rollups for one bucket |
| `HealthProperties.UniqueForEveryLogIff` | backend/alembic/versions/0010_backfill_healthcheck_optimized_data.py:88-297 | every log gives unique rollups exactly when the collation takes all spellings of a coerced mode for equal |
| `HealthProperties.StatisticsInRange` | backend/alembic/versions/0010_backfill_healthcheck_optimized_data.py:206-222 | averages, percentile and availability of all three tables stay in range |
| `HealthFigures.NormalizeMeans` | backend/alembic/versions/0010_backfill_healthcheck_optimized_data.py:182-190 | mode and status are folded, a missing or blank status is unknown, and the measured values stay as they are |
| `HealthFigures.FiveMinutes` | backend/alembic/versions/0010_backfill_healthcheck_optimized_data.py:50-56 | a check's bucket starts at a whole multiple of five minutes and holds the check |
| `HealthFigures.RollupFigures` | backend/alembic/versions/0010_backfill_healthcheck_optimized_data.py:154-180 | on ordered checks a rollup row counts by status the checks of its five minutes, all of them, with minimum, mean, maximum and 95th percentile of their latencies |
| `HealthFigures.SegmentFigures` | backend/alembic/versions/0010_backfill_healthcheck_optimized_data.py:126-152 | a segment row counts its run of checks of one status, with minimum, mean and maximum of their latencies |
| `HealthFigures.LatestFigures` | backend/alembic/versions/0010_backfill_healthcheck_optimized_data.py:192-222 | the latest row repeats the last check and carries availability and latencies of the checks of the 24 hours before it |
| `Publisher.Forges.CopyImage` | ops/ci/registry.py:50-64 | keeps an equal image, refuses to replace a different one under an immutable tag, otherwise writes |
| `Publisher.Forges.PromoteStable` | ops/release/distribution.py:329-343 | promotes images, bundle and chart and verifies them: equal to its steps of the protocol |
| `Publisher.Forges.EnsureGitHubTag` | ops/release/publish_github_release.py:59-66 | creates the tag once; refuses a tag at another commit |
| `Publisher.Forges.PublishGitHub` | ops/release/publish_github_release.py:69-124 | draft, assets, publication: equal to its steps of the protocol |
| `Publisher.Forges.PublishOnGitLab` | ops/release/publish_gitlab_release.py:56-85 | creates the GitLab release once; accepts one with the same commit, notes and bundle links; refuses any other |
| `Publisher.Forges.MoveAliasImages` | ops/release/distribution.py:370-376 | moves one alias on all components when it is among the targets |
| `Publisher.Forges.FinalizeRelease` | ops/release/distribution.py:346-388 | `finalize`: a closed gate refuses before the first write, otherwise the step program runs and stops at the first refusal |
| `ReleaseRetry.StepSettles` | ops/release/distribution.py:346-388 | an accepted step, run again at once, changes nothing |
| `ReleaseRetry.SettledStays` | ops/release/distribution.py:346-388 | and is still settled after every step of the same or a later phase |
| `ReleaseRetry.PrefixReplays` | ops/release/distribution.py:346-388 | re-running any prefix on the stores it left behind is accepted and changes nothing |
| `ReleaseRetry.RetryConverges` | ops/release/distribution.py:346-388 | after a crash at any step, finalising again from the same checkout takes exactly the course and the outcome of an uninterrupted run |
| `ReleaseResume.IndexUnmoved` | ops/release/distribution.py:262-275 | no attempt on a release changes the verdict of the first index check for it, whatever CHANGELOG that is made with |
| `ReleaseResume.ResumeConverges` | ops/release/resume_release.py:79-95 | a crash at any step, then a finalisation from another checkout: the course of an uninterrupted run from that checkout, or nothing is written because its index is incomplete, before and after alike |
| `ReleaseResume.RetriesConverge` | ops/release/resume_release.py:79-95 | the same after any number of crashed attempts on one proof, each from its own checkout with its own CHANGELOG; it completes exactly when it would have without them |
| `ReleaseSafety.StepKeepsSafe` | ops/release/distribution.py:346-388 | every step of a run keeps all safety promises of all versions and aliases |
| `ReleaseSafety.ReplayKeepsSafe` | ops/release/distribution.py:346-388 | every history of attempts keeps all promises, from any stores that meet them |
| `ReleaseSafety.HistoryIsSafe` | ops/release/distribution.py:346-388 | over every history of attempts from stores without these versions, each from any checkout and crashed anywhere: stable artifacts are the qualified ones, a tag implies all artifacts, a public release both assets, a GitLab release the public GitHub one at the same commit, a moved alias publication on both |
| `ReleaseSafety.AliasesNeverRegress` | ops/release/distribution.py:369-382 | over every history from safe stores the versions behind `latest`, each `X.Y` alias per component and GitHub's latest pointer never go back in the order of versions; `NumbersNeverDecrease` says it by the numbers |
| `ReleaseSafety.GreatestTakesAliases` | ops/release/distribution.py:231-242 | a completed finalisation of the greatest published version leaves every alias and both latest pointers on it; `GreatestTakesLatest` and `GreatestPatchTakesMinor` say it by the numbers |
| `ReleaseProgress.FinishedWasCompletable` | ops/release/distribution.py:346-388 | on any stores, a finished run found notes that say something, a CHANGELOG with releases, the earlier ones of them published, and GitLab's latest pointer within reach |
| `ReleaseProgress.FinalizeCompletesIff` | ops/release/distribution.py:346-388 | on safe stores `finalize` runs to its end exactly when the gates are open (evidence current, `main` not moved, candidate unchanged) and the stores and the CHANGELOG are so |
| `ReleaseProgress.FinalizeCompletes` | ops/release/distribution.py:346-388 | the same after every history of attempts, each from any checkout and crashed anywhere |
| `ReleaseProgress.OvertakenStays` | ops/release/publish_gitlab_release.py:66-77 | once GitLab's pointer is on another release, no run of any version brings it back, on any stores |
| `ReleaseProgress.OvertakenIsRefused` | ops/release/distribution.py:276-283 | an overtaken version is refused by the final check while it is the newest published one, after every history and from every checkout |
| `ReleaseProgress.OvertakenCompletesIff` | ops/release/distribution.py:276-283 | after every history of catalogued attempts an overtaken version completes exactly when, besides gates, notes and index, a newer version is published |
| `ReleaseProgress.NewerReleaseFrees` | ops/release/distribution.py:276-283 | completing any newer release ends the refusal |
| `ReleaseProgress.NewerIsStuck` | ops/release/distribution.py:276-283 | from empty stores: the newer version crashes behind its GitLab release, the older one is finalised; retries of the newer one alone never complete, and after any later history it completes exactly when a version newer still is published and its index is complete |
| `ReleaseProgress.BackportOvertakes` | ops/release/distribution.py:276-283 | for example a backport added to a later CHANGELOG (1.0.1 after 1.1.0): the retry of the newer version finds its index complete and is refused |
| `ReleaseSafety.RunIsImmutable` | ops/ci/registry.py:50-64 | on any stores, safe or not, nothing under an immutable name is ever replaced |
| `ReleaseOutcome.FinishedRelease` | ops/release/distribution.py:346-388 | a completed finalisation leaves every image, package, tag, note, asset and link of its version, each under its own name with its own content |
| `ReleaseOutcome.GreatestTakesLatest` | ops/release/distribution.py:231-242 | if every other published version is smaller by major, minor or patch number, `latest` of all components and both forges stands at this one |
| `ReleaseOutcome.GreatestPatchTakesMinor` | ops/release/distribution.py:231-242 | if every published version of the same major and minor number has at most its patch number, their alias stands at this one |
| `ReleaseOutcome.SmallerTakesNothing` | ops/release/distribution.py:231-242 | while a version with greater numbers is published, no attempt on a smaller one moves `latest` or GitHub's pointer, at whatever step it stops, on any stores |
| `ReleaseOutcome.NumbersNeverDecrease` | ops/release/distribution.py:369-382 | over every history the numbers behind every alias and behind GitHub's latest release never become smaller |
| `ReleaseOutcome.IndexSpelledOut` | ops/release/distribution.py:262-275 | the index is complete exactly when every CHANGELOG version with smaller numbers is published on both forges at one commit, and the listing can be read |
| `ReleaseOutcome.GapIsRefused` | ops/release/distribution.py:262-275 | a CHANGELOG version with smaller numbers that is not published refuses the run before its first write |
| `TagConflicts.LabelKeyIdempotent` | backend/alembic/versions/0120_bucket_ui_tag_definition_settings.py:29-30 | folding a label key again changes nothing |
| `TagConflicts.FormsAreInjective` | backend/alembic/versions/0120_bucket_ui_tag_definition_settings.py:58-63 | the candidate names of a row have pairwise different keys |
| `Renaming.FreshForm` | backend/alembic/versions/0120_bucket_ui_tag_definition_settings.py:58-64 | the suffix search stops and finds the first candidate whose key is unused |
| `Renaming.Definitions.RenameOne` | backend/alembic/versions/0120_bucket_ui_tag_definition_settings.py:55-79 | every single update takes an unused key and keeps all keys handed out so far distinct |
| `Renaming.Definitions.RenameConflicts` | backend/alembic/versions/0120_bucket_ui_tag_definition_settings.py:33-79 | all keys distinct; each group keeps its lowest-id shared row, or its lowest-id row; every other row becomes its first candidate whose key was not in use; singletons stay |
| `TagConflicts.UpgradeTags` | backend/alembic/versions/0120_bucket_ui_tag_definition_settings.py:82-92 | the same by the texts: shared before private and lower ids first, among labels equal up to blanks and capitals; a renamed row keeps its owner and is called by its trimmed label and id, perhaps numbered from 2; no two labels stay alike, so the unique index can be created |
| `UsageScopes.ScopeIdempotent` | backend/alembic/versions/0124_canonical_manager_usage_scopes.py:32-42 | a canonical scope is its own canonical scope |
| `UsageScopes.CanonicalSpelling` | backend/alembic/versions/0124_canonical_manager_usage_scopes.py:32-42 | a selector that names a positive number, after `conn-` or `s3u-` in plain digits and otherwise in any spelling, becomes its prefix and that number in plain digits; every other one stays |
| `UsageScopes.MergedIff` | backend/alembic/versions/0124_canonical_manager_usage_scopes.py:32-42 | two selectors are merged exactly when they are equal or name the same number under the same prefix |
| `Canonical.MixedIsUnique` | backend/alembic/versions/0124_canonical_manager_usage_scopes.py:65-78 | with an idempotent normaliser, any mixture of old and renamed rows has unique keys |
| `Canonical.KeyedTable.DeleteAll` | backend/alembic/versions/0124_canonical_manager_usage_scopes.py:67-71 | after each single delete the table is the old one without the ids deleted so far, and its keys are unique |
| `Canonical.KeyedTable.UpdateAll` | backend/alembic/versions/0124_canonical_manager_usage_scopes.py:72-78 | after each single rename exactly the ids so far are rewritten, and keys are unique, in any order of the ids |
| `Canonical.KeyedTable.Scan` | backend/alembic/versions/0124_canonical_manager_usage_scopes.py:52-63 | a row is a duplicate exactly when an earlier row has its canonical key |
| `Canonical.KeyedTable.Deduplicate` | backend/alembic/versions/0124_canonical_manager_usage_scopes.py:45-78 | the first row of each canonical key survives, renamed; the tables after each of its statements are the deletes, then the renames, and unique |
| `UsageScopes.UpgradeScopes` | backend/alembic/versions/0124_canonical_manager_usage_scopes.py:45-78 | a snapshot survives exactly when no other of the same selector and bucket is newer by calculation, update and id; survivors change in nothing but their spelling; the unique constraint holds after each statement |
| `UsageScopes.OnePerKey` | backend/alembic/versions/0124_canonical_manager_usage_scopes.py:45-78 | there is exactly one such snapshot per canonical scope and bucket |
| `UsageScopes.DeletedIsSuperseded` | backend/alembic/versions/0124_canonical_manager_usage_scopes.py:45-78 | a deleted snapshot has a surviving newer one of the same selector and bucket |
| `IdentityTrim.TrimNormalizes` | backend/alembic/versions/0127_canonical_s3_identity_whitespace.py:50-56 | trimming is an idempotent normaliser of the identity |
| `IdentityTrim.Validate` | backend/alembic/versions/0127_canonical_s3_identity_whitespace.py:59-72 | accepts exactly the tables whose trimmed identities are non-empty and distinct |
| `IdentityTrim.UpgradeIdentities` | backend/alembic/versions/0127_canonical_s3_identity_whitespace.py:75-141 | rejects before any write, exactly when an identity is missing or blank or two trim to the same text, or takes the blanks off both ends of every identity and uid, row by row, with unique identities after each update |
| `Grid.PlaceInside` | backend/scripts/generate_database_schema_docs.py:531-539 | boxes placed row by row stay inside the width and height computed for them |
| `Grid.PlaceApart` | backend/scripts/generate_database_schema_docs.py:531-539 | and never overlap |
| `Layout.RowHeights` | backend/scripts/generate_database_schema_docs.py:509-517 | the height of each slice of tables |
| `Layout.TotalHeight` | backend/scripts/generate_database_schema_docs.py:524-529 | row heights and gaps add up to the height of the grid |
| `Layout.PlaceTables` | backend/scripts/generate_database_schema_docs.py:531-539 | the nested loops place the tables line by line |
| `Layout.LinesFollowGrid` | backend/scripts/generate_database_schema_docs.py:531-539 | and every table gets the corner of its box on the grid |
| `Layout.DomainLayout` | backend/scripts/generate_database_schema_docs.py:504-539 | width, height and positions of a domain are those of its grid |
| `Layout.DomainIsSound` | backend/scripts/generate_database_schema_docs.py:504-539 | its tables do not overlap and respect padding and header |
| `Grid.PlacedIsGrid` | backend/scripts/generate_database_schema_docs.py:531-539 | box k is in column k mod n, and its row begins one gap below the lowest box of the row above |
| `Grid.PlacedEndsAt` | backend/scripts/generate_database_schema_docs.py:524-529 | the rows' height is attained by a box and exceeded by none |
| `Layout.TableInArea` | backend/scripts/generate_database_schema_docs.py:713-725 | every table lies inside its own area, padding and header respected |
| `Layout.AreasApart` | backend/scripts/generate_database_schema_docs.py:556-583 | areas are pairwise disjoint |
| `Layout.TablesApart` | backend/scripts/generate_database_schema_docs.py:542-584 | no two tables of the diagram overlap, in one area or in two |
| `Layout.EnterTables` | backend/scripts/generate_database_schema_docs.py:577-582 | enters each position of an area into the map of tables |
| `Layout.PlaceAllAreas` | backend/scripts/generate_database_schema_docs.py:553-583 | the row-by-row loop puts each area on the grid and fills the map |
| `Layout.ChartLayout` | backend/scripts/generate_database_schema_docs.py:542-584 | areas where the grid puts them, table map as the loops assign it |
| `Layout.TableIsPlaced` | backend/scripts/generate_database_schema_docs.py:577-582 | with one owner per table, each table is in the map at its own rectangle and area |
| `Layout.OnlyTablesArePlaced` | backend/scripts/generate_database_schema_docs.py:577-582 | and nothing else is |
| `Layout.DiagramIsSound` | backend/scripts/generate_database_schema_docs.py:542-584 | each table once, in its area, clear of all others; areas clear of each other |
| `Layout.DiagramIsDrawn` | backend/scripts/generate_database_schema_docs.py:542-584 | tables and areas stand on their grids, each table with a row of its own for every column |
| `Layout.DrawDiagram` | backend/scripts/generate_database_schema_docs.py:542-584 | for every schema and domain split with one owner per table the drawn diagram is sound, and everything is on its grid: two to four columns of tables 360 wide with 76 and 30 for each column, areas two to a row that end just below their lowest table, with the distances of the script |
| `LayoutValidation.IndexAreas` | backend/scripts/generate_database_schema_docs.py:681-681 | the index of areas by id, a later area replacing an earlier one |
| `LayoutValidation.LookupFindsLast` | backend/scripts/generate_database_schema_docs.py:681-681 | the lookup finds the last area of an id |
| `LayoutValidation.ValidateTables` | backend/scripts/generate_database_schema_docs.py:697-725 | the loop of the containment check, with the area looked up by id |
| `LayoutValidation.AllPassIff` | backend/scripts/generate_database_schema_docs.py:697-725 | every table of a sound diagram passes exactly when no domain with tables shares its slug with a later domain |
| `LayoutValidation.DrawAndValidate` | backend/scripts/generate_database_schema_docs.py:542-584 | drawing and validating: the containment check fails for no schema and no split but a shared slug |
| `LayoutValidation.SharedSlugFails` | backend/scripts/generate_database_schema_docs.py:681-681 | two domains with one slug: the first one's table is sought in the second one's area and fails |
| `TagLinks.StepIsDone` | backend/alembic/versions/0034_normalized_tag_definitions.py:332-353 | after an item its definition exists and its parent has the link |
| `TagLinks.DoneIsIdle` | backend/alembic/versions/0034_normalized_tag_definitions.py:332-353 | an item that is done writes nothing |
| `TagLinks.StopAndRunAgain` | backend/alembic/versions/0034_normalized_tag_definitions.py:312-430 | stopping after any write and running again gives the tables of one run |
| `TagLinks.Restartable` | backend/alembic/versions/0034_normalized_tag_definitions.py:312-430 | the same for any number of stopped runs, from any tables |
| `TagLinks.RunKeeps` | backend/alembic/versions/0034_normalized_tag_definitions.py:195-228 | one definition per domain, owner and key and one link per parent and definition, on every run |
| `TagLinks.NewLinks` | backend/alembic/versions/0034_normalized_tag_definitions.py:340-353 | every new link was made for one label of one parent, in that label's slot |
| `TagRows.LabelsClean` | backend/alembic/versions/0034_normalized_tag_definitions.py:119-136 | parsed labels are trimmed, not empty and distinct up to case |
| `TagRows.LabelsComplete` | backend/alembic/versions/0034_normalized_tag_definitions.py:119-136 | no non-blank label is lost |
| `TagRows.LabelsAreFirstTexts` | backend/alembic/versions/0034_normalized_tag_definitions.py:109-136 | the labels are the trimmed texts of the entries in the order and spelling of their first appearance |
| `TagRows.CleanListsReadBack` | backend/alembic/versions/0034_normalized_tag_definitions.py:109-136 | a clean list written back parses to itself |
| `TagRows.BackfillKeepsConstraints` | backend/alembic/versions/0034_normalized_tag_definitions.py:312-430 | the unique constraints hold wherever the backfill stops |
| `TagRows.LinksStayInScope` | backend/alembic/versions/0034_normalized_tag_definitions.py:404-430 | a parent's new links lead to definitions of its row's kind and owner |
| `TagRows.ParentLinks` | backend/alembic/versions/0034_normalized_tag_definitions.py:330-353 | a parent without links ends with exactly the links of its list, in its order |
| `TagBackfill.ParseLegacyTags` | backend/alembic/versions/0034_normalized_tag_definitions.py:109-136 | the parser's loop |
| `TagBackfill.Definitions.InsertTagDefinition` | backend/alembic/versions/0034_normalized_tag_definitions.py:139-184 | the cache always agrees with the table; a slot gets one definition |
| `TagBackfill.Backfill.LinkLabel` | backend/alembic/versions/0034_normalized_tag_definitions.py:332-353 | definition, then link unless present, as one item of the protocol with its writes |
| `TagBackfill.Backfill.BackfillRow` | backend/alembic/versions/0034_normalized_tag_definitions.py:330-353 | the inner loop over the labels of a parent |
| `TagBackfill.Backfill.BackfillRows` | backend/alembic/versions/0034_normalized_tag_definitions.py:330-402 | the outer loop over a parent table |
| `TagBackfill.BackfillConnections` | backend/alembic/versions/0034_normalized_tag_definitions.py:404-430 | connections up to one that raises: private and without creator |
| `TagBackfill.ConnectionTags` | backend/alembic/versions/0034_normalized_tag_definitions.py:404-430 | a private connection's new links lead to private definitions of its creator, a shared one's to shared definitions |
| `TagBackfill.RowsAreFilled` | backend/alembic/versions/0034_normalized_tag_definitions.py:312-430 | after a run on empty link tables each parent of the four tables has exactly its labels as links, numbered from 0, under folded keys |
| `TagBackfill.TraceStops` | backend/alembic/versions/0034_normalized_tag_definitions.py:312-430 | the tables after every single write of the program are those of a stopped run |
| `TagBackfill.AnyWriteMayBeTheLast` | backend/alembic/versions/0034_normalized_tag_definitions.py:312-430 | running again from the tables after any single write ends where the uninterrupted run ends |
| `TagBackfill.Upgrade` | backend/alembic/versions/0034_normalized_tag_definitions.py:312-430 | fails exactly on a private connection without creator; new links of endpoints lead to endpoint tags, of accounts, users and shared connections to the administrators' tags, of a private connection to its creator's; on empty link tables every parent's links are its own labels, in order; the result equals the run over all items, with exactly its tables after every write, from each of which a rerun ends the same |
| `TagRoundTrip.RefillAfterBackfill` | backend/alembic/versions/0059_backend_legacy_compat_backfill.py:225-303 | 0059 after 0034, from whatever tables, adds nothing |
| `TagRoundTrip.RefillIsBackfill` | backend/alembic/versions/0059_backend_legacy_compat_backfill.py:225-303 | on parents without links 0059 writes what 0034 writes |
| `TagBackfill.ParentHasLinks` | backend/alembic/versions/0059_backend_legacy_compat_backfill.py:208-217 | whether the parent has any link |
| `TagBackfill.RefillRows` | backend/alembic/versions/0059_backend_legacy_compat_backfill.py:225-303 | the loops of 0059 equal its specification |
| `TagRoundTrip.OrderedSelect` | backend/alembic/versions/0078_remove_legacy_tags_json.py:53-63 | links inserted in the order of their positions come back in that order |
| `TagBackfill.Reconstruct` | backend/alembic/versions/0078_remove_legacy_tags_json.py:51-79 | the downgrade writes, for every parent, the texts of its links in listing order |
| `TagRoundTrip.TagsRoundTrip` | backend/alembic/versions/0078_remove_legacy_tags_json.py:51-79 | links made by 0034, in any number of stopped runs, rebuild every parent's list: same labels, same order, up to case |
| `TagRoundTrip.SpellingSurvives` | backend/alembic/versions/0078_remove_legacy_tags_json.py:51-79 | a label comes back letter for letter exactly when the first item of its slot spelled it so |
| `AccountRoles.GuardOverlooksNulls` | backend/alembic/versions/0069_canonical_account_access_roles.py:35-46 | on links of any kind the condition agrees with deletion unless all deleted links have a NULL role |
| `AccountRoles.GuardIsExact` | backend/alembic/versions/0069_canonical_account_access_roles.py:35-56 | with the NOT NULL columns that both tables have, the guard fires exactly when a link will be deleted |
| `AccountRoles.UpgradeRoles` | backend/alembic/versions/0069_canonical_account_access_roles.py:95-99 | refuses exactly when a link of either table would be deleted and no backup was verified; otherwise migrates both tables |
| `AccountRoles.MigrateAccountLinks` | backend/alembic/versions/0069_canonical_account_access_roles.py:59-83 | three updates and a delete keep exactly the links with a right, each with its role |
| `AccountRoles.AddSplitRoles` | backend/alembic/versions/0122_split_account_access_roles.py:82-127 | runs the statements that are still needed, or refuses when neither column set is complete |
| `AccountRoles.DoneStays` | backend/alembic/versions/0122_split_account_access_roles.py:82-127 | no later statement undoes an earlier one |
| `AccountRoles.RunAgain` | backend/alembic/versions/0122_split_account_access_roles.py:82-127 | a stopped and restarted run is where one run would be after its longer part |
| `AccountRoles.SplitResumes` | backend/alembic/versions/0122_split_account_access_roles.py:82-127 | stopped between any statements, any number of times: it never refuses and ends with the table of one run |
| `AccountRoles.ChecksAlwaysHold` | backend/alembic/versions/0122_split_account_access_roles.py:38-53 | every check constraint in force is true of every link after every statement |
| `AccountRoles.ConditionFits` | backend/alembic/versions/0122_split_account_access_roles.py:38-53 | what each check admits, without SQL's logic |
| `AccountRoles.RightsArePreserved` | backend/alembic/versions/0122_split_account_access_roles.py:106-127 | every link keeps exactly its right, in the column of its kind, and meets all four checks |
| `AccountRoles.MigrateTwice` | backend/alembic/versions/0122_split_account_access_roles.py:82-127 | 0069 then 0122, column by column: administrators and roots get the Manager role and keep browser access, Portal users and managers get their Portal role and no browser access, all other links are removed |
| `Selection.ImpactsArePublic` | ops/ci/plan.py:138-188 | a path selects public jobs only |
| `Selection.Gather` | ops/ci/plan.py:138-188 | the loop over the paths computes the least impact above every path's |
| `Selection.Select` | ops/ci/plan.py:111-224 | the plan follows from the set of paths, profile, reference and version change alone; `SelectionCoverage` says which jobs it holds |
| `Selection.SelectionIsMonotone` | ops/ci/plan.py:111-224 | more paths never remove a job or an image; unknown paths give the greatest plan |
| `Selection.SelectionIgnoresOrder` | ops/ci/plan.py:138-188 | order and repetition of the paths do not matter |
| `Selection.ImagesAreBuilt` | ops/ci/plan.py:209-213 | an image is planned exactly when it is built, and scanned; backend and frontend come together with the smoke test |
| `Selection.PullRequestsAreCheckable` | ops/ci/required.py:9-17 | every pull request plan has a valid job set, so the required check passes exactly when all its jobs succeed |
| `Selection.QualificationIsCovered` | ops/ci/qualification.py:12-24 | every plan that claims to qualify covers all demanded jobs and images, and which profiles claim it |
| `SelectionCoverage.PathImpact` | ops/ci/plan.py:138-188 | for every text of a path: its jobs, images, Ceph and full validation are exactly those that its place calls for, job by job instead of rule by rule |
| `SelectionCoverage.PlanIsCalledFor` | ops/ci/plan.py:111-224 | a job or image is planned exactly when it always runs, a changed path calls for it, or everything runs; and when everything runs |
| `SelectionCoverage.BackendIsCovered` | ops/ci/plan.py:158-172 | what one changed backend path is enough for: its tests, and for shipped code the image, the browser and the Ceph tests |
| `SelectionCoverage.DocumentationOnly` | ops/ci/plan.py:143-144 | a documentation change plans the documentation, its deployment and what always runs, and no other job or image |
| `SelectionCoverage.FixedJobs` | ops/ci/plan.py:193-204 | the job lists of the profiles that do not look at the paths |
| `Qualification.ScanIsRecorded` | ops/ci/gitlab_api.py:48-57 | evidence for a plan that scans an image names the scan of each architecture, as qualification looks it up |
| `Qualification.QualifiedRecordsAreValid` | ops/ci/qualification.py:12-38 | a record issued for any qualifying plan on main, with the receipts of its own jobs, passes `validate` |
| `Qualification.ImagesWereScanned` | ops/ci/qualification.py:12-51 | in a valid record that still checks out, every architecture of every image was scanned at its digest by the only job of that name, passed and of that commit |
| `Qualification.ValidRecordsPlanAll` | ops/ci/qualification.py:12-24 | a valid record had each demanded validation planned under its own name |
| `Evidence.SuccessfulJobs` | ops/ci/gitlab_api.py:60-72 | finds ids exactly when every expected job is there once, passed and of this commit |
| `Evidence.ProofIsUnique` | ops/ci/gitlab_api.py:60-72 | a job list proves at most one map of ids |
| `Evidence.ExpectedNames` | ops/ci/gitlab_api.py:48-57 | the concrete names of a plan |
| `Evidence.EvidenceJobNames` | ops/ci/gitlab_api.py:75-89 | the plan's names in a job list, or nothing when a planned name has no job |
| `Evidence.Recheck` | ops/ci/gitlab_api.py:117-119 | accepts exactly when the plan's jobs in the list prove the recorded ids |
| `Evidence.RecheckIff` | ops/ci/gitlab_api.py:117-119 | an issued record is accepted on a later list exactly when its jobs still stand alone, good and the same, and no other job carries a planned name |
| `Evidence.UnrelatedJobsDoNotMatter` | ops/ci/gitlab_api.py:75-89 | jobs outside the plan, added or removed, do not change the verdict |
| `Evidence.DamageIsRejected` | ops/ci/gitlab_api.py:60-72 | a planned job removed, replaced, failed or duplicated makes the check reject |
| `Evidence.Pages` | ops/ci/gitlab_api.py:29-39 | pagination returns the whole listing once, for every length |
| `Evidence.NamesAreCoherent` | ops/ci/gitlab_api.py:48-57 | every expected name is accepted for its planned name |
| `Evidence.ExtraMatrixJobIsRejected` | ops/ci/gitlab_api.py:75-89 | any record is still issued but then rejected once a further matrix job of any planned name is in the list |
| `Evidence.ThirdShardIsRejected` | ops/ci/gitlab_api.py:75-89 | for example a third shard of the frontend tests |
| `Evidence.IssuedIff` | ops/ci/gitlab_api.py:48-72 | a record names exactly the demanded jobs, with both shards of the frontend tests and both architectures of scans and release smoke tests, each the only job of its name, passed and of this commit |
| `Evidence.IssuableIff` | ops/ci/gitlab_api.py:48-72 | and there is one exactly when all of these jobs are so |
| `Evidence.RechecksIff` | ops/ci/gitlab_api.py:75-89 | a record is accepted exactly when it names all jobs that carry a planned name, bare or with brackets, each the only one of its name, passed and of this commit |
| `Evidence.IntegrationRecord` | ops/ci/evidence.py:10-16 | issues a record exactly for the plan's own pipeline with all expected jobs proved |
| `Evidence.CheckRecord` | ops/ci/gitlab_api.py:92-120 | skips, rejects as inconsistent, rejects as mismatch, or accepts a candidate record; an accepted one agrees with both pipelines in commit, reference and ids |
| `Evidence.IssueAndCheck` | ops/ci/evidence.py:10-16 | issuance and later acceptance composed, with the exact condition |
| `History.Forges.Inventory` | ops/release/publish_history.py:39-51 | accepts exactly when no tag, page or latest version conflicts, and reports the actions |
| `History.Forges.WritePage` | ops/release/publish_history.py:57-79 | re-reads, acts and verifies one page |
| `History.Forges.WritePages` | ops/release/publish_history.py:55-79 | whatever outsiders edit between the pages and however the loop ends: which pages were written, and that notes present at the start or at any re-read are still there on every page whose notes outsiders spare |
| `History.Forges.PublishHistory` | ops/release/publish_history.py:34-85 | a conflict means no write at all; otherwise notes survive as above, success means every spared page is as expected, and without outsiders every page is published |
| `History.CourseKeepsNotes` | ops/release/publish_history.py:55-79 | notes added during the run, before any re-read, survive the rest of it |
| `History.NotesAreNeverOverwritten` | ops/release/publish_history.py:57-74 | one page's write changes no notes that are there, and nothing but notes of an existing page |
| `History.PublishedIsKept` | ops/release/publish_history.py:75-77 | after a publication every catalogued page is as expected |
| `History.PublishedOnceIsEnough` | ops/release/publish_history.py:34-85 | the next run reports only `keep` and writes nothing |
| `History.AcceptableIff` | ops/release/publish_history.py:14-52 | a page is accepted exactly when both tags stand at its commit, and an existing page is visible, of that commit, and without other notes |
| `History.PublishedPages` | ops/release/publish_history.py:34-85 | a publication leaves every catalogued page as it was with exactly its notes, or new, and everything else untouched |
| `TagAlignment.Alignment` | ops/release/align_history_tags.py:15-26 | the moves, or a refusal at an unapproved divergence |
| `TagAlignment.ApplyAlignment` | ops/release/align_history_tags.py:29-35 | all moves or none, all exactly when every lease holds |
| `TagAlignment.AlignmentIsFinal` | ops/release/align_history_tags.py:15-35 | after applying, nothing is left to align |
| `TagAlignment.OnlyApprovedRefsMove` | ops/release/align_history_tags.py:15-26 | an existing ref changes only on GitLab and only from the approved former commit |
| `TagAlignment.Align` | ops/release/align_history_tags.py:29-35 | the whole run against a remote that may have changed meanwhile: it pushes exactly when every tag stands at its commit, is absent or is GitLab's approved former one, and none of those to move has changed; then exactly the planned refs stand at the local tags |
| `CommitSections.TrimBlankEdges` | backend/scripts/validate_ai_commit_message.py:27-34 | removes blank lines at both edges |
| `CommitSections.ParseSection` | backend/scripts/validate_ai_commit_message.py:57-76 | one section: title, body up to a later title or the footer, blank lines |
| `CommitSections.ParseSections` | backend/scripts/validate_ai_commit_message.py:49-78 | the scanner equals its specification, and its result is where it should be: each title in place, each body up to the first later title or, in the last section, the first breaking change after a blank line, trimmed, and the rest as the footer; or the first title that is not in place |
| `CommitSections.NothingIsLost` | backend/scripts/validate_ai_commit_message.py:49-78 | in an accepted parse every non-blank line after the header is, in order, a title, a body line or a footer line |
| `CommitPrinting.AcceptedIsPrintable` | backend/scripts/validate_ai_commit_message.py:49-78 | accepted bodies are trimmed and end nowhere early; the footer starts with a breaking change |
| `CommitPrinting.PrintReadsBack` | backend/scripts/validate_ai_commit_message.py:49-78 | printing such a message, with any blank lines between its parts, and parsing it returns the same bodies and footer |
| `CommitPrinting.ParsePrintParse` | backend/scripts/validate_ai_commit_message.py:49-78 | parsing, printing and parsing again changes nothing |
| `CommitPrinting.CommitMessagesReadBack` | backend/scripts/validate_ai_commit_message.py:12-12 | the same for the titles Why, What and Validation |
| `CommitPrinting.TitleMarks` | backend/scripts/validate_ai_commit_message.py:57-60 | a line is a title exactly when its text between the blanks is `Why:`, `What:` or `Validation:` |
| `CommitPrinting.BreakingMark` | backend/scripts/validate_ai_commit_message.py:41-46 | and a breaking change exactly when that text begins with `BREAKING CHANGE:` |

## Left out

- Floating point: averages, percentages and percentiles are computed over exact rationals and rounded half to even; the source divides floats first.
- Unicode: `strip`, `lower` and `casefold` are modelled on ASCII; `isdigit` and `int` likewise, without Python's limit on the number of digits.
- Columns with constant values (`check_type`, `scope`, `updated_at`, colours, timestamps of links) and columns that no step reads.
- Dictionary iteration order: where the source iterates a dictionary the model picks an arbitrary order, so results hold for every order.
- Row ids of tag definitions and links: taken to be handed out in order of insertion.
- The order in which an unsorted query of 0034 and 0059 returns the parents: arbitrary, but the same on a rerun.
- JSON and YAML decoding: a decoded value is the input; anything that does not decode to a list counts as no list.
- Schema changes, indexes and SQLite batch mechanics, except the columns and checks of 0122 that its resume logic reads.
- Sorting the tables of a domain by their number of foreign keys: a domain's tables come in drawing order, and the results hold for every order.
- The validator's other checks: counts, fields, relationships.
- Versions are triples of numbers; the textual form with its pattern is not part of the model.
- Release: how the gates come about (`ready`, the heads of `main`, the candidate download, the checks of `resume_release.py` on the retained proof) is not modelled; they are inputs of each run. A CHANGELOG is the set of its versions. Annotated tags count as resolved to their commit, and a release's name as part of its notes.
- Release: GitLab's latest release is taken to be the one created last, as `publish` sends no release date; releases with a date of their own are not modelled.
- Release: network calls, registry copies and uploads are atomic steps; digests stand for contents, and an asset's size is part of its digest; propagation delays of the public view are not modelled.
- Publication of the chart is one idempotent step, like the bundle.
- `published_versions` reads its pages at one instant; `Evidence.Pages` covers the pagination itself.
- How 0069 reads its backup flag, its changes to connections, the downgrades of 0069 and 0122, and the `users.is_root` column.
- Selection.Select: does not model the `reasons` texts, which do depend on the order of the paths, nor `classify` and the Git queries that produce the paths.
- `qualification.complete` itself: the receipts it reads and the registry inspections are inputs of the record; the schema number is left out.
- Evidence.CheckRecord: the choice of the `integration-ready` job and the download of its artifact are not modelled; the record is the input.
- History.Forges.PublishHistory: outside edits happen between pages; one between the re-read of a page and its write, which the code cannot exclude either, is not modelled, and the inventory reads the forges at one instant. That these writes leave the latest pointers alone is taken from the forges.
- TagAlignment.ApplyAlignment: the push is one atomic step of the remote.
- The commit header's pattern and the checks on the contents of the sections.
- Everything else in the repository: the web application, its API and user interface, other migrations, image builds, secret scanning.
