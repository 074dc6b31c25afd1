# Verified model of the application service

The service takes applications from a public form, lets the same page report behaviour metrics
once, and gives administrators a prioritized list, statistics and a guarded database upgrade. This
project models that behaviour in Dafny and proves what the code's comments and tests promise of it.

`dafny verify dfyconfig.toml` checks everything.

## How it is laid out

- **Submission** (`SubmissionModel`, `SubmissionInvariant`, `SubmissionRefinement`,
  `SubmissionProperties`, `SubmissionRecords`, `SubmissionSession`, `ServiceBounds`, `HomeRetry`,
  `FirstAdmin`). PostgreSQL is an explicit step relation: a transaction is a job and a phase, one
  `Advance` is one SQL statement or the commit, `Db` holds committed rows only, and locks are read off
  the phases. A statement that has to wait leaves the state alone, an `Abort` (lost connection,
  deadlock victim, 5xx) is possible at any moment, and ids and tokens once drawn are never drawn again.
  An UPDATE writes the columns that differ from what was read without a lock. An atomic object without
  transactions is the specification; every run refines it, the end-to-end properties are read off it,
  and a ledger of the answers says what the rows hold. The classes `Session` and `AdminTable` run the
  model's steps for one request with nobody else in the database; `HomeState` is the page's own state
  and handler.
- **Search, scoring, paging** (`Text`, `LikeSearch`, `Substitution`, `Urgency`, `JsonText`, `CanonicalRequest`,
  `ScoreSync`, `Ordering`, `PriorityPages`).
- **Schema** (`SchemaIntrospect`, `SerialIds`, `SchemaSpecs`, `Migrations`, `Adoption`). Reflected
  tables, the comparison with an expected shape, the two literal shapes, migrations 0002 to 0004 as
  schema transformers, and adoption cut off anywhere.
- **Analytics** (`Tallies`, `BehaviorExtract`, `BehaviorStats`, `BehaviorReport`, `AnalyticsOverview`).
  Dictionaries are commutative monoids; numbers are exact.
- **Admin tabs** (`ApplicationsSection`, `AnalyticsSection`). Event-driven state machines with an
  invariant over every run; the classes are the handlers, proved against the step functions.

## What came out differently than one might expect

- `_replay_existing_idempotent_request` (backend/app/crud/application.py:246-258) explains a missing
  claim by a rollback of its first writer. A loser of the race only gets there after a commit, so the
  claim can only be missing because its application was deleted in between: 409 `Retry` implies a
  dropped key in the refinement.
- The 409 for a claim whose application is gone, and the 409 for a failed metric insert, are in the
  model and are never given: the cascade takes the claim along, and the spent capability's row keeps
  the application from being deleted.
- "-0" is accepted as a budget, is the same amount as "0", and still reads as a different request
  (`NegativeZeroDiffers`). Without it the canonical text decides exactly the request.
- The page's rule for its key is safe exactly as long as no earlier attempt is still on its way when
  the awaited one is told 422 or 409 (`RejectionSafeExactlyWhenSettled`, `StaleAttemptDuplicates`).
- `budget_min <= budget_max` does not hold under concurrent patches (`ConcurrentPatchesCross`). A patch
  is safe exactly if it ends up writing both bounds or neither (`SafeExactlyWhenBalanced`); naming both
  is not enough, because a bound equal to the row's own is not written (`SafeExactlyWhenUnbounded`).
- The materialized score does not survive interleaved updates of one application: an update reads
  without a lock, scores the object it read, and writes only what it changed.
  `SyncSurvivesExactlyWhenUndisturbed` says when it does survive. A patch of the deadline and one of the
  task scope lose the first one's points exactly if both columns change theirs
  (`RaceLosesExactlyWhenBothScore`, `RacingPatchesLoseTheScore`). The claims about filtering and paging
  are made for scores in sync.
- The comment in `renderList` (frontend/src/pages/adminApplications.ts:653-660) rules out an empty page
  beyond the first one. It fails when rows are deleted between two pages (`EmptyPageBeyondTheFirst`), and
  when Next is pressed with text typed that has not been sent yet (`TypingBeforeNextShowsNothing`). The
  second is a guard missing from `wirePager` (855-869): while no total falls, Next, Previous and Refresh
  lead from a page with items to another one beyond the first if and only if the filter and the trimmed
  text still read as they did when the page was asked for (`ReloadShowsItemsExactlyWhenQueryUnchanged`).
  Runs in which these clicks obey that guard, and no total falls, never show an empty page beyond the
  first (`QueriesKeptExactlyWhenGuarded`, `EmptyPageIsTheFirst`).
- The fallback of `_effective_metric_timestamp` cannot be reached through the overview route, which
  counts fewer metrics whenever one depends on it (`MissingTimestampIsLost`).

Assumptions that stand for code outside the model: the backend echoes the `skip` it was asked for,
a cleared timer does not fire, `onSessionExpired` ends the panel it was called from, case folding maps
characters one to one and leaves `%`, `_` and `\` alone, and a foreign key constrains columns that its
table has. A DELETE of a service that an application refers to is refused at once, where PostgreSQL's
foreign-key check would first wait for an uncommitted delete of that application; the refusal is one the
code can give either way.

## Model

| member | source | states |
|---|---|---|
| SubmissionInvariant.StepKeeps | backend/app/crud/application.py:27-272 | every statement of every request (create, claim, replay, metric, patch, delete, abort) keeps: committed claims point at existing applications, each application made here has its capability, no two transactions hold a common lock, and every transaction's view of the locked rows stays true |
| SubmissionInvariant.RunKeeps | backend/app/crud/application.py:27-272 | the same over every interleaving from an empty claim table |
| SubmissionInvariant.CreateKeeps | backend/app/crud/application.py:46-112 | the commit of a creation breaks no promise made to a concurrent transaction, in particular not to a service DELETE that found the service unreferenced |
| SubmissionRefinement.EveryRunRefines | backend/app/crud/application.py:188-272 | every interleaving of any number of requests answers as one atomic map from key to (request, application) would, in the order of the answers; committed claims and capabilities are exactly the map's |
| SubmissionRefinement.StepRefines | backend/app/crud/application.py:188-272 | one statement of one transaction is at most one step of the atomic map |
| SubmissionRefinement.LockClaimRefines | backend/app/crud/application.py:227-272 | the loser of the unique-index race, once it holds the claim row, answers as the map says: same request, other request, or forgotten key |
| SubmissionRefinement.DeleteRefines | backend/app/crud/application.py:434-446 | a cascading delete forgets exactly the keys and the capability of its application |
| SubmissionProperties.KeyDecides | backend/app/crud/application.py:188-272 | after a key has succeeded and until its application is deleted, every completed submission with it gets the same application without a token if the request is equal, and 409 otherwise |
| SubmissionProperties.DeleteFreeRun | backend/app/crud/application.py:188-272 | in a delete-free run in which a key is always sent with one request, nobody is told 409, and all successes name one application |
| SubmissionProperties.KnownKeyWasCreated | backend/app/crud/application.py:188-226 | failed attempts leave no claim: a known key was put there by a creation with its request |
| SubmissionProperties.CreatedOnce | backend/app/crud/application_behavior_capability.py:15-33 | no application id and no capability token is handed out twice, so at most one response to a creation carries a token |
| SubmissionProperties.MetricOnce | backend/app/routes/behavior_metrics.py:54-73 | at most one public metric submission per application ever succeeds, even if the metric or the application is deleted in between |
| SubmissionProperties.SpentWithMetric | backend/app/crud/application_behavior_capability.py:36-71 | a capability is marked used only in a commit that also inserts its metric; a failed insert leaves it unused |
| SubmissionProperties.CreationCommit | backend/app/crud/application.py:46-80 | at the commit of every creation, under all interleavings with service PATCH and DELETE, the new row holds exactly the service id, budget and columns that were sent, under the name of the committed service, which is active, not blank and has the budget within its bounds; the claim points at the row |
| SubmissionRecords.RowsAreWhatWasSent | backend/app/crud/application.py:46-112 | after every run the committed applications are those that the answers created and did not delete, each with the service id sent and, in every column that no patch has named, the value sent; the committed metrics are exactly those accepted, as sent |
| SubmissionRecords.SuccessHoldsRequest | backend/app/crud/application.py:188-272 | a submission that was told an application, new or replayed, was told the one it asked for: until its deletion the row is there and holds the request in every column that no patch names |
| SubmissionRecords.KnownKeyHoldsRequest | backend/app/crud/application.py:227-272 | the same of every key the server knows: its row holds the request of the key |
| SubmissionRecords.OnlyPatchesEdit | backend/app/crud/application.py:415-431 | a stored application changes only in the commit of a patch of it, only in columns that the patch names, and only to what the patch says |
| SubmissionRecords.OnlyPatchesEditServices | backend/app/crud/admin_setting.py:59-81 | the same of a service |
| SubmissionRecords.RefusalsAreDeserved | backend/app/crud/application.py:27-80 | every 422, 404 and 409 has its reason in the rows committed at that moment: a missing, inactive or blank service, a budget below or above its bounds, a service still referred to, merged bounds out of order, a row that is not there |
| SubmissionSession.Session.CreateApplicationRow | backend/app/crud/application.py:27-80 | lock, check, insert: which of the three outcomes, and that the row to be inserted holds what was sent under the name of the locked service |
| SubmissionSession.Session.MintAndCommit | backend/app/crud/application.py:83-112 | capability, claim and application become visible together, the application with what was sent and the name of the service |
| SubmissionSession.Session.ReplayExistingIdempotentRequest | backend/app/crud/application.py:227-272 | a replay that waits for nobody answers with the stored application, 409 for another request, or 409 when the claim is gone, and changes nothing |
| SubmissionSession.Session.CreateApplication | backend/app/crud/application.py:188-226 | an uncontended run answers and commits what a sequential description says; a created row holds the request |
| SubmissionSession.Session.UpdateApplication | backend/app/crud/application.py:415-431 | alone, the addressed row takes exactly what the patch names, keeps the rest, and no other row changes |
| SubmissionSession.Session.TryConsumeCapability | backend/app/crud/application_behavior_capability.py:36-71 | true exactly for an unused capability with this token; nothing is committed yet |
| SubmissionSession.Session.InsertBehaviorMetric | backend/app/crud/behavior_metric.py:14-33 | after a successful consume the insert cannot clash |
| SubmissionSession.Session.CreateBehaviorMetric | backend/app/routes/behavior_metrics.py:54-73 | spends the capability and stores the metric, or refuses and changes nothing |
| SubmissionSession.Session.DeleteApplication | backend/app/crud/application.py:434-446 | removes the application with its claims, capability and metric, and nothing else |
| SubmissionSession.Session.DeleteBehaviorMetric | backend/app/crud/behavior_metric.py:105-117 | removes the metric only; the capability stays spent |
| SubmissionSession.Session.UpdateAdminSetting | backend/app/crud/admin_setting.py:59-81 | alone, the service takes exactly what the patch names if the merged bounds are in order, and otherwise nothing changes |
| SubmissionSession.Session.DeleteAdminSetting | backend/app/crud/admin_setting.py:84-96 | refused exactly while an application refers to the service |
| ServiceBounds.SafeExactlyWhenBalanced | backend/app/crud/admin_setting.py:62-73 | a patch that passed the merged check leaves the bounds in order, whatever the row has become by the time it is written, if and only if it writes both bounds or neither |
| ServiceBounds.SafeExactlyWhenUnbounded | backend/app/crud/admin_setting.py:62-73 | before anything is read: a patch is safe against every row and every interleaving if and only if it names no bound or names two that are out of order and is always refused |
| ServiceBounds.StepSafeExactlyWhenBalanced | backend/app/crud/admin_setting.py:62-73 | the same of the step that writes, over all states of the protocol |
| ServiceBounds.BalancedRunsStayOrdered | backend/app/crud/admin_setting.py:59-81 | in every run in which no patch is about to write one bound without the other, all bounds stay in order |
| ServiceBounds.ConcurrentPatchesCross | backend/app/crud/admin_setting.py:62-73 | a run from an initial state in which two patches that each pass the check leave budget_min above budget_max |
| ServiceBounds.UnchangedRowStaysOrdered | backend/app/crud/admin_setting.py:62-73 | a patch that finds the row as it read it keeps the bounds in order, whatever it writes |
| FirstAdmin.AtMostOneAdmin | backend/app/crud/admin.py:31-67 | over all interleavings on an empty table, at most one administrator is committed and at most one call succeeds, and the row is that call's |
| FirstAdmin.ClosedForGood | backend/app/crud/admin.py:31-67 | after that commit the table never changes and every call that gets the lock is told of the conflict |
| FirstAdmin.AdminTable.RegisterFirstAdmin | backend/app/crud/admin.py:31-67 | alone: succeeds exactly for a non-blank name on an empty table, and gives the lock back |
| HomeRetry.AtMostOneApplication | frontend/src/pages/home.ts:607-649 | one page mount, an unchanged form, no deletes: any submits with any lost responses leave at most one application, provided no awaited attempt is answered 422/409 while an earlier one is still on its way |
| HomeRetry.SafeExactlyWhenKept | frontend/src/pages/home.ts:628-649 | of the four keep-or-clear rules, exactly those that keep the key after an ambiguous failure have that property, under that proviso |
| HomeRetry.RejectionSafeExactlyWhenSettled | frontend/src/pages/home.ts:641-649 | when the awaited attempt is rejected, every continuation under the proviso leaves at most one application if and only if no earlier attempt is still on its way |
| HomeRetry.StaleAttemptDuplicates | frontend/src/pages/home.ts:607-649 | a run of a freshly mounted page that leaves two applications this way |
| HomeRetry.EditAfterCommitSticks | frontend/src/pages/home.ts:607-617 | from every freshly mounted page: a commit whose response is lost, then an edit, leaves a key that the server knows for another form |
| HomeRetry.NeverClearingIsStuck | frontend/src/pages/home.ts:641-649 | from there a page that never clears the key never gets the form it shows submitted, in any run |
| HomeRetry.StuckExactlyWhenNeverCleared | frontend/src/pages/home.ts:641-649 | from there the form can be submitted in some run if and only if the rule clears the key after a rejection or a loss |
| HomeRetry.ClearingUnsticks | frontend/src/pages/home.ts:641-649 | with the page's rule no answer to the attempt after the rejection can be a 409 for the old key |
| HomeRetry.HomeState.BeginAttempt | frontend/src/pages/home.ts:521-617 | the page up to the POST: a kept key is reused, otherwise a new one is stored first; an inactive service is deselected and nothing else changes |
| HomeRetry.HomeState.OnError | frontend/src/pages/home.ts:628-649 | the page after a failure: 422 and 409 clear the key, anything else keeps it |
| Text.StripIs | backend/app/services/application_scoring.py:76-84 | stripping takes away exactly the white space around a text |
| LikeSearch.LikeIsContains | backend/app/crud/application.py:303-338 | LIKE with escape `\` and `%` + escape(query) + `%` matches exactly the texts that contain the query, for every text and query (section 9.7.1 of the PostgreSQL 16 documentation) |
| LikeSearch.ILikeIsContains | backend/app/crud/application.py:330-338 | the same for ILIKE up to case folding |
| LikeSearch.PassesEscapeEach | backend/app/crud/application.py:311-315 | the three sequential replaces equal one per-character map |
| LikeSearch.UnescapeEscape | backend/app/crud/application.py:303-315 | unescaping gives the query back |
| LikeSearch.WildcardsMatch | backend/app/crud/application.py:303-338 | unescaped, `%` matches every text and `_` exactly those of one character, which is why they are escaped |
| Urgency.NegatedEndIsTheMatch | backend/app/services/application_scoring.py:189-189 | the deterministic reading of the pattern finds a match wherever one exists: no backtracking can help |
| Urgency.NegatedEndIsAMatch | backend/app/services/application_scoring.py:189-189 | and what it finds is a match of the declarative pattern |
| Urgency.SrochnoOutsideNegations | backend/app/services/application_scoring.py:182-202 | the marker is set exactly if a whole-word "срочно" lies outside every leftmost non-overlapping negated phrase |
| Urgency.SrochnoExactlyWhen | backend/app/services/application_scoring.py:182-202 | the same with the whole word spelled out |
| Urgency.PhraseAtIs | backend/app/services/application_scoring.py:156-180 | a phrase is found exactly where its words stand one after another, separated by white space only, with a word boundary at both ends |
| Urgency.MatchedUrgencyMarkers | backend/app/services/application_scoring.py:195-202 | the set holds exactly the phrases found as they stand, and "срочно" if found outside every negation |
| Urgency.UrgencyMarkerReason | backend/app/services/application_scoring.py:287-308 | points are given exactly if some phrase is found whose points its task type has not already earned, or an un-negated "срочно" |
| Substitution.FoundOutsideSpans | backend/app/services/application_scoring.py:199-201 | replacing such spans by a blank neither creates nor loses a whole word |
| Substitution.WholeAtIs | backend/app/services/application_scoring.py:182-202 | a word stands whole exactly where no word character stands directly before or after it |
| CanonicalRequest.CanonicalTextDecides | backend/app/crud/application.py:165-185 | two accepted requests have the same canonical text exactly when they are the same request with equal budget amounts (and the same sign on a zero), however the decimals were written |
| CanonicalRequest.WithoutNegativeZero | backend/app/crud/application.py:165-185 | the text decides exactly the request if and only if equal requests carry the same sign, which only a zero can break |
| CanonicalRequest.NegativeZeroDiffers | backend/app/crud/application.py:165-185 | "-0" and "0" are accepted, equal amounts, and different texts |
| CanonicalRequest.QuantizeExact | backend/app/crud/application.py:178-184 | no accepted budget is rounded by quantize |
| CanonicalRequest.RoundedQuotientIs | backend/app/crud/application.py:178-184 | quantize rounds to the nearest cent, halves to even |
| JsonText.EscapePrefixFree | backend/app/core/security.py:112-122 | no JSON character escape is the beginning of another (section 7 of RFC 8259) |
| JsonText.DumpsInjective | backend/app/core/security.py:112-122 | the dump of an object, with ", " and ": " between its parts, determines its members, their number, order and values |
| ScoreSync.BandIsLevel | backend/app/services/application_scoring.py:356-375 | for every clamped score, lying in a level's bounds is having that level |
| ScoreSync.ScoreIsNearest | backend/app/services/application_scoring.py:418-420 | the score is the sum of the points, or the end of 0..100 that is nearer to it |
| ScoreSync.PatchSetsWhatItNames | backend/app/crud/application.py:415-423 | a patch sets each column it names to its value and leaves every other one |
| ScoreSync.ApplicationsTable.AddScoreColumn | backend/alembic/versions/0004_stage4_priority_score.py:88-102 | after the backfill every row holds its recomputed score and nothing else changed |
| ScoreSync.ApplicationsTable.Insert | backend/app/models/application.py:130-140 | an ORM insert stores the recomputed score |
| ScoreSync.ApplicationsTable.ReadForUpdate | backend/app/crud/application.py:415-423 | the row is read without a lock and patched in memory only |
| ScoreSync.ApplicationsTable.Commit | backend/app/crud/application.py:415-431 | the UPDATE writes the columns that differ from what was read, and the score of the object in memory if it differs from the score read, onto the row as it is by then |
| ScoreSync.ApplicationsTable.UpdateApplication | backend/app/crud/application.py:415-431 | with nobody in between, exactly the addressed row gets the patch and the score of the result |
| ScoreSync.AlwaysInSync | backend/app/models/application.py:130-140 | stored score equals recomputed score in every row after any run of ORM creates, interleaved updates and deletes in which no update meets a row changed since it was read |
| ScoreSync.SyncSurvivesExactlyWhenUndisturbed | backend/app/models/application.py:130-140 | one update keeps the score in sync for all point tables if and only if it writes nothing, or meets the row as it was read, or meets a row that already is what it writes |
| ScoreSync.SafeAgainstAllExactlyWhen | backend/app/models/application.py:130-140 | for given point tables, an update is safe whatever the row has become if and only if its columns do not matter to the score, or change it and decide it alone |
| ScoreSync.RacingPatchesLoseTheScore | backend/app/crud/application.py:415-431 | a row with no hurry (0 points) and a single service (3), any other columns: patched to urgent and to a whole fleet at once it stores 18 points over the rest where 43 are displayed, with different levels exactly if 40 or 70 lies in between |
| ScoreSync.RaceLosesExactlyWhenBothScore | backend/app/services/application_scoring.py:92-118 | after two interleaved patches of deadline and task_scope, within the cap, the stored score is the computed one if and only if one of the two columns keeps its points; otherwise the first patch is missing from it |
| ScoreSync.RaceIs | backend/app/crud/application.py:415-431 | for any point tables, two interleaved patches of different columns both arrive, under the score of the second patch on the row it read, or of the first where that one is not written |
| PriorityPages.FilterFollowsTheStoredScore | backend/app/crud/application.py:341-343 | the priority filter selects a row for its displayed level and no other if and only if the stored score has that level |
| PriorityPages.FiltersMean | backend/app/crud/application.py:318-344 | a row whose score is in sync passes the SQL filters exactly if its displayed level is the requested one and a searched column contains the stripped query |
| PriorityPages.GetPrioritizedApplicationsPage | backend/app/crud/application.py:347-394 | the page is the rows from skip on, at most limit of them, of a list of exactly the rows passing the filters, each once: the highest score first, equal ones by created_at and then by id; the count is the length of that list |
| PriorityPages.OneArrangement | backend/app/crud/application.py:375-394 | the ORDER BY leaves only one arrangement of the rows |
| PriorityPages.PagesCoverTheList | backend/app/crud/application.py:347-394 | for a fixed corpus with scores in sync, the pages of separate queries concatenate to the wanted rows without gaps or repetitions, and every total is their number; read through the pages, displayed scores never rise, equal ones come by created_at and then by id, and no row stands above one of a higher level |
| PriorityPages.DisplayedOrder | backend/app/crud/application.py:385-389 | in sync, the list ordered by the stored score is ordered by the displayed one, so a level never rises along it |
| SchemaIntrospect.NextvalNameReads | backend/app/core/schema_introspect.py:132-169 | the default is read as nextval of a name exactly when it is that name's quoted text |
| SchemaIntrospect.SerialSequenceProblems | backend/app/core/schema_introspect.py:146-237 | reports exactly the listed problems of a serial column, or raises when the sequence lookup finds no row |
| SchemaIntrospect.ForeignKeyProblems | backend/app/core/schema_introspect.py:307-348 | reports exactly what is wrong with the first foreign key on the columns |
| SchemaIntrospect.DescribeTableProblems | backend/app/core/schema_introspect.py:240-350 | reports every difference and nothing else, and nothing exactly when the table matches |
| SchemaIntrospect.CleanExactlyWhenMatches | backend/app/core/schema_introspect.py:240-350 | there is nothing to report if and only if a declarative match of columns, types, defaults, keys and sequences holds |
| SchemaIntrospect.MatchesExactlyWhenItLooks | backend/app/core/schema_introspect.py:240-350 | that match spelled out: each column with its type, nullability and default, no other column, the primary key, the unique constraints, each foreign key with its table, columns, schema and ON DELETE, each serial column with its own plain, ascending, non-cycling integer sequence ahead of the rows |
| SchemaIntrospect.TypeMatchesExactly | backend/app/core/schema_introspect.py:109-129 | a live type passes exactly if it is of the expected kind, with the expected length for VARCHAR, precision and scale for NUMERIC, and a time zone for timestamps |
| SchemaIntrospect.OneExpectedType | backend/app/core/schema_introspect.py:109-129 | no live type passes for two expected types that differ in kind, length, precision or scale |
| SerialIds.AcceptedNeverCollides | backend/app/core/schema_introspect.py:221-235 | after acceptance any number of inserts that draw their id get pairwise distinct ids, none of a stored row |
| SerialIds.AheadExactlyWhenSafe | backend/app/core/schema_introspect.py:213-235 | an ascending integer sequence is free of collisions for every number of inserts if and only if it is ahead of every stored id |
| SchemaSpecs.VerifyLegacyFingerprint | backend/app/db_admin/adopt_legacy.py:248-287 | accepts exactly the four legacy tables, each matching, and no other table |
| SchemaSpecs.EnsureDatabaseReady | backend/app/core/schema_check.py:226-261 | accepts exactly a public default schema with all six tables matching |
| SchemaSpecs.AcceptedLegacyIsTyped | backend/app/db_admin/adopt_legacy.py:248-287 | in a database the legacy check accepts, every column has exactly its expected type, every table looks as spelled out, and all amounts of money are NUMERIC(12, 2) |
| SchemaSpecs.ReadyIsTyped | backend/app/core/schema_check.py:226-261 | the same of a database the application starts on |
| Migrations.Database.Upgrade0002 | backend/alembic/versions/0002_stage1a_capability.py:29-49 | 0002 as a schema transformer |
| Migrations.Database.Upgrade0003 | backend/alembic/versions/0003_stage1b_service_idemp.py:41-72 | 0003 as a schema transformer; a failing statement undoes the earlier ones |
| Migrations.Database.Upgrade0004 | backend/alembic/versions/0004_stage4_priority_score.py:87-91 | 0004 as a schema transformer, without its index |
| Migrations.UpgradeSucceeds | backend/alembic/versions/0003_stage1b_service_idemp.py:41-72 | on a legacy schema no DDL statement of 0002 to 0004 on tables, columns and keys fails, name clashes of constraints, indexes, views and sequences aside, and the schema at head is the expected one |
| Migrations.UpgradeSucceedsExactlyWhen | backend/alembic/versions/0003_stage1b_service_idemp.py:41-72 | those statements go through if and only if the new tables and columns are not there yet and applications and admin_settings are keyed by id |
| Migrations.UpgradedFromBaseline | backend/alembic/versions/0002_stage1a_capability.py:22-24 | upgrading to head from a database stamped 0001 runs 0002, 0003 and 0004 in this order |
| Migrations.PendingAfterBaseline | backend/alembic/versions/0004_stage4_priority_score.py:54-56 | each revision follows the one before; at the baseline the last three are pending, at head none, and without a version all four |
| Migrations.AcceptedLegacyBecomesReady | backend/app/core/schema_check.py:226-261 | whatever the legacy verification accepts, migrated to head, has no problems in the startup guard's table checks |
| Adoption.Adopter.Adopt | backend/app/db_admin/adopt_legacy.py:325-351 | one call cut off after any of its committed statements leaves the state the step description says |
| Adoption.AnswersAre | backend/app/db_admin/adopt_legacy.py:325-351 | a version table means already adopted, another shape is refused, both unchanged; only a run to the end adopts and records 0001_legacy_baseline |
| Adoption.InterruptedRunsConverge | backend/app/db_admin/adopt_legacy.py:290-351 | interrupted after any step any number of times and then run to the end, the state is that of one uninterrupted run, and later runs change nothing |
| Adoption.OthersUntouched | backend/app/db_admin/adopt_legacy.py:325-343 | a refused verification leaves owners, catalog and version stamp as they were, over any number of runs |
| Adoption.AdoptedThenMigratedIsReady | backend/app/db_admin/adopt_legacy.py:325-351 | verified, adopted in however many runs, migrated from the version that adoption recorded: the startup guard's table checks find no problem |
| BehaviorExtract.ExtractButtonCounts | backend/app/services/behavior_analytics.py:272-299 | the counts of one row are the tally of its usable list items, which ClickCounts and OthersCountNothing tell from the raw items |
| BehaviorExtract.ClickCounts | backend/app/services/behavior_analytics.py:272-299 | one more item that is a dictionary with a name under "button" and a positive whole number under "count" raises exactly that stripped and capped name by exactly that number |
| BehaviorExtract.OthersCountNothing | backend/app/services/behavior_analytics.py:272-299 | one more item of any other kind changes nothing |
| BehaviorExtract.NoClickExactlyWhen | backend/app/services/behavior_analytics.py:226-269 | an item is of another kind exactly if it is no dictionary, or "button" holds no text or a blank one, or "count" is missing, of another type, not finite, fractional, zero or negative |
| BehaviorExtract.ExtractSectionRaw | backend/app/services/behavior_analytics.py:327-350 | an unusable field counts as zero and two unusable ones as nothing; the result is the tally of what is left |
| BehaviorExtract.VisitCounts | backend/app/services/behavior_analytics.py:327-350 | one more entry with a name and some "hovers" or "ms" raises exactly that section, its hovers by the whole number under "hovers" and its time by the amount under "ms", an unusable one counting as zero |
| BehaviorExtract.OthersVisitNothing | backend/app/services/behavior_analytics.py:327-350 | one more entry of any other kind changes nothing |
| BehaviorExtract.NoVisitExactlyWhen | backend/app/services/behavior_analytics.py:226-269 | an entry is of another kind exactly if its key is blank, its value no dictionary, or neither field a positive number of its sort |
| BehaviorExtract.AggregateButtonCounts | backend/app/services/behavior_analytics.py:302-307 | the aggregate is the pointwise sum over the rows, in whatever order the dictionaries yield their items |
| BehaviorExtract.AggregateSections | backend/app/services/behavior_analytics.py:353-359 | the same for sections |
| BehaviorExtract.AggregatesAdd | backend/app/services/behavior_analytics.py:302-307 | aggregating two concatenated lists is the pointwise sum of the two aggregates, for arbitrary malformed input |
| BehaviorExtract.AggregatesPermute | backend/app/services/behavior_analytics.py:302-307 | the aggregate does not depend on row order |
| BehaviorExtract.TotalsByName | backend/app/services/behavior_analytics.py:353-359 | each name's total is the number of clicks on it, or the activity in it, in the raw rows |
| BehaviorExtract.GrandTotals | backend/app/services/behavior_analytics.py:310-311 | the grand totals are the sums of all usable entries, that of the buttons the number of clicks in the raw rows |
| BehaviorStats.TopIsBest | backend/app/services/behavior_analytics.py:310-321 | no entry left out of the list beats one in it |
| BehaviorStats.TopIsUnique | backend/app/services/behavior_analytics.py:312-313 | the ranking does not depend on the order of the dictionary |
| BehaviorStats.Round2Is | backend/app/services/behavior_analytics.py:249-250 | a rounded number is the nearest hundredth, and of two equally near ones the even one |
| Ordering.StrLeIs | backend/app/services/behavior_analytics.py:312-313 | names are compared by code point: one is the other's beginning, or has the lower character where they first differ |
| BehaviorReport.ButtonStatsAreTheTop | backend/app/services/behavior_analytics.py:310-321 | every stat shows its own button's count, and an omitted button has a smaller count or an equal one and a later name |
| BehaviorReport.ButtonStatsInOrder | backend/app/services/behavior_analytics.py:310-321 | the stats come with the highest count first and equal counts by name |
| BehaviorReport.ButtonShareClose | backend/app/services/behavior_analytics.py:314-321 | each share is within 0.005 of the exact percentage and in 0..100 |
| BehaviorReport.ButtonSharesSum | backend/app/services/behavior_analytics.py:310-321 | min(10, n) stats whose shares sum to at most 100.05 |
| BehaviorReport.BuildSectionStats | backend/app/services/behavior_analytics.py:362-387 | the loop yields the ranked list with its averages and shares |
| BehaviorReport.SectionStatsAreTheTop | backend/app/services/behavior_analytics.py:362-387 | the same ranking claim for sections, by duration then name |
| BehaviorReport.SectionStatsInOrder | backend/app/services/behavior_analytics.py:362-387 | the sections come with the longest duration first and equal ones by name |
| BehaviorReport.SectionAverageIs | backend/app/services/behavior_analytics.py:369-372 | a section's average is its seconds per interaction to the nearest hundredth, 0 without interactions |
| BehaviorReport.SectionShareClose | backend/app/services/behavior_analytics.py:372-378 | each section share is within 0.005 of the exact percentage and in 0..100 |
| BehaviorReport.SectionSharesSum | backend/app/services/behavior_analytics.py:362-387 | min(10, n) sections whose shares sum to at most 100.05 |
| BehaviorReport.SectionReportIsUnique | backend/app/services/behavior_analytics.py:362-387 | a dictionary gives one list of section stats, however its items are ordered |
| BehaviorReport.SectionTotalsNonNegative | backend/app/services/behavior_analytics.py:327-359 | whatever the rows hold, no aggregated duration is negative |
| BehaviorReport.ReportIsUnique | backend/app/services/behavior_analytics.py:310-321 | a dictionary gives one list of stats, however its items are ordered |
| AnalyticsOverview.PreScopedRowsAreEnough | backend/app/routes/analytics.py:50-56 | the overview of the rows the database pre-selects equals the overview of the whole tables if and only if no metric in the period depends on the fallback to its application's timestamp |
| AnalyticsOverview.MissingTimestampIsLost | backend/app/services/behavior_analytics.py:198-220 | whatever else is in the tables, a metric without a timestamp whose application's lies in the period belongs to the overview of the whole tables, is not selected by the route, and makes the route count fewer metrics |
| AnalyticsOverview.PeriodsAreNested | backend/app/services/behavior_analytics.py:178-195 | at a fixed now, a longer period holds every row of a shorter one and counts at least as many |
| AnalyticsOverview.DayWeekMonth | backend/app/services/behavior_analytics.py:76-80 | the day's rows are among the week's, and the week's among the month's |
| AnalyticsOverview.InPeriodIs | backend/app/services/behavior_analytics.py:178-195 | a row is in the period if it is at most 24 hours, 7 days or 30 days old and older than now |
| AnalyticsOverview.OverviewMeasured | backend/app/services/behavior_analytics.py:429-434 | the counts are those of the rows in the period, and the applications with metrics those of them that a metric of the period is about |
| AnalyticsOverview.OverviewAverages | backend/app/services/behavior_analytics.py:436-453 | average and median time and average return are the rounded mean, the rounded median and the rounded mean of the numbers in the rows of the period, none without numbers; the total return is their sum; the period ends now |
| AnalyticsOverview.NumbersOfRows | backend/app/services/behavior_analytics.py:436-448 | a row gives its time on the page if that is an amount and its returns if that is a whole number, and otherwise nothing |
| AnalyticsOverview.OverviewButtons | backend/app/services/behavior_analytics.py:455-457 | the unique buttons are those clicked in the raw rows of the period; those shown, min(10, n), have their own number of clicks, and none left out has more |
| AnalyticsOverview.OverviewSections | backend/app/services/behavior_analytics.py:459-460 | a section shown has the interactions and the rounded seconds of the raw rows of the period |
| AnalyticsOverview.PartsOfApplications | backend/app/services/behavior_analytics.py:429-434 | with and without metrics are non-negative and sum to the application count |
| AnalyticsOverview.MedianSplits | backend/app/services/behavior_analytics.py:436-442 | at most half of the values lie below the median before rounding, and at most half above it |
| AnalyticsOverview.MiddleIs | backend/app/services/behavior_analytics.py:442-442 | the median is the mean of the lower and the upper middle value |
| AnalyticsOverview.ClicksAreConserved | backend/app/services/behavior_analytics.py:456-457 | total clicks equal the number of clicks in the raw rows of all metrics in the period |
| ApplicationsSection.ShowsWhatWasAskedLast | frontend/src/pages/adminApplications.ts:672-744 | in every interleaving: while interactive, not loading and not in error, items, skip and total are those of the most recently issued request, whose priority is the current filter and whose search is the current text unless a debounce is pending; skip stays a multiple of 100 |
| ApplicationsSection.AsksWhatTheUserChose | frontend/src/pages/adminApplications.ts:896-926 | in every run, while in use, the latest request asks for the level of the last filter click made while in use and, unless typed text is unsent, for the last text typed while in use, without the white space around it |
| ApplicationsSection.FilterClickAsks | frontend/src/pages/adminApplications.ts:896-912 | a click on another filter selects it, cancels a pending search and issues one request, from skip 0 with that level |
| ApplicationsSection.EventsAsk | frontend/src/pages/adminApplications.ts:846-1010 | which events issue a request, where it starts, and that each issues at most one |
| ApplicationsSection.OverExactlyAfter | frontend/src/pages/adminApplications.ts:956-1029 | the section ends exactly when another mount takes over, the panel is rendered anew or the awaited answer is 401 |
| ApplicationsSection.OverForGood | frontend/src/pages/adminApplications.ts:986-998 | a section that has ended is not in use, shows no response and keeps its criteria |
| ApplicationsSection.SupersededChangesNothing | frontend/src/pages/adminApplications.ts:700-713 | a response to an older request or activation changes nothing |
| ApplicationsSection.LoadingEnds | frontend/src/pages/adminApplications.ts:672-744 | while loading, the awaited answer is that of the latest request, and it is shown when it comes |
| ApplicationsSection.StepKeeps | frontend/src/pages/adminApplications.ts:846-1029 | every click, keystroke, timer, tab change and response keeps the invariant behind this |
| ApplicationsSection.WalkCoversTheList | frontend/src/pages/adminApplications.ts:855-869 | over a list that does not change, pressing Next shows it from the start without gaps or repetitions, and Next is refused exactly when all of it has been seen |
| ApplicationsSection.PreviousGoesBack | frontend/src/pages/adminApplications.ts:859-862 | Previous asks for the page before, and does nothing on the first |
| ApplicationsSection.EmptyPageIsTheFirst | frontend/src/pages/adminApplications.ts:653-660 | in every run in which the totals found for a query never fall and every request beyond the first page kept the query of the request before it, an empty page shown is the first page |
| ApplicationsSection.TypingBeforeNextShowsNothing | frontend/src/pages/adminApplications.ts:855-869 | the input for which the guard is missing: text typed and not yet sent, then Next, and an empty page at skip 100 follows though no total changed |
| ApplicationsSection.ReloadShowsItemsExactlyWhenQueryUnchanged | frontend/src/pages/adminApplications.ts:855-869 | from any honest page with items, Next, Previous or Refresh to a page beyond the first shows items under every honest answer in which no query's total has fallen, if and only if filter and trimmed text read as they did when the page was asked for |
| ApplicationsSection.QueriesKeptExactlyWhenGuarded | frontend/src/pages/adminApplications.ts:846-869 | over every run: each request beyond the first page kept the query of the one before it if and only if every such click found the criteria unchanged |
| ApplicationsSection.EmptyPageBeyondTheFirst | frontend/src/pages/adminApplications.ts:653-660 | an empty page is shown at skip 100 when rows are deleted in between, unlike the comment says |
| ApplicationsSection.NextPageEmptyExactlyWhenShrunk | frontend/src/pages/adminApplications.ts:855-869 | an honest answer to Next is shown empty exactly if it counts no more rows than were walked past; with an unchanged query, exactly if that many were deleted |
| ApplicationsSection.Section.EndLoad | frontend/src/pages/adminApplications.ts:700-743 | what one response does, under the generation and activation captured with its request |
| ApplicationsSection.Section.OnPagerClick | frontend/src/pages/adminApplications.ts:855-869 | Prev and Next move by one page, or are ignored |
| ApplicationsSection.Section.OnFilterClick | frontend/src/pages/adminApplications.ts:896-912 | while in use, the clicked filter becomes the selected one; another one than before starts at the first page and cancels a pending search |
| AnalyticsSection.ShowsTheSelectedPeriod | frontend/src/pages/adminAnalytics.ts:545-584 | in every run, while in use, the latest request asks for the period clicked last while in use, the week at first; neither loading nor in error, the overview shown is the answer to it |
| AnalyticsSection.PeriodClickAsks | frontend/src/pages/adminAnalytics.ts:636-652 | a click on another period selects it and asks for it at once, even over a load under way |
| AnalyticsSection.OverForGood | frontend/src/pages/adminAnalytics.ts:540-566 | a section that has ended is not in use and shows no response |
| AnalyticsSection.SupersededChangesNothing | frontend/src/pages/adminAnalytics.ts:564-566 | a response of an earlier activation changes nothing |
| AnalyticsSection.ActivatingTwiceSticks | frontend/src/pages/adminAnalytics.ts:661-666 | the tab switcher's guard is needed: activating the open tab again while it loads leaves it loading for good |

## Left out

- HTTP wiring, status codes beyond the distinction of outcomes, and Pydantic: validated records are the input, with their bounds as preconditions.
- SHA-256, Argon2, JWT and random tokens: texts are compared where the code compares digests, and tokens are fresh numbers.
- SQLAlchemy's identity map, refresh after commit and reflection; a refresh that races a delete is outside the protocol.
- Deadlock detection: a deadlocked transaction is one that aborts.
- Creation of services and of further administrators, and changes of metrics by administrators, which touch neither keys nor capabilities.
- The point tables of the score: the sum of points is a parameter, clamped as in the code, and only the tables of the deadline and the task scope are written out. The texts of the reasons are left out.
- Case folding that changes the length of a text, and collations in ORDER BY.
- Floating-point error, negative zero in analytics, and integers too large for a float, on which `math.isfinite` raises.
- Naive timestamps: all timestamps are taken as normalised to UTC.
- The order and wording of reported schema problems: contracts say which are reported.
- Privileges, views, indexes and rows during adoption and migration, apart from the score backfill; an owner stands for the table and its own sequence.
- Concurrent adoption runs.
- DOM, focus, the application modal with its own request, formatting, routing, Docker, command lines and `bootstrap_roles.py`.
- Limits of NUMERIC(12, 2) on a service's bounds: bounds are any whole numbers, so a bound written at the very edge of the column's range counts like any other.
- SubmissionSession.Session.CreateApplication: states the uncontended run only, because the contended ones are stated over all interleavings by the refinement.
- PriorityPages.GetPrioritizedApplicationsPage: takes `skip` and `limit` as natural numbers, as the route's validation does.
- AnalyticsSection.ShowsTheSelectedPeriod: assumes the tab switcher's guard against activating the open tab, which ActivatingTwiceSticks shows to be needed.
- Migrations.UpgradeSucceeds: does not model names already taken by constraints, indexes, views or sequences, so a legacy schema that holds, say, an index `ix_applications_priority_score` or a constraint `applications_service_id_fkey` on another column passes the verification and still makes a statement fail.
- Migrations.Database.Upgrade0004: leaves out the index `ix_applications_priority_score`, because no index is modelled.
- ServiceBounds.UnchangedRowStaysOrdered: is a sufficient condition only; the exact one, against every row the update may meet, is SafeExactlyWhenBalanced.
- HomeRetry.ClearingUnsticks: says only what the next attempt is not told; when a submission stays possible at all is StuckExactlyWhenNeverCleared.
- SubmissionRecords.RowsAreWhatWasSent: says nothing about a column once a patch has named it, because what is written then depends on what the patch had read; OnlyPatchesEdit says to what it can have changed, and Session.UpdateApplication what an uncontended patch leaves.
- The names of services in runs: that an application's product is the name of its service is stated at the commit of its creation, and OnlyPatchesEdit says that only a patch changes it.
