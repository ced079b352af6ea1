# Durable writes of the community runtime: a verified model

The runtime keeps everything a community writes in one SQLite file: documents as
hash-linked logs of signed operations, facts as chains of claim revisions, planning records
under a versioned catalogue, and an outbox from which transports lease operations. Several
cores may work on the same file at once, so nothing may rest on the locks inside one process:
every write is read, validated and then committed by compare-and-swap inside one transaction.

This project models that write path and proves what it keeps in every reachable state, for any
number of requests in flight, any interleaving of their repository calls, requests that die
between two calls and clocks that move backwards.

| file | what it holds |
|---|---|
| `Domain.dfy`, `Wrappers.dfy`, `Lexical.dfy` | the values that cross the store boundary; registered predicate names; text order |
| `Database.dfy` | the tables as values, the reads of the handlers, what each transaction does |
| `Store.dfy` | the same transactions as statements on mutable tables with rollback, refined to `Database` |
| `Protocol.dfy` | requests as sequences of repository calls; `Run` gives the reachable states |
| `DocumentLog.dfy`, `FactLedger.dfy`, `PlanningCatalog.dfy`, `Outbox.dfy` | the invariants of each group of tables |
| `Safety.dfy` | the invariant of the whole protocol, kept by every step |
| `Theorems.dfy` | what the store promises, for all runs |
| `Progress.dfy`, `Independence.dfy` | what a request achieves alone, and among others that keep apart |
| `Contention.dfy`, `Witnesses.dfy`, `HiddenRow.dfy` | what a race does; runs that reach the corner cases |
| `Graph.dfy`, `DependencySearch.dfy` | the dependency-cycle search against a definition by walks |
| `JsonSchema.dfy` | the schema checker against the value checker |
| `ProjectionCheck.dfy`, `Doctor.dfy` | the two built-in consistency checks |
| `Paging.dfy`, `HistoryPaging.dfy`, `HistoryCursor.dfy` | cursor pages over tables that grow meanwhile; the text of a history cursor |
| `ToolkitValues.dfy`, `ToolkitLedger.dfy`, `ToolkitSafety.dfy`, `ToolkitQuery.dfy` | toolkit concepts, assertions, reviews; what writes keep of them; queries |
| `ToolkitProtocol.dfy` | toolkit handlers of several cores, call by call, each core under its lock |
| `LockRegistry.dfy`, `NoteDiff.dfy` | the in-process lock table; the note diff of the Python client |

How the model reads the system:

- A transaction is one step that applies or leaves the tables alone. A handler is a task whose
  constructor names the repository call it makes next. A label that does not apply changes nothing.
- The clock of every commit, claim and acknowledgement is an argument of its own.
- A Loro update is the free term over what it was staged from, and a state is the multiset of the
  updates replayed, so replay does not depend on order. Log ids are injective in the document key.
  Operation hashes come with the forged record; that they are unique follows from the table's key.
- Where code and intention part, the code is followed: a boolean or null schema node accepts no
  value (`BooleanNodesAcceptNothing`, `FlagIsRefused`), the projection check files rows under keys joined by `/`
  (`ExactWhenKeysApart`, `DifferenceIsHidden`), revision times stop growing at the largest 64-bit
  integer (`AssertionAgreesExactly`, `TablesComeApart`), and a revision number counts a document's
  updates while a sequence number counts one author's (`AcknowledgedRevision`, `TwoAuthors`), and
  the cardinality promise of toolkit concepts holds within one core only (`LockSerializes`,
  `TwoCoresDisagree`), where a commit keeps it exactly when it clashes with nothing (`RecheckDecides`).

## Model

| member | source | states |
|---|---|---|
| Store.Tables.CommitLocal | src/adapters/sqlite.rs:934-1015 | the statement-by-statement transaction ends as the value-level commit says: all rows and projections in, or, on any of its failures, every table as before |
| Store.Tables.ApplyFact | src/adapters/sqlite.rs:1025-1098 | the fact branch: previous-hash check, conflict recheck, superseding, new revision and claim row, with the clamped revision time |
| Store.Tables.ApplyPlanning | src/adapters/sqlite/planning.rs:58-137 | grant recheck, version compare-and-swap and upsert, or nothing; success raises the expected version by exactly one and touches no other plan |
| Store.Tables.RegisterSchema | src/adapters/sqlite/facts.rs:36-77 | a schema is inserted once or refused; every schema there was stays as it was |
| Store.Tables.GrantProfile | src/adapters/sqlite/planning.rs:36-56 | a grant opens writing exactly when it gives both rights, and leaves every other application and community as it was |
| Store.Tables.ClaimOutbox | src/adapters/sqlite.rs:1167-1232 | the claim loop leases exactly the selected candidates in order, and fails as a whole on attempt overflow |
| Store.Tables.AckOutbox | src/adapters/sqlite.rs:1234-1256 | an acknowledgement settles exactly a live lease of the same attempt, or changes nothing; no other row changes and no later acknowledgement of that row matches |
| Safety.RunInv | src/adapters/sqlite.rs:934-1107 | the joint invariant of all tables, all requests in flight and all answers given holds in every reachable state of any number of cores |
| Safety.NextKeepsInv | src/application.rs:538-611 | every single repository call, administrative step, claim and acknowledgement keeps that invariant |
| DocumentLog.CommitKeepsDocuments | src/adapters/sqlite.rs:944-1013 | a commit keeps logs linked, tables aligned, updates staged from complete bases and keys matched to operations |
| DocumentLog.CountCheckDecides | src/adapters/sqlite.rs:945-953 | of the two checks of a commit the update count alone decides: a prepared commit loses no update if and only if its document still has the updates it was staged from |
| DocumentLog.LoadedUpdates | src/adapters/sqlite.rs:899-911 | a read of a document's updates sees each of them once |
| DocumentLog.SortReplays | src/adapters/sqlite.rs:899-911 | and lists them by creation time and hash |
| DocumentLog.RevisionIsSequencePlusOne | src/application.rs:570-596 | a reported revision is at least sequence + 1, and equal to it exactly when the document had one author so far |
| Theorems.NoLostUpdate | src/application.rs:553-609 | in every reachable state each update was staged from exactly the updates its document then had, although updates and head are read in two calls |
| Theorems.LogsAreChains | src/adapters/sqlite.rs:955-980 | each author's log of each document runs 0..head without a gap, each backlink names the entry before, the head row names the last |
| Theorems.RowsCorrespond | src/adapters/sqlite.rs:980-1013 | operation, update, change-feed and outbox rows stay in one-to-one correspondence; every operation has one key and every key's stored response names a committed operation |
| Theorems.ExactlyOnce | src/adapters/sqlite.rs:871-897 | all answers ever given for one caller and key are one response to one request, and it reports one committed operation with its revision and state |
| Theorems.OneKeyPerOperation | migrations/0001_core.sql:230-237 | two keys never report the same operation |
| Theorems.UsedKeyChangesNothing | src/application.rs:251-307 | once a key has a response, no repository call or page read of a request under it, however far along, changes the store or answers anything but that response |
| Theorems.LookupReplays | src/adapters/sqlite.rs:871-897 | every idempotency lookup under a used key ends the request: answered with the stored response for the same digest, refused for another |
| Theorems.RetryReplays | src/application.rs:498-560 | so a retry that starts after the key is used is answered with the stored response by its first call; a planning retry by its second, exactly while its caller may write |
| Theorems.AcknowledgedRevision | src/application.rs:583-609 | every answer of every run reports a revision of at least its sequence + 1, and exactly that when its author was the document's only one so far |
| Theorems.ClaimsAreChains | src/adapters/sqlite.rs:1042-1098 | each claim's revisions are one linear history of one topic that ends in the current row; all but the last are superseded, a lone first one is asserted, none is off the chain |
| Theorems.EveryRevisionWasWritten | src/adapters/sqlite.rs:1025-1098 | each revision of a reachable state was written by one step of the run: the first of its claim asserted, each later one over the then current revision, of the same topic and not retracted or expired; since then it has at most been superseded |
| Theorems.SingleActiveClaim | src/adapters/sqlite.rs:1053-1076 | two active claims on one subject and predicate exist only under a schema that allows several, across cores |
| Theorems.RevisionsConform | src/application.rs:869-1001 | every stored revision fits its registered, enabled schema: predicate, provenance, confidence, value and lifecycle policy; its value is accepted, and no part of it falls under a boolean or null node |
| Theorems.TerminalForever | src/application.rs:1003-1018 | a claim that reached RETRACTED or EXPIRED keeps its row forever, also against requests whose check ran before |
| Theorems.FactCommitIsAtomic | src/application.rs:285-335 | a fact commit that succeeds is one the handler would accept, value checker included, on schema, claim and rivals read at that instant |
| Theorems.PlansConsistent | src/application/planning.rs:712-737 | every plan of every reachable state holds at most 10,000 rows of a kind, resolves its references and has no dependency cycle |
| Theorems.PlanningCommitIsAtomic | src/adapters/sqlite/planning.rs:66-105 | at the instant of a successful planning commit the grant is there, a whole catalogue can be read, and every one read then accepts the row |
| Theorems.CatalogueIsPlanOrStale | src/application/planning.rs:352-370 | a catalogue read in five calls, whatever came between them, is the plan of a later state if and only if that plan still has its version; then the handler's verdict on it is the right one |
| Theorems.TornCatalogueNeverCommits | src/adapters/sqlite/planning.rs:85-101 | whenever a commit that carries a catalogue's version goes through, that catalogue is the whole plan at that instant and accepts the row |
| Theorems.LeasesAreDisjoint | src/adapters/sqlite.rs:1179-1213 | for any clock a row's leases have growing attempts and each starts after the one before ran out |
| Theorems.AcknowledgedOnce | src/adapters/sqlite.rs:1234-1256 | at most one acknowledgement per row and transport ever succeeds; it is for the last attempt leased, within its lease, and final |
| Theorems.UrgentFirst | src/adapters/sqlite.rs:1178-1185 | in every reachable state a claim considers the most urgent claimable rows, oldest first among equals, as many as its limits allow |
| Theorems.ClaimIsExact | src/adapters/sqlite.rs:1167-1232 | in every reachable state a claim answers with the selected rows in order, with their hashes, sizes and next attempts, within the byte budget; it is empty only if no candidate fits, and no delivery row but theirs changes |
| Theorems.NothingIsLost | src/adapters/sqlite.rs:934-1013 | whatever follows, operation, update, change and outbox rows stay in place, responses and schemas are never replaced, a revision can only become superseded and a changed plan has a higher version |
| Contention.HeadCheckAloneIsNotEnough | src/adapters/sqlite.rs:945-975 | from every reachable state two mutations of one document can race so that the log-head check passes for a stale update and only the update count refuses it |
| Contention.SecondAuthorRunsAhead | src/application.rs:570-596 | from every reachable state a new author's first mutation of a written document has sequence 0 and a revision that counts everybody's updates |
| Witnesses.RaceFromNothing | src/adapters/sqlite.rs:945-975 | a run from the empty store ends in such a race |
| Witnesses.TwoAuthors | src/application.rs:570-596 | a run from the empty store ends with revision 2 reported for an operation of sequence 0 |
| Witnesses.FirstPut | src/application/planning.rs:90-155 | a run from the empty store in which a planning put commits |
| Progress.FreshCommitGoesThrough | src/adapters/sqlite.rs:944-1013 | a commit staged from the current store passes both checks, and is written if and only if its projection applies |
| Progress.UndisturbedMutationCommits | src/application.rs:498-611 | a mutation nobody comes between is, from its entry on, committed and answered with the next revision |
| Progress.UndisturbedAssertionCommits | src/application.rs:251-383 | so is every assertion the handler's checks allow, through its schema, claim and rival reads |
| Progress.UndisturbedPutCommits | src/application/planning.rs:90-541 | and every planning put that keeps its plan consistent, through the reads of version and catalogue |
| Independence.ApartIsAlone | src/application.rs:498-611 | whatever other requests do elsewhere between its calls, a request meets the fate it meets alone |
| Independence.ElsewhereSpares | src/adapters/sqlite.rs:934-1107 | a step on another document, key, claim and plan changes nothing the request can see |
| Independence.MutationAmongOthers | src/application.rs:498-611 | so a mutation is committed and answered with the next revision under every interleaving with steps elsewhere |
| Independence.AssertionAmongOthers | src/application.rs:251-383 | so is an allowed assertion, among requests on claims that are no rivals of it |
| Independence.PutAmongOthers | src/application/planning.rs:90-541 | and a consistent planning put, among requests on other plans |
| FactLedger.FactCommitKeepsFacts | src/adapters/sqlite.rs:1042-1098 | a fact commit keeps every claim's chain, every schema's fit and single activity, and only extends the tables |
| FactLedger.WriteKeepsSingleActive | src/adapters/sqlite.rs:1053-1069 | the recheck in the transaction suffices, because the predicate name identifies the schema |
| Domain.PredicateNamesSchema | src/application.rs:744-746 | `id@version` is injective although ids may contain `@` |
| Safety.AcceptedConforms | src/application.rs:869-895 | a fact the handler accepts conforms to the declarative reading of its schema |
| PlanningCatalog.HandlerExact | src/application/planning.rs:322-398 | on a whole catalogue the put handlers accept a row exactly when writing it keeps the plan bounded, resolved and acyclic |
| PlanningCatalog.PageIsWhole | src/adapters/sqlite/planning.rs:139-161 | a page of 10,001 rows over a table of at most that many is the whole table |
| PlanningCatalog.CatalogExists | src/adapters/sqlite/planning.rs:139-161 | every plan can be read as a whole catalogue |
| PlanningCatalog.CatalogReady | src/application/planning.rs:352-370 | a catalogue read after its version, still current at commit, makes the row safe |
| PlanningCatalog.PlanningCommitKeepsPlans | src/adapters/sqlite/planning.rs:85-137 | a planning commit keeps every plan consistent and raises the version of the one it changes |
| PlanningCatalog.CommitIsSourced | src/adapters/sqlite/planning.rs:85-137 | every planning row keeps pointing to an operation of its own namespace and community, under the profile digest |
| DependencySearch.BuildEdges | src/application/planning.rs:740-748 | the adjacency map lists exactly the catalogue's edges without the replaced one, plus the new one |
| DependencySearch.RejectDependencyCycle | src/application/planning.rs:739-764 | the stack search ends and rejects exactly when a walk leads from the successor back to the predecessor |
| DependencySearch.AcceptsExactlyAcyclic | src/application/planning.rs:739-764 | which is exactly when the new graph, from an acyclic one, would have a cycle |
| JsonSchema.ValidateSchemaNode | src/application.rs:756-867 | the checker with its threaded node counter accepts exactly the well-formed schemas within depth and node limits |
| JsonSchema.SchemaAgreement | src/application.rs:897-1001 | on an accepted schema the value checker never fails on the schema itself and accepts exactly the conforming values no part of which falls under a boolean or null node |
| JsonSchema.BooleanNodesAcceptNothing | src/application.rs:982-998 | a boolean or null node refuses even values that conform to it |
| JsonSchema.BooleanPropertyRefused | src/application.rs:897-1001 | under a registered schema no object with a boolean or null property is ever accepted |
| Witnesses.FlagIsRefused | src/application.rs:756-998 | a schema that can be registered and a conforming fact it refuses for its boolean alone |
| Outbox.SelectionExact | src/adapters/sqlite.rs:1199-1229 | the rows selected are the longest prefix within the budget after dropping leading oversized ones; some row is selected exactly when some row fits |
| Outbox.LoopSelects | src/adapters/sqlite.rs:1199-1229 | what the loop has taken when it stops is that selection and no other |
| Outbox.MostUrgentFirst | src/adapters/sqlite.rs:1178-1185 | the candidates are the first ready rows by priority and id |
| Outbox.ClaimKeeps | src/adapters/sqlite.rs:1207-1220 | a claim keeps the record of leases and acknowledgements for any clock |
| Outbox.AckKeeps | src/adapters/sqlite.rs:1240-1254 | so does an acknowledgement |
| ProjectionCheck.TablesAgree | src/adapters/sqlite/facts.rs:419-460 | current and expected rows are equal exactly when every claim's row comes from its newest revision |
| ProjectionCheck.CommitAgreesExactly | src/adapters/sqlite.rs:1046-1052 | a fact commit keeps that exactly when the revision time can still grow or the new hash is larger |
| ProjectionCheck.AssertionAgreesExactly | src/adapters/sqlite.rs:1046-1052 | from every reachable state with equal tables an allowed assertion leads to equal tables if and only if its claim's time can still grow or its hash is larger |
| Witnesses.ExhaustedTimeDisagrees | src/adapters/sqlite.rs:1051 | under every schema that lets a fact be asserted again some run from the empty store takes the two tables apart |
| Witnesses.TablesComeApart | src/adapters/sqlite/facts.rs:393-417 | there is such a schema, so in some run the check finds a difference nobody made |
| ProjectionCheck.AlwaysConsistent | src/adapters/sqlite/facts.rs:393-417 | in every run whose clocks leave room for one millisecond per step the two tables are equal, whichever way the clock moves |
| ProjectionCheck.AlwaysReportsConsistency | src/adapters/sqlite/facts.rs:393-460 | and the check, which files rows under joined keys, says so |
| ProjectionCheck.CheckExact | src/adapters/sqlite/facts.rs:456 | over claims no two of which share a joined key the filed tables are equal exactly when the tables are |
| ProjectionCheck.ExactWhenKeysApart | src/adapters/sqlite/facts.rs:456 | over any claims the filed check is exact if and only if no two of them share a joined key |
| ProjectionCheck.PlainKeysApart | src/adapters/sqlite/facts.rs:456 | without slashes in application and community ids no two claims share one |
| ProjectionCheck.SlashesHideRows | src/adapters/sqlite/facts.rs:456 | with slashes some set of claims is not apart, so two different tables are filed alike |
| HiddenRow.DifferenceIsHidden | src/adapters/sqlite/facts.rs:393-460 | a run in which the tables differ and the check, over listings in its own order, reports consistency |
| ProjectionCheck.Report | src/adapters/sqlite/facts.rs:398-406 | examples are distinct and real, complete below ten, and absent exactly when the check is consistent |
| Doctor.AlwaysHealthy | src/adapters/sqlite/facts.rs:509-545 | in no reachable state does a query on bodies, log continuity, pending dependencies, claims, revision chains, planning profiles or outbox references report a row |
| Doctor.HealthyAndConsistent | src/adapters/sqlite/facts.rs:526-532 | nor does the projection query, while the clocks leave a millisecond per step |
| Doctor.NoDiscontinuity | src/adapters/sqlite/facts.rs:511-513 | every backlink names the previous entry of the same log |
| Doctor.NoChainCycle | src/adapters/sqlite/facts.rs:523-525 | following supersedes links never returns to a revision |
| Paging.Changes | src/adapters/sqlite/documents.rs:47-80 | fetching one row more, noting and dropping it yields the page, its cursor and whether there is more |
| Paging.FeedDeliversAll | src/adapters/sqlite/documents.rs:52-80 | chasing the change feed of a running store delivers each matching row once, in order, in full pages, until caught up |
| Paging.ChangesGrow | migrations/0006_document_changes.sql:1-20 | each update row inserted gets one change row with the next id: between any two states of a run the change table only grows, ids rising |
| HistoryPaging.History | src/adapters/sqlite/facts.rs:196-242 | fetching one row more and popping it yields the page and the text of its cursor; a cursor that does not parse is refused |
| HistoryPaging.CursorPlaces | src/adapters/sqlite/facts.rs:201-254 | a row's cursor text reads back, and the comparison with it takes exactly the rows that sort below |
| HistoryPaging.HistoryDeliversAll | src/adapters/sqlite/facts.rs:201-242 | walking a claim's history of a running store delivers the revisions there were at the first page, newest first, each once, whatever is committed between pages |
| HistoryPaging.HistoryGrows | src/adapters/sqlite.rs:1042-1052 | between any two states of a run, while the clocks leave a millisecond per step, a claim's history only grows at its top |
| HistoryPaging.HistoryExists | src/adapters/sqlite/facts.rs:196-213 | in every such state a claim's revisions have that listing |
| HistoryPaging.RevisionGoesOnTop | src/adapters/sqlite.rs:1042-1052 | a new revision sorts above its claim's history, so above every cursor issued, if and only if the time can still grow or its hash is larger |
| HistoryCursor.CursorRoundTrip | src/adapters/sqlite/facts.rs:230-254 | a cursor reads back as the time and hash it was written from |
| HistoryCursor.HexKeepsOrder | src/adapters/sqlite/facts.rs:211-213 | comparing hashes as lowercase hex orders them as bytes |
| HistoryCursor.HashOrder | src/adapters/sqlite/facts.rs:211-213 | hashes compare as numbers exactly as their blobs and their hexadecimal texts do |
| ToolkitLedger.Tables.Apply | src/adapters/sqlite/toolkit.rs:11-102 | the statements of a toolkit projection store what storing it on values says, or a key stops them; no row is lost or rewritten |
| ToolkitSafety.RunInv | src/application/toolkit.rs:71-385 | under writes one after the other, verified values of one tool and one single-valued concept revision are equal, every value fits the type, scale and choices of its concept, and every reference resolves |
| ToolkitSafety.OrderDoesNotMatter | src/adapters/sqlite/toolkit.rs:84-99 | two catalogues with the same reviews of an assertion agree on its effective state and review hash |
| ToolkitSafety.DisagreementRejects | src/adapters/sqlite/toolkit.rs:88-95 | reviews that disagree always leave the assertion rejected |
| ToolkitSafety.UnknownStays | src/application/toolkit.rs:599-612 | an unknown assertion, which has no value, can never be reviewed |
| ToolkitSafety.RecheckDecides | src/adapters/sqlite/toolkit.rs:11-102 | a commit keeps the cardinality promise if and only if its row clashes with nothing in the tables at the commit, which no statement looks at |
| ToolkitSafety.UnlockedWritesDisagree | src/application/toolkit.rs:721-746 | two writes that both pass the check on one catalogue keep the promise together if and only if their values are equal |
| ToolkitProtocol.LockSerializes | src/application/toolkit.rs:212-218 | in one core, whatever handlers do between their calls and wherever they die, the tables are those of the committed requests one after the other |
| ToolkitProtocol.TwoCoresDisagree | src/application/toolkit.rs:245-291 | a run of two cores that both commit after a passed check and break the promise |
| ToolkitProtocol.AlwaysSound | src/application/toolkit.rs:71-385 | for any number of cores, on catalogues read table by table, values fit, states follow from reviews, each concept has one active revision and every reference resolves |
| ToolkitQuery.EvaluationReadsSet | src/application/toolkit.rs:882-983 | the evaluation of a requirement is a reading of the set of relevant assertions |
| ToolkitQuery.IndependentOfListing | src/application/toolkit.rs:882-946 | so permuting assertions or adding unrelated ones changes no state |
| ToolkitQuery.NoLocalConflict | src/application/toolkit.rs:764-840 | on the tables of a locked core no result of any query explains a requirement by a conflict |
| ToolkitQuery.ConflictExactly | src/application/toolkit.rs:882-920 | on the tables of any number of cores a single-valued requirement is answered by a conflict if and only if verified values disagree |
| ToolkitQuery.OppositesDisagree | src/application/toolkit.rs:948-987 | on a locked core opposite operators on a single-valued concept get opposite answers, for values are of the type the operand was checked against |
| ToolkitQuery.EvaluateQuery | src/application/toolkit.rs:764-880 | a query is refused exactly when it exceeds a bound, asks nothing, names an invalid key, asks what cannot be resolved or compares with a value its concept does not admit; otherwise its results, explanations with their assertions included, are those wanted, in order, the exact ones a prefix of the reported length |
| ToolkitQuery.OrderIsUnique | src/application/toolkit.rs:816-829 | there is only one such order, up to the order of the assertions inside an explanation |
| ToolkitQuery.ResultsIndependentOfListing | src/application/toolkit.rs:764-840 | two queries whose assertions on the concepts asked for are the same, in any order and beside any others, list the same results |
| LockRegistry.DocumentLocks.Acquire | src/application.rs:613-625 | the live mutex of a document if there is one, else a new one, dead entries swept at 4096; no other mutex is touched |
| LockRegistry.DocumentLocks.OneLiveMutex | src/application.rs:613-625 | a document never has two live mutexes |
| LockRegistry.LockIdInjective | src/application.rs:614 | the NUL-joined key is injective on ids without control characters |
| LockRegistry.PlanningLocksDiffer | src/application/planning.rs:535-541 | the planning lock is never the document lock taken under it |
| LockRegistry.ToolkitLocksDiffer | src/application/toolkit.rs:446-452 | nor is the toolkit lock |
| NoteDiff.Trim | clients/python/community_workspace.py:55-60 | the two loops find a prefix and a suffix that are common, do not overlap and cannot be extended |
| NoteDiff.SaveNote | clients/python/community_workspace.py:51-68 | the mutations sent turn the old text into the new, and leave it alone exactly when it did not change |
| NoteDiff.FewestCharacters | clients/python/community_workspace.py:54-67 | no single splice deletes or inserts fewer characters |

## Left out

- Loro, p2panda, encryption, compression, CBOR and BLAKE3: updates, log ids and hashes are free terms or values. That Loro replay is independent of order is taken as given.
- SQLite itself: WAL, fsync, busy retries and the contents of unknown rows. Outside the toolkit tables foreign keys are not modelled, and CHECK constraints nowhere; the properties hold without them.
- The in-process locks inside `Protocol`: they only remove interleavings, and every theorem there holds without them. `LockRegistry` covers them on their own; in `ToolkitProtocol` the toolkit lock of a core is the one live mutex it hands out.
- Toolkit projections go through `commit_local` like the others, but are modelled apart from `Database.CommitLocal`: only their own tables bear on what is proved of them. Origins, assessment metadata, texts and the idempotency lookups of toolkit requests are left out; numbers are exact reals there too.
- HistoryPaging.HistoryDeliversAll: clocks that leave less than a millisecond per step below the largest 64-bit integer are excluded; there `RevisionGoesOnTop` says when a revision still sorts on top.
- PlanningCatalog.PageIsWhole: the order of the rows in a page is left open, no handler depends on it.
- JsonSchema.SchemaAgreement: numbers are exact reals; rounding of large JSON numbers to 64-bit floats is not modelled, nor are the byte limits on registered schemas.
- ProjectionCheck.TablesAgree: rows are compared as values; the byte encoding, in which an absent optional text equals the empty one, is left out.
- Doctor.AlwaysHealthy: SQLite's own integrity and foreign-key checks, the migration state and application acknowledgements are not among the queries; a forged header and body is nonempty by its type.
- Columns that no check reads (titles, times, statuses, recurrence) are one `info` value per planning row. The remaining entries of a fact's document mutation (object, source) are left out of its list.
- The RETRY delivery state, which nothing writes; pending and inbound updates; legacy untyped facts: the model starts from an empty store.
- Field-length, character-set and date validators other than those of toolkit keys and values: they only refuse requests earlier.
- The sizes of integers other than the log sequence, the lease attempt, the plan version and the revision time. The sum of a lease's end is not bounded.
- Error codes: success or failure is modelled, the code a client sees is not. Planning and toolkit handlers check grants and references before the idempotency lookup, so their retries may be refused rather than replayed.
- `document.list` and the page walk of the Python client, which repeat the cursor pattern proved for the feed.
- The API framing, authentication, command line, HTTP gateways, backups, migrations, CSV export and the Reticulum bridge.
