# Revy pipeline: model and proofs

Revy takes each revision of a pull request through indexing, review, reconciliation, judging and publishing. This
project models the parts of that pipeline that carry state between steps, runs and crashes, and proves what they keep.

- **Indexing** (`text`, `chunking`, `embedding`, `indexing`, `index_job`, `index_refinement`, `index_race`): the greedy
  chunker, the batching embedder, and the job that reuses the parent revision's rows. The incremental index is compared
  with the index from scratch, for one job and for every sequence of jobs. A state machine covers deliveries of one job
  racing with supersession.
- **Finding groups** (`fingerprints`, `findings`, `reconcile`, `identity`, `closure`, `lifecycle`, `overlap`,
  `overlap_laws`, `drift`): the fingerprints, the binding of findings to persistent groups in a session that does not
  flush before queries, the writers that close, reopen, dismiss and suppress groups, what every sequence of them keeps,
  and exactly what their overlapping sessions can break.
- **Revisions and generations** (`revisions`, `generations`): webhook deliveries appending revisions under optimistic
  concurrency, as a state machine over all interleavings, and superseding in-flight work while workers move.
- **Publishing** (`publish`, `thread_maps`, `stale_threads`, `judge`): one publish job with authority rechecks between
  external writes, under head moves, failing calls, crashes and retries; the two thread maps and their re-keying;
  collapsing stale threads; judge outcomes and what publishing withholds.
- **Requests** (`idempotency`, `paging`): concurrent requests under one Idempotency-Key, and keyset paging.

Conventions. SHA-256 is injective on its payload; the embedding function and the slot of a title are parameters. A
database statement, a Redis command or a compare-and-set is one atomic step. External services are parameters that say
how each call goes, and a schedule says what others do between two steps; every theorem is for all of them. Identifiers
that the program draws at random are numbers not used before.

Where a promised property is false, the model keeps the code as it is, a lemma gives the failing input, and the exact
condition is proved:

- A diff index job is right about carried files if and only if they did not change since the parent revision. The
  comparison is made with the base commit, so a file changed by one revision and put back by the next is carried stale.
- The race of an index job is safe in all schedules if and only if the job is delivered at most once: the rollback of a
  failing delivery undoes its uncommitted claim. Without errors it is safe for any number of deliveries.
- The total count check after embedding puts every vector on its own text, for all endpoints that are right about the
  texts they answer, if and only if no batch is answered with more items than it has texts.
- Legacy fingerprints of two (path, category) pairs coincide if and only if the joined text can be cut at a second
  category name between separators.
- Among groups that are not superseded, the judge status `completed` is exactly full publication when the judge loop
  ran or finalization upgraded it; it also asks for outcomes of superseded candidates. The shortcuts taken when the
  judge is off count any outcome, so a completed run can withhold a group.
- Handlers of requests under one Idempotency-Key never overlap if and only if at most two requests share the key
  (or one, when reservations expire): after a release, waiting requests run without reserving again.
- Sessions load groups, decide over slow calls, and write the changed columns without a check that the rows are still
  the same. Of these laws each is kept over a schedule of overlapping sessions, in all decisions, if and only if no
  session writes a group that it had loaded as one it writes and that has since changed in the law's own way:
  - dismissals stay: the row is dismissed by now, and the write brings another state, method or revision;
  - an unresolved group carries no method but HEAD contradiction: a reconciliation that only sets the state finds the
    method of another resolution;
  - a resolved group has a method: a writer that loaded its own method, so that it only sets the state, finds none.
- A synchronize event reports a new revision exactly when it added one, unless it lost a race for a unique key: two
  deliveries of one new sha at the same time both report it, and the second leaves work on it running.
- A publish job that is skipped leaves nothing on GitHub if and only if earlier attempts, which crashed, left nothing
  that the skipping attempt did not write itself.

## Model

| member | source | states |
|---|---|---|
| `Text.SplitLinesExact` | backend/app/services/code_chunking.py:64-64 | no line contains a line feed, a carriage return or another break, and the text is its lines with exactly one break between neighbours, a carriage return with a line feed counting as one |
| `Text.SplitLinesUnique` | backend/app/services/code_chunking.py:64-64 | no other such lines make up the text: splitting undoes putting them together |
| `Text.SplitLinesKeepsText` | backend/app/services/code_chunking.py:64-64 | splitting a file into lines loses only whitespace |
| `Text.StripKeepsText` | backend/app/services/code_chunking.py:74-75 | stripping a buffer loses only whitespace, and gives the empty text exactly when nothing else was there |
| `Text.StripCutsEnds` | backend/app/services/code_chunking.py:74-75 | stripping cuts blanks off both ends, down to a character that is none |
| `Chunking.ChunkFileContent` | backend/app/services/code_chunking.py:60-89 | the loop over lines with its running length gives the greedy chunks of the file |
| `Chunking.BuffersPartition` | backend/app/services/code_chunking.py:83-87 | the buffers, in order, are the file's lines, and each fits the limit or is one line |
| `Chunking.ChunksInPlace` | backend/app/services/code_chunking.py:60-89 | the chunks are the lines of the file joined by line feeds, in order, with nothing but whitespace cut out between them |
| `Chunking.ChunksKeepText` | backend/app/services/code_chunking.py:60-89 | the non-whitespace text of the chunks in index order is that of the file |
| `Chunking.BlankFileHasNoChunks` | backend/app/services/code_chunking.py:61-62 | a file has no chunk if and only if it is blank |
| `Chunking.ChunksBounded` | backend/app/services/code_chunking.py:76-85 | indices are 0..k-1, no chunk is empty or has whitespace at an end, and each is shorter than 2000 characters unless it is a single line without a line feed or carriage return |
| `Chunking.GreedyIsOptimal` | backend/app/services/code_chunking.py:83-87 | no in-order partition of the lines into fitting segments uses fewer buffers than the greedy one |
| `Embedding.EmbedTexts` | backend/app/integrations/voyage_embeddings.py:226-299 | the batch loop returns the replies of all batches in order, or raises when one does |
| `Embedding.BatchesPartition` | backend/app/integrations/voyage_embeddings.py:226-230 | the batches concatenate to the texts in order, none is empty or too long, and their number is the batch count stored on the job |
| `Embedding.CountCheckAligns` | backend/app/services/github_indexing.py:647-650 | when no reply is longer than its batch, the right total means every reply has its batch's length and every text its own vector |
| `Embedding.CountCheckSoundIff` | backend/app/services/github_indexing.py:647-650 | for reply lengths with the right total, every endpoint that is right about the texts it answers gives each text its own vector if and only if no reply is longer than its batch |
| `Embedding.OverlongMisaligns` | backend/app/integrations/voyage_embeddings.py:266-272 | for any overlong reply there is an endpoint, right about every text, whose answer passes the count misaligned |
| `Embedding.VectorsMeanAnswers` | backend/app/integrations/voyage_embeddings.py:226-299 | the loop returns vectors only when every batch was answered |
| `Indexing.RawChunksExact` | backend/app/services/github_indexing.py:380-392 | the chunks collected for the filtered paths are exactly the fresh chunks of those files, one per slot |
| `Indexing.FreshRowsExact` | backend/app/services/github_indexing.py:593-679 | one row per collected chunk with its text and hash, and the parent's embedding exactly when its row in that slot has the same hash and an embedding, else a computed one |
| `IndexJobs.IndexJob.ResolvePlan` | backend/app/services/github_indexing.py:472-506 | diff mode survives only with a base sha and a successful comparison; otherwise the job becomes full and says why |
| `IndexJobs.IndexJob.DeleteStale` | backend/app/services/github_indexing.py:547-571 | what the delete statements leave of the revision's rows in each combination of incremental and diff |
| `IndexJobs.IndexJob.CarryParentRows` | backend/app/services/github_indexing.py:573-591 | the parent's rows outside the changed and removed paths are added once each and counted as reused |
| `IndexJobs.IndexJob.ReuseOrQueue` | backend/app/services/github_indexing.py:593-617 | each collected chunk is added with the parent's embedding or queued, with no slot twice |
| `IndexJobs.IndexJob.RequestVectors` | backend/app/services/github_indexing.py:638-650 | one vector per queued text, and the right one when the endpoint embeds |
| `IndexJobs.IndexJob.AddVectors` | backend/app/services/github_indexing.py:652-672 | each queued chunk is added with its vector and counted as new |
| `IndexJobs.IndexJob.BuildRevisionIndex` | backend/app/services/github_indexing.py:466-739 | a whole job never violates the unique key, leaves the rows alone when it fails, and otherwise stores the specified rows with its counters adding up |
| `IndexJobs.IndexJob.IndexFiles` | backend/app/services/github_indexing.py:526-739 | reused + new + surviving rows is the chunk count, and the batch counter is the number of batches of the queued texts |
| `IndexRefinement.RowsExact` | backend/app/services/github_indexing.py:547-679 | for each slot, which row a job leaves there: the chunk of a file it reads, else the parent's row of a path the comparison does not list, else without parent rows the stored one, else none |
| `IndexRefinement.IndexedRowsOk` | backend/app/services/github_indexing.py:573-679 | in every mode each stored row's hash and embedding belong to its own content |
| `IndexRefinement.NullEmbeddingIsOld` | backend/app/services/github_indexing.py:573-591 | a stored row lacks an embedding only when it survived or was carried over without one |
| `IndexRefinement.FullEqualsFromScratch` | backend/app/services/github_indexing.py:526-679 | a full job stores exactly the rows a job without a parent would |
| `IndexRefinement.ReadPathsExact` | backend/app/services/github_indexing.py:526-679 | a path the job reads ends with exactly a fresh chunking of the file |
| `IndexRefinement.DiffConsistentIff` | backend/app/services/github_indexing.py:573-591 | a diff job leaves every carried path right if and only if those files are unchanged since the parent |
| `IndexRefinement.ReplayRowsOk` | backend/app/services/github_indexing.py:410-739 | over any sequence of jobs on a history every row stays right about its own content |
| `IndexRefinement.ReplayConsistent` | backend/app/services/github_indexing.py:410-739 | over any sequence of jobs whose carried files are unchanged, abandoned jobs included, every stored path is a fresh chunking at its revision |
| `IndexRefinement.DiffCompleteIff` | backend/app/services/github_indexing.py:526-679 | from a parent index exact on every path, a diff index is exact on every path if and only if the comparison told right about every path it does not list as changed |
| `IndexRefinement.DiffUpdateCompleteIff` | backend/app/services/github_indexing.py:553-571 | without parent rows a diff job leaves an index exact on every path if and only if each removed path is gone and each other path it does not read was exact before |
| `IndexRefinement.ReplayNullIsOld` | backend/app/services/github_indexing.py:573-679 | over any sequence of jobs a row without an embedding goes back to one that lacked it at the start |
| `IndexRefinement.AbandonedLeavesOthers` | backend/app/services/github_indexing.py:692-700 | an abandoned job leaves exactly the rows it stored that are tagged with other jobs, and touches no other revision |
| `IndexRefinement.RevertedFileIsStale` | backend/app/services/github_indexing.py:573-576 | the failing case: a file changed at one revision and put back at the next keeps stale rows |
| `IndexRace.SingleDeliveryRunsAreSafe` | backend/app/services/github_indexing.py:415-441 | with one delivery: one claim, complete or superseded but not both, terminal states never left, and no rows after an observed supersession |
| `IndexRace.ErrorFreeRunsAreSafe` | backend/app/services/github_indexing.py:696-734 | the same for any number of deliveries when no delivery raises |
| `IndexRace.SafeWithoutErrors` | backend/app/services/github_indexing.py:415-734 | from a fresh job this holds for every schedule without raising deliveries |
| `IndexRace.ExactlyOneWins` | backend/app/services/github_indexing.py:415-441 | when no delivery raises, any number of deliveries, each after its six turns, leave the job either completed with exactly the rows of the claiming delivery, or superseded without rows |
| `IndexRace.SupersededNeverCompletes` | backend/app/services/github_generation_lifecycle.py:194-227 | an unfinished job that is superseded is failed from then on and never completes, in every schedule of a single delivery or without raising ones |
| `IndexRace.LoneDeliveryOutcome` | backend/app/services/github_indexing.py:354-377 | a single delivery that may raise leaves the job completed with its rows, or failed without any |
| `IndexRace.EveryDeliveryEnds` | backend/app/services/github_indexing.py:354-377 | every delivery has ended after at most six steps of its own, whatever raises and whoever interferes |
| `IndexRace.SafeIffDeliveredOnce` | backend/app/services/github_indexing.py:354-377 | for arbitrary schedules this holds if and only if the job is delivered at most once, because a rollback undoes the claim |
| `IndexRace.DoubleDeliveryUnsafe` | backend/app/services/github_indexing.py:363-367 | the failing case: a first delivery raises and rolls back its claim, and a second claims again |
| `IndexRace.DoubleDeliveryLosesCompletion` | backend/app/services/github_indexing.py:370-371 | in it the failing delivery overwrites the completed status of the second |
| `Fingerprints.FingerprintInjective` | backend/app/services/github_finding_reconcile.py:55-73 | the joined payload determines path, category and claim slot although the path is arbitrary text |
| `Fingerprints.CurrentIsNotLegacy` | backend/app/services/github_finding_reconcile.py:76-96 | a current and a legacy fingerprint never coincide |
| `Fingerprints.LegacyInjective` | backend/app/services/github_finding_reconcile.py:76-96 | legacy fingerprints determine path, category, title and line when titles, or paths, have no separator |
| `Fingerprints.LegacyAmbiguousIff` | backend/app/services/github_finding_reconcile.py:76-96 | another (path, category) shares a legacy fingerprint if and only if the joined text can be cut at a second category name |
| `Fingerprints.LegacyCollision` | backend/app/services/github_finding_reconcile.py:85-95 | a concrete pair of findings with one legacy fingerprint |
| `Fingerprints.StartLineKeyShape` | backend/app/services/github_finding_reconcile.py:41-42 | the line key has at most 11 characters and no separator |
| `Fingerprints.StartLineKeyInjective` | backend/app/services/github_finding_reconcile.py:41-42 | the line key determines the line, a missing line counting as line 0 |
| `Reconcile.Reconciler.ContinuationCandidate` | backend/app/services/github_finding_reconcile.py:113-135 | the candidate seen in the stored rows is the one unflushed objects would give |
| `Reconcile.Reconciler.FindGroup` | backend/app/services/github_finding_reconcile.py:162-198 | a finding binds by its fingerprint, then by the legacy one, then to the sole active unbound leftover of its path and category, else to a new group |
| `Reconcile.Reconciler.BindGroupForFinding` | backend/app/services/github_finding_reconcile.py:153-239 | one binding changes exactly the linked group or adds one, and never lets stored rows lag for groups not yet bound |
| `Reconcile.Reconciler.ReconcileReviewRun` | backend/app/services/github_finding_reconcile.py:242-278 | a run binds all findings in order, links one group per finding, and ends with everything stored and fingerprints unique |
| `Identity.LinkIsOwn` | backend/app/services/github_finding_reconcile.py:162-198 | an existing group a finding is linked to has the finding's own path and category |
| `Identity.LinkPriority` | backend/app/services/github_finding_reconcile.py:162-198 | the group with the finding's fingerprint wins, then the one with its legacy fingerprint, then the only unbound active leftover of its path and category, and only then a new one is made |
| `Identity.RunKeepsIdentity` | backend/app/services/github_finding_reconcile.py:242-278 | over a run every finding ends in a group of its own (path, category), and no group changes its pair or fingerprint |
| `Identity.RunEffect` | backend/app/services/github_finding_reconcile.py:220-239 | groups no finding was bound to are unchanged, bound ones are active and last seen at this revision unless dismissed, dismissed ones are unchanged |
| `Identity.LinkedTakesLast` | backend/app/services/github_finding_reconcile.py:138-150 | a linked group that was not dismissed ends with severity, category, title, message, path and line of the last finding linked to it, active and last seen at this revision |
| `Identity.LinkedKeepsColumns` | backend/app/services/github_finding_reconcile.py:220-239 | and it keeps its fingerprint, status and claim slot; its resolution, revision and block are cleared when it was closed as absent and kept otherwise |
| `Identity.CreatedIsFirst` | backend/app/services/github_finding_reconcile.py:199-218 | a created group has the fingerprint and claim slot of the first finding linked to it and no status, block or resolution |
| `Identity.ContinuationTargetsAreFresh` | backend/app/services/github_finding_reconcile.py:129-135 | within a run no group that an earlier finding was bound to is a continuation target |
| `Closure.FindingCountsByFileCategory` | backend/app/services/github_finding_closure.py:185-198 | a key is counted exactly when a finding reports it, although a missing and an empty path share a key |
| `Closure.RuleIsClosure` | backend/app/services/github_finding_closure_rules.py:20-39 | the closing rule on counts says: active, not seen at this revision, not blocked, and path gone or nothing reported in its key |
| `Closure.GroupStore.CloseSelected` | backend/app/services/github_finding_closure.py:313-332 | the loop closes exactly the selected groups the rule closes, leaves the rest as they were, and returns their number |
| `Closure.GroupStore.ApplyPass2Closure` | backend/app/services/github_finding_closure.py:263-335 | Pass 2 closes exactly the in-scope groups the rule closes, returns their number, and does nothing without an earlier published revision |
| `Closure.GroupStore.CloseActiveGroupsForFingerprints` | backend/app/services/github_publish.py:1529-1609 | the publish job closes exactly the named active groups the same rule closes, and returns their number |
| `Closure.GroupStore.SuppressHeadContradictions` | backend/app/services/github_finding_head_suppression.py:243-280 | exactly the active contradicted groups with a path are resolved, with their Pass 1 status cleared, and counted |
| `Closure.GroupStore.DismissFindingGroup` | backend/app/services/github_finding_closure.py:541-582 | a dismissal goes through exactly for a known active group with a head revision, makes that one group one that reconciliation skips for good, and otherwise changes nothing |
| `Closure.Pass2ClosesIff` | backend/app/services/github_finding_closure.py:263-335 | Pass 2 resolves exactly the active unblocked groups, seen at a paired revision or stamped addressed but not seen at this one, whose file is gone or in whose path and category nothing is reported, and changes only their resolution |
| `Closure.ClosureIsDecidedByKey` | backend/app/services/github_finding_closure.py:296-332 | after reconcile and Pass 2 an in-scope unblocked active group not seen before at this revision, with its path present, is closed if and only if the run reports nothing in its (path, category) |
| `Closure.ClosureOfGonePaths` | backend/app/services/github_finding_closure.py:308-332 | with its path gone it is closed if and only if no finding was bound to it |
| `Lifecycle.WriterEffect` | backend/app/services/github_finding_closure_rules.py:42-94 | on the groups it loaded, each writer other than reconciliation decides to keep a group's identity and either its resolution or to resolve it by that writer's own method |
| `Lifecycle.WriterExact` | backend/app/services/github_finding_head_suppression.py:252-269 | which groups each of the other writers changes, and all it changes about them |
| `Lifecycle.JudgedIff` | backend/app/services/github_finding_judge.py:376-395 | the discovery judge resolves exactly the candidates it dismisses and makes a warning of those it modifies |
| `Lifecycle.TerminalIsForever` | backend/app/services/github_finding_closure_rules.py:117-131 | over any sequence of writers that follow each other a dismissed group, or a resolved one without a method, keeps its state, method and resolved revision |
| `Overlap.TargetChange` | backend/app/services/github_finding_closure.py:263-335 | whatever a session decides, the row it wants to store keeps the loaded resolution, or the guard it applied at load selected the row and it resolves it by its own method or, in reconciliation, activates it |
| `Overlap.AloneIsAtomic` | backend/app/services/github_finding_closure.py:263-335 | a session nobody overlaps does what its writer does in one step |
| `OverlapLaws.WriteKeepsIff` | backend/app/services/github_finding_judge.py:376-395 | for each of three laws (dismissals stay; an unresolved group has no method but HEAD contradiction; a resolved group has a method): from a lawful state a session's write keeps it in all decisions it may come to, if and only if no row it had loaded as one it writes has changed since in the way that breaks the law |
| `OverlapLaws.LawKeptIff` | backend/app/services/github_finding_closure.py:298-332 | over every schedule of overlapping sessions each law is kept by all decisions at all writes if and only if no write endangers a row |
| `OverlapLaws.LawSurvives` | backend/app/services/github_finding_closure.py:298-332 | and then the law holds to the end, and under the first a dismissed group keeps its state, method and resolved revision |
| `OverlapLaws.EndangeredHasChanged` | backend/app/services/github_finding_reconcile.py:220-239 | from a lawful load, a row is endangered only when its state, method or resolved revision has changed since the load |
| `OverlapLaws.DismissalIsOverwritten` | backend/app/services/github_finding_judge.py:296-395 | a failing schedule for the first law, for every writer but reconciliation and every active group it selects: load, human dismissal, write; the group ends with the writer's method |
| `OverlapLaws.DismissedGroupIsReopened` | backend/app/services/github_finding_closure.py:313-332 | when that writer is Pass 2, the next report opens the dismissed group again |
| `OverlapLaws.ActiveWithForeignMethod` | backend/app/services/github_finding_reconcile.py:226-235 | failing schedules for the second law: two runs load a group resolved by a HEAD contradiction, one binds it and a human dismisses it or Pass 2 closes it, then the other writes; the group ends active with that method |
| `OverlapLaws.ResolvedWithoutMethod` | backend/app/services/github_finding_head_suppression.py:252-269 | a failing schedule for the third law: a group is closed and reopened between the load and the write of a HEAD suppression, and ends resolved without a method, which no sequence of writers ever changes |
| `Lifecycle.ActiveMethodIsHeadContradiction` | backend/app/services/github_finding_head_suppression.py:252-269 | among writers that follow each other, an unresolved group carries a method only as HEAD contradiction, after a suppression that named it and a later rebinding |
| `Drift.TitleDriftKeepsIdentity` | backend/app/services/github_finding_reconcile.py:113-135 | when each run reports one finding for a path and category under any titles, and nothing dismisses it, all runs bind the one same group and its fingerprint never changes |
| `Drift.FirstReportCreates` | backend/app/services/github_finding_reconcile.py:199-218 | the first report for a path and category creates its only group |
| `Drift.OneGroupFromTheStart` | backend/app/services/github_finding_reconcile.py:153-278 | from no group for a path and category, such runs create one group at the first and bind it in all |
| `Drift.ClaimReturnsToItsGroup` | backend/app/services/github_finding_reconcile.py:162-177 | after any writers a finding with a known claim goes back to that claim's group, whatever is left over |
| `Revisions.RevisionsStayExact` | backend/app/services/github_pull_requests.py:204-284 | under every interleaving and crash: numbers are 1..count, shas distinct, revisions append-only, count never falls, returned revisions have the delivery's sha, and a delivery that gives up saw two others added |
| `Revisions.InsertIsSafe` | backend/app/services/github_pull_requests.py:241-257 | an insert at the loaded count + 1 that succeeds proves nothing was added since the sha check |
| `Revisions.FreshDeliveriesAreConsistent` | backend/app/services/github_pull_requests.py:421-538 | deliveries that have not started satisfy the invariant over any table with numbers 1..count and distinct shas |
| `Revisions.SynchronizeAlone` | backend/app/services/github_pull_requests.py:460-473 | an uninterrupted synchronize returns a revision of its sha and makes that sha the head |
| `Revisions.ReportIsRightIff` | backend/app/services/github_pull_requests.py:487-491 | in every interleaving with crashes a delivery reports its revision as new exactly when it added it itself, if and only if it did not lose a race: an insert lost to a delivery that added its sha, or the creation of the row, after which it added a revision or found its sha with a count of one |
| `Revisions.OneRevisionReportedTwice` | backend/app/services/github_pull_requests.py:228-246 | the failing schedule: two deliveries of one new sha at the same time add one revision, and both report it as new |
| `Revisions.LostCreationMisleads` | backend/app/services/github_pull_requests.py:483-487 | the other failing schedules: of two deliveries that found no pull request the second reports the winner's revision as new when it has the same sha, and reports none when it adds a revision of another |
| `Generations.JobTable.MarkSupersededCas` | backend/app/services/github_generation_lifecycle.py:86-116 | compare-and-set per id, while workers move: none of the ids stays unfinished, finished ones are untouched, and the result lists exactly the flipped ones |
| `Generations.JobTable.SupersedeScope` | backend/app/services/github_generation_lifecycle.py:119-153 | select then supersede leaves nothing unfinished in scope and flips nothing else; without other workers exactly the unfinished jobs in scope |
| `Generations.PullRequestStore.RevisionForSynchronize` | backend/app/services/github_pull_requests.py:353-394 | the known revision of the sha or a new next one, with the head moved to it and older revisions kept |
| `Generations.PullRequestStore.SupersedeFor` | backend/app/services/github_pull_requests.py:482-496 | nothing unfinished is left below the kept revision, nor on it unless it counts as new, higher revisions keep their work, and the ids are the flipped ones |
| `Generations.PullRequestStore.Synchronize` | backend/app/services/github_pull_requests.py:460-503 | as one transaction: the returned revision's sha is the head, it counts as new exactly when the sha was unknown, and work is superseded accordingly |
| `Generations.WorkLeftIsNew` | backend/app/services/github_pull_requests.py:482-496 | among rival deliveries in any interleaving: unfinished work at or below a delivery's revision is left only on that revision, and only if the delivery added it itself or lost a race |
| `Generations.RivalWorkSurvives` | backend/app/services/github_pull_requests.py:487-496 | the failing schedule: of two deliveries of one new sha at the same time, the one that added nothing leaves active work on the revision running |
| `Publish.PublishJob.Recheck` | backend/app/services/github_publish.py:215-238 | a recheck reads the current head and run, and without authority makes the job skipped |
| `Publish.PublishJob.CommitProgress` | backend/app/services/github_publish.py:2249-2252 | a commit that takes effect stores the row, and one that fails or is followed by a crash rolls the attempt back to what is stored |
| `Publish.PublishJob.Revert` | backend/app/services/github_publish.py:288-349 | when the clean-up calls succeed, check and comment are neutral and this flush's inline comments are deleted |
| `Publish.PublishJob.CreateInlineComment` | backend/app/services/github_publish.py:1298-1341 | a post follows its recheck, is recorded by the commit after it, and leaves every finding accounted for, also when a crash falls in between |
| `Publish.PublishJob.PostInlineComments` | backend/app/services/github_publish.py:2107-2187 | each finding without a recorded comment is posted after its own recheck, a failed recheck takes the writes of this flush back, and after a loop that goes through each finding had a tracked comment before, is posted, or waits for the issue comment |
| `Publish.PublishJob.ResolveStale` | backend/app/services/github_publish.py:1829-1889 | two rechecks come before exactly the stale among the tracked threads are resolved, and the map then has the other tracked ones, those of this job before those of earlier jobs |
| `Publish.PublishJob.WriteSurface` | backend/app/services/github_publish.py:1977-2105 | check and comment are written after a passed recheck, taken back when the next one fails, and committed before any inline comment |
| `Publish.PublishJob.Flush` | backend/app/services/github_publish.py:1817-2246 | a flush goes through only after a last recheck that passed; a skip leaves check and comment neutral and this flush's inline comments deleted when the clean-up calls succeed, and resolved threads stay resolved |
| `Publish.PublishJob.RunPublishJob` | backend/app/services/github_publish.py:2265-2432 | terminal jobs are never touched; an open one ends completed, skipped or failed, or is retried, when no call fails it is completed or skipped, and when nobody interferes either it is completed; the steps of a completed one come in the prescribed order with their rechecks, its own or a reused check and comment show the results, and unless its inline comments were done, by it or by the earlier job whose check it takes over, each finding is tracked from before, posted, or in the issue comment, else nothing is posted; a skipping attempt takes back its own writes and nothing else when the clean-up calls succeed |
| `Publish.SkipIsNeutralIff` | backend/app/services/github_publish.py:2265-2300 | after such a skip nothing of the job is left on GitHub if and only if earlier attempts left no inline comment, and no published check or comment but those the skipping attempt wrote itself |
| `Publish.PublishJob.RunDeliveries` | backend/app/services/github_publish.py:2265-2432 | over any crashes and retries each thread resolution, each check-and-comment write and each inline post follows its recheck, and each finding gets at most one comment beyond those lost between create and commit and those whose thread was collapsed |
| `Publish.PublishJob.MarkFailed` | backend/app/services/github_publish.py:352-364 | giving up fails only a job that is still open |
| `Publish.LostPostIsAccounted` | backend/app/services/github_publish.py:2139-2187 | a crash right after a create loses exactly that comment |
| `Publish.ResolveKeepsAccounts` | backend/app/services/github_publish.py:1872-1889 | resolving threads removes their keys and explains the comments they had |
| `ThreadMaps.RekeyToGroupIds` | backend/app/services/github_publish.py:590-646 | re-keying gives each group its last group-id entry, else its first legacy entry, keeps other keys and drops fingerprints |
| `ThreadMaps.RekeyIsIdempotent` | backend/app/services/github_publish.py:590-646 | re-keying again changes nothing |
| `ThreadMaps.IdKeysWin` | backend/app/services/github_publish.py:604-617 | an entry under a group id wins over every legacy entry |
| `ThreadMaps.RekeyCommutes` | backend/app/services/github_publish.py:590-646 | re-keying commutes with reading a part of every entry |
| `ThreadMaps.DeserializeInlineThreadMap` | backend/app/services/github_publish.py:649-663 | the comment ids of the readable entries in order |
| `ThreadMaps.LoadInlineThreadMap` | backend/app/services/github_publish.py:691-699 | the comment maps of the jobs merged in order |
| `ThreadMaps.LoadV2InlineThreadMap` | backend/app/services/github_publish.py:721-743 | the v2 maps of the jobs merged in order |
| `ThreadMaps.MergedMapsAgree` | backend/app/services/github_publish.py:691-743 | the merged v2 map and the merged comment map have the same keys in the same order and the same comments |
| `ThreadMaps.DeserializedMergeAgrees` | backend/app/services/github_publish.py:649-743 | deserializing the merged v2 map gives the merged comment-id map |
| `ThreadMaps.RekeyedMapsAgree` | backend/app/services/github_publish.py:1630-1639 | they still agree after both are re-keyed |
| `ThreadMaps.SerializeInlineThreadMap` | backend/app/services/github_publish.py:666-688 | each entry has its comment and its given thread id, else the earlier one for the same comment |
| `ThreadMaps.SerializedAt` | backend/app/services/github_publish.py:666-688 | each key gets the given thread id, else the one stored for it when that was for the same comment and not empty, else none |
| `ThreadMaps.SerializeRoundTrip` | backend/app/services/github_publish.py:649-688 | serialize then deserialize is the identity |
| `ThreadMaps.SerializeKeepsEntries` | backend/app/services/github_publish.py:666-743 | serialized entries are read back whole as v2 entries when the supplied thread ids are not empty |
| `StaleThreads.Tracker.FingerprintsToResolve` | backend/app/services/github_publish.py:832-887 | exactly the tracked keys that are unpublished, outdated, retired or addressed are selected |
| `StaleThreads.Tracker.ResolveOne` | backend/app/services/github_publish.py:1042-1088 | a thread is closed when already resolved or found and resolved within one retry; it counts as not found only after a successful lookup |
| `StaleThreads.Tracker.ResolveStaleInlineThreads` | backend/app/services/github_publish.py:1010-1090 | the tracked map splits into what stays and what was closed, and selected = closed + both skip counters |
| `Judge.JudgeRun.VerifyStillOpenEscalations` | backend/app/services/github_finding_closure.py:338-538 | verification records exactly the upheld and dismissed calls on the first ranked groups without an outcome, resolves exactly the dismissed ones, and keeps at most five outcomes on distinct groups |
| `Judge.EscalationsExact` | backend/app/services/github_finding_closure.py:338-538 | the groups put to verification are the first ones in rank order that have no outcome yet, as many as the limit allows |
| `Judge.JudgeRun.VerifyRepeatedly` | backend/app/services/github_finding_closure.py:143-156 | over any number of passes at most five verification outcomes, on distinct groups |
| `Judge.JudgeRun.RunJudgeLoop` | backend/app/services/github_finding_judge.py:299-415 | discovery records exactly the successful calls on the first ten candidate entries without an outcome, and resolves exactly the dismissed groups |
| `Judge.JudgeRun.CandidatesMissingOutcome` | backend/app/services/github_finding_judge.py:427-444 | true exactly when an unresolved candidate has no outcome |
| `Judge.JudgeRun.RecordJudgeStatus` | backend/app/services/github_finding_judge.py:447-546 | once the loop ran the status is completed if and only if publishing withholds nothing but superseded groups and those have outcomes too; otherwise it is completed exactly when the run has any outcome, and else names the reason |
| `Judge.JudgeRun.FinalizeJudgeStatus` | backend/app/services/github_finding_judge.py:564-586 | an unavailable run is upgraded exactly when no unresolved candidate lacks an outcome any more, which is when publishing withholds nothing but superseded groups and those have outcomes too |
| `Judge.PublishableGroups` | backend/app/services/github_publish.py:1393-1445 | the publishable groups are those of findings that are resolved, need no judge, or have an outcome |
| `Judge.CompletedWithholdsNothing` | backend/app/services/github_publish.py:1416-1443 | when no unresolved candidate lacked an outcome, publishing withholds no group of the run but superseded ones |
| `Judge.NothingMissingIff` | backend/app/services/github_publish.py:1416-1443 | no candidate lacks an outcome if and only if publishing withholds no group but superseded ones, and those have outcomes too |
| `Judge.CompletionIsPublication` | backend/app/services/github_publish.py:1416-1443 | without superseded groups, completion after the loop is exactly that publishing withholds nothing |
| `Judge.DisabledAfterOneVerdict` | backend/app/services/github_finding_judge.py:470-500 | the failing input, on every run with two candidate groups: after one successful call the judge is switched off, and the run ends completed with an active group withheld |
| `Idempotency.ReplaysAreAlwaysOwn` | backend/app/core/idempotency.py:42-125 | in every interleaving a replayed response was stored by a handler run with the requester's own fingerprint |
| `Idempotency.OneHandlerRuns` | backend/app/core/idempotency.py:90-125 | without release or expiry at most one request runs its handler, in every reachable state |
| `Idempotency.ExactlyOneRuns` | backend/app/core/idempotency.py:90-192 | once all are finished exactly one ran its handler and every other one got its response or a conflict, a conflict whenever its fingerprint is another |
| `Idempotency.StoredIsReplayed` | backend/app/core/idempotency.py:60-67 | once a response is stored and until it expires, with no handler under way, each request that starts or waits gets it within two turns if its fingerprint is the stored one, else a conflict, unless it crashes |
| `Idempotency.StoredIsSettled` | backend/app/core/idempotency.py:90-125 | among requests whose handlers succeed, or among at most two of any kind, no handler is under way once a response is stored |
| `Idempotency.WhatWaitersRead` | backend/app/core/idempotency.py:70-87 | a reservation gives a conflict at the start, and when polling only at the 31st attempt |
| `Idempotency.NobodyWaitsForever` | backend/app/core/idempotency.py:70-125 | every request is finished after at most 36 steps of its own, in every interleaving |
| `Idempotency.ApartIffAtMostTwo` | backend/app/core/idempotency.py:90-125 | handlers under one key never overlap in schedules without expiry, crashes and failures included, if and only if at most two requests share the key |
| `Idempotency.ApartIffAlone` | backend/app/core/idempotency.py:90-125 | with expiry too they never overlap if and only if one request uses the key |
| `Idempotency.KeptReservationsStayApart` | backend/app/core/idempotency.py:90-125 | without release and expiry they never overlap, for any number of requests |
| `Idempotency.ReleaseLetsWaitersRun` | backend/app/core/idempotency.py:121-125 | with three or more requests of any fingerprints, two waiting requests run their handlers at the same time after a release |
| `Paging.ListReconciledFindingGroups` | backend/app/services/github_finding_reconcile.py:333-370 | a page is the first rows below the cursor, with a cursor exactly when there are more |
| `Paging.MatchingAfter` | backend/app/services/github_finding_reconcile.py:338-350 | moving the cursor to a row leaves exactly the rows after it |
| `Paging.FollowCursors` | backend/app/services/github_finding_reconcile.py:333-370 | following the cursors ends and yields every group that is not superseded once, newest first, for every limit of at least one |

## Left out

- HTTP, GitHub, the language models, the embedding service and the Celery broker: each call is a parameter that says how it goes.
- Tarball extraction, path filtering and file decoding: the files of a revision are a list of paths with contents.
- Time: the expiry of an Idempotency-Key reservation is an event that may happen at any moment, and poll intervals have no length.
- Database errors outside the modelled unique keys, and statements seen before their transaction commits; an index claim is the exception, visible at once and undone by a rollback.
- Two workers running one publish job at the same time: the attempts of a job follow each other, as retries do.
- Lifecycle.TerminalIsForever: for writers that follow each other; sessions that overlap are the subject of OverlapLaws.LawKeptIff.
- Lifecycle.ActiveMethodIsHeadContradiction: for writers that follow each other; for sessions that overlap OverlapLaws.LawKeptIff has the exact condition.
- Several writers of one pipeline task that share a session, and so a load, are not modelled; each session has one writer.
- The build of a publish surface, the summaries and the markdown: an attempt receives arbitrary thread maps, posts and reusable ids; only the order and the effect of the writes are modelled.
- Publish.PublishJob.AppendRecoveredBlocks: the update of the issue comment after the inline posts has no recheck of its own in the program, so nothing is promised about authority there.
- Publish.PublishJob.RunPublishJob: what an attempt delivers is stated against the comments tracked at its start; a job whose inline comments an earlier attempt or job completed posts nothing again.
- Publish.PublishJob.RunDeliveries: the check run and the issue comment may be created again after a crash before their commit; only inline comments are counted.
- IndexRace.SingleDeliveryRunsAreSafe: the overwriting of error messages by the failure handler is modelled by its effect on the status only.
- Generations.PullRequestStore.Synchronize: finding or adding the revision is one step here; rival deliveries are the subject of Revisions and Generations.WorkLeftIsNew.
- Generations.JobTable.SupersedeScope: index jobs are superseded by one statement over all ids in the program; the model takes its rows one by one, as it does for review runs, with workers moving in between.
- Drift.TitleDriftKeepsIdentity: a closure between two runs is at the round's revision or looks at findings that report the key while the path exists; any other closure may close the group.
- Pass 1 stamps, pairing revision ids, HEAD-contradiction rules and the list of addressed groups are inputs; the formatter and the resolution metrics are not modelled.
- JSON values of type bool under a thread-map key, which Python counts as integers.
- Vector search, authentication, permissions, billing, administration, the frontend, and the rollup counts of a pull request: plumbing or finite tables.
