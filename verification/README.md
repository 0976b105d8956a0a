# Verified models of the archive, the submission graph, the decision engine and the Krylov solver

This project models, in Dafny, the algorithmic core of four components and proves
what they promise. Every module stands alone or on the small libraries beside it.

**The archive** (`mm0web/src/store.rs`, `mm0web/src/publisher.rs`, `mm0web/src/web.rs`).
`ProjectIndex` holds the index with its upserts and status edits, the snapshot and
delta encodings and the reader's replay. `ArchiveProtocol` is the push as a state
machine: what survives a crash (`remote.json`, the index on disk), the server
(drafts, immutable records, issued ids), one push in progress, and a history variable
with the last archived index. Events are the steps of a push, a crash between any two
of them, submissions (each in one step) and status edits at any time, and anything the
server may do on its own. `ArchiveSafety` proves that every reachable state keeps the last
acknowledged record readable. `ArchiveProgress` says what a run can still do: when an
interrupted push can be finished, which saves lose a submission, and when a file name comes
back. `ArchiveHandlers` adds the web handlers as they run, each loading a copy of the index
and storing it later, and says exactly when the archive survives them. `ArchivePush` is the
client as it runs, with the answer to every request and save an input, proved to follow that
state machine.

**The submission graph** (`mm0web/src/graph.rs`). `GraphBuild` merges the two files,
`GraphReferences` and `GraphCycles` are the two fault passes, `GraphPasses` runs them
on the graph object, `GraphLayers` is the longest-path layering and `Statements` the
statement scanner. `DependencyGraph` holds the relation and the state of the
explicit-stack search that cycles and layers share.

**The decision engine** (`decide_core`). `StreamingStats` and `RidgeHead` accumulate
one sample at a time and are proved equal to the batch definitions (`Sums`, `Gram` and
`Ridge` carry the algebra). `Sequential` is the engine and the two-stage sequence.
`RankMetrics` and `Calibration` are the metrics and the drift monitor. `EmbedSpec` is
the embedding-spec parser and the identity string.

**The Krylov solver** (`fock_sirk`). `Krylov` is the forward sequence, the Gram and the
projected matrix and the residual; `Brst` the matrix-free projection, with
`ConjugateGradient`, `Orthogonal` and `Spans` on why its iteration ends; `Registry` the
sparse-to-dense layout. `Complex` and `Vectors` supply sums and finite complex vectors.

**The limiters** (`mm0web/src/web.rs`) are in `RateLimiter`.

Numbers are exact: `f64` is modelled by `real`, complex numbers by pairs of reals,
counters and ids by unbounded naturals (`usize` bounds appear where a parser checks
them). Clocks, server replies, random projections and square roots are parameters.
Hash maps are walked in an arbitrary order.

## Where the code and its documentation disagree

The code is what is modelled; each disagreement is a theorem.

- `docs/altgit.md` says N of `snapshot_N.bin` increments on each full push. The first
  full push writes `snapshot_0.bin` and every squash after it `snapshot_1.bin`
  (`ArchiveSafety.SquashReusesItsName`); from the start of every project a run publishes two
  records that each hold one (`ArchiveProgress.SnapshotNameIsReused`). Names are fresh
  within one sequence only, and that is enough, because a squash starts a new sequence.
- A push is documented to resume wherever it was interrupted. It can always be finished from
  a checkpoint (`ArchiveProgress.CheckpointCanFinish`), but not while the server still
  answers for a checkpointed draft that is no longer open: with such answers it can be
  finished exactly when the draft is open (`ArchiveProgress.FinishesIffOpen`). From every
  checkpoint a run gets there, by a crash between publishing and the last save
  (`ArchiveProgress.PublishedUnseen`) or by a draft discarded between two pushes
  (`ArchiveProgress.DraftCanGo`).
- The publisher saves the index it loaded before its push. The save loses a submission
  exactly when one arrived since the push began (`ArchiveProgress.SaveLosesIff`), and it can
  happen from every checkpoint (`ArchiveProgress.SubmissionCanBeLost`). With each submission
  taken as one step nothing else loses one (`ArchiveProgress.OnlyAnOlderPushLoses`); two
  handlers that load before either stores lose one without any push
  (`ArchiveHandlers.HandlersCanLose`).
- A published deposit is documented to replay to the pushed project. With handlers that store
  copies they loaded earlier this can fail (`ArchiveHandlers.LateStoreBreaksTheArchive`): a
  stale copy brings the frontier back, and the next delta omits what reuses an old seq. All
  acknowledged pushes are recoverable exactly when each pushes a snapshot or an index that
  continues the one archived before (`ArchiveHandlers.AllRecoverableIff`), and always when no
  push begins between a load and a store of one handler (`ArchiveHandlers.StoresInTimeAreSafe`).
- `rp_covariance` is documented as the sample covariance of the features. Its mean is
  the sum of the class means. `RidgeHead.RpCovarianceExactness` says exactly when the
  result is the sample covariance, and `RidgeHead.TwoClassesBreakIt` gives two samples
  for which it is not.
- A fit attaches all labels to prototype rows that skip empty classes. An answer carries
  the label of the class that won exactly when no class registered before that one is empty
  (`RidgeHead.PredictedLabelIsRight`; for all rows at once `RidgeHead.RowsMatchLabels`); with
  counts 0, 1, 1 the first row is misnamed (`RidgeHead.EmptyClassMisnames`).
- The drift monitor is documented as keeping the largest drift. It keeps the latest:
  reference [0] observing [0.5] and [0] leaves it at 0 (`Calibration.LatestMayBeSmaller`).
  After one more vector the field is the largest drift exactly when that vector's drift is
  no smaller than the largest before it (`Calibration.LatestIsLargest`), and it is the
  largest throughout a run exactly when the drifts never fall (`Calibration.LargestThroughout`).
- The drift monitor is also documented as declaring a change of class count. A change of
  length alone never raises the flag (`Calibration.LengthChangeAloneIsSilent`).
- The comment beside the residual says that the leading entries of `e` vanish in exact
  arithmetic. `Krylov.LeadingEntriesVanishIff` says exactly when they do, and
  `Krylov.LeadingEntryMayStay` gives a one-step solve in which one does not. The
  residual norm itself does not depend on it.
- A limiter reads the clock before it takes its lock, so readings can be logged out of order.
  The bound of `max` calls in every window holds for all logs exactly when `max` is at most 1
  or the window is empty (`RateLimiter.BoundHoldsIff`); otherwise one window can hold any
  number of accepted calls (`RateLimiter.ExcessIsUnbounded`), and
  `RateLimiter.OvertakenReadingBreaksTheBound` is a log of four calls that overfills one. The
  stored times decide as the full history would exactly when no call of the address has
  dropped a time that still counts (`RateLimiter.SurvivorsDecideAsHistory`); then the bound
  holds for any `max` (`RateLimiter.AtMostMaxPerWindow`), and readings of that address in
  order are enough (`RateLimiter.OrderedIsPrompt`).
- A clean forward-reference check rules out cycles, whatever the declarations refer to,
  exactly when they come from one file with one declaration a line
  (`GraphReferences.ForwardCheckSuffices`); `GraphReferences.ForwardCheckHasGaps` has the
  smallest cases.
- The FPR at 95% TPR is the same for every order of the input exactly when no negative ties
  with the positive that reaches the target (`Calibration.FprPermuted`, with
  `Calibration.ThresholdExists` for that positive); `Calibration.TiesChargeInInputOrder` is
  the smallest input whose order matters.

## Model

| member | source | states |
|---|---|---|
| `ProjectIndex.Index.Upsert` | mm0web/src/store.rs:191-219 | One submission: its entry carries the submitted title, fingerprint and two sources, the next seq, and is verified only; a revision keeps record, DOI and creation time, a new proof has none and the present time; every other entry stays; the result is a later version of the old index. |
| `ProjectIndex.UpsertIsSubmission` | mm0web/src/store.rs:187-219 | The specified document is the only one that meets that description, field by field. |
| `ProjectIndex.StatusEditIsEdit` | mm0web/src/publisher.rs:136-145 | A status edit changes record, state and DOI of one existing entry and nothing else. |
| `ProjectIndex.UpsertEvolves` | mm0web/src/store.rs:191-219 | An upsert keeps frontier = largest seq, drops nothing, and leaves whatever is not past the old frontier as it was. |
| `ProjectIndex.StatusEditEvolves` | mm0web/src/publisher.rs:136-145 | Editing record, DOI and state without bumping seq keeps every identity field, so no later delta is wrong for it. |
| `ProjectIndex.Replay` | mm0web/src/store.rs:246-267 | Replaying files in order succeeds exactly when each parses, and yields their overlay with the largest seq as frontier, whatever order entries come in. |
| `ProjectIndex.ReplayUnique` | mm0web/src/store.rs:246-267 | The replay of a list of files has one result. |
| `ProjectIndex.SnapshotRecovers` | mm0web/src/store.rs:222-225 | A snapshot alone gives back keys, frontier, identity fields and every source. |
| `ProjectIndex.DeltaRecovers` | mm0web/src/store.rs:227-237 | A delta against any base the earlier files already cover, overlaps allowed, gives back the newer index; sources stay exact up to the earlier bound. |
| `ProjectIndex.DeltaRecoversIff` | mm0web/src/store.rs:227-267 | A delta against the previous document replays to the new one if and only if the new one keeps its keys and frontier and has, at every old seq, what the previous one had. |
| `ProjectIndex.ChainRecovers` | mm0web/src/store.rs:222-267 | A snapshot followed by any chain of deltas, each with a base no later than the previous frontier, replays to the last pushed index on keys, frontier and identity fields. |
| `ArchiveProtocol.Pull` | mm0web/src/store.rs:743-777 | A pull succeeds exactly when the record, its manifest, every file it names and their format are there, and returns their replay. |
| `ArchiveProtocol.FaithfulPulls` | mm0web/src/store.rs:743-777 | A faithful record always pulls, to the frontier, keys and identity fields of the archived index. |
| `ArchiveSafety.NamingKeepsShape` | mm0web/src/store.rs:653-692 | Naming a payload picks a name not yet in its sequence and keeps the checkpoint shape; a frozen payload is left alone. |
| `ArchiveSafety.RecordingKeepsShape` | mm0web/src/store.rs:694-703 | Recording the uploaded name is idempotent: a resumed push never lists its file twice. |
| `ArchiveSafety.RecordedIsChain` | mm0web/src/store.rs:653-703 | Once recorded, the sequence is snapshot_k, delta_0, .. with at most squash_after + 1 names. |
| `ArchiveSafety.SquashReusesItsName` | mm0web/src/store.rs:663-676 | With a sequence on record, a full push names its file snapshot_1.bin and a delta push delta_d for d recorded deltas, each exactly when the count of deltas says so. |
| `ArchiveSafety.PushSendsWhatIsNew` | mm0web/src/store.rs:651-692 | A first push and a push after squash_after deltas send the whole index; any other sends exactly the proofs whose seq is past the last acknowledged frontier. |
| `ArchiveSafety.UploadKeepsConsistent` | mm0web/src/store.rs:567-589 | Overwriting a file by name in the draft, at any stage and after any crash, keeps server, checkpoints and last record consistent. |
| `ArchiveSafety.PublishKeepsConsistent` | mm0web/src/store.rs:591-618 | Publishing makes the draft an immutable record with its payload, its manifest and its lineage. |
| `ArchiveSafety.AcceptedIsFaithfulIff` | mm0web/src/store.rs:705-729 | The record just accepted replays to the pushed index if and only if the payload is a snapshot or the index continues the last archived one, whatever became of the index on disk. |
| `ArchiveSafety.AcceptedIsFaithful` | mm0web/src/store.rs:705-729 | The record just accepted replays to the pushed index. |
| `ArchiveSafety.AcknowledgeKeepsInv` | mm0web/src/store.rs:705-729 | Retiring the checkpoints together keeps the invariant and records a faithful archive. |
| `ArchiveSafety.StepKeepsConsistent` | mm0web/src/store.rs:622-738 | Every step keeps the archive consistent; only the last save of a push asks that the push continues the archive. |
| `ArchiveSafety.SaveKeepsGrowing` | mm0web/src/publisher.rs:136-145 | Saving the worker's copy of the index, even over an interleaved submission, leaves a later version of the last archived index: archived content is never dropped. |
| `ArchiveSafety.StepKeepsInv` | mm0web/src/store.rs:622-738 | Every step, crash, submission and server event keeps the invariant. |
| `ArchiveSafety.RunKeepsInv` | mm0web/src/store.rs:622-738 | Every state of every run satisfies the invariant. |
| `ArchiveSafety.RecordsArePermanent` | mm0web/src/store.rs:591-618 | Over any run published records never change and never disappear. |
| `ArchiveSafety.AcknowledgedPushIsRecoverable` | mm0web/src/store.rs:622-729 | In any run, whenever a push is acknowledged and ever after, its record holds every file its manifest names, and replaying them gives the keys, frontier and identity fields of the pushed index. |
| `ArchiveSafety.LastRecordStaysReadable` | mm0web/src/store.rs:622-729 | In every reachable checkpoint the known record pulls back to the last archived index, which the index on disk extends. |
| `ArchiveSafety.CheckpointShape` | mm0web/src/store.rs:653-703 | In every reachable checkpoint the sequence with the payload in flight is snapshot_k, delta_0, .. without duplicates, delta_count counts the recorded deltas, and there are at most squash_after + 1 files. |
| `ArchiveProgress.TraceIsRun` | mm0web/src/store.rs:622-738 | Every list of enabled events is a run of the state machine, so what is shown reachable below is reachable there. |
| `ArchiveProgress.CheckpointCanFinish` | mm0web/src/store.rs:622-729 | From every checkpoint the eight steps of a push acknowledge the index on disk under a new record; before them the server opens one draft, or none when the checkpointed one is still open. |
| `ArchiveProgress.DeadDraftBlocks` | mm0web/src/store.rs:632-649 | While GET answers for a checkpointed draft that is no longer open, no run ever uploads or acknowledges anything. |
| `ArchiveProgress.FinishesIffOpen` | mm0web/src/store.rs:632-649 | With such answers a push can be finished if and only if the draft is still open. |
| `ArchiveProgress.PublishedUnseen` | mm0web/src/store.rs:705-729 | From every checkpoint a run publishes its draft, crashes before the last save and leaves a checkpointed draft that is no longer open. |
| `ArchiveProgress.DraftCanGo` | mm0web/src/store.rs:632-649 | So does a run whose draft the server drops after a crash. |
| `ArchiveProgress.SnapshotNameIsReused` | mm0web/src/store.rs:663-676 | From every initial state a run reaches two squashes whose records both hold a snapshot_1.bin, whatever squash_after is. |
| `ArchiveProgress.SaveLosesIff` | mm0web/src/publisher.rs:127-145 | In any run the save that ends a push drops something exactly when something was submitted since the push began, and then every such submission is gone. |
| `ArchiveProgress.OnlyAnOlderPushLoses` | mm0web/src/publisher.rs:127-145 | With each submission as one step: whatever the index held at i it still holds at j, unless a push begun before i was saved in between. |
| `ArchiveProgress.SubmissionCanBeLost` | mm0web/src/publisher.rs:127-145 | From every checkpoint a run loses a submission: it is on disk before the save of a push and gone after it. |
| `ArchiveHandlers.ActKeepsConsistent` | mm0web/src/web.rs:419-542 | Whatever copies the handlers load, change and store, only an acknowledged push that does not continue the archive can make it inconsistent. |
| `ArchiveHandlers.AllRecoverableIff` | mm0web/src/web.rs:419-542 | Over any run with any handlers, every acknowledged push has a record that replays to its index ever after if and only if each pushes a snapshot or continues the index archived before it. |
| `ArchiveHandlers.StoreKeepsInvIff` | mm0web/src/web.rs:505-542 | Storing a copy keeps the invariant if and only if the copy is a later version of the last archived index and of the one being pushed. |
| `ArchiveHandlers.StoresInTimeAreSafe` | mm0web/src/web.rs:419-542 | If no push begins between a load and a store of one handler, the invariant holds throughout and every acknowledged push is recoverable. |
| `ArchiveHandlers.HandlersCanLose` | mm0web/src/web.rs:419-505 | Two handlers that load before either stores lose the first submission, without any push. |
| `ArchiveHandlers.LateStoreBreaksTheArchive` | mm0web/src/web.rs:419-505 | From the start of every project with squash_after of two or more, a copy stored after a push makes the next push be accepted with a record that recovers its index under no bound on the sources. |
| `ArchivePush.Client.MakeDraft` | mm0web/src/store.rs:733-738 | A draft is a new version of the known record, or a first deposit; the client gets it exactly when the server is able to give the one it answers with and the reply arrives. |
| `ArchivePush.Client.Upload` | mm0web/src/store.rs:567-589 | Succeeds exactly when the request is answered and the draft is open; otherwise nothing changed, or one name in the open draft was replaced and the reply was lost. |
| `ArchivePush.Client.SaveRemote` | mm0web/src/store.rs:433-451 | The checkpoint is written, or the call fails and the old one stays. |
| `ArchivePush.Client.OpenDraft` | mm0web/src/store.rs:632-649 | A checkpointed draft is reused, with server and index unchanged, exactly when the GET for it succeeds; otherwise the draft is the one the server gives, a new version of the known record or a first deposit; either way it is checkpointed, and there is none only if a request or the save failed or the server could not give it. |
| `ArchivePush.Client.ChoosePayload` | mm0web/src/store.rs:651-692 | The payload in flight is resumed, or chosen and frozen with its base before any upload; there is one exactly when the checkpoint is saved. |
| `ArchivePush.Client.WritePayload` | mm0web/src/store.rs:694-703 | The payload is uploaded, then its name recorded exactly once; it fails only if the upload or the save does or the draft is closed. |
| `ArchivePush.Client.PublishPush` | mm0web/src/store.rs:705-729 | Manifest, then publication, then one save that retires all checkpoints; it fails only if one of them does or the server may not publish the draft. |
| `ArchivePush.Client.Push` | mm0web/src/store.rs:622-729 | Under any replies, which are inputs, the push is a run of the state machine; a checkpointed draft that answers is its first checkpoint, and none but the draft it should use is ever checkpointed; Ok means that all succeeded and a record faithful to the pushed index is published; and if all requests and saves succeed it returns Ok, unless the server had no such draft, closed it, or had given its record number away. |
| `ArchivePush.Client.Attempt` | mm0web/src/publisher.rs:127-162 | Ok(None) exactly for an already published proof, and then nothing changes; an unknown proof is an error; success means a faithful record whose id and DOI are on disk, with every other proof as it was loaded; and an attempt with all requests and saves succeeding is a success, up to what the server cannot do. |
| `ArchivePush.Client.MarkFailed` | mm0web/src/publisher.rs:166-173 | Once saved, giving up sets the state of that one proof to publish-failed, keeps its record and DOI and every other proof; unsaved it changes nothing. |
| `ArchivePush.Client.Work` | mm0web/src/publisher.rs:93-116 | A job makes at most the configured number of attempts and stops at the first success; when it gives up and that is saved, the proof is marked publish-failed. |
| `GraphBuild.Merge` | mm0web/src/graph.rs:243-294 | The merged list holds each declared name once, with the line of its last occurrence in either file, the tokens of its last proof item (of its first spec item when there is none) and the locals of both files. |
| `GraphBuild.References` | mm0web/src/graph.rs:305-338 | The references of a declaration are exactly the declared names it uses other than itself and its locals; unknown names exactly those nothing accounts for; both without repeats. |
| `GraphBuild.Declarations` | mm0web/src/graph.rs:227-343 | The list holds exactly the declared names, each with its lines; its references are exactly the declared names it uses, its unknown names exactly the used ones nothing in the submission accounts for. |
| `GraphReferences.ReferencesOf` | mm0web/src/graph.rs:350-388 | The faults of one declaration are exactly its unknown names and its references to a later declaration; when every declaration has a line, a Forward fault is found exactly when some reference points to a later line of the same file. |
| `GraphReferences.ForwardIsLaterLine` | mm0web/src/graph.rs:398-407 | Forward means a later line of the same file: both in the proof file, or neither. |
| `GraphReferences.CyclesStayOnOneLine` | mm0web/src/graph.rs:398-407 | In one file with no forward reference a cycle stays on a single line. |
| `GraphReferences.NoForwardNoCycle` | mm0web/src/graph.rs:398-465 | With one file and one declaration a line, no forward reference means no cycle. |
| `GraphReferences.ForwardCheckSuffices` | mm0web/src/graph.rs:398-407 | A check without Forward faults means no cycle, for every choice of references without a self reference, if and only if the declarations come from one file with one declaration a line. |
| `GraphReferences.ForwardCheckHasGaps` | mm0web/src/graph.rs:398-407 | A cycle goes unseen between two declarations on one line, and between two of different files. |
| `GraphCycles.FindCycles` | mm0web/src/graph.rs:411-465 | On every graph the search ends, each fault names a real chain of references that closes on itself, every cycle passes through the closing reference of a fault found, and none is reported exactly when the references are acyclic. |
| `GraphCycles.Search` | mm0web/src/graph.rs:411-465 | The explicit-stack search from one root keeps the stack a chain of references and finishes the root. |
| `GraphCycles.WithoutRepeats` | mm0web/src/graph.rs:450-465 | Keeps, in order, exactly the faults whose message appears for the first time. |
| `GraphCycles.KeptFaults` | mm0web/src/graph.rs:450-465 | After that every cycle still passes through the closing reference of a cycle whose message is listed, and no message is listed twice. |
| `DependencyGraph.OrderedIsAcyclic` | mm0web/src/graph.rs:411-465 | A finishing order in which every reference points back leaves no cycle. |
| `DependencyGraph.OrderedCutsCycles` | mm0web/src/graph.rs:411-465 | When every reference outside a set points back, every cycle passes through one of the set. |
| `DependencyGraph.BackEdgeIsCycle` | mm0web/src/graph.rs:425-450 | A reference into the stack closes the part of the path above it into a cycle. |
| `GraphPasses.Graph.CheckCycles` | mm0web/src/graph.rs:411-465 | The pass appends exactly such faults: each a real cycle, every cycle passing through the closing reference of a listed one, no message twice, and some if and only if there is a cycle. |
| `GraphPasses.Graph.CheckReferences` | mm0web/src/graph.rs:350-388 | The pass appends exactly the reference faults. |
| `GraphPasses.Build` | mm0web/src/graph.rs:227-348 | The edges of the graph are exactly the uses of one declaration by another, its unknown-name faults exactly the names nothing accounts for, External with imports and Unresolved without; its Forward faults exactly the uses of a declaration whose last line in the same file is later, so none when all uses point to earlier lines of one file; its Cycle faults real cycles that every cycle passes through. |
| `GraphLayers.Layers` | mm0web/src/graph.rs:821-861 | On any graph it ends and every node gets the length of some dependency chain, the longest for every node that leads to no cycle; layers strictly fall along every reference if and only if the graph is acyclic. |
| `GraphLayers.StrictlyLayeredIsLongest` | mm0web/src/graph.rs:821-861 | Strictly falling, attained layers are longest-chain lengths. |
| `GraphLayers.SafeIsLongest` | mm0web/src/graph.rs:821-861 | Where layers fall from the nodes that lead to no cycle, those nodes have longest-chain lengths, whatever cycles there are elsewhere. |
| `GraphLayers.StrictlyLayeredIsAcyclic` | mm0web/src/graph.rs:821-861 | Strictly falling layers leave no room for a cycle. |
| `Statements.SplitStatements` | mm0web/src/graph.rs:878-927 | The one-pass scanner computes: blank the comments outside math, split at `;` outside math, number the pieces, drop blank ones. |
| `Statements.SplitPartitions` | mm0web/src/graph.rs:878-927 | The pieces joined by `;` are the uncommented text, and no piece holds a `;` outside `$..$`. |
| `Statements.NumberedFilters` | mm0web/src/graph.rs:878-927 | Exactly the blank pieces are dropped and order is kept. |
| `Statements.StatementsArePlaced` | mm0web/src/graph.rs:878-927 | Every output is one non-blank stretch of the uncommented text between separators, numbered 1 + the newlines before its first non-blank character. |
| `Statements.StatementLine` | mm0web/src/graph.rs:878-927 | The reported line is the source line of the statement's first non-blank character. |
| `StreamingStats.Stats.Push` | decide_core/src/stats.rs:82-103 | After any stream of pushes, counts, class sums, total and outer products are the sums over the stream. |
| `StreamingStats.Stats.EnsureClass` | decide_core/src/stats.rs:67-72 | The vocabulary grows with empty classes up to the id and no existing class changes. |
| `StreamingStats.Stats.Mean` | decide_core/src/stats.rs:116-122 | A class mean exists exactly when the class was seen, and is its sum over its count. |
| `StreamingStats.Stats.SharedCovariance` | decide_core/src/stats.rs:156-170 | Exists exactly from two samples on, and is the sample covariance of the stream, entry by entry. |
| `StreamingStats.OnePassCovariance` | decide_core/src/stats.rs:150-170 | (sum of xx' - n mm')/(n-1) equals the sum of (x-m)(x-m)' over n-1, for every stream of two or more. |
| `StreamingStats.CovarianceIsSymmetric` | decide_core/src/stats.rs:156-170 | The covariance is symmetric. |
| `StreamingStats.CovarianceIsPositive` | decide_core/src/stats.rs:156-170 | Its quadratic form is never negative. |
| `StreamingStats.StatisticsPermuted` | decide_core/src/stats.rs:82-103 | No statistic depends on the order of the pushes. |
| `StreamingStats.CovariancePermuted` | decide_core/src/stats.rs:156-170 | Nor does the covariance. |
| `RidgeHead.Head.Push` | decide_core/src/heads.rs:135-155 | The Gram matrix, class sums and counts are the sums over the pushed stream. |
| `RidgeHead.Head.EnsureClass` | decide_core/src/heads.rs:77-82 | The vocabulary grows to id + 1 and no further, by empty classes only. |
| `RidgeHead.Head.ClassMeans` | decide_core/src/heads.rs:163-178 | Refused exactly below two classes with samples; otherwise row r is the mean of the r-th such class. |
| `RidgeHead.Head.NormalEquations` | decide_core/src/heads.rs:240-284 | The system solved is Gram + lambda I against the sum over every sample of its feature times the target of its class. |
| `RidgeHead.ClassFormIsSampleForm` | decide_core/src/heads.rs:257-271 | B built from one mean a class equals the sum over all samples. |
| `RidgeHead.ColumnIsMinimal` | decide_core/src/heads.rs:240-284 | For lambda > 0 a solution of the system minimises the ridge loss of each target column, and nothing else does. |
| `RidgeHead.FitMinimises` | decide_core/src/heads.rs:240-284 | A solution has the least ridge loss over the entire stream among all maps. |
| `Ridge.RegularisedGramIsPositive` | decide_core/src/heads.rs:273-280 | Gram + lambda I is positive definite for lambda > 0. |
| `Ridge.LossFromSolution` | decide_core/src/heads.rs:240-284 | The loss of any other weights exceeds that of a solution by the form of their difference. |
| `RidgeHead.Head.RpCovarianceMatrix` | decide_core/src/heads.rs:109-132 | Computes, from two samples on, the corrected Gram matrix with the summed class means as mean. |
| `RidgeHead.RpCovarianceExactness` | decide_core/src/heads.rs:98-132 | It is the sample covariance exactly when the summed class means are the mean of the stream or its negative. |
| `RidgeHead.OneClassIsExact` | decide_core/src/heads.rs:98-132 | With one class it is. |
| `RidgeHead.TwoClassesBreakIt` | decide_core/src/heads.rs:98-132 | With two it need not be. |
| `RidgeHead.RowsMatchLabels` | decide_core/src/lib.rs:452-478 | Prototype row r belongs to label r for every row exactly when empty classes come last. |
| `RidgeHead.Predict` | decide_core/src/heads.rs:322-335 | The first largest similarity decides, with the label stored at its row. |
| `RidgeHead.PredictedLabelIsRight` | decide_core/src/lib.rs:452-478 | That label is the label of the class whose prototype won exactly when no class registered before it is empty. |
| `RidgeHead.EmptyClassMisnames` | decide_core/src/lib.rs:452-478 | With counts 0, 1, 1 the first row carries the wrong label. |
| `RidgeHead.RegisteringChangesNothing` | decide_core/src/heads.rs:77-82 | A class without samples changes neither the rows of a fit nor its mean. |
| `RidgeHead.CountsAddUp` | decide_core/src/heads.rs:95-97 | The class counts add up to the number of samples. |
| `Sequential.DecideCore.Register` | decide_core/src/lib.rs:387-399 | Ids are dense, in order and never reused; a duplicate changes nothing; a fit survives. |
| `Sequential.DecideCore.Observe` | decide_core/src/lib.rs:405-425 | Accepted exactly for a known label and the right width; it withdraws the fit, and a refusal changes nothing. |
| `Sequential.DecideCore.Solve` | decide_core/src/lib.rs:452-478 | A fit is the solve of the whole stream; a failed one leaves the engine as it was; a fitted engine's refit cannot fail and changes nothing. |
| `Sequential.DecideCore.Project` | decide_core/src/lib.rs:494-526 | Refused unless fitted and of the right widths; otherwise the feature of the current map. |
| `Sequential.NewSequence` | decide_core/src/sequential.rs:125-178 | A sequence exists exactly for adaptation first, readout second, matching widths and valid stages. |
| `Sequential.SequentialCore.Register` | decide_core/src/sequential.rs:207-215 | Both stages keep one vocabulary, and a fitted sequence stays fitted. |
| `Sequential.SequentialCore.Observe` | decide_core/src/sequential.rs:221-230 | A sample goes to stage 1 and to the retained stream and withdraws the fit; a refused one changes nothing. |
| `Sequential.SequentialCore.Fit` | decide_core/src/sequential.rs:238-252 | Succeeds exactly when a rebuild from the retained stream does; a failure leaves the sequence unfitted; a fitted one cannot fail. |
| `Sequential.SequentialCore.Similarities` | decide_core/src/sequential.rs:260-266 | Every answer is the answer of a rebuild from the whole retained stream under stage 1's current map. |
| `Sequential.HistoryLeavesNoTrace` | decide_core/src/sequential.rs:232-266 | Two fitted sequences with the same retained stream hold the same statistics, maps and prototypes, whatever lies behind them. |
| `Sequential.ReadoutLabelsAgreeIff` | decide_core/src/lib.rs:452-478 | Both stages of both store the right label for every class with samples; their lists are equal exactly when equally many labels were registered after the last fit. |
| `Sequential.ReadoutLabelsAreCurrentIff` | decide_core/src/lib.rs:452-478 | The stored labels of a fitted engine are those of a rebuild exactly when nothing was registered since the fit; on classes with samples they always are. |
| `RankMetrics.RocAuc` | decide_core/src/calibrate.rs:274-308 | The tie-averaged rank sum equals (pairs won + half the pairs tied) / (positives * negatives), and is absent exactly when a label is. |
| `RankMetrics.BlockRank` | decide_core/src/calibrate.rs:288-305 | A tie block gets the mean of its ranks. |
| `RankMetrics.RankSumIdentity` | decide_core/src/calibrate.rs:284-308 | Rank sum - p(p+1)/2 is the number of pairs won plus half those tied. |
| `RankMetrics.AucPermuted` | decide_core/src/calibrate.rs:274-308 | The AUC does not depend on the order of the list. |
| `RankMetrics.AucFlips` | decide_core/src/calibrate.rs:274-308 | Swapping the labels turns it into 1 - AUC. |
| `Calibration.ExpectedCalibrationError` | decide_core/src/calibrate.rs:243-268 | The weighted bin sum equals the sum over bins of the absolute total gap between confidence and outcome, over n. |
| `Calibration.Bin` | decide_core/src/calibrate.rs:255-255 | Bin b of ten takes the confidences from b/10 up to (b+1)/10, the first also all below, the last also 1 and above. |
| `Calibration.ErrorIsBetween` | decide_core/src/calibrate.rs:243-268 | It is at least the overall bias and at most the mean gap of the samples. |
| `Calibration.NoErrorIff` | decide_core/src/calibrate.rs:243-268 | It is zero exactly when every bin is as accurate as it is confident. |
| `Calibration.GapsPermuted` | decide_core/src/calibrate.rs:243-268 | It does not depend on the order of the samples. |
| `Calibration.FprAt95Tpr` | decide_core/src/calibrate.rs:311-334 | Charges the negatives ranked before the positive that reaches 95%, over all negatives; absent exactly when a label is. |
| `Calibration.Target` | decide_core/src/calibrate.rs:319-319 | The least count that is at least 95% of the positives. |
| `Calibration.FprIsBetween` | decide_core/src/calibrate.rs:311-334 | With t the score of that positive, every negative above t is charged and none below t. |
| `Calibration.ThresholdExists` | decide_core/src/calibrate.rs:311-334 | As soon as there is a positive, the score of one of them reaches the 95% target. |
| `Calibration.FprPermuted` | decide_core/src/calibrate.rs:311-334 | The rate is the same for every order of the input if and only if no negative ties with that positive. |
| `Calibration.ExtremeOrders` | decide_core/src/calibrate.rs:311-334 | Listing positives first charges none of the tied negatives, listing them last charges all of them. |
| `Calibration.TiesChargeInInputOrder` | decide_core/src/calibrate.rs:311-334 | One positive and one negative with the same score: the order decides between 0 and 1. |
| `Calibration.DriftMonitor.Observe` | decide_core/src/calibrate.rs:370-392 | The flag is up exactly when some vector since the baseline moved a shared coordinate by more than epsilon; `observed` is the latest drift, and the largest exactly when that is no smaller than all before. |
| `Calibration.LargestIsMaximum` | decide_core/src/calibrate.rs:370-400 | The largest drift of a run bounds every drift of it and is one of them (or 0). |
| `Calibration.LatestIsLargest` | decide_core/src/calibrate.rs:370-400 | After one more vector `observed` is the largest drift since the baseline if and only if that vector's drift is at least the largest before. |
| `Calibration.LargestThroughout` | decide_core/src/calibrate.rs:370-400 | It is the largest after every vector of a run if and only if the drifts never fall. |
| `Calibration.LatestMayBeSmaller` | decide_core/src/calibrate.rs:370-400 | Reference [0] observing [0.5] and [0] ends at 0 with a largest drift of 0.5. |
| `Calibration.DriftMonitor.Reset` | decide_core/src/calibrate.rs:405-409 | A new baseline forgets everything but epsilon. |
| `Calibration.LengthChangeAloneIsSilent` | decide_core/src/calibrate.rs:382-390 | A vector that only adds or drops classes never raises the flag. |
| `EmbedSpec.ParseOptions` | decide_core/src/backbone.rs:93-126 | The option loop computes the options of the fragment read from left to right, the last truncation winning and the instruction absorbing the rest. |
| `EmbedSpec.ParsedIsWellFormed` | decide_core/src/backbone.rs:135-194 | Every parsed spec is well formed: no `#`, a backend that fits its model and URL, a positive truncation, a trimmed instruction. |
| `EmbedSpec.ParsesBack` | decide_core/src/backbone.rs:135-194 | Every well-formed spec, written out, parses back to itself. |
| `EmbedSpec.WellFormedIsTheImage` | decide_core/src/backbone.rs:135-194 | The parser returns exactly the well-formed specs. |
| `EmbedSpec.OptionsRoundTrip` | decide_core/src/backbone.rs:93-126 | Fitting options, written out, are read back. |
| `EmbedSpec.VersionIsInjective` | decide_core/src/backbone.rs:357-369 | Two parsed specs share an identity string if and only if backend, model, URL, truncation and instruction all agree. |
| `RateLimiter.RateLimiter.Allow` | mm0web/src/web.rs:141-151 | A call the history allows is allowed; unless an earlier call of the address dropped a time that still counts, a call is refused exactly when `max` calls of its address were accepted within the last window. |
| `RateLimiter.DailyCap.Allow` | mm0web/src/web.rs:102-117 | The same, and max 0 allows everything and records nothing. |
| `RateLimiter.SurvivorsDecideAsHistory` | mm0web/src/web.rs:141-151 | The pruned list never counts more than the full history of accepted calls, and counts the same if and only if no call of the address dropped a time that still counts. |
| `RateLimiter.AtMostMaxPerWindow` | mm0web/src/web.rs:141-151 | If no accepted call of the address came after such a loss, no half-open interval one window long holds more than `max` accepted calls of it, however the readings of other addresses are ordered. |
| `RateLimiter.OrderedIsPrompt` | mm0web/src/web.rs:141-151 | Readings of the one address in order rule out such a loss. |
| `RateLimiter.BoundHoldsIff` | mm0web/src/web.rs:141-151 | No log, in whatever order its readings come, holds more than `max` accepted calls of an address in a window if and only if `max` is at most 1 or the window is empty. |
| `RateLimiter.ExcessIsUnbounded` | mm0web/src/web.rs:141-151 | For every other limit and every n some log has n accepted calls in one window. |
| `RateLimiter.AddressesAreIndependent` | mm0web/src/web.rs:126-151 | An address that asks at the same times is answered alike, whoever else asks. |
| `RateLimiter.OvertakenReadingBreaksTheBound` | mm0web/src/web.rs:141-151 | Such a log of four calls: max 2, window 10, readings 0, 0, 10 and 1, three of them in one window. |
| `Krylov.ForwardSequence` | fock_sirk/src/forward_sirk.rs:485-540 | In both frames H u_k = tau_{k+1} u_{k+1} + z_k u_k, the start is stored as given, and a stored step is raw, of norm one, or raw after a breakdown. |
| `Krylov.GramMatrix` | fock_sirk/src/forward_sirk.rs:554-581 | Every entry of the filled matrix is the inner product of its two vectors, both triangles included. |
| `Krylov.ProjectedMatrix` | fock_sirk/src/forward_sirk.rs:585-594 | Entry (j,k), assembled from Gram entries alone, is the inner product of u_j with H u_k. |
| `Krylov.ImageIsApplied` | fock_sirk/src/forward_sirk.rs:195-205 | H maps the combination with coefficients c to the one with the coordinates d that the code forms. |
| `Krylov.ResidualCoordinates` | fock_sirk/src/forward_sirk.rs:195-214 | The two loops over d and the loop over e compute d - theta c, with tau_m c_{m-1} last. |
| `Krylov.SquaredResidual` | fock_sirk/src/forward_sirk.rs:195-216 | For every coefficient vector and theta, e'Ge is the squared norm of H psi - theta psi, and the clipping at zero never acts. |
| `Krylov.ProjectedResidual` | fock_sirk/src/forward_sirk.rs:585-601 | The rows of (h_raw - theta G) c are the residual seen from the stored vectors, so solving the pencil is the Galerkin condition. |
| `Krylov.LeadingEntriesVanishIff` | fock_sirk/src/forward_sirk.rs:204-209 | For a Ritz pair over independent vectors the leading entries of e vanish exactly when the last entry, or every overlap with the last vector, is zero. |
| `Krylov.LeadingEntryMayStay` | fock_sirk/src/forward_sirk.rs:204-209 | A one-step solve whose Ritz pair has a leading entry -1. |
| `Brst.ProjectPhysical` | fock_sirk/src/brst.rs:28-87 | Any Ok result p satisfies norm(Qp) < tol and w - p lies in the image of Q+; a physical w is returned unchanged. With k iterations allowed, Qw in the span of k vectors that QQ+ does not leave, and nothing in that span and the image of Q of norm tol or more that Q+ sends below the breakdown threshold, the result is always Ok; with n iterations in an n-dimensional space likewise. |
| `Brst.ImageCarries` | fock_sirk/src/brst.rs:50-78 | Vectors that span the image of Q are such vectors, for every w. |
| `Brst.ResidualStep` | fock_sirk/src/brst.rs:50-84 | One conjugate-gradient step keeps r = Qw - QQ+z. |
| `ConjugateGradient.IterationIsSound` | fock_sirk/src/brst.rs:50-78 | An iteration that has not converged leaves its residual orthogonal to all residuals before it and its direction conjugate to all directions before it. |
| `ConjugateGradient.HistoryIsShort` | fock_sirk/src/brst.rs:50-78 | So at most n residuals can be non-zero. |
| `ConjugateGradient.HistoryIsShortIn` | fock_sirk/src/brst.rs:50-78 | At most k, when the first lies in the span of k vectors that QQ+ does not leave. |
| `ConjugateGradient.HistoryInSpan` | fock_sirk/src/brst.rs:50-78 | All residuals and directions stay in such a span. |
| `Orthogonal.AtMostDimension` | fock_sirk/src/brst.rs:50-78 | At most n vectors of C^n are non-zero and orthogonal to each other. |
| `Spans.AtMostSpanning` | fock_sirk/src/brst.rs:50-78 | At most k vectors in the span of k are non-zero and orthogonal to each other. |
| `Orthogonal.Bessel` | fock_sirk/src/brst.rs:50-78 | The shares of a vector along orthogonal vectors add up to at most its squared norm. |
| `Brst.ChargeOfProjected` | fock_sirk/src/brst.rs:80-86 | The charge of the answer is exactly the final residual. |
| `Brst.RemovedIsOrthogonal` | fock_sirk/src/brst.rs:23-28 | What is removed is orthogonal to every physical state. |
| `Brst.ExactProjectionIsNearest` | fock_sirk/src/brst.rs:23-28 | An exactly physical answer is the physical state nearest to w. |
| `Registry.SparseInner` | nested_fock_algebra/src/lib.rs:158-174 | Walking the smaller map, in any order, sums over the common states. |
| `Registry.StateDictionary.GetOrInsert` | fock_sirk/src/registry.rs:29-38 | A known state keeps its index, a new one gets the next, and the two tables stay inverse. |
| `Registry.StateDictionary.Register` | fock_sirk/src/registry.rs:40-44 | Old indices stay and exactly the states of the vector are added, in any order. |
| `Registry.OneDirectionSuffices` | fock_sirk/src/registry.rs:54-64 | The size check with the backward check holds exactly when the tables are inverse to each other. |
| `Registry.StateDictionary.BijectiveViolation` | fock_sirk/src/registry.rs:68-96 | None exactly for inverse tables; otherwise the first index that does not map back, or the length when only the sizes differ. |
| `Registry.FromQuantumState` | fock_sirk/src/tensor_state.rs:13-48 | The tensor holds the amplitudes at their indices and is as long as the dictionary; with every state registered no index is added. |
| `Registry.DenseIsSparse` | fock_sirk/src/tensor_state.rs:50-59 | The dense inner product of two flattened vectors is the sparse one, for every insertion order. |
| `Registry.FlattenAll` | fock_sirk/src/forward_sirk.rs:539-573 | After registering all vectors, all tensors share one layout and every Gram entry is the sparse inner product. |

## Left out

- HTTP, sockets, subprocess checkers, HTML and SVG, command lines and the audit file: input and output. JSON encoding is the identity on the modelled fields; file names are structured values; a bucket is named by its draft.
- `slug`, `proof_id` and `fingerprint`: the derived id and fingerprint are inputs of a submission.
- `ArchivePush.Client.SaveRemote`: writing `remote.json` and `index.json` is atomic; a write torn by a crash, which the source reads back as a fresh state, is not modelled.
- `ArchiveProgress.OnlyAnOlderPushLoses`: holds with each submission as one step; with handlers that store old copies see `ArchiveHandlers`.
- `backoff` and the sleeping between attempts.
- Replay does not recover `record`, `doi` and `state`, nor the sources of proofs that were last written by a delta: the recovered fields and the bound up to which sources are exact are part of the statements.
- `parse_file`, `identifiers`, `binder_names` and `do_block_defs`: the tokens, binders and lines of a declaration are inputs of the merge. `find_unused` and the presentation of the graph are not modelled.
- Cholesky, eigendecomposition, whitening, `spread_means` and `etf_procrustes` are foreign numerics: a solution of the system, a Ritz pair or a set of targets is a parameter of the statements about it.
- `Sequential.DecideCore.Project`: the feature of a fitted map (each head's expansion, normalised and averaged) is a parameter; the refusals and widths are modelled.
- `Sequential.DecideCore.Solve`: a fit is a given function of the accumulated stream; that the accumulators determine it and registrations do not matter is shown in `RidgeHead`, not re-run here.
- `id_score`, the `predict` of a sequence and the typed answers: they read off the similarities; the argmax and its label are `RidgeHead.Predict`.
- Rounding of `f64`, overflow, infinities and NaN inputs. NaN results are `None`.
- `Krylov.ForwardSequence`: no gauge charge, pruning or truncation is applied between the steps; `scale_and_add` keeps every component, where the source drops those with squared modulus below 1e-24.
- `Brst.ProjectPhysical`: sums keep every component, where `scale_and_add` drops those with squared modulus below 1e-24.
- Softmax, temperature and Platt calibration: they rest on the exponential function.
- Time evolution, mass-gap assembly and the certified enclosures of `fock_sirk`.
- `logos/src/translate.rs`, the search arms, corpus generators, benches and report harnesses.
