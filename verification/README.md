# ComputeHop protocols, verified

A Dafny model of the parts of ComputeHop, a two-machine job runner, whose
correctness is hard to see by reading one function, with proofs about every
input, every run or every interleaving. `dafny verify dfyconfig.toml` checks all of it.

- **Pairing** (`Base32`, `Trust`, `Pairing`, `PairingMeaning`, `PairingNetwork`,
  `PairingCompletion`, `PairingService`). One service is a transition system with one
  event per critical section, with what its entries tell about every run; another module
  runs two services against each other with message queues; a third shows that such runs
  can complete; a class holds the code in its imperative form and is tied, method by
  method, to the events. The lock is released around `Activate`, so "pinned implies
  Paired" is false; the model keeps the gap and proves exactly when the implication holds.
- **Jobs, runner, logs** (`Jobs`, `Custody`, `Transactions`, `Runner`, `LogStore`,
  `LogWriter`, `Follower`). Durable rows as transactions, the retry loop of `Cancel`, the
  runner's select loops driven by an arbitrary schedule, the append log with a crash
  possible between any two system calls, and the paging follower over all of these at once.
- **Snapshots** (`Chunker`, `Manifest`, `PortablePath`, `Canonical`, `Accounting`,
  `Transfer`). Content-defined chunking with its wrapping hash, manifest acceptance, the
  path rules, the canonical encoding and a decoder for it, byte accounting, preflight,
  upload and download.
- **Small cores** (`CommandLine`, `CommandWords`, `Ignore`, `MakeTools`), over `Text` and
  `Lex`.

Foreign functions are parameters: SHA-256 (any function to 32 bytes), zstd (with its
inverse law), `path.Match`, case folding (with the law that it works segment by
segment), the recipe-line classifier, and trimming and lower-casing of tool names.
System calls, timers, channels and other goroutines are parameters too: a plan or
schedule says how each call turns out and what others do while a lock is free.

Where a promised property is false of the code the code was kept. Each such place has
an input that shows it and the exact condition under which the property holds:

- a pin does not imply Paired: `PinnedWhileExpired`, and `PairedExactly`;
- stored bytes need not be the told ones: `CrashLosesTold`, and `StreamsAreTold`;
- a job could be ended under a live runner: `AdvanceEndsUnderRunner`, and `HarmlessExactly`;
- a key may be an ancestor of another file's key: `CaseOnlyParentAccepted`, and `KeyAboveKeyExactly`;
- the makefile walk may miss a target: `ThirtyFourMissesOne`, and `VisitsAllExactly`.

## Model

| member | source | states |
|---|---|---|
| `Base32.Crockford` | internal/trust/pairing.go:168-187 | the nested loops, with the buffer truncated to 32 bits, emit exactly the zero-padded big-endian five-bit groups of the input (the grouping of section 6 of RFC 4648); the length is ceil(8n/5) |
| `Base32.PackInjective` | internal/trust/pairing.go:168-187 | inputs of one length that pack alike are equal |
| `Base32.UnpackGroup` | internal/trust/pairing.go:168-187 | regrouping five bits at a time loses nothing: unpacking the digits gives back the padded bits |
| `Trust.ContextBinds` | internal/trust/pairing.go:135-148 | equal contexts come from equal bindings and the same ordered pair of devices |
| `Trust.CodeOf` | internal/trust/pairing.go:111-116 | ten bytes give a code that passes the code validator: four dash-separated groups of four |
| `Trust.PairIDOf` | internal/trust/pairing.go:105-117 | sixteen digest bytes give a well-formed pair ID |
| `Trust.Derive` | internal/trust/pairing.go:105-133 | material exists exactly when the context does, and its ID, code and secret are well formed |
| `Trust.MaterialBinds` | internal/trust/pairing.go:105-148 | short of a collision of the hash in the bytes shown, equal codes, equal pair IDs or equal secrets mean the same connection between the same devices in the same roles |
| `Trust.LabelsDiffer` | internal/trust/pairing.go:105-133 | the three hashes never share an input |
| `Pairing.DeviceIDInjective` | internal/trust/pairing.go:65-96 | equal device IDs come from equal key digests |
| `Pairing.StepInv` | internal/app/pairing/service.go:269-526 | every critical section keeps the service invariant: state, flags, calls in flight and pins agree for every entry |
| `Pairing.RunInv` | internal/app/pairing/service.go:269-526 | the invariant holds after every legal run |
| `Pairing.ServiceSafe` | internal/app/pairing/service.go:324-494 | in every run: at most one Activate per ID, only after a local confirmation and never after an accepted reject; Paired means both confirmations and a successful Activate; stored values are valid; at most sixteen entries wait |
| `Pairing.SettledForever` | internal/app/pairing/service.go:350-420 | an entry that has stopped waiting never changes again until it is removed |
| `PairingMeaning.AdmittedExactly` | internal/app/pairing/service.go:269-323 | exactly which connections are admitted, and the ceremony that each becomes |
| `PairingMeaning.StepEnds` | internal/app/pairing/service.go:345-526 | every critical section leaves a waiting entry waiting or ends it exactly as the verdict says: expired, rejected, failed with its text, or paired |
| `PairingMeaning.VerdictStands` | internal/app/pairing/service.go:345-526 | in every run the verdict stands while the entry is listed, and if Activate had not been called by then it never is; so a received rejection settles the entry for good |
| `PairingMeaning.FlagsExactly` | internal/app/pairing/service.go:378-388 | in every run the flags of a listed entry are exact: the user's confirmation was recorded, the peer's arrived while it waited, the peer announced its commit |
| `Pairing.PinnedExactly` | internal/app/pairing/service.go:451-473 | in every run a device is pinned if and only if Activate returned for it without error |
| `Pairing.PairedExactly` | internal/app/pairing/service.go:451-473 | in every run an entry that is still listed shows Paired if and only if Activate returned without error while it was waiting |
| `PairingCompletion.PinnedWhileExpired` | internal/app/pairing/service.go:451-473 | a possible run of two devices, from the start, that ends with a pin under an entry that shows Expired |
| `PairingNetwork.PlayNet` | internal/app/pairing/service.go:124-190 | the two-device invariant holds after every interleaving of moves |
| `PairingNetwork.TwoSidedConsent` | internal/app/pairing/service.go:179-190 | in every interleaving, a device that has called Activate did so once, for the true peer and with the shared secret, and the users of both devices confirmed that ceremony |
| `PairingNetwork.SameMaterial` | internal/app/pairing/service.go:302-313 | entries under one ID at both ends hold the same ID, code and secret |
| `PairingNetwork.RemoteFlagsAreTrue` | internal/app/pairing/service.go:379-388 | remoteCommitted means the peer's Activate succeeded; RemoteConfirmed means the peer's user confirmed |
| `PairingCompletion.CeremonyCompletes` | internal/app/pairing/service.go:116-190 | two devices that can authenticate each other can pair on any connection: some possible run ends with both Paired and pinned |
| `PairingService.Coordinator.PruneLocked` | internal/app/pairing/service.go:515-526 | visiting the keys in any order expires and deletes exactly what the map-wide prune says |
| `PairingService.Coordinator.CountWaiting` | internal/app/pairing/service.go:327-332 | counts exactly the waiting entries |
| `PairingService.Coordinator.InsertLocked` | internal/app/pairing/service.go:324-342 | accepts exactly when fewer than sixteen wait and the ID is new, and stores a fresh entry |
| `PairingService.Coordinator.Register` | internal/app/pairing/service.go:269-343 | one registration, with its two clock reads: accepted exactly when material can be derived and there is room |
| `PairingService.Coordinator.UpdateLocalDecision` | internal/app/pairing/service.go:403-420 | records the decision exactly for a waiting entry whose activation has not begun |
| `PairingService.Coordinator.Fail` | internal/app/pairing/service.go:496-503 | fails a waiting entry and leaves any other alone |
| `PairingService.Coordinator.Settle` | internal/app/pairing/service.go:350-359 | settles a waiting entry and leaves any other alone |
| `PairingService.Coordinator.NoteConfirmation` | internal/app/pairing/service.go:379-388 | a confirmation counts only while waiting; a commit is noted in any state |
| `PairingService.Coordinator.ReceiveOne` | internal/app/pairing/service.go:365-388 | one decision is the receive step, whose effect in each case the verdicts and flags give: foreign IDs fail the entry, rejections settle it, confirmations are noted |
| `PairingService.Coordinator.BeginActivation` | internal/app/pairing/service.go:440-450 | marks the entry exactly when the guard holds, and hands out the pin of that entry's ceremony |
| `PairingService.Coordinator.EndActivation` | internal/app/pairing/service.go:462-473 | the second critical section, which acts only on an entry that is still waiting |
| `PairingService.Coordinator.MaybeActivate` | internal/app/pairing/service.go:440-494 | the whole call with other goroutines in its gap; the commit is sent exactly when the guard held and Activate succeeded, and it is then recorded: confirmed here and pinned |
| `PairingService.Coordinator.Confirm` | internal/app/pairing/service.go:179-190 | records, sends, activates and reads the entry again, the run given in full; what is sent is recorded at every moment it can be sent; fails exactly if it was not recorded, not sent or pruned meanwhile |
| `PairingService.Coordinator.Reject` | internal/app/pairing/service.go:193-201 | an accepted rejection settles the entry at once, and what is sent is recorded |
| `PairingService.DecidedIsSendable` | internal/app/pairing/service.go:179-201 | a decision is justified by the service from the moment it is recorded, whatever runs before it is sent |
| `PairingService.Coordinator.Handle` | internal/app/pairing/service.go:349-389 | one received decision and the activation it may lead to, with others running wherever the lock is free |
| `PairingService.Coordinator.Monitor` | internal/app/pairing/service.go:345-401 | runs one turn per receive and stops exactly on an error, a foreign or negative decision, or an entry with nothing left to learn |
| `LogStore.StepInv` | internal/logging/store.go:34-209 | every system call, with any outcome, and every crash keeps the invariant of file, index, cursor and writer |
| `LogStore.LogIsExact` | internal/logging/store.go:34-209 | in every run the file starts with exactly the committed records in order, every row points at its own record, and the size test of a reopen cannot fail |
| `LogStore.ReopenLeavesPrefix` | internal/logging/store.go:34-94 | a successful reopen leaves exactly the committed prefix, durable, and it succeeds whenever there is no tail or the tail can be cut and synced |
| `LogStore.FailureCuts` | internal/logging/store.go:185-202 | after a sync or commit that fails, a truncation that works leaves exactly the committed bytes |
| `LogStore.ClosedSurvives` | internal/logging/store.go:157-165 | what a writer closed in order survives any crash |
| `LogStore.UntoldExactly` | internal/logging/store.go:167-209 | in every run the untold records of a stream are exactly the crashes between its commit and return, plus one while a goroutine is there |
| `LogStore.StreamsAreTold` | internal/logging/store.go:167-209 | in every run, with any crashes, a stream's stored bytes are exactly what its writers were told if and only if no crash fell between a commit on it and its return and nobody is in between |
| `LogStore.CrashLosesTold` | internal/logging/store.go:190-205 | a run whose crash after the commit leaves a stored byte that its writer never heard of |
| `LogStore.RunKeeps` | internal/logging/store.go:167-209 | committed records are never rewritten or lost |
| `LogStore.ReachedIsKept` | internal/logging/store.go:34-209 | being reached is a property that every step keeps, so the writer, which keeps all of those, makes only steps of the log |
| `LogWriter.LogFile.OpenWriter` | internal/logging/store.go:34-94 | a reopen is the repair step, and success means the file is exactly the committed bytes |
| `LogWriter.LogFile.WriteAtAll` | internal/logging/store.go:221-234 | succeeds exactly when the partial writes add up before an error or an empty write |
| `LogWriter.LogFile.SyncChunk` | internal/logging/store.go:185-189 | exactly the sync step of the log: durable, or the chunk ends and the tail is cut if the truncation works |
| `LogWriter.LogFile.CommitRow` | internal/infra/sqlite/log_repository.go:39-119 | exactly the commit step of the log: row, cursor and record together, or none of them and the repair of the file |
| `LogWriter.LogFile.Advance` | internal/logging/store.go:203-206 | the committed record is marked as told and the offset moves to its end |
| `LogWriter.LogFile.AppendChunk` | internal/logging/store.go:173-206 | adds exactly one told record, if and only if the writer is open and every call succeeds |
| `LogWriter.LogFile.Append` | internal/logging/store.go:167-209 | the count told to the caller is backed by told records of its stream that are new since the call, in order, and spell exactly that prefix; every other new record is a chunk of another goroutine |
| `LogWriter.LogFile.CloseWriter` | internal/logging/store.go:157-165 | closes the writer and changes no record; closing twice is harmless |
| `LogWriter.LogFile.Read` | internal/logging/store.go:97-138 | the page is exactly the records after the given sequence, read back from the file, and hasMore is exact |
| `Jobs.TransitionsClimb` | internal/job/state.go:58-112 | every legal transition climbs the rank, so no state recurs |
| `Jobs.TerminalIsFinal` | internal/job/state.go:130-142 | a state is terminal if and only if no transition leaves it |
| `Jobs.Apply` | internal/job/job.go:103-135 | succeeds exactly for a valid job, a legal transition, a time that does not go back and a failure that fits the state; the result is valid |
| `Jobs.TransitionRow` | internal/infra/sqlite/job_repository.go:270-351 | an accepted transition extends the history and keeps the row equal to its replay |
| `Jobs.ExecAllRow` | internal/infra/sqlite/execution_repository.go:41-340 | after any transactions the row is the replay of a legal, time-ordered history |
| `Jobs.NineAtMost` | internal/infra/sqlite/job_repository.go:270-351 | no history has more than nine transitions |
| `Jobs.NineReached` | internal/job/state.go:58-112 | operations exist that record all nine transitions |
| `Jobs.ExecAllExtends` | internal/infra/sqlite/job_repository.go:270-351 | no accepted update is lost and time never goes back, whatever runs |
| `Jobs.StateTellsRow` | internal/job/repository.go:19-29 | if the state is again the one that was read, the whole row and history are the ones that were read |
| `Transactions.CreateExactly` | internal/infra/sqlite/job_repository.go:57-113 | a job is inserted exactly if it is valid, new and in its first state |
| `Transactions.TransitionExactly` | internal/infra/sqlite/job_repository.go:270-351 | a transition is accepted exactly if its guard holds, and then moves the row and extends the history |
| `Transactions.ClaimExactly` | internal/infra/sqlite/execution_repository.go:41-95 | a queued job is claimed exactly if the time does not go back, and then has a fresh attempt of that runner |
| `Transactions.MarkRunningExactly` | internal/infra/sqlite/execution_repository.go:98-151 | the owner of a starting attempt marks it running, exactly with a process and a time that does not go back |
| `Transactions.HeartbeatExactly` | internal/infra/sqlite/execution_repository.go:154-182 | the owner of an attempt in progress renews it, exactly with a time not before the claim |
| `Transactions.RequestExactly` | internal/infra/sqlite/execution_repository.go:185-219 | a request is accepted exactly for an attempt in progress, and the first time is kept |
| `Transactions.CompleteExactly` | internal/infra/sqlite/execution_repository.go:241-340 | an owner's valid completion of its attempt in progress is accepted exactly if its time does not go back and a process that never started claims no success; job and attempt then say how it ended |
| `Transactions.CollectsAndSucceeds` | internal/infra/sqlite/execution_repository.go:241-340 | a job with outputs is submitted, claimed, run, collected and succeeds |
| `Custody.ExecAllAgree` | internal/infra/sqlite/execution_repository.go:41-340 | job state and attempt agree after any operations the program issues: only Complete ends a job that a runner holds |
| `Custody.TerminalMeansOver` | internal/infra/sqlite/execution_repository.go:241-340 | a terminal job has no attempt in progress |
| `Custody.ExecAllOver` | internal/infra/sqlite/execution_repository.go:241-340 | a job that is over never changes again |
| `Custody.AdvanceEndsUnderRunner` | internal/app/worker/jobs.go:444-455 | in rows that submission, claim and start reach, the exported Advance, which nothing calls, ends the job under its live runner |
| `Custody.HarmlessExactly` | internal/app/worker/jobs.go:489-504 | a plain transition keeps job and attempt in agreement if and only if its guard on job, state, time and failure fails, it precedes a claim without starting the job, or it goes from running to collecting |
| `Custody.RequestReachesRunner` | internal/infra/sqlite/execution_repository.go:185-238 | a stop request that was accepted is reported by every later poll of the runner until its attempt is completed |
| `Custody.Moving` | internal/app/worker/jobs.go:459-487 | a state that differs after other writers means that they recorded a transition |
| `Custody.JobService.AdvanceLoaded` | internal/app/worker/jobs.go:489-504 | compare-and-set on the state that was read, with state, time and failure as asked: conflict means that the state differs, an error changes nothing, and an uncontended valid move succeeds |
| `Custody.JobService.AskRunner` | internal/app/worker/jobs.go:471-480 | without error a stop request is recorded or the attempt had completed |
| `Custody.JobService.TryCancel` | internal/app/worker/jobs.go:459-487 | one pass: an answer, or a lost race that cost another writer's transition |
| `Custody.JobService.Cancel` | internal/app/worker/jobs.go:459-487 | without error the job is cancelled, asked to stop or already completed; a conflict needs two transitions by others; undisturbed it succeeds for every job that has not ended otherwise |
| `Follower.HappenOver` | internal/app/worker/dispatcher.go:143-171 | once the job is over, whoever completed it, nothing that happens adds output |
| `Follower.HappenAllSound` | internal/app/worker/jobs.go:416-441 | whatever runner, dispatcher and clients do, rows and log stay sound and no record is lost |
| `Follower.OverIsFinal` | internal/infra/sqlite/log_repository.go:39-119 | the output of a job that is over is final under every further schedule |
| `Follower.Daemon.ListRows` | internal/infra/sqlite/log_repository.go:122-183 | at most 32 rows after the sequence, in order, and an exact hasMore |
| `Follower.Daemon.ReadRows` | internal/logging/store.go:97-138 | each listed row reads back exactly its record |
| `Follower.Daemon.ReadLogs` | internal/app/worker/jobs.go:416-441 | the job as it was first read and a page of exactly the next records; without more pages it covers every record there was before the call, and for a terminal job every record there will ever be |
| `Follower.Daemon.Print` | cmd/computehop/root.go:3100-3118 | prints the page's records in order, all of them or those before a write that fails; the sequence check never fires |
| `Follower.Daemon.StreamJobLogs` | cmd/computehop/root.go:3073-3133 | what is printed is always a prefix of the output, once and in order, and on a normal return covers all output there was before the call; stopping on a terminal job means all output was printed and none can follow; enough working polls always get there for a finished job, and without following for any |
| `Runner.FailedCompletion` | internal/app/worker/runner.go:437-454 | always a valid failed completion with the given exit data |
| `Runner.CompletionForExit` | internal/app/worker/runner.go:417-435 | valid, and success exactly for code 0, no signal and no wait error |
| `Runner.SucceedsExactly` | internal/app/worker/runner.go:131-160 | the recorded outcome is success if and only if every step from load to close went well, collection included when outputs are declared |
| `Runner.CancelledOnlyIfAsked` | internal/app/worker/runner.go:228-284 | cancellation is recorded only if a poll reported a request |
| `Runner.CancelledExactly` | internal/app/worker/runner.go:131-160 | the recorded outcome is cancellation if and only if a request is the first thing to interrupt the attempt while it goes well |
| `Runner.RecordedMeans` | internal/app/worker/runner.go:131-160 | a failure is recorded with its code, success with exit code 0 and no signal |
| `Runner.Runner.Stop` | internal/app/worker/runner.go:391-402 | the process has been waited for, and was killed exactly when the grace period ran out |
| `Runner.Runner.AbandonStart` | internal/app/worker/runner.go:322-363 | a start that is interrupted still receives the starter's result and waits for its process; the outcome follows from the interruption |
| `Runner.Runner.StartClaimedProcess` | internal/app/worker/runner.go:291-366 | a running process exactly when nothing interrupted and the starter delivered one |
| `Runner.Runner.Supervise` | internal/app/worker/runner.go:254-283 | the process has been waited for; the outcome is that of the first interruption or of the exit |
| `Runner.Runner.RunClaimed` | internal/app/worker/runner.go:228-284 | no start or process left over; valid completion of the specified kind |
| `Runner.Runner.CollectDeclaredArtifacts` | internal/app/worker/runner.go:162-226 | no collector left over; success exactly when the collector finished without error in a marked job |
| `Runner.Runner.Run` | internal/app/worker/runner.go:131-160 | after a claim exactly one Complete, with start, process, collector and log closed, valid, and recording the specified outcome, exit data and failure code; the clauses for a starter that returns both or neither of process and error are exact |
| `Runner.RecordsOutcome` | internal/app/worker/runner.go:153-158 | an accepted Complete leaves the job in the state of the outcome and the attempt with that result and exit data; an invalid completion is refused without effect |
| `Chunker.GearTable` | internal/snapshot/chunker.go:9-20 | the accumulating loop, with wrap-around, fills entry i with the finalizer of (i + 2) times the step modulo 2^64 |
| `Chunker.SeedsDiffer` | internal/snapshot/chunker.go:9-20 | the 256 words that are mixed are pairwise different |
| `Chunker.ChunkFile` | internal/snapshot/chunker.go:9-72 | the chunker with its own table delivers as the reference chunks say |
| `Chunker.ChunkSizes` | internal/snapshot/chunker.go:24-72 | reference chunks concatenate to the input; all are whole at 64 KiB to 512 KiB but for a possible last remainder, which is not empty and under 512 KiB |
| `Chunker.HitIsLocal` | internal/snapshot/chunker.go:49-61 | despite 64-bit wrap-around the masked test depends only on the last 18 bytes |
| `Chunker.CommonTail` | internal/snapshot/chunker.go:24-72 | two inputs that both cut where a common tail begins have the same chunks from there on |
| `Chunker.Resynchronizes` | internal/snapshot/chunker.go:49-61 | after differing beginnings, a common stretch of 18 bytes that ends one chunk by hash ends the other if and only if it has reached the minimum; then all following chunks agree |
| `Chunker.Feed` | internal/snapshot/chunker.go:49-61 | one buffer extends the delivered chunks and the open one exactly, or stops at a whole chunk that the callback refused |
| `Chunker.Absorb` | internal/snapshot/chunker.go:48-71 | one read: continue, finish with the complete chunk list, or stop for the stated cause with a proper part of it |
| `Chunker.ChunkReader` | internal/snapshot/chunker.go:24-72 | for every way the reader splits the input the callback receives the reference chunks: all at EOF, those before the one it refused, otherwise all but a possible last, with the exact cause of stopping |
| `Chunker.EofDelivers` | internal/snapshot/chunker.go:24-72 | an input that reaches EOF without stalling is delivered in full to a callback that does not refuse |
| `Manifest.CheckChunks` | internal/snapshot/model.go:119-127 | accepts exactly valid chunks within the chunk budget, with their exact sum and count |
| `Manifest.UnderEarlierFile` | internal/snapshot/model.go:110-114 | walking up with path.Dir finds an earlier key if and only if some earlier key is a proper ancestor |
| `Manifest.CheckFile` | internal/snapshot/model.go:98-130 | one file passes exactly when it is valid, fits those before it and stays in the budget |
| `Manifest.Validate` | internal/snapshot/model.go:89-140 | accepts exactly the manifests that the declarative predicate accepts |
| `Manifest.AcceptedMeans` | internal/snapshot/model.go:89-140 | paths strictly sorted, keys distinct, no file above another, sums exact; a key above another file's key only if it is listed later |
| `Manifest.KeyAboveKeyExactly` | internal/snapshot/model.go:94-117 | an accepted manifest has a key above another file's key if and only if some path differs only by folding from a directory of a file listed before it |
| `Manifest.NoFileIsDirectory` | internal/snapshot/model.go:94-117 | no accepted path is an exact-case ancestor of another |
| `Manifest.CaseOnlyParentAccepted` | internal/snapshot/model.go:110-114 | `A/b` followed by `a` is accepted |
| `PortablePath.Validate` | internal/portablepath/path.go:17-37 | the tests as they are made, with the one of path.Clean, accept exactly the paths of the declarative rule |
| `PortablePath.WindowsReservedName` | internal/portablepath/path.go:45-54 | exactly the 22 device names, in any case and with any extension |
| `PortablePath.Utf8Exactly` | internal/portablepath/path.go:17-23 | the strings that pass the UTF-8 test are exactly the encodings of Unicode scalar values (section 3 of RFC 3629) |
| `PortablePath.CleanIsIdle` | internal/portablepath/path.go:17-23 | path.Clean leaves a path without empty and dot segments alone |
| `PortablePath.ParseDigestExactly` | internal/snapshot/model.go:50-59 | 64 bytes that decode as hexadecimal and that lower-casing does not change are exactly 64 lower-case hexadecimal digits |
| `Canonical.FieldRoundTrip` | internal/snapshot/model.go:166-196 | a fixed-width big-endian field decodes to its value |
| `Canonical.HexRoundTrip` | internal/snapshot/model.go:50-59 | a lower-case hex digest decodes and encodes back |
| `Canonical.WriteCanonical` | internal/snapshot/model.go:166-196 | the field-by-field writer produces the reference encoding |
| `Canonical.RoundTrip` | internal/snapshot/model.go:166-196 | decoding the encoding of any manifest accepted under the portable path rules gives that manifest |
| `Canonical.EncodingInjective` | internal/snapshot/model.go:152-196 | accepted manifests with equal encodings are equal |
| `Canonical.CanonicalBytes` | internal/snapshot/model.go:152-164 | the decodable reference encoding, refused exactly for unaccepted manifests and encodings over 800 KiB |
| `Accounting.Digests` | internal/snapshot/model.go:199-212 | every referenced digest exactly once, in byte order |
| `Accounting.DigestListUnique` | internal/snapshot/model.go:199-212 | there is only one such list |
| `Accounting.DigestBytes` | internal/app/orchestrator/remote_jobs.go:735-755 | the bytes of the wanted digests, each counted at its first reference |
| `Accounting.ManifestUniqueBytes` | internal/app/orchestrator/remote_jobs.go:720-733 | the bytes of all referenced digests, each counted once |
| `Accounting.SinglesAddUp` | internal/app/orchestrator/remote_jobs.go:735-755 | single-digest sizes of distinct digests add up to the size of the set |
| `Accounting.UniqueIsAll` | internal/app/orchestrator/remote_jobs.go:720-755 | unique bytes are the bytes of the digest list, together or one by one |
| `Transfer.ChunkSurvives` | internal/transfer/chunk.go:48-127 | a chunk that is sent decodes to itself in an accepted encoding; accepting plain bytes is always enough |
| `Transfer.EncodesExactly` | internal/transfer/chunk.go:48-76 | exactly when a chunk can be sent, and when it is sent compressed |
| `Transfer.DecodesExactly` | internal/transfer/chunk.go:80-104 | exactly what received data decodes to |
| `Transfer.Preflight` | internal/app/orchestrator/remote_jobs.go:455-510 | succeeds exactly when every batch reply is acceptable, and returns in order the digests some reply reported missing |
| `Transfer.AskedOnce` | internal/app/orchestrator/remote_jobs.go:463-475 | the batches joined are the digest list; none is empty or over 4096 |
| `Transfer.PreflightMeans` | internal/app/orchestrator/remote_jobs.go:455-510 | the result is exactly the reported set, sorted and without duplicates |
| `Transfer.Store.Put` | internal/infra/cas/store.go:61-137 | stores exactly content that matches its digest, if the disk lets it, and never changes what is stored |
| `Transfer.Store.Missing` | internal/infra/cas/store.go:153-181 | exactly the absent digests, sorted and without repeats; an error exactly for an invalid digest or an unreadable chunk |
| `Transfer.Store.Receive` | internal/app/worker/remote_handler.go:427-464 | an uploaded chunk is stored exactly when it decodes to content with that digest and the disk works; it may be in place although the call fails |
| `Transfer.SendOne` | internal/app/orchestrator/remote_jobs.go:394-417 | success means the chunk arrived; it is certain if the chunk is held, plain bytes are accepted and every call works; a failure adds at most that chunk |
| `Transfer.Advance` | internal/app/orchestrator/remote_jobs.go:418-423 | the counter moves by the digest's bytes and stays within the total |
| `Transfer.UploadOne` | internal/app/orchestrator/remote_jobs.go:393-424 | one turn: on success the worker gains exactly this chunk and the counter is exact after it; a failed turn reports no progress |
| `Transfer.Upload` | internal/app/orchestrator/remote_jobs.go:386-424 | on success every missing chunk is at the worker and progress rose within 0..total to exactly the total; it succeeds whenever the chunks are held and the calls work |
| `Transfer.AskAll` | internal/app/worker/remote_handler.go:376-425 | an honest worker answers exactly the batches that reach it and that it can read, and reports exactly what is absent |
| `Transfer.AskWorker` | internal/app/orchestrator/remote_jobs.go:455-510 | preflight with an honest worker succeeds exactly if every batch is answered, and finds exactly what is absent |
| `Transfer.TransferSnapshot` | internal/app/worker/jobs.go:337-343 | preflight, upload and the final test end to end with an honest worker that evicts nothing: success means no chunk is missing at submission, and is certain if the chunks are held and every call works |
| `Transfer.Fetch` | internal/app/orchestrator/remote_jobs.go:173-216 | succeeds exactly when every missing digest is answered with content of that digest and every local call works; then all chunks are held and progress ended exactly at the unique bytes |
| `CommandLine.SplitCommandLine` | apps/control-center/src/command-line.ts:1-56 | the character loop and its two errors, as a fold over the characters |
| `CommandWords.SplitMeans` | apps/control-center/src/command-line.ts:1-56 | every input is words of plain, escaped and quoted pieces, white space, and at most one escape or quote left open; the result is exactly the meanings of the words or the error for what is open |
| `CommandLine.TrimIsIdle` | apps/control-center/src/command-line.ts:58-66 | the final trim removes nothing |
| `CommandLine.BareExactly` | apps/control-center/src/command-line.ts:68-77 | an argument is written unquoted exactly if it is not empty and holds only plain characters |
| `CommandLine.RoundTrip` | apps/control-center/src/command-line.ts:1-77 | splitting a formatted command line returns the original arguments, for every list of strings |
| `Ignore.Match` | internal/snapshot/ignore.go:233-250 | the recursion with its loop over `**` accepts exactly when an alignment of the remaining segments exists |
| `Ignore.MatchGlob` | internal/snapshot/ignore.go:230-251 | accepts exactly the paths whose segments align with the pattern's |
| `Ignore.BaseIsAncestor` | internal/snapshot/ignore.go:217-228 | a rule applies exactly when its base's segments, none for the root, begin the path's, and the candidate is what is left, nothing for the base itself |
| `Ignore.MatchRule` | internal/snapshot/ignore.go:194-209 | one rule matches what is below its base: all of it with a slash, any one segment without |
| `Ignore.Ignored` | internal/snapshot/ignore.go:184-215 | true for reserved segments, otherwise exactly the verdict of the last matching rule |
| `Ignore.ForeignRulesAreIdle` | internal/snapshot/ignore.go:217-228 | deleting any rules whose base is neither the path nor an ancestor changes no verdict |
| `Ignore.SlashlessMeans` | internal/snapshot/ignore.go:199-210 | a pattern without a slash means the pattern between two `**` |
| `MakeTools.VisitsOnlyReachable` | apps/control-center/src/planner.ts:385-400 | in every graph, cyclic or deep, only reachable targets are visited |
| `MakeTools.VisitsAllExactly` | apps/control-center/src/planner.ts:385-400 | in every graph the walk visits exactly the reachable targets if and only if each name that the depth limit turns away is visited elsewhere |
| `MakeTools.VisitsReachable` | apps/control-center/src/planner.ts:385-400 | when no chain without repetition has more than 33 names nothing is turned away, so the walk is complete |
| `MakeTools.FewTargets` | apps/control-center/src/planner.ts:385-400 | the same when at most 33 targets are reachable |
| `MakeTools.ThirtyFourMissesOne` | apps/control-center/src/planner.ts:386-388 | of 34 targets in a row the last is missed |
| `MakeTools.NormalizeToolIDs` | apps/control-center/src/capability-catalog.ts:70-86 | strictly increasing and exactly the cleaned names that are not empty and have no white space or equals sign |
| `MakeTools.Walk.Visit` | apps/control-center/src/planner.ts:385-400 | marks exactly the targets of the value-level walk and collects exactly their recipe tools |
| `MakeTools.RequiredToolIDs` | apps/control-center/src/planner.ts:382-406 | sorted, duplicate-free, and exactly the wanted names from `make`, the visited recipes and the project |
| `MakeTools.UnionOfTools` | apps/control-center/src/planner.ts:382-406 | whenever the walk is complete that is the union over all reachable targets |

## Left out

- Pairing assumptions: a daemon registers a pair ID at most once and no two connections of a run collide under SHA-256; error texts are not blank and the clock never returns the zero time.
- Pairing selectors, device names and roles, listing order and closing of channels: no effect on the states that are modelled.
- Agreement of both sides on the outcome (both pinned or neither): the code does not decide it.
- LogStore.StepInv: a commit is taken to be all or nothing and its reported result to be true, as a local transaction's is.
- LogWriter.LogFile.Append: one writer per job is assumed, as in the program; file permissions, symbolic links and directory creation are not modelled.
- Custody.JobService.Cancel: identity, specification and progress of a job, unknown state strings and job listing are not modelled, because no transition touches them.
- Custody.ExecAllAgree: covers the operations that the program issues; the exported Advance is excluded because nothing calls it, and Custody.AdvanceEndsUnderRunner shows why that matters.
- Runner.Runner.Run: error values returned to the caller, progress clearing and the digits in the exit message are not modelled; a starter that returns both or neither of process and error is.
- Submission and its idempotence, snapshot reservations and dispatcher timing: plain sequences of the operations already modelled.
- Transfer.TransferSnapshot: eviction from the content cache and corruption of stored chunks are not modelled; with eviction a chunk may be missing again at submission.
- Follower.Daemon.Print: what a failed write has put out is not modelled; the record does not count as printed.
- Chunker.ChunkReader: a nil reader or callback and reuse of the buffer are not modelled.
- Building a manifest from a directory, restoring files and loading or parsing ignore files: operating-system effects and line parsing.
- CommandLine.SplitCommandLine: text is a sequence of Unicode scalar values, so unpaired surrogates are not modelled; values that are not strings are not modelled.
- MakeTools.RequiredToolIDs: keys that JavaScript objects inherit, such as `constructor`, are not modelled; makefile parsing and the recipe classifier are not either.
- Network sessions, discovery, rendezvous, local IPC, protobuf mapping, SQL text, containers, settings, the desktop and command-line interfaces: plumbing and presentation.
