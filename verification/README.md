# N0TE verification model

A Dafny model of the parts of N0TE that are built to fail closed: the construction-program scheduler and its mechanical closeout, PCM WAV analysis, one-time execution permits, the upload, token, ref and byte-range parsers, the capability resolver, the rate-limited Ableton observer, and the append-only stores and runtime lifecycle. Every module proves properties that span functions or whole runs.

`dafny verify dfyconfig.toml` checks the whole project.

## How it is organised

| module | models |
|---|---|
| `Prelude`, `Ordering` | shared failure values, bytes, table lookups; sorting by a key order and why its result is unique |
| `DependencySearch`, `ConstructionProgram`, `Scheduler`, `Contradiction` | program validation, the eligible-work passes, runs of the scheduler, reopening of evidence |
| `Closeout`, `CloseoutEffect`, `CloseoutNames`, `CloseoutCollisions` | the closeout step on its files; what it does to every requirement under any file names; when each keeps its own claims; concrete collisions |
| `CloseoutHistory`, `CloseoutSchedule` | runs of closeouts, alone and with the scheduler; when some closeout succeeds, and when a program can be closed to its end |
| `SignalStatistics`, `WaveLayout`, `WaveTail`, `PcmStream` | statistics in exact arithmetic, the two RIFF walkers and where they differ, the streaming pass |
| `Authority`, `ExecutionEnvelope`, `TrustedContext`, `StateBridge` | intents and approvals, the envelope gate, snapshots and their provider, snapshots compiled from state |
| `PermitProtocol`, `PermitSchedules`, `PermitRevocation`, `PermitGateway` | the permit protocol as small steps of calls that interleave; particular interleavings; an approval withdrawn too late; the objects that make those steps |
| `Base64Url`, `VolumePayload` | unpadded base64url tokens, content-addressed payload refs |
| `MaterialHeaders`, `MaterialUpload`, `BrowserForms`, `UploadSpool` | the header grammar and its reader; the multipart grammar and parser; the forms browsers send; the spool, its cursor and slice readers |
| `ByteRanges` | single byte ranges and the serving loop |
| `Capabilities`, `CapabilityEvidence` | the route resolver; the evidence log it is fed from |
| `ContinuousObserver` | the polling observer with its retry rule |
| `CollaborationHandoff`, `HandoffHistory` | the handoff tables with their guards; runs of the store |
| `ApplicationRuntime` | lease, Headquarters and recovery |

Code that works by changing things step by step is modelled as methods and classes whose contracts equate the new state with a function of the old one; the properties are then proved about those functions and about runs of them. An exception is a failure value.

## Assumptions about the environment

- SHA-256 digests are injective: a digest carries its preimage; JSON objects are listed in their canonical key order. HMAC signatures are a free function of key and payload, and nobody presents a signature under the gateway's key that the gateway did not make. Permit ids, row ids and Headquarters objects are fresh.
- Snapshot objects come only from `validate_trusted_context_snapshot`.
- JSON, UTF-8 decoding and `email.message` header parsing are opaque functions; for the payload refs, parsing what was printed for a payload gives the document back, which some host does.
- Identifiers and texts arrive already stripped, except where stripping is part of a parser (`MaterialHeaders`, `ByteRanges`).
- Clocks, random ids, filesystem answers and the results of registered callables are inputs of each step and otherwise unconstrained.
- A database or ledger write either happens or leaves everything as it was; a close or a release that raises has no effect.
- Arithmetic is exact: floats are modelled as reals.

## What the proofs found

Where a promise does not hold of the code as it stands, the code was kept, a concrete failing case is a lemma, and the exact condition is proved.

- **Closeout receipt names can collide.** Receipts are named requirement-work-commit, so `R` with work `1-W` and `R-1` with work `W` share a file, and a requirement whose name and work spell `<program>-completion` shares one with the completion receipt. A successful closeout can then lose a PROVEN claim or consumer acceptance (`CloseoutCollisions.ProvenCanBeLost`, `OutsiderCanBeLost`, `AcceptanceCanBeOverwritten`), and can even give a requirement consumer acceptance it never had (`AcceptanceCanBeGained`). `CloseoutNames.SuccessKeepsExactly` and `FailureKeepsExactly` say for each requirement exactly when it keeps its own claims, and `AllKeepExactly` and `FreshCommitKeepsExactly` say it of the names alone.
- **Nothing is looked at again after the permit is spent.** Between the fetch of the snapshot and the executor the store may be replaced, and between the checks and the executor any time may pass; the executor is called all the same (`PermitSchedules.ExecutorMayBeLate`), even for an irreversible action whose recorded approval is gone from the current snapshot by then (`PermitRevocation.RevokedApprovalStillRuns`). `PermitProtocol.CurrentAtTheExecutorExactly` and `HumanActionsAreApproved` say when the snapshot is still the current one, and when the current one still holds the approval.
- **ACTIVE is not eligible.** The closeout accepts any ACTIVE package, whether or not its dependencies are complete, and can so leave a COMPLETE package that depends on unfinished work (`CloseoutSchedule.ActiveIsNotEnough`, `ClosureKeptExactly`).
- **Audition reads past the RIFF payload.** The engineering inspector stops at the RIFF size, the audition check walks to the end of the file, so bytes after the payload can make an accepted file unplayable (`WaveTail.JunkTailIsUnplayable`, `PlayableExactly`).
- **A guided route can be an unlisted fallback.** When automated routes exist, guided ones are rejected, not listed as fallbacks; with every automated route removed they are recommended after all (`Capabilities.FallbacksAreComplete`, `GuidedComesBack`).
- **Slice readers share one cursor.** Reading is exact while a reader is alone; a second `file_stream()` rewinds the first (`UploadSpool.InSyncIsNecessary`, `SecondStreamRewindsTheFirst`).
- **`isdigit` is wider than `int`.** A Range header with a superscript digit, or with more than 4300 digits, escapes as an uncaught `ValueError` (`ByteRanges.NumeralErrorEscapes`, `SuperscriptEscapes`).
- **`from_ref` can fail while unpacking.** A ref whose only digest marker overlaps its prefix is not rejected with the module's own error (`VolumePayload.UnpackExactly`, `UnpackCanFail`).
- **A negative clock repeats INITIAL.** The observer's first retry time is 0.0 (`ContinuousObserver.InitialRepeatsOnlyBeforeZero`).
- **A foreign Headquarters can be stranded.** If the opener returns another profile's Headquarters and closing it fails, the lease is still released (`ApplicationRuntime.LaunchKeepsUnlessStranded`, `ForeignHeadquartersIsStranded`).
- **A NUL inside a route id can imitate the separator** of the candidate id (`CapabilityEvidence.AmbiguousExactly`, `SharedIdsExactly`, `TwoRoutesOneId`).
- Two checks can never fire: the READ_ONLY refusal of permit issuance (`PermitProtocol.ReadOnlyIsRefusedEarlier`) and the frame-count comparison of the WAV analysis on an unchanged file (`PcmStream.AnalyzePcmWave`).

## Model

| member | source | states |
|---|---|---|
| DependencySearch.Search.Visit | governance/model.py:191-200 | the recursive visit terminates; an error names an id that lies on a real cycle, and otherwise the visiting stack is restored and the visited set grows in finishing order |
| DependencySearch.FindCycle | governance/model.py:188-203 | the search accepts exactly the acyclic graphs, and then the order in which ids finish is a topological order of all of them |
| DependencySearch.TopologicalMeansAcyclic | governance/model.py:188-203 | a topological rank excludes every cycle, so acceptance is sound |
| DependencySearch.StackClosesCycle | governance/model.py:194-195 | meeting an id that is still being visited yields a closed walk along the stack |
| ConstructionProgram.CheckPackages | governance/model.py:165-177 | the package loop accepts exactly when every package is valid on its own and no id repeats |
| ConstructionProgram.CheckDependencies | governance/model.py:178-186 | the dependency loop accepts exactly when every dependency is known and none is the package itself |
| ConstructionProgram.ValidateConstructionProgram | governance/model.py:142-204 | a program is accepted if and only if it passes the earlier checks and its dependency graph is acyclic; a reported cycle is real |
| ConstructionProgram.UnblockedIsEligible | governance/model.py:278-295 | no recorded reason against an active package if and only if its dependencies are COMPLETE, no open incident hits it and no other active package shares a path |
| ConstructionProgram.FirstPass | governance/model.py:278-286 | every active package gets exactly its dependency and incident reasons; the pass fails only for a malformed open incident met with active work |
| ConstructionProgram.PairwiseRow | governance/model.py:288-293 | one row of the quadratic pass notes each conflict with a later package on both sides |
| ConstructionProgram.PairwisePass | governance/model.py:288-293 | the quadratic pass records, for every active package, its conflicts with all others in the order of the active list |
| ConstructionProgram.CollectBlockers | governance/model.py:276-293 | both passes together record for every active package its reasons in full |
| ConstructionProgram.EvaluateConstructionProgram | governance/model.py:272-308 | the evaluation answers exactly when the program is valid and no malformed open incident meets active work; the eligible list holds exactly the eligible packages, once each, every other active package is listed with its recorded reasons, and every package with what its own evidence proves |
| Scheduler.RunnableFrom | governance/model.py:278-281 | in an acyclic program with only ACTIVE and COMPLETE packages, following unfinished dependencies from any active package reaches one with none left |
| Scheduler.NeverStuck | governance/model.py:272-308 | while active paths are disjoint and no incident is malformed or hits active work, active work exists if and only if some package is eligible |
| Scheduler.ReadyEvaluates | governance/model.py:272-308 | such a program is evaluated without an error |
| Scheduler.ClosingKeepsReady | governance/closeout.py:230-242 | closing a package keeps validity, path disjointness and the absence of hits |
| Scheduler.ClosingKeepsClosure | governance/closeout.py:96-97 | closing an ACTIVE package keeps the COMPLETE set dependency-closed if and only if its own dependencies were complete: ACTIVE alone is not enough |
| Scheduler.RunsFinish | governance/closeout.py:230-242 | every run that closes eligible packages takes exactly the initial number of ACTIVE packages, can go on exactly until then, and keeps a dependency-closed COMPLETE set dependency-closed |
| Contradiction.EvidenceRecord.ReopenFromContradiction | governance/model.py:91-96 | the in-place loop leaves exactly the record in which the contradicted dimension and all later ones are UNPROVEN and everything else is untouched |
| Contradiction.ReopeningIsBounded | governance/model.py:91-96 | a claim is proven after reopening if and only if it was proven before and lies below the contradicted dimension; references survive |
| Contradiction.LowestContradictionDecides | governance/model.py:91-96 | reopening twice, in either order, is reopening at the lower dimension |
| Contradiction.ContradictionReopensTheParent | governance/model.py:79-96 | one contradicted child whose obligation counts, whatever its class, takes the derived parent state back at every dimension from the contradicted one on |
| Closeout.Repository.Admit | governance/closeout.py:149-172 | everything checked before the first write, with the validated claims as result |
| Closeout.Repository.WriteReceipt | governance/closeout.py:186-228 | one turn of the receipt loop merges the claims, writes the receipt under its generated name and moves the pointer in memory, or changes nothing |
| Closeout.Repository.WriteReceipts | governance/closeout.py:183-228 | the loop stops at the first malformed receipt, keeps the receipts already written on disk and moves no pointer on disk |
| Closeout.Repository.Close | governance/closeout.py:230-273 | after the receipts: the closed package in the program file, the completion receipt and the pointers when it was the last one, and the list of changed files without repetition |
| Closeout.Repository.ApplyCloseout | governance/closeout.py:141-273 | the files after a closeout, successful or not, and exactly which files it reports as changed |
| CloseoutEffect.LoopContent | governance/closeout.py:186-228 | after the receipt loop every file in use holds the claims of the file its last writer read from, traced back through earlier turns of the loop and merged exactly once, or what it held before |
| CloseoutEffect.CloseoutClaims | governance/closeout.py:186-259 | under any file names, the claims of every requirement after a successful closeout: unreadable if the completion receipt took their file, else those of the file they come from, with exactly the requested dimensions merged in if their file was written |
| CloseoutEffect.UnreadableExactly | governance/closeout.py:243-259 | a readable requirement becomes unreadable if and only if the closeout completes the program and the receipt the requirement ends up with is the completion receipt |
| CloseoutNames.SuccessKeepsExactly | governance/closeout.py:136-228 | whatever the receipts say, a successful closeout keeps all a requirement has proven and its consumer dimensions untouched, if and only if the claims it ends up with come from its own receipt and survive the completion receipt |
| CloseoutNames.FailureKeepsExactly | governance/closeout.py:186-228 | the same for a closeout that stops in its receipt loop: if and only if no receipt it can have written by then replaces the claims of the requirement |
| CloseoutNames.AllKeepExactly | governance/closeout.py:136-138 | every requirement keeps its own source if and only if no generated receipt name is the current receipt of a requirement whose turn has not come, unless they share it already, and none is the completion receipt |
| CloseoutNames.EveryoneIsSparedExactly | governance/closeout.py:136-259 | successful closeouts spare every requirement, whatever the receipts say, if and only if the names are apart in that sense |
| CloseoutNames.FreshCommitKeepsExactly | governance/closeout.py:136-138 | with a commit no current receipt name ends in, everyone is spared if and only if no new receipt is named like the completion receipt, and a stopped closeout always spares everyone |
| CloseoutCollisions.ProvenCanBeLost | governance/closeout.py:243-259 | a concrete program whose last package is called completion loses every claim of its requirement |
| CloseoutCollisions.OutsiderCanBeLost | governance/closeout.py:243-259 | a requirement outside the package loses its claims to the completion receipt |
| CloseoutCollisions.AcceptanceCanBeOverwritten | governance/closeout.py:136-138 | R closed by work 1-W and R-1 closed by work W at one commit share a receipt, and the second closeout takes the consumer acceptance of R away |
| CloseoutCollisions.AcceptanceCanBeGained | governance/closeout.py:186-206 | of two requirements of one package, the second reads the receipt just written for the first and is given its consumer acceptance |
| CloseoutCollisions.PlainWorkIsSafe | governance/closeout.py:136-138 | work ids of safe characters without outer dashes are not rewritten |
| CloseoutHistory.ClaimsOverHistory | governance/closeout.py:70-133 | over any run of closeouts, failing ones included, in which a requirement keeps its own source, its PROVEN claims stay PROVEN, its evidence refs only grow and are duplicate-free once written, and its two consumer dimensions never change |
| CloseoutHistory.ParentAcceptanceOverHistory | governance/model.py:79-83 | over such a run the parent state derived at a consumer dimension never changes |
| CloseoutHistory.CloseoutProgram | governance/closeout.py:230-272 | a successful closeout completes exactly the requested package and drops the active pointer exactly when it was the last one open |
| CloseoutHistory.NothingAfterCompletion | governance/closeout.py:152-154 | once the active pointer is gone every closeout fails and changes nothing |
| CloseoutHistory.FailureKeepsPointers | governance/closeout.py:141-273 | a failed closeout closes no package and moves no pointer |
| CloseoutHistory.ReportIsComplete | governance/closeout.py:183-273 | every evidence or program file that differs after a successful closeout is in the reported list, each file once |
| CloseoutHistory.ClosesOnce | governance/closeout.py:96-97 | in any run of closeouts no package is closed twice |
| CloseoutHistory.CloseoutKeepsValid | governance/closeout.py:230-270 | the program file a closeout writes passes the validator again |
| CloseoutHistory.EligibleCloseout | governance/closeout.py:141-273 | closing an eligible package of a ready program leaves a valid, ready program that can be evaluated, with one active package less |
| CloseoutHistory.ScheduledCloseoutsFinish | governance/closeout.py:141-273 | a run of successful closeouts of packages that are eligible at their turn takes exactly the initial number of active packages, keeps the program active with an eligible package until then, and drops the pointer with the last one |
| CloseoutSchedule.LoopSucceedsExactly | governance/closeout.py:186-233 | the receipt loop goes through if and only if every requirement whose receipt was not replaced earlier in the same loop has a readable one |
| CloseoutSchedule.SomeRequestSucceedsExactly | governance/closeout.py:87-273 | for a package of a valid active program some request succeeds if and only if the package is ACTIVE, its allowlist holds a dimension and no consumer one, the commit has 12 characters and the loop finds its receipts |
| CloseoutSchedule.ClosureKeptExactly | governance/closeout.py:96-97 | a successful closeout keeps completed work closed under dependencies if and only if all dependencies of the closed package were complete, which the closeout does not check |
| CloseoutSchedule.ActiveIsNotEnough | governance/closeout.py:96-97 | a valid two-package program where a closeout of an ACTIVE package succeeds and leaves a COMPLETE package that depends on unfinished work |
| CloseoutSchedule.EligibleCanBeClosed | governance/closeout.py:141-273 | after any scheduled run from a ready program whose open packages have readable receipts and may be automated, every eligible package has a request that succeeds at any commit of 12 characters |
| CloseoutSchedule.FinishesExactly | governance/closeout.py:141-273 | with readable receipts, alternating evaluation and closeout can close a ready program over a list of commits if and only if every open package may be automated and there is one commit of 12 characters for each of them |
| CloseoutSchedule.TwoRunToTheEnd | governance/closeout.py:141-273 | the two-package program is ready and can be closed to its end over any two commits of 12 characters |
| SignalStatistics.EnergyNonNegative | n0te/audio_engineering.py:341-345 | for every frame sequence each channel energy is non-negative, so max(0, energy) changes nothing |
| SignalStatistics.CovarianceBound | n0te/audio_engineering.py:341-345 | covariance squared is at most the product of the energies |
| SignalStatistics.CorrelationClampsAreIdle | n0te/audio_engineering.py:339-347 | with exact roots the clamp to [-1, 1] never changes the correlation, and a zero denominator means zero covariance |
| SignalStatistics.RmsAtMostPeak | n0te/audio_engineering.py:329-336 | RMS is at most the sample peak, and one is zero exactly when the other is, so the crest factor is never negative |
| SignalStatistics.MeanAtMostChannelRms | n0te/audio_engineering.py:337 | each channel's offset is at most that channel's RMS |
| SignalStatistics.CoSpreadBound | n0te/audio_engineering.py:341-345 | Cauchy-Schwarz for the centred channels |
| SignalStatistics.EnergyIsSpread | n0te/audio_engineering.py:342-343 | the energy computed from sums is the scaled sum of squared deviations |
| WaveLayout.InspectPcmLayout | n0te/audio_engineering.py:115-202 | the cursor loop computes the recursive description of the walk, errors included |
| WaveLayout.AcceptedLayout | n0te/audio_engineering.py:115-202 | an accepted layout has 1 to 64 ordered, disjoint data ranges inside the RIFF payload, each a whole number of frames, and frame_count times block_align is the total data size |
| WaveLayout.VerifiedSizeNeverTruncates | n0te/audio_engineering.py:115-202 | on a file of its verified size no announced field is cut short |
| WaveLayout.ValidWave | n0te/audition.py:51-101 | the audition loop computes the recursive description of its walk |
| WaveLayout.WalkSimulation | n0te/audition.py:51-101 | wherever the inspector's walk succeeds the audition walk follows it step for step |
| WaveLayout.AcceptedIsPlayableUpToTail | n0te/audition.py:51-101 | an accepted layout is playable if and only if the bytes after the RIFF payload also walk as chunks |
| WaveLayout.AcceptedIsPlayable | n0te/audition.py:51-101 | when the RIFF size covers the file, everything the inspector accepts is playable |
| WaveTail.PlayableExactly | n0te/audition.py:51-101 | on a file of its verified size, what the inspector accepts is playable if and only if everything from where it stopped, fewer than 8 bytes before the end of the RIFF payload, is a list of complete chunks, each fmt playable and each data non-empty, up to fewer than 8 left-over bytes |
| WaveTail.JunkTailIsUnplayable | n0te/audition.py:51-101 | a 46-byte WAV that both checks accept; with eight junk bytes behind its RIFF payload the inspector still accepts it and the audition check does not |
| PcmStream.SampleRoundTrip | n0te/audio_engineering.py:205-214 | decoding an encoded sample gives it back at 8, 16, 24 and 32 bits |
| PcmStream.SampleInRange | n0te/audio_engineering.py:205-214 | every decoded sample lies in [-1, 1) |
| PcmStream.TallyFrame | n0te/audio_engineering.py:304-320 | one frame adds each channel's decoded value to that channel's totals |
| PcmStream.NextRequest | n0te/audio_engineering.py:295-298 | each request is a positive whole number of frames within what remains; the single-frame fallback is never needed |
| PcmStream.TallyBlock | n0te/audio_engineering.py:303-320 | one block extends the totals to the frames it holds |
| PcmStream.TallyChunk | n0te/audio_engineering.py:291-320 | the block loop terminates, never leaves its chunk, always cuts on frame boundaries, and fails exactly when the file ends first |
| PcmStream.TallyChunks | n0te/audio_engineering.py:290-320 | the totals over all chunks are those of the concatenated audio |
| PcmStream.CutOfConcat | n0te/audio_engineering.py:303 | cutting into frames commutes with concatenation of whole frames |
| PcmStream.AnalyzePcmWave | n0te/audio_engineering.py:278-323 | on an unchanged file the pass completes with the whole-file sums, squares, peaks and stereo product, and the frame and sample counts always agree |
| Authority.Categories | n0te/authority.py:34-45 | the dedupe loop and sort yield the sorted distinct categories, or refuse an empty one |
| Authority.CategoriesAreASet | n0te/authority.py:112-119 | two intents share a fingerprint if and only if they agree in everything but the order and repetition of categories |
| Authority.ApprovalBindsOneIntent | n0te/authority.py:198-223 | an approval is VALID for an intent if and only if it was bound to exactly that intent |
| ExecutionEnvelope.CheckStringList | governance/execution_envelope.py:52-63 | the list loop accepts exactly the non-empty, duplicate-free lists and returns them unchanged |
| ExecutionEnvelope.EvaluateExecutionEnvelope | governance/execution_envelope.py:209-237 | execution is allowed if and only if the envelope is valid, no blocking or material claim has a blocking posture and the authority suffices; the reasons against a valid envelope are exactly those that hold of it, claim by claim |
| TrustedContext.ApprovalRecords | governance/trusted_context.py:44-61 | the loop accepts exactly lists with distinct, complete approvals and returns their table |
| TrustedContext.ApprovalTableMeans | governance/trusted_context.py:44-61 | every listed approval is found under its own id |
| TrustedContext.AuthorityProfiles | governance/trusted_context.py:64-93 | the loop accepts exactly non-empty profiles of stateful classes, each spelled once and sourced, and returns their table |
| TrustedContext.ProfilesMean | governance/trusted_context.py:64-93 | every listed profile is found under its own class |
| TrustedContext.NormalizePolicies | governance/trusted_context.py:142-185 | the policy loop accepts exactly when every policy is valid; two spellings of one outcome class are two entries that allow the same class |
| TrustedContext.ValidateSnapshot | governance/trusted_context.py:109-204 | validation of a whole snapshot, its fingerprint being that of the raw snapshot |
| TrustedContext.OnlyStatefulClassesAgree | governance/trusted_context.py:270-276 | no envelope for a read-only or unknown action class agrees with any validated snapshot |
| TrustedContext.ServesOnlyTheCurrentSnapshot | governance/trusted_context.py:336-393 | the provider serves an id if and only if it is the store's current id and exactly one entry carries it and validates; what it serves is that entry |
| TrustedContext.OneIdIsCurrent | governance/trusted_context.py:354-378 | a store serves at most one id |
| StateBridge.UpstreamInvertsDownstream | governance/execution_state_bridge.py:11-16 | the upstream list holds, sorted, exactly the nodes whose successors contain the object |
| StateBridge.CompiledStateToTrustedSnapshot | governance/execution_state_bridge.py:23-67 | the policy loop builds one policy per scope ref and hands the result to snapshot validation |
| StateBridge.BridgeAllowsOnlyReversible | governance/execution_state_bridge.py:41-65 | a compiled snapshot agrees only with reversible, non-human envelopes and holds no approval |
| PermitGateway.PermitLedger.Consume | governance/execution_permit.py:96-135 | a permit id is inserted once; a used id or an unavailable ledger changes nothing |
| PermitGateway.PermitAuthority.Issue | governance/execution_permit.py:235-298 | issuance refuses in the order of the source and otherwise signs exactly the payload for the request |
| PermitGateway.PermitAuthority.Consume | governance/execution_permit.py:300-348 | consumption checks gate, context, class, signature, expiry and all five bindings before the ledger |
| PermitGateway.MutationGateway.Register | n0te/coordinator_gateway.py:521-548 | a mutation is registered once, under a stateful class |
| PermitGateway.MutationGateway.Execute | n0te/coordinator_gateway.py:554-607 | one uninterrupted call makes exactly its six protocol steps: fetch, checks, ledger, executor, verifier, reconciler, with every failure |
| PermitProtocol.CallsInjectIntoPermits | n0te/coordinator_gateway.py:554-607 | over every interleaving of calls, store replacements and clock readings, calls that reach an executor inject into issued permits, each with the permit's envelope, snapshot, intent, class and source, checked no later than expires_at, itself at most 900 seconds after issue; the ledger holds exactly the spent permits |
| PermitProtocol.CallTimes | n0te/coordinator_gateway.py:554-607 | every call fetches its snapshot from the store of one step, and its executor is called by one later step under the store and clocks of that moment |
| PermitProtocol.CurrentAtTheExecutorExactly | n0te/coordinator_gateway.py:554-607 | the snapshot a call was checked against is still the current one when its executor is called if and only if the last store put in place in between, if any, serves it |
| PermitProtocol.HumanActionsAreApproved | governance/execution_permit.py:208-233 | every irreversible or human-required call that reaches an executor began under a current snapshot that holds an approval of exactly that intent; when the executor is called the current snapshot holds one if and only if the last store put in place in between, if any, serves one |
| PermitProtocol.BridgeExecutesOnlyReversible | governance/execution_state_bridge.py:41-65 | if every store is fed by compiled state, only reversible actions ever spend a permit or reach an executor |
| PermitSchedules.LegitimateWorkCompletes | n0te/coordinator_gateway.py:554-607 | for every issuable request whose snapshot the store serves, registering, issuing and calling is an allowed run that ends with the call completed |
| PermitSchedules.UninterruptedCall | n0te/coordinator_gateway.py:554-607 | the six steps of a call made in a row compute the whole call and change nothing else |
| PermitSchedules.ExecutorMayBeLate | n0te/coordinator_gateway.py:554-607 | whatever store is put in place and however late it gets between ledger and executor, the executor of a legitimate call is called; it then runs under a current snapshot and within its permit's life if and only if the replacement still serves the snapshot and the permit has not expired |
| PermitRevocation.RevokedApprovalStillRuns | n0te/coordinator_gateway.py:554-607 | an irreversible, human-required action with a recorded approval is issued a permit, and its executor is called although by then the current snapshot no longer holds the approval |
| PermitProtocol.SpentPermitsStaySpent | governance/execution_permit.py:108-116 | once a call has spent its permit, no other call ever reaches an executor with it, however the first one ended and however the calls interleave; a later attempt to spend it is refused |
| PermitProtocol.CompletionIsProven | n0te/coordinator_gateway.py:465-477 | a completed call carries a verified result with distinct evidence refs and a reconciliation ref |
| PermitProtocol.IssuedPermitAdmitsItsCall | governance/execution_permit.py:300-348 | a fresh permit admits its own call if and only if the mutation is registered under its class and the snapshot current when the call begins, both clocks within their limits when the checks run, and the ledger up and the permit unspent when it is charged |
| PermitProtocol.PermitAdmitsOneAction | governance/execution_permit.py:317-330 | two calls granted with one permit agree in envelope, intent and snapshot |
| PermitProtocol.ReadOnlyIsRefusedEarlier | governance/execution_permit.py:251-257 | the READ_ONLY refusal of issuance is unreachable |
| Base64Url.DecodeEncode | governance/execution_permit.py:28-39 | restoring (4 - len % 4) % 4 padding characters decodes every encoded byte string back (section 5 of RFC 4648) |
| Base64Url.SplitIssuedToken | governance/execution_permit.py:165-188 | every token splits at its only dot back into payload and signature |
| Base64Url.TokensAreInjective | governance/execution_permit.py:279-283 | equal tokens carry equal payloads and signatures |
| VolumePayload.FromRefOfPayloadRef | n0te/ableton.py:373-414 | reading a printed ref gives the payload back |
| VolumePayload.OnlyCanonicalRefs | n0te/ableton.py:381-414 | a ref is accepted for a payload if and only if it is the payload's canonical ref |
| VolumePayload.SomeHostIsTrustworthy | n0te/ableton.py:373-414 | a printer, a parser and a fingerprint that keep the promise the two theorems above rest on |
| VolumePayload.MakeIsIdempotent | n0te/ableton.py:354-360 | a target in millionths survives its own formatting |
| VolumePayload.UnpackExactly | n0te/ableton.py:381-395 | unpacking fails if and only if the only digest marker overlaps the prefix |
| VolumePayload.UnpackCanFail | n0te/ableton.py:381-395 | the shortest ref that fails in unpacking, under any printer and parser |
| MaterialHeaders.HeadersExactly | n0te/consumer_upload.py:93-117 | reading headers succeeds with given headers and length if and only if the unread bytes start with a printed block: ASCII names that differ in lower case and are more than space, a colon and a value a line, lines of at most 8192 bytes, at most 16384 in all, closed by an empty line |
| MaterialHeaders.BlockIsRead | n0te/consumer_upload.py:93-117 | a printed block is read as what it says, whatever bytes follow |
| MaterialUpload.BoundaryLineRead | n0te/consumer_upload.py:166-169 | a boundary line is recognised if and only if the unread bytes start with it |
| MaterialUpload.FieldIsRead | n0te/consumer_upload.py:139-170 | a printed hidden field is read back as its value, whatever follows |
| MaterialUpload.FieldWasPrinted | n0te/consumer_upload.py:139-170 | whatever is read as a hidden field is a printed field |
| MaterialUpload.TrailerFound | n0te/consumer_upload.py:242-253 | the two trailer forms exclude each other, so the end of the payload is never in doubt |
| MaterialUpload.ParsePrinted | n0te/consumer_upload.py:173-270 | parsing a printed form returns its tokens, filename and exactly its payload span, for both trailers and any payload, delimiters included; no well-formed form exceeds the body limit (section 4 of RFC 7578, section 5.1.1 of RFC 2046) |
| MaterialUpload.AcceptedIsPrinted | n0te/consumer_upload.py:173-270 | every accepted body is, byte for byte, the printing of a well-formed form |
| MaterialUpload.ParserIsExact | n0te/consumer_upload.py:173-270 | a body is accepted with given results if and only if it is the printing of a well-formed form with those results, its headers being printed blocks |
| BrowserForms.BrowserFormIsAccepted | n0te/consumer_upload.py:173-270 | for all tokens, file names, media types, boundaries and payloads within the stated bounds and either trailer, the form a browser prints is accepted with exactly the submitted values (section 4 of RFC 7578) |
| BrowserForms.PlainSubmissionIsAccepted | n0te/consumer_upload.py:120-136 | libraries that read every ASCII submission as it was meant exist, so such forms parse |
| UploadSpool.CuttingDoesNotMatter | n0te/consumer_upload.py:198-213 | the spool holds a body if and only if the stream delivered that body, however it was cut |
| UploadSpool.FillSpool | n0te/consumer_upload.py:198-213 | the spool loop fails on an empty or oversized answer and otherwise holds exactly the declared number of bytes |
| UploadSpool.ReadHeaderLines | n0te/consumer_upload.py:93-117 | the header loop over the cursor computes the header function and leaves the cursor behind the block |
| UploadSpool.ReadTokenLines | n0te/consumer_upload.py:139-170 | one hidden field over the cursor, with its errors in order |
| UploadSpool.FindTrailer | n0te/consumer_upload.py:242-249 | the loop over the two trailers finds the one that ends the body |
| UploadSpool.ParseMaterialUpload | n0te/consumer_upload.py:173-270 | the whole parse over a stream equals the parse of the delivered body, or the first error |
| UploadSpool.SliceReader.Read | n0te/consumer_upload.py:29-43 | one read through the shared cursor, short reads included |
| UploadSpool.ReadsAreThePrefix | n0te/consumer_upload.py:21-43 | any sequence of reads by one reader concatenates to the prefix of the span that was asked for and never passes its end |
| UploadSpool.InSyncIsNecessary | n0te/consumer_upload.py:29-43 | a read returns the span's next bytes, whatever the spool holds, if and only if the shared cursor is where this reader left it |
| UploadSpool.SecondStreamRewindsTheFirst | n0te/consumer_upload.py:56-59 | opening a second stream makes the first one start over |
| ByteRanges.AcceptedIsWithin | n0te/audition.py:171-205 | an accepted range satisfies 0 <= start <= end < total |
| ByteRanges.PrintedSpecSelects | n0te/audition.py:171-205 | every printed single range selects exactly the offsets of section 14.1.2 of RFC 9110, and is refused exactly when it selects none |
| ByteRanges.AcceptedReparses | n0te/audition.py:171-205 | printing an accepted range as bytes=start-end and parsing again gives the same range |
| ByteRanges.SuffixSelectsTheTail | n0te/audition.py:184-191 | a suffix n selects the last min(n, size) bytes |
| ByteRanges.NumeralErrorEscapes | n0te/audition.py:185-201 | the uncaught ValueError happens if and only if a reached numeral passes isdigit without being convertible |
| ByteRanges.PlainHeadersAreAnswered | n0te/audition.py:171-205 | a header of at most 4300 bytes without superscripts always gets a documented answer |
| ByteRanges.SuperscriptEscapes | n0te/audition.py:185-187 | a concrete header that escapes |
| ByteRanges.CopySlice | n0te/consumer_shell.py:435-443 | the copy loop terminates having sent exactly the slice, or what the file still had before failing |
| ByteRanges.ServeMedia | n0te/consumer_shell.py:407-443 | status, announced length, range and body of every media answer; a complete body is exactly the announced slice |
| Capabilities.RejectReasons | n0te/capabilities.py:278-309 | the appended reasons in order, empty if and only if the candidate is legitimate |
| Capabilities.FilteredTwice | n0te/capabilities.py:377-400 | filtering legitimate routes by kind afterwards is filtering the candidates at once |
| Capabilities.Resolve | n0te/capabilities.py:336-444 | resolution refuses repeated ids and otherwise computes recommendation, fallbacks, rejections and codes |
| Capabilities.OrderDoesNotMatter | n0te/capabilities.py:336-444 | the whole resolution is the same for every permutation of the candidates |
| Capabilities.EveryIdPlacedOnce | n0te/capabilities.py:336-444 | every candidate id is placed exactly once among recommended, fallbacks and rejected |
| Capabilities.RecommendsTheBest | n0te/capabilities.py:376-420 | nothing is recommended if and only if nothing is legitimate; a recommendation ranks first, and is guided if and only if every legitimate candidate is |
| Capabilities.ScoresComeFromMerits | n0te/capabilities.py:312-322 | scores lie in [0, 1] and depend on the nine explicit attributes alone |
| Capabilities.PreferenceDoesNotResurrect | n0te/capabilities.py:267-275 | user preference never changes legitimacy |
| Capabilities.WithoutTheWinner | n0te/capabilities.py:402-444 | resolving with the winner removed ranks what was ranked behind it, or the excluded guided routes when nothing was |
| Capabilities.FallbacksComeNext | n0te/capabilities.py:402-444 | the fallbacks are, in order, what repeated resolving with each winner removed recommends |
| Capabilities.FallbacksAreComplete | n0te/capabilities.py:381-400 | nothing remains after the fallbacks if and only if the legitimate candidates are of one kind |
| Capabilities.GuidedIsAnUnlistedFallback | n0te/capabilities.py:381-400 | for any legitimate automated and guided route, no fallback is listed and the guided one is recommended after the automated one is removed |
| Capabilities.GuidedComesBack | n0te/capabilities.py:381-400 | a concrete pair of candidates |
| CapabilityEvidence.ValidateExisting | n0te/capability_evidence.py:415-541 | the one-pass loader with its two dictionaries accepts exactly the logs whose rows are valid and pairwise ordered |
| CapabilityEvidence.CapabilityEvidenceMemory.RecordEvidence | n0te/capability_evidence.py:582-744 | a recording appends exactly one row or changes nothing, with the source's refusals in order |
| CapabilityEvidence.LastRowIsEnough | n0te/capability_evidence.py:673-694 | on an ordered log checking the last row is equivalent to the triggers' check over all prior rows |
| CapabilityEvidence.State | n0te/capability_evidence.py:544-564 | the derived state holds, in key order, the last row of every current (capability, route), and stale_count is the rest |
| CapabilityEvidence.NewestCarriesTheLatestTime | n0te/capability_evidence.py:544-564 | the row shown carries the maximum observation time of its fact and its route's kind |
| CapabilityEvidence.NewestIsUnique | n0te/capability_evidence.py:544-564 | the log determines the derived list |
| CapabilityEvidence.CandidateIdsIdentify | n0te/capability_evidence.py:80-84 | NUL-free routes share a candidate id if and only if kind, route and capability agree |
| CapabilityEvidence.AmbiguousExactly | n0te/capability_evidence.py:80-84 | a route shares its id with another named route if and only if its route id holds a NUL behind the first character or its capability one before the last |
| CapabilityEvidence.SharedIdsExactly | n0te/capability_evidence.py:566-580 | two different routes share a candidate id if and only if they are of one kind and one's id reaches over the separator into what the other calls its capability |
| CapabilityEvidence.TwoRoutesOneId | n0te/capability_evidence.py:80-84 | two concrete routes of one environment with one candidate id, which the resolver refuses |
| CapabilityEvidence.ProfileIdsAreUnique | n0te/capability_evidence.py:566-580 | the candidates of an environment have distinct ids, so that the resolver does not refuse them, if and only if no two of its routes are confusable; without a NUL in a route id none are |
| CapabilityEvidence.ReachableLogsLoad | n0te/capability_evidence.py:415-541 | every reachable log passes the loader |
| CapabilityEvidence.ChecksCoverTriggers | n0te/capability_evidence.py:242-264 | on reachable logs no insert that record checked is refused by a trigger |
| ContinuousObserver.ReferenceIsCoarser | n0te/ableton_continuous_observer.py:65-98 | equal observations have equal references, only song time is ignored by observation, and tempo matters to reference only by whole beats |
| ContinuousObserver.Observer.PollOnce | n0te/ableton_continuous_observer.py:291-363 | one poll, fetch and recording failures included, moves every field as the step function says |
| ContinuousObserver.DiscoveryIsRateLimited | n0te/ableton_continuous_observer.py:317-348 | with a non-negative, non-decreasing clock: failures at most floor(T / retry) + 1, successes at most 1 + reference changes, INITIAL at most once, each plus at most one per forced poll |
| ContinuousObserver.InitialRepeatsOnlyBeforeZero | n0te/ableton_continuous_observer.py:322-336 | an unforced first poll leaves the observer unattempted if and only if the clock is negative |
| ContinuousObserver.CompletedPollsAreRecorded | n0te/ableton_continuous_observer.py:298-315 | after every completed poll the recorded observation matches the fetched snapshot, and an unrecordable one is offered again |
| CollaborationHandoff.ValidateExisting | n0te/collaboration_handoff.py:517-674 | the loader's loops with the set of active keys accept exactly the loadable tables |
| CollaborationHandoff.CollaborationHandoffMemory.PreparePackage | n0te/collaboration_handoff.py:720-777 | preparing inserts one guarded row and one event, or changes nothing |
| CollaborationHandoff.CollaborationHandoffMemory.RevokePackage | n0te/collaboration_handoff.py:779-805 | revoking is idempotent for the same reason and otherwise refused once revoked |
| CollaborationHandoff.CollaborationHandoffMemory.RecordFeedback | n0te/collaboration_handoff.py:807-853 | feedback is recorded only against a prepared package, with the package's attribution |
| CollaborationHandoff.CollaborationHandoffMemory.ResolveFeedback | n0te/collaboration_handoff.py:879-956 | feedback resolves once, with the exact outcome shape |
| HandoffHistory.ReachableStoresLoad | n0te/collaboration_handoff.py:517-674 | every reachable store passes the loader, has at most one prepared package per song, version and person, and every ADDRESSED response is a later version of the same song |
| HandoffHistory.RowsNeverReopen | n0te/collaboration_handoff.py:217-315 | over any run rows keep their attribution, and revoked packages and resolved feedback never change |
| HandoffHistory.EventsConserve | n0te/collaboration_handoff.py:317-370 | prepared minus revoked events is the number of live packages, recorded minus resolved the number of open feedback |
| HandoffHistory.PrepareFailsOnlyOnALivePackage | n0te/collaboration_handoff.py:748-771 | after the service's checks the insert is refused if and only if a live package for the same key exists |
| HandoffHistory.ServiceChecksCoverTriggers | n0te/collaboration_handoff.py:187-315 | no trigger ever refuses a revocation or a resolution the service checked, and a recording only for a used id |
| HandoffHistory.RevokingIsIdempotent | n0te/collaboration_handoff.py:785-790 | revoking again succeeds unchanged with the same reason and fails with another |
| HandoffHistory.ResolvingIsIdempotent | n0te/collaboration_handoff.py:879-956 | resolving again the same way succeeds unchanged, any other answer fails and changes nothing |
| HandoffHistory.RevokedMakesRoom | n0te/collaboration_handoff.py:768-771 | after revocation the same person can be given the version again |
| ApplicationRuntime.Runtime.LaunchProfile | n0te/app_runtime.py:118-287 | one launch, with failing open, close, install and release, moves every field as the step function says |
| ApplicationRuntime.Runtime.QuitProfile | n0te/app_runtime.py:289-327 | one quit, retriable after a failing close or release |
| ApplicationRuntime.RuntimeOwnsWhatItShould | n0te/app_runtime.py:111-327 | over every run STOPPED owns nothing, RUNNING owns lease and Headquarters, RECOVERY_REQUIRED owns the lease, the lease is never released while a Headquarters is open, and none is closed twice |
| ApplicationRuntime.LaunchKeepsUnlessStranded | n0te/app_runtime.py:178-227 | a launch keeps ownership consistent if and only if it does not strand a Headquarters of another profile |
| ApplicationRuntime.RetriedQuitStops | n0te/app_runtime.py:289-327 | from any consistent session one quit whose close and release succeed stops the runtime and releases the lease once |
| ApplicationRuntime.ForeignHeadquartersIsStranded | n0te/app_runtime.py:178-227 | a concrete launch that reads START_FAILED with a Headquarters still open and the lease gone |

## Left out

- ConstructionProgram.EvaluateConstructionProgram: unknown incident shapes are the one malformed case that is modelled.
- DependencySearch.Search.Visit: Python's recursion limit is not modelled.
- Closeout.Repository.ApplyCloseout: requirement ids that contain path separators, and the fixed descriptive fields of receipts, are not modelled.
- CloseoutHistory.ClaimsOverHistory: assumes that each call leaves the requirement its own source, because the property is false otherwise; CloseoutNames.SuccessKeepsExactly and FailureKeepsExactly show that this condition on names is exact for each call.
- CloseoutHistory.ParentAcceptanceOverHistory: has the same assumption for every child.
- CloseoutSchedule.FinishesExactly: assumes readable receipts for all open work, because a receipt that cannot be read at first may be replaced by another closeout; SomeRequestSucceedsExactly gives the condition for each call.
- PcmStream.AnalyzePcmWave: the file hash and size are not checked again during the pass, so a file changed meanwhile is outside the model; loudness, decibels and floating-point rounding are left out.
- WaveLayout.ValidWave: MP3 structure checks of the audition gate are not modelled.
- BrowserForms.BrowserFormIsAccepted: the libraries that decode UTF-8 and parse Content-Disposition are parameters; the lemma asks them to read the three printed dispositions and the tokens as they were meant.
- UploadSpool.ParseMaterialUpload: the multipart/form-data media type and its boundary parameter are taken as already extracted.
- UploadSpool.ReadsAreThePrefix: speaks of one reader at a time, because two readers share the spool's cursor; InSyncIsNecessary gives the condition.
- ByteRanges.ServeMedia: HEAD requests, security headers and the HTML of error answers are not modelled.
- ByteRanges.AcceptedReparses: sizes of more than 4300 digits are excluded, which int() itself cannot read back.
- Capabilities.Resolve: exact reals replace floats, so the 1e-12 tie window is exact and score sums do not depend on summation order.
- Capabilities.FallbacksComeNext: after the last fallback the excluded guided routes come back, because the resolver lists them as rejected.
- ContinuousObserver.DiscoveryIsRateLimited: a poll cancelled in the middle of a search is not modelled; forced polls are counted instead of excluded.
- ApplicationRuntime.RuntimeOwnsWhatItShould: assumes the opener raises or returns a new Headquarters of the requested profile, because the property is false otherwise; LaunchKeepsUnlessStranded gives the condition.
- PermitProtocol.CallsInjectIntoPermits: rests on unforgeable signatures and on snapshot objects made by validation only; looking the mutation up and fetching the snapshot are one step, because registrations never change, and issuing is one step, because it reads nothing shared.
- PermitProtocol.CurrentAtTheExecutorExactly: the code gives no guarantee for the moment of the executor call; the condition is on what happens to the store meanwhile.
- HandoffHistory.ReachableStoresLoad: schema metadata, trigger names and index names that the loader also compares are not modelled.
- HTTP servers, HTML pages, the `*_shell.py` patches, desktop, installers, the MCP server and the DAW transports are plumbing around the modelled core.
- The lineage, workspace, people and lease-manager services appear only through the effects the modelled code relies on.
- The compiled-context cache, the smaller attention, career and capture stores, and the role, lens and wording tables would add only easier members.
