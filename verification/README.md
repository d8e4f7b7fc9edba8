# coding-x: a verified model

A Dafny model of the decision-making core of coding-x, an engine that lets agents implement stories under validation, with
proofs of the properties that its documentation and tests promise. `dafny verify dfyconfig.toml` checks all of it.

| part | files |
|---|---|
| The strict JSON kernel of the Windows supervisor: a scanner that refuses repeated keys, and the canonical serializer | `Utf16`, `JsonGrammar`, `JsonUnambiguous`, `JsonKeys`, `JsonScanner`, `OrdinalOrder`, `JsonCanonical`, `JsonSerializer` |
| Windows process supervision: command lines, output credit between threads, and the supervisor session | `CommandLine`, `OutputFlow`, `SupervisorBackground`, `SupervisorTrace`, `SupervisorSession` |
| Story validation: verdicts and receipts, retries and notes, reading and restoring the state file, whole runs, selection | `StoryTypes`, `StoryValidation`, `StoryGate`, `StoryNormal`, `StoryOwnership`, `StoryRuns`, `StoryVerdicts`, `StorySelection` |
| Which checks run for a change, and when a proof that they passed may be reused | `CheckSelection`, `GateRecords`, `FullGateProof` |
| The topology of a clean checkout: artifact roots, hard links, batches of links and their budget | `ArtifactPaths`, `HardLinks`, `HardLinkText`, `LinkBatches`, `LinkBudget` |
| Clipping of diagnostics, and the transactional hook installer | `Diagnostics`, `CursorHooks` |

Conventions. What the source throws is a result (`None`, `Err`, `Refused`, or `false` with a comment). Texts in which UTF-16
matters are sequences of code units, because Dafny's `char` has no surrogates; elsewhere they are strings. Objects that the
source updates in place are classes with the same fields, and their methods are proved against functions on values; lemmas
about whole runs speak about these functions. Digests are functions, and where a property rests on the digests of two
values not colliding, the lemma says so for these two. Clocks, threads, processes, frames and disk faults are inputs: a list of answers that a method
consumes, or a list of events, over all of which the properties hold.

Two properties fail, and the model keeps the code as it is.

- Restoring the fields of the engine after an agent's rewrite can leave a story outside the normal form, so that the next
  reload settles it: `StoryRuns.RewriteIsNormalWhen` gives the exact condition, and `StoryRuns.RewriteCanLeaveNormalForm` a
  step of a run.
- A failed install or removal of the hook does not always put modes back: files are created anew, and the umask of the
  process is taken from their modes. `CursorHooks.RewrittenKeeps` gives the exact condition, and
  `CursorHooks.GroupWriteIsLost` an example. Files, their bytes and directories do come back.

One property has a condition. A command line gives its first word back exactly when the name holds no quote and, if it has
to be quoted, does not end with a backslash, because the first word is read without escapes: `CommandLine.LineRoundTrip`. The
name of an ordinary file on Windows meets it, and the supervisor starts only such files.

## Model

| member | source | states |
|---|---|---|
| `JsonScanner.DuplicateKeyScanner.Scan` | assets/workspace-safety/WindowsJobSupervisor.cs:616-629 | Terminates on every text, and accepts exactly the texts that derive from the grammar of RFC 8259 (digits as the digit class says) by a tree in which no object at any depth repeats a decoded key |
| `JsonScanner.DuplicateKeyScanner.Value` | assets/workspace-safety/WindowsJobSupervisor.cs:631-640 | Advances the index past exactly one value of the grammar or fails, and fails as well on a repeated key inside it |
| `JsonScanner.DuplicateKeyScanner.Object` | assets/workspace-safety/WindowsJobSupervisor.cs:642-663 | The same for an object, whose set of seen keys holds the decoded keys read so far |
| `JsonScanner.DuplicateKeyScanner.Array` | assets/workspace-safety/WindowsJobSupervisor.cs:665-678 | The same for an array |
| `JsonScanner.DuplicateKeyScanner.String` | assets/workspace-safety/WindowsJobSupervisor.cs:680-711 | Reads one string of the grammar and returns its decoded text, surrogate escapes unit by unit |
| `JsonScanner.DuplicateKeyScanner.Number` | assets/workspace-safety/WindowsJobSupervisor.cs:713-739 | Reads one number of the grammar |
| `JsonScanner.DuplicateKeyScanner.TakeLiteral` | assets/workspace-safety/WindowsJobSupervisor.cs:741-747 | Moves past the literal exactly when the text continues with it |
| `JsonScanner.DuplicateKeyScanner.SkipWhitespace` | assets/workspace-safety/WindowsJobSupervisor.cs:761-766 | Moves past the longest run of the four blanks and no further |
| `JsonScanner.ScanDecides` | assets/workspace-safety/WindowsJobSupervisor.cs:623-629 | The scanning functions succeed exactly when a derivation without repeated keys exists |
| `JsonUnambiguous.ParseDecidesGrammar` | assets/workspace-safety/WindowsJobSupervisor.cs:616-767 | A text parses exactly when it derives from the grammar, and then to a tree that derives it |
| `JsonUnambiguous.Unambiguous` | assets/workspace-safety/WindowsJobSupervisor.cs:616-767 | No text derives from two different trees, so the keys of a text are well-defined |
| `JsonKeys.FreshIsDistinct` | assets/workspace-safety/WindowsJobSupervisor.cs:642-663 | Checking each member against the keys before it means that no two members share a decoded key |
| `JsonSerializer.CanonicalRoundTrip` | assets/workspace-safety/WindowsJobSupervisor.cs:403-494 | The canonical text of every serializable value derives from the grammar by a tree that means the value, and no key is repeated: the scanner accepts it |
| `JsonSerializer.CanonicalIsInjective` | assets/workspace-safety/WindowsJobSupervisor.cs:403-494 | Two serializable values have the same canonical text exactly when they are equal, whatever the order in which record keys were listed |
| `JsonSerializer.CanonicalIsWellFormed` | assets/workspace-safety/WindowsJobSupervisor.cs:463-494 | The canonical text has no lone surrogate, even when strings of the value have, so a strict encoder accepts it |
| `JsonSerializer.CanonicalSerialize` | assets/workspace-safety/WindowsJobSupervisor.cs:403-408 | Returns the canonical text, and fails exactly on values that hold something unsupported or a number that is not an integer |
| `JsonSerializer.AppendCanonical` | assets/workspace-safety/WindowsJobSupervisor.cs:410-461 | Appends exactly the canonical text of the value to what the builder held |
| `JsonSerializer.AppendFields` | assets/workspace-safety/WindowsJobSupervisor.cs:446-460 | Appends the fields in ordinal key order |
| `JsonSerializer.OrderedKeys` | assets/workspace-safety/WindowsJobSupervisor.cs:450-450 | The keys in strict ordinal order, each once |
| `JsonSerializer.AppendJsonString` | assets/workspace-safety/WindowsJobSupervisor.cs:463-494 | Appends the escaped text, a surrogate pair as it is and a lone surrogate as an escape |
| `JsonCanonical.EscapeDecodes` | assets/workspace-safety/WindowsJobSupervisor.cs:463-494 | Decoding the escaped form of any text gives the text back |
| `JsonCanonical.TreeDenotes` | assets/workspace-safety/WindowsJobSupervisor.cs:410-461 | The tree that the serializer writes is well-formed and means the value |
| `OrdinalOrder.SortIsSorted` | assets/workspace-safety/WindowsJobSupervisor.cs:450-450 | Sorting distinct keys gives a strictly ordered listing of the same keys |
| `OrdinalOrder.SortedListingIsUnique` | assets/workspace-safety/WindowsJobSupervisor.cs:450-450 | A set of keys has only one ordered listing |
| `CommandLine.ArgumentsRoundTrip` | assets/workspace-safety/WindowsJobProcess.cs:281-305 | Reading the quoted and joined arguments by the Microsoft backslash and quote rules gives the arguments back, under each of the three known rules for doubled quotes |
| `CommandLine.LineRoundTrip` | assets/workspace-safety/WindowsJobProcess.cs:350-352 | The whole line gives back name and arguments exactly when the name survives the special rule for the first word, which does not know escaped quotes |
| `CommandLine.QuoteArgument` | assets/workspace-safety/WindowsJobProcess.cs:281-305 | The loop writes the quoted form of the specification |
| `CommandLine.BuildCommandLine` | assets/workspace-safety/WindowsJobProcess.cs:350-352 | The name and arguments, each quoted, joined by single spaces |
| `OutputFlow.OutputCredit.TryReserve` | assets/workspace-safety/WindowsJobProcess.cs:59-82 | One pass of the waiting loop: refuses after a discard, waits at the limits of bytes and frames, or reserves the next fresh sequence; the whole ledger afterwards is given, and it stays valid |
| `OutputFlow.OutputCredit.Acknowledge` | assets/workspace-safety/WindowsJobProcess.cs:99-112 | Accepts exactly an outstanding sequence of this operation with its own size, and then removes it and its bytes |
| `OutputFlow.OutputCredit.DiscardLocked` | assets/workspace-safety/WindowsJobProcess.cs:114-120 | Empties the ledger for good |
| `OutputFlow.ReserveIsValid` | assets/workspace-safety/WindowsJobProcess.cs:59-82 | Outstanding bytes stay the sum of the outstanding map, at most 256 KiB, over at most 1024 frames, below the next sequence |
| `OutputFlow.AcknowledgeIsValid` | assets/workspace-safety/WindowsJobProcess.cs:99-112 | The same when a sequence is acknowledged |
| `OutputFlow.SettledMeansEmpty` | assets/workspace-safety/WindowsJobProcess.cs:127-133 | Settled means discarded or nothing outstanding |
| `OutputFlow.AlwaysInvariant` | assets/workspace-safety/WindowsJobProcess.cs:42-134 | Over every interleaving of both pumps, the writer and control: one thread sends at a time, sequences are fresh and leave in order, chunks are issued in the order read, each issued sequence is outstanding or acknowledged once, and credit is discarded only for a cause |
| `OutputFlow.NaturalEndIsComplete` | assets/workspace-safety/WindowsJobProcess.cs:228-236 | When both pipes ended and the credit is settled, with the writer connected and nothing failed or terminated, every chunk read from either pipe was sent in order and acknowledged exactly once |
| `OutputFlow.BytesAreConserved` | assets/workspace-safety/WindowsJobProcess.cs:61-112 | Until a discard, the bytes reserved are the bytes acknowledged plus the bytes outstanding |
| `OutputFlow.NextKeeps` | assets/workspace-safety/WindowsJobProcess.cs:84-97 | Every single step of a thread keeps the invariants |
| `OutputFlow.BackgroundKeeps` | assets/workspace-safety/WindowsJobProcess.cs:175-205 | A settled end is final: what threads do on their own cannot undo it |
| `SupervisorSession.Session.Run` | assets/workspace-safety/WindowsJobAuthority.cs:739-849 | On every script of frames, clocks, process events and thread steps, and whether it succeeds or fails, the session breaks no rule of the trace. When it succeeds, the first frame after the creation of the job tells what was done, the job is empty, both pipes have ended, and a receipt that was announced was acknowledged or the parent is gone; without a job nothing was done |
| `SupervisorSession.Session.AwaitStart` | assets/workspace-safety/WindowsJobAuthority.cs:776-846 | The end of the stream leaves the target killed and never started, with a receipt for the shutdown of the parent exactly if the record was armed; an ABORT of this operation the same without a receipt; a TERMINATE of this operation a never-started receipt with its reason; a START of this operation a resumed target and a zero-pipes-eof receipt; any other frame is an error |
| `SupervisorSession.Session.TryTake` | assets/workspace-safety/WindowsJobSupervisor.cs:865-870 | Takes the frame that is there, and it is this frame that enters the trace |
| `SupervisorSession.Session.RunStarted` | assets/workspace-safety/WindowsJobAuthority.cs:636-737 | From the resume on, success means that the zero-pipes-eof receipt was installed, that the job is empty, and that an announced receipt was acknowledged or the parent is gone |
| `SupervisorSession.Session.CloseOut` | assets/workspace-safety/WindowsJobAuthority.cs:723-737 | The receipt has the reason that was asked for, else natural if the end was counted as such, else process-tree-not-empty |
| `SupervisorSession.Session.EndJob` | assets/workspace-safety/WindowsJobAuthority.cs:723-734 | Afterwards a decision may be taken: the job was killed, or it was seen drained; without a termination it was killed exactly if the end was not counted |
| `SupervisorSession.Session.WaitForRoot` | assets/workspace-safety/WindowsJobAuthority.cs:636-657 | Ends with the first termination, whose reason is then the one that is kept, or else with the exit of the root process; nothing is killed, counted or decided meanwhile |
| `SupervisorSession.Session.WaitForNaturalDrain` | assets/workspace-safety/WindowsJobAuthority.cs:671-697 | The end is counted as natural only without a termination, with both pipes ended, and by the rule of the trace for counting; else nothing is counted |
| `SupervisorSession.Session.DrainedInTime` | assets/workspace-safety/WindowsJobAuthority.cs:690-696 | What is seen counts only if neither deadline is found to have passed after it |
| `SupervisorSession.Session.WaitForSettlement` | assets/workspace-safety/WindowsJobAuthority.cs:698-722 | Waits for missing acknowledgements only, and looks only while the phase is open; without them it fails |
| `SupervisorSession.Session.DrainAndSend` | assets/workspace-safety/WindowsJobAuthority.cs:533-551 | Installs the one receipt with this proof and reason after the job was seen empty with its output ended; if it was announced, the parent acknowledged it or is gone |
| `SupervisorSession.Session.InstallReceipt` | assets/workspace-safety/WindowsJobAuthority.cs:408-436 | A receipt is installed only in time, over an empty job and a settled output, with the reason that was decided; success means that it was read back and that the digest kept is the digest of this receipt |
| `SupervisorSession.Session.WaitForAcknowledgement` | assets/workspace-safety/WindowsJobAuthority.cs:553-591 | Nothing that arrives after the receipt changes what was done, and only the end of the stream or the acknowledgement of this very receipt ends the wait well |
| `SupervisorSession.Session.HandlePostDrain` | assets/workspace-safety/WindowsJobAuthority.cs:558-588 | Ends exactly on the end of the stream or an acknowledgement of this operation and the digest of the receipt; passes over exactly the terminations of this operation and, after a termination before START, a START with this operation and the bound digest; anything else is an error |
| `SupervisorSession.Session.HandleTermination` | assets/workspace-safety/WindowsJobAuthority.cs:612-634 | Accepts exactly the end of the stream and a TERMINATE for this operation with one of four reasons; the reason kept is the earlier one, else that of the frame; the output is discarded |
| `SupervisorSession.Session.HandleControl` | assets/workspace-safety/WindowsJobAuthority.cs:643-655 | A frame is an output acknowledgement that fits, or a termination whose own reason is kept unless there was one before, or an error |
| `SupervisorSession.Session.HandleOutputAcknowledgement` | assets/workspace-safety/WindowsJobAuthority.cs:593-610 | Takes exactly the acknowledgements that fit the ledger |
| `SupervisorSession.Session.Start` | assets/workspace-safety/WindowsJobAuthority.cs:828-838 | Succeeds only for a START with the operation of the target and the digest of the record as it is then found armed, and then the target was resumed |
| `SupervisorSession.Session.Resume` | assets/workspace-safety/WindowsJobProcess.cs:500-507 | Only where the rules allow it, and only once |
| `SupervisorSession.Session.WaitForEmptyAndEof` | assets/workspace-safety/WindowsJobProcess.cs:545-557 | True only if one look found the job empty and the output ended, with the phase open afterwards; both still hold, and if the pipes had ended before, none has failed |
| `SupervisorSession.Session.OutputEnded` | assets/workspace-safety/WindowsJobProcess.cs:228-236 | Failure, end of both pipes and settlement are read one after the other while the threads go on: true means a settled end, and no failure if the pipes had ended before the first read |
| `SupervisorSession.Session.CloseAfterParentEof` | assets/workspace-safety/WindowsJobAuthority.cs:777-791 | Without START the target is killed and never runs; exactly an armed record gets a never-started receipt, for the shutdown of the parent |
| `SupervisorSession.Session.CloseBeforeStart` | assets/workspace-safety/WindowsJobAuthority.cs:794-811 | Only for an ABORT of this operation; the target is killed and never runs, and there is no receipt |
| `SupervisorSession.Session.TerminateBeforeStart` | assets/workspace-safety/WindowsJobAuthority.cs:812-826 | Only for a TERMINATE of this operation with one of four reasons; the target is killed and never runs, and the never-started receipt has the reason of the frame |
| `SupervisorSession.Session.Prepare` | assets/workspace-safety/WindowsJobAuthority.cs:739-775 | Either the job was created for the target that the data names, or nothing was |
| `SupervisorTrace.ResumedOnceAfterStart` | assets/workspace-safety/WindowsJobAuthority.cs:765-838 | In every accepted trace the target is resumed at most once: after DATA that named its operation, the creation of its job, a START frame for this operation as the only frame since, and the reading of a record armed with the very digest of this frame |
| `SupervisorTrace.ReceiptFitsResume` | assets/workspace-safety/WindowsJobAuthority.cs:533-551 | A never-started receipt has no resume before or after it, and a zero-pipes-eof receipt comes after the resume |
| `SupervisorTrace.DrainedFollowsOneReceipt` | assets/workspace-safety/WindowsJobAuthority.cs:533-551 | DRAINED is sent at most once, after the only receipt, with its proof |
| `SupervisorTrace.ReceiptSeesTheEnd` | assets/workspace-safety/WindowsJobProcess.cs:545-557 | Before a receipt, the latest look found the job empty and the output settled, and then the phase was found open; at the receipt this still holds, and for a natural end no pipe has failed and with the parent connected all output was acknowledged |
| `SupervisorTrace.ReceiptTellsTheReason` | assets/workspace-safety/WindowsJobAuthority.cs:612-737 | The reason of a receipt is that of the first frame since the creation of the job that ends the operation (the end of the stream, or a TERMINATE for it); without one it is natural exactly if an end was counted, else process-tree-not-empty and the job was killed; it was decided after the job was killed or seen drained, and no frame was taken since |
| `SupervisorTrace.CountedInTime` | assets/workspace-safety/WindowsJobAuthority.cs:671-722 | An end is counted as natural only before any frame ended the operation, after a look that found everything drained: at once, or with neither deadline found to have passed afterwards, or when only settling was awaited and the phase was open just before |
| `SupervisorTrace.NoSecond` | assets/workspace-safety/WindowsJobAuthority.cs:533-551 | Resume, count, decision, receipt and DRAINED each happen at most once |
| `StoryValidation.PassedMeansBound` | src/engine/state.ts:273-363 | A story passes exactly when it is an unblocked, validated candidate with a valid version 4 receipt for this commit, these criteria, its base and this environment |
| `StoryValidation.ReasonIsDefect` | src/engine/state.ts:273-353 | The reason given for a story that does not pass is true of it, and a story that passes has no defect |
| `StoryValidation.ReconcileValidationReceipts` | src/engine/state.ts:439-463 | Exactly the listed stories whose verdict is not current lose verdict and receipt; all else stays, and exactly these are reported |
| `StoryValidation.ReconciledKeepsOnlyCurrent` | src/engine/state.ts:439-463 | Afterwards a listed story carries a verdict only if it passes, and the same stories pass as before |
| `StoryVerdicts.VerdictLasts` | src/engine/state.ts:667-957 | Over any run, agent rewrites included, a verdict of a story of the plan lasts exactly until the first step that takes it back: another receipt, a marker, a withdrawal, a round of this story that ends in a failure, a success or an abort, or a reading that settles it; never a rollback of passes, a base, an escalation, or anything done for another story |
| `StoryVerdicts.VerdictAfterStep` | src/engine/state.ts:667-957 | For one step of any kind, the exact condition under which it takes the verdict back |
| `StoryVerdicts.BlockedExactlyAfterFive` | src/engine/gate.ts:745-900 | Over engine steps of every kind, the retries of a story are its failures since its last success, and it is blocked exactly if it was before or has at some time failed five times without a success between |
| `StoryVerdicts.CandidateLasts` | src/engine/gate.ts:745-900 | Over engine steps of every kind, a story has a candidate exactly if it had one and there was no failure, no abort while it was not blocked, and no rollback without verdict |
| `StoryVerdicts.CandidateFromRewrite` | src/engine/gate.ts:745-856 | After a failure a story has a candidate again only if an agent has rewritten the file in between |
| `StoryVerdicts.EscalatedByEngine` | src/engine/state.ts:976-987 | Over any run, whatever agents write, a story of the plan is escalated exactly if it was, or the engine escalated it with a dedicated model |
| `StoryVerdicts.OthersStay` | src/engine/state.ts:640-987 | Whatever the engine does for other stories, over any number of steps, leaves a story exactly as it was |
| `StoryGate.KeptInFront` | src/engine/gate.ts:47-49 | Old arbitration lines written first are the first arbitration lines of the new note, whatever line breaks the other lines hold |
| `StoryGate.ArbitrationNeverLost` | src/engine/gate.ts:745-900 | Over any run of gate failures, verdicts and aborts, the arbitration lines of every story stay, in order, at the front of the later ones |
| `StoryGate.RetriesBounded` | src/engine/gate.ts:745-900 | Over any such run blocked is sticky, and an unblocked story has fewer than 5 retries |
| `StoryGate.BlockedAfterFiveRejections` | src/engine/gate.ts:745-856 | From zero, five rejections in a row block a story, and fewer do not |
| `StoryGate.LinesOfJoin` | src/engine/gate.ts:745-780 | Splitting a joined note gives the lines of its parts |
| `StoryNormal.ReceiptRoundTrip` | src/contracts/validation-contract.ts:204-286 | A written receipt of each version is read back exactly if it is valid |
| `StoryNormal.ParsedReceiptIsWritten` | src/contracts/validation-contract.ts:204-286 | A record that is read as a receipt is exactly what that receipt is written as: no extra keys, no other types |
| `StoryNormal.NormalIsStable` | src/contracts/run-state-contract.ts:63-108 | Writing a story and reading it again is the identity exactly on normal states |
| `StoryNormal.NormalizationIsIdempotent` | src/contracts/run-state-contract.ts:63-108 | Normalizing what was normalized changes nothing |
| `StoryNormal.ParseRunStateValue` | src/contracts/run-state-contract.ts:111-128 | Reads every story or names one that does not fit |
| `StoryNormal.ReadStateIsNormal` | src/contracts/run-state-contract.ts:63-128 | Every state that is read from a file is in normal form |
| `StoryNormal.SaveAndReload` | src/contracts/run-state-contract.ts:111-128 | Saving and reloading a whole run state is the identity exactly when every story is normal |
| `StoryOwnership.RestoreGivesBack` | src/engine/state.ts:640-755 | After restoring, the fields of the engine are its own again and those of the agent are as it wrote them; only when the file held the very values of the engine does the normalized reading stay |
| `StoryOwnership.DeletedStoryComesBack` | src/engine/state.ts:667-755 | A deleted story comes back as the engine had it |
| `StoryOwnership.RestoreStoriesOwns` | src/engine/loop.ts:918-975 | After restoring, every story of the plan has the base of the engine, and no receipt or verdict that the engine had not given |
| `StoryOwnership.ObservedMatchesFile` | src/engine/state.ts:87-141 | The raw fields of a readable story are readable too, and decide what was read |
| `StoryOwnership.RestoreIsNormalWhen` | src/engine/state.ts:667-731 | A restored story is in normal form exactly when the agent deleted it, nothing was to be restored, the engine had given neither verdict nor marker, or the candidate is still there |
| `StoryOwnership.RestoreStoryIsNormalWhen` | src/engine/state.ts:640-755 | The same for a story of a file that an agent rewrote |
| `StoryOwnership.RestoreStoriesAt` | src/engine/loop.ts:918-975 | Each story of the plan is restored for itself, however often it is listed, and no other story changes |
| `StoryRuns.RewriteIsNormalWhen` | src/engine/loop.ts:918-975 | After a rewrite the run state is in normal form exactly when this holds of every story of the plan |
| `StoryRuns.RewriteCanLeaveNormalForm` | src/engine/state.ts:667-731 | A step of a run for which it does not: an agent that withdraws its candidate gets the verdict back without it |
| `StoryRuns.PassIsEarned` | src/engine/state.ts:817-901 | Over any run of engine steps, reloads and agent rewrites from a state without receipt: a story of the plan that passes has an earlier issuing step for the same story, commit, criteria, base and environment, with a candidate in place, and has not failed since |
| `StoryRuns.ReceiptProvenance` | src/engine/state.ts:817-901 | Every receipt of a story of the plan was issued, as it is, by an earlier step |
| `StoryRuns.BaseIsWrittenOnce` | src/engine/state.ts:648-664 | Over any run, rewrites included, a base once set never changes |
| `StoryRuns.ReceiptAfterStep` | src/engine/state.ts:667-731 | A step leaves the receipt that was there, none, or the one that it issues; a failure leaves none |
| `StoryRuns.EngineStepIsNormal` | src/contracts/run-state-contract.ts:63-108 | Every engine transition keeps the normal form |
| `StoryRuns.EngineStatesReload` | src/contracts/run-state-contract.ts:111-128 | From a normal start every state that the engine reaches is reloaded unchanged |
| `StoryRuns.BlockedIsSticky` | src/engine/gate.ts:745-900 | Over engine steps of every kind blocked is sticky, and an unblocked story has retries left |
| `StorySelection.ValidatePrdStorySet` | src/engine/prd.ts:77-100 | Accepts exactly a non-empty list of well-formed ids that differ even with case folded; the error names the first offender |
| `StorySelection.SelectNextStory` | src/engine/state.ts:1016-1039 | The first story without a candidate; only if there is none, the first unblocked candidate that does not pass; else none |
| `StorySelection.SelectionIsUnique` | src/engine/state.ts:1016-1039 | That describes one answer for every state |
| `StorySelection.NothingSelectedMeansResolved` | src/engine/state.ts:1041-1056 | Everything is resolved exactly when nothing is selected and story set and digest are well-formed |
| `StorySelection.EvaluateStoryValidationReceiptSet` | src/engine/state.ts:384-434 | The receipts of all passing stories and the reasons of all others that are not blocked, in plan order; the set is valid exactly when everything is resolved |
| `StorySelection.RoundResolvesOne` | src/engine/state.ts:817-901 | Issuing a receipt for the selected story resolves it and changes no other |
| `StorySelection.SomeRoundExists` | src/engine/state.ts:817-901 | While a ready set has an unresolved story, some request can be issued for the selected one |
| `StorySelection.ValidationConverges` | src/engine/state.ts:1016-1056 | At a fixed commit, with candidates and bases in place, rounds of selecting and issuing end after exactly as many rounds as there were unresolved stories, never earlier or later |
| `CheckSelection.SelectContractQualityChecks` | src/engine/gate.ts:344-479 | The selection of the specification, with its loops over required ids and matched ids |
| `CheckSelection.RequirementFails` | src/engine/gate.ts:358-399 | Fails exactly on repeated ids, ids with a full requirement, or an id that the contract does not declare for the platform |
| `CheckSelection.MatchedChecks` | src/engine/gate.ts:428-440 | Collects the matched ids; trusts them exactly if each is named once and is a path check of the platform |
| `CheckSelection.SelectionPartitions` | src/engine/gate.ts:344-479 | Run, skipped by platform, and skipped by path partition the declared checks, in contract order; nothing runs only if the platform has nothing |
| `CheckSelection.SelectionIsSafe` | src/engine/gate.ts:411-479 | With an exact helper a check of the platform is left out only if it has paths, none of which matches a changed path, and is not required; and every changed path is matched by a check that runs, or the whole platform set runs |
| `CheckSelection.OnlyScopedSkips` | src/engine/gate.ts:411-479 | A selection that is not scoped runs every check of the platform |
| `CheckSelection.SelectPaths` | src/engine/clean-validation-checkout.ts:1117-1133 | The loops of the helper find exactly the checks that a changed path matches, and whether every changed path is matched |
| `CheckSelection.CurrentPlatformPathChecks` | src/engine/clean-validation-checkout.ts:162-190 | Exactly the checks of the platform that declare paths, in contract order |
| `GateRecords.SelectionMatchesRequirement` | src/engine/full-gate-proof.ts:184-210 | The reasons of every selection account for what is required: exactly the required checks are explicit |
| `GateRecords.SelectionIsValidEvidence` | src/engine/evidence.ts:420-524 | The validator of the evidence log accepts the record of every selection |
| `GateRecords.ExplicitAreExactlyRequired` | src/engine/full-gate-proof.ts:184-210 | Comparing membership and sizes is enough: what passes has exactly the required checks as explicit ones |
| `GateRecords.AcceptedRecordMeans` | src/engine/evidence.ts:420-524 | In an accepted record run and skipped checks are apart, every run check has its reason, and explicit are exactly the required checks |
| `GateRecords.RequiredAreSelected` | src/engine/gate.ts:375-399 | Whatever is required runs |
| `FullGateProof.ContractCheckEvidence` | src/engine/full-gate-proof.ts:67-84 | The picked checks of the contract with their category, in order |
| `FullGateProof.SkippedContractCheckIds` | src/engine/full-gate-proof.ts:86-103 | First the checks off the platform, then those that are not selected |
| `FullGateProof.DigestBinds` | src/engine/full-gate-proof.ts:212-258 | Unless the two collide, equal input digests mean the same head, default branch, contract, platform, references, aliases, requirement and scope |
| `FullGateProof.OwnRunIsProvable` | src/engine/full-gate-proof.ts:260-390 | A passing run of the gate for its own selection always yields a proof |
| `FullGateProof.ReuseIsSound` | src/engine/full-gate-proof.ts:424-543 | Any reuse is for the same input and story base, and stands for exactly the checks of the contract under the bound scope, or all that apply without one, all passed |
| `FullGateProof.ReusableExactlyForTheSame` | src/engine/full-gate-proof.ts:424-543 | A proof of an own run is reused for exactly the inputs that agree with its own, and gives back the very result |
| `FullGateProof.UnscopedRunsAll` | src/engine/full-gate-proof.ts:424-443 | Without a scope the gate ran the whole platform set |
| `ArtifactPaths.Roots` | src/engine/clean-validation-checkout.ts:1226-1241 | Exactly the roots of the declared patterns, or an error if one of them is not a plain path followed by the tree glob |
| `ArtifactPaths.PatternCoversItsTree` | src/engine/clean-validation-checkout.ts:1226-1260 | A pattern owns its root and every path below it |
| `ArtifactPaths.OwningRoot` | src/engine/clean-validation-checkout.ts:1251-1260 | The deepest declared root that is a segment prefix of the path, and none exactly when there is no such root |
| `ArtifactPaths.OwningRootIsUnique` | src/engine/clean-validation-checkout.ts:1251-1260 | There is one such answer |
| `HardLinks.FreezeCleanValidationHardLinks` | src/engine/clean-validation-hard-links.ts:105-172 | Accepts exactly scans with distinct well-formed paths and whole groups of one identity under one root, and returns the sorted records and the number of groups |
| `HardLinks.Collect` | src/engine/clean-validation-hard-links.ts:108-139 | The map of groups holds the names of each linked file in order of observation |
| `HardLinks.CheckGroup` | src/engine/clean-validation-hard-links.ts:141-157 | A group is accepted exactly if all names have one identity, are as many as the link count, and lie under one declared root |
| `HardLinks.AcceptedIsClosed` | src/engine/clean-validation-hard-links.ts:141-157 | In an accepted scan every file with several names has all of them observed, with one identity, owned by one declared root |
| `HardLinks.OrderDoesNotMatter` | src/engine/clean-validation-hard-links.ts:105-172 | Acceptance, number of groups and sorted records are the same for every order of observation |
| `HardLinks.RecordsTellObservations` | src/engine/clean-validation-hard-links.ts:125-133 | Equal record lists mean equal observations |
| `HardLinkText.TextTellsObservations` | src/engine/clean-validation-hard-links.ts:105-172 | For accepted scans of the same roots, the joined text that is digested is the same exactly if the same entries were observed, in whatever order: it can be cut into records in one way only |
| `HardLinkText.OneCut` | src/engine/clean-validation-hard-links.ts:125-167 | Two lists of records with the same fields in a row are the same: kinds, numbers and link digests leave no other cut |
| `HardLinks.MetadataTells` | src/engine/clean-validation-hard-links.ts:90-103 | Joined metadata are equal exactly for equal metadata |
| `OrdinalOrder.SortForgetsOrder` | src/engine/clean-validation-hard-links.ts:167-167 | Sorting gives the same for every order of the same texts |
| `LinkBatches.ManagedExternalFileLinkBatches` | src/engine/external-file-link-identity.ts:950-1012 | Batches are non-empty consecutive runs that fit and cover all links in order; none could have taken the next link; an error names a link that does not fit alone |
| `LinkBatches.EveryLinkOnce` | src/engine/external-file-link-identity.ts:950-1012 | Together the batches hold every link once, in order |
| `LinkBatches.GreedyIsOptimal` | src/engine/external-file-link-identity.ts:950-1012 | When shorter runs fit whenever longer ones do, no partition into consecutive batches that fit has fewer batches |
| `LinkBatches.FailureIsFinal` | src/engine/external-file-link-identity.ts:950-1012 | Then a link that does not fit alone means that there is no partition |
| `LinkBudget.ExternalFileLinkSnapshotBudget.BeginReaderBatch` | src/engine/external-file-link-identity.ts:158-165 | Grants the rest of the bytes exactly if the budget is usable and no batch is open |
| `LinkBudget.ExternalFileLinkSnapshotBudget.FinishReaderBatch` | src/engine/external-file-link-identity.ts:167-182 | Closes the batch and charges its bytes, unless they are malformed or exceed the limit |
| `LinkBudget.ExternalFileLinkSnapshotBudget.PoisonReaderBatch` | src/engine/external-file-link-identity.ts:184-187 | Closes the batch and makes the budget unusable |
| `LinkBudget.ExternalFileLinkSnapshotBudget.CountOneLink` | src/engine/external-file-link-identity.ts:189-197 | Counts a link, and refuses beyond the limit |
| `LinkBudget.ExternalFileLinkSnapshotBudget.Reserve` | src/engine/external-file-link-identity.ts:199-230 | The first reservation of an identity is told apart; later ones must agree in size and digest |
| `LinkBudget.GrantIsTheRest` | src/engine/external-file-link-identity.ts:158-182 | Over any calls, a grant plus what was charged before is exactly the maximum |
| `LinkBudget.OneBatchAtATime` | src/engine/external-file-link-identity.ts:158-187 | Between two grants the first batch was ended |
| `LinkBudget.NothingAfterPoison` | src/engine/external-file-link-identity.ts:137-187 | After poisoning every other call is refused |
| `LinkBudget.WithinLimit` | src/engine/external-file-link-identity.ts:167-182 | Over any calls, the bytes charged stay within the limit |
| `LinkBudget.ReadBatch` | src/engine/external-file-link-identity.ts:552-573 | The reader reads each distinct target of a batch once, and fails exactly if they exceed its limit |
| `LinkBudget.HostCharge` | src/engine/external-file-link-identity.ts:1105-1127 | The account of the host over distinct targets is the same number |
| `LinkBudget.ReserveAll` | src/engine/external-file-link-identity.ts:1129-1140 | Reserves the snapshots of a batch, exactly if none disagrees in its digest with an earlier one of the same target |
| `LinkBudget.RunBatches` | src/engine/external-file-link-identity.ts:1052-1146 | The batches go through in order up to the first that does not: one goes through exactly if the clock allows every step, the reader completes, its distinct targets fit into what earlier batches have left, and no digest disagrees with an earlier one of the same target; one that fails after its grant poisons the budget. If all go through, what they read is what the budget was charged, and it holds exactly their targets, each with its size and digest |
| `CursorHooks.InsertCanonicalEntry` | src/cursor-hooks.ts:292-310 | The loop computes the list of the specification |
| `CursorHooks.CanonicalEntryIsAdded` | src/cursor-hooks.ts:292-310 | The entries of the user keep value and order, and there is exactly one managed entry, in its exact form |
| `CursorHooks.CanonicalIsIdempotent` | src/cursor-hooks.ts:292-310 | Adding the managed entry twice is adding it once |
| `CursorHooks.AddThenTakeOut` | src/cursor-hooks.ts:292-319 | Taking it out again gives the configuration back, but for an empty list |
| `CursorHooks.InstallIsHealthy` | src/cursor-hooks.ts:431-449 | An install makes the status healthy |
| `CursorHooks.InstallIsIdempotent` | src/cursor-hooks.ts:387-429 | A second install changes nothing, modes included |
| `CursorHooks.RemoveUndoesInstall` | src/cursor-hooks.ts:451-496 | Install and remove on a clean disk leave directories and files as they were: a created configuration is gone, and an existing one has its value, but for an empty list; its mode is back exactly if it lies within the permissions and is disjoint from the umask |
| `CursorHooks.RewrittenKeeps` | src/cursor-hooks.ts:332-368 | Writing every file anew keeps files, bytes and directories; the disk is the same exactly if every mode lies within the permissions and is disjoint from the umask |
| `CursorHooks.GroupWriteIsLost` | src/cursor-hooks.ts:339-368 | A configuration with mode 0664 under umask 022 has 0644 after an install, and also after a failed one that was rolled back |
| `CursorHooks.Workspace.Install` | src/cursor-hooks.ts:387-429 | Reports a conflict exactly when one stands in the way and then changes nothing; success gives the installed disk; after a failed step every file is written anew as it was, and directories are as before, unless a second operation fails too |
| `CursorHooks.Workspace.Remove` | src/cursor-hooks.ts:451-496 | The same for removing; a created directory that is not empty stays |
| `CursorHooks.Workspace.Rollback` | src/cursor-hooks.ts:370-385 | Writes all three files anew as they were and removes the created directories, unless a restoring operation fails |
| `CursorHooks.Workspace.RestoreSnapshot` | src/cursor-hooks.ts:361-368 | The file has the bytes of its snapshot and its permissions without those in the umask, or is gone; no other file changes |
| `CursorHooks.Workspace.WriteIfChanged` | src/cursor-hooks.ts:356-359 | Writes only other bytes, and requests the mode that was there |
| `CursorHooks.Workspace.AtomicWrite` | src/cursor-hooks.ts:339-354 | The file changes as a whole or not at all, and the umask is taken from the requested mode |
| `Diagnostics.ClipEvidenceDiagnostic` | src/engine/evidence.ts:263-276 | The longest suffix of at most 2000 code points that splits no surrogate pair; the input itself exactly when that is bounded |
| `Diagnostics.IsBoundedDiagnostic` | src/engine/evidence.ts:327-335 | True exactly for texts of at most 2000 code points, counted forwards |
| `Diagnostics.ClipIsUnique` | src/engine/evidence.ts:263-276 | There is one such suffix: counting backwards and forwards agree |
| `Diagnostics.ClipIsIdempotent` | src/engine/evidence.ts:263-276 | Clipping twice is clipping once |
| `Diagnostics.ClipKeepsWellFormed` | src/engine/evidence.ts:263-276 | A well-formed text stays well-formed |

## Left out

- Win32 calls, handles, pipes and job objects: their results are answers in a script.
- Clocks and deadlines: whether a deadline passed is an answer as well, so nothing is said about durations; the deadline of the present phase is one of two that are told apart, the other being that for a natural drain.
- `ControlReader` and the parsing of frames: a frame is already classified, and a malformed one is an error.
- `TargetSpec.Parse`, `PreparedAuthority` and the records behind an armed authority: whether they can be read is an answer, and of an armed record only its digest is kept.
- The `.cmd`, `.bat` and `cmd.exe` branches of `BuildCommandLine`, and `BuildEnvironment`.
- Stack depth and the width of numbers in the JSON kernel: values are unbounded, and of a number only its integral value matters.
- `JavaScriptSerializer`: decoding is that of RFC 8259, without its own conversions of dates and types.
- `JSON.parse` and `JSON.stringify` outside the JSON kernel: parsed values, and for hook files a pair of functions that undo each other on the configurations and records that the installer writes.
- The modes of directories, and access control beyond mode bits.
- SHA-256: digests are functions; for hard links the text that is digested is the subject, and not the digest.
- The formatting of numbers and time stamps in notes: a parameter.
- `loop.ts`: runs are arbitrary sequences of the transitions that it composes; unreadable state files, locks and the iteration limit are not modelled, and neither is termination of the loop.
- Legacy fields, display states, `rollbackUnvalidatedPasses` over all stories, and the deprecated `restoreValidated`.
- The digest over the receipt set: the list of receipts stands for it.
- The execution of quality checks, their working directories, and Git itself: how a path specification matches is a predicate.
- `normalizeValidationAdditionalRefs`, `normalizeValidationReferenceAliases` and `digestQualityContract`: functions without further properties.
- Fields of the wrong JSON type in evidence records: records are typed, and only the relations between their fields are checked.
- The limits on number and shape of what is sent to helper programs.
- Walking the checkout, reading links and their targets, and mount tables: what they find is an input; the budget's shared deadline is one answer per call.
- LinkBudget.RunBatches: does not model the transfer of the reader program, the parsing of what it writes, or the mount table; of the remaining time only whether some is left.
- Symbolic links and special files in the way of the hook installer, and temporary files left behind by a failed write.
- CLI parsing, dashboard, doctor, model catalog, issue contracts and reports: plumbing or single checks.
