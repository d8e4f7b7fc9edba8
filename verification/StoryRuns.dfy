/**
 Whole runs: engine transitions in any order and number, with agents free to rewrite the state file in between.
 A rewritten file is read, normalized and restored before the engine acts on it.
 */
module StoryRuns {
  import opened Wrappers
  import opened StoryTypes
  import opened StoryValidation
  import opened StoryGate
  import opened StoryNormal
  import opened StoryOwnership

  datatype Step =
    | Issue(story: Story, request: Request, environment: string, binding: Option<RunnerBinding>)
    | BindBase(id: string, head: string)
    | MarkUnverifiable(story: Story, head: string)
    | RollbackPass(id: string)
    | Escalate(id: string, dedicated: bool)
    | Reconcile(stories: seq<Story>, head: string, environment: string)
    | Outcome(id: string, outcome: NoteStep, rendering: Rendering)
    | Reload
    | Rewrite(file: File, observe: bool)

  /** The protected stories are those of the plan; an unreadable file ends the run and is no step. */
  ghost predicate Next(hash: AcceptanceHash, protected: seq<string>, s: RunState, step: Step, next: RunState) {
    match step
    case Issue(story, request, environment, binding) => next == IssueValidationReceipt(hash, s, story, request, environment, binding)
    case BindBase(id, head) => next == BindStoryValidationBase(s, id, head)
    case MarkUnverifiable(story, head) => next == MarkValidatorUnverifiable(hash, s, story, head)
    case RollbackPass(id) => next == RollbackUnvalidatedPass(s, id)
    case Escalate(id, dedicated) => next == EnableEscalation(s, id, dedicated)
    case Reconcile(stories, head, environment) => Reconciled(hash, stories, s, head, environment, next)
    case Outcome(id, outcome, rendering) => next == ApplyNoteStep(s, id, outcome, rendering)
    case Reload => ReadsAs(RunJson(s), next)
    case Rewrite(file, observe) => exists read :: ReadsAs(file, read) && next == RestoreStories(read, protected, s, file, observe)
  }

  ghost predicate Run(hash: AcceptanceHash, protected: seq<string>, states: seq<RunState>, steps: seq<Step>) {
    && |states| == |steps| + 1
    && forall i :: 0 <= i < |steps| ==> Next(hash, protected, states[i], steps[i], states[i + 1])
  }

  predicate Failure(step: Step, id: string) {
    step.Outcome? && step.id == id && (step.outcome.GateFailed? || step.outcome.ValidatorFailed?)
  }

  // ---------------------------------------------------------------- what one step can do to one story

  /** The step issues this very receipt for the story. */
  predicate Grants(hash: AcceptanceHash, s: RunState, step: Step, id: string, receipt: Receipt) {
    && step.Issue? && step.story.id == id
    && Issuable(hash, s, step.story, step.request, step.environment, step.binding)
    && receipt == ReceiptFor(step.request, step.environment, step.binding.value)
  }

  lemma ReadableReceipt(f: map<Key, Json>, receipt: Option<Receipt>)
    requires ValidationReceipt in f && f[ValidationReceipt] == OptionalReceiptJson(receipt) && ReadReceipt(f).Some?
    ensures receipt.Some? ==> ValidReceipt(receipt.value)
  {
    if receipt.Some? { ReceiptRoundTrip(receipt.value); }
  }

  lemma ReadableMarker(f: map<Key, Json>, marker: Option<Marker>)
    requires ValidatorUnverifiable in f && f[ValidatorUnverifiable] == OptionalMarkerJson(marker) && ReadMarker(f).Some?
    ensures marker.Some? ==> ValidMarker(marker.value)
  {
    if marker.Some? { MarkerRoundTrip(marker.value); }
  }

  lemma ReadableIsWellShaped(f: map<Key, Json>, s: StoryState)
    requires Holds(f, s) && ReadStoryFields(Record(f)).Some?
    ensures WellShaped(s)
  {
    ReadableReceipt(f, s.receipt);
    ReadableMarker(f, s.unverifiable);
  }

  lemma ReloadKeeps(s: StoryState, r: StoryState)
    requires NormalizeStoryState(StoryJson(s)) == Some(r)
    ensures r == Settle(s)
  {
    WrittenHolds(s);
    ReadableIsWellShaped(StoryJson(s).fields, s);
    WrittenFieldsRead(s);
  }

  lemma RewriteOwns(protected: seq<string>, s: RunState, file: File, observe: bool, read: RunState, id: string)
    requires ReadsAs(file, read) && id in protected
    ensures var next := RestoreStories(read, protected, s, file, observe); id in next && Owned(s, next[id], id)
  {
    RestoreStoriesOwns(read, protected, s, file, observe);
  }

  lemma ReceiptAfterOutcome(s: RunState, story: string, outcome: NoteStep, rendering: Rendering, id: string)
    ensures StateOf(ApplyNoteStep(s, story, outcome, rendering), id).receipt.Some? ==>
      && StateOf(ApplyNoteStep(s, story, outcome, rendering), id).receipt == StateOf(s, id).receipt
      && !(story == id && (outcome.GateFailed? || outcome.ValidatorFailed?))
  {
  }

  lemma ReceiptAfterRewrite(protected: seq<string>, s: RunState, file: File, observe: bool, next: RunState, id: string)
    requires exists read :: ReadsAs(file, read) && next == RestoreStories(read, protected, s, file, observe)
    requires id in protected
    ensures StateOf(next, id).receipt.Some? ==> StateOf(next, id).receipt == StateOf(s, id).receipt
  {
    var read :| ReadsAs(file, read) && next == RestoreStories(read, protected, s, file, observe);
    RewriteOwns(protected, s, file, observe, read, id);
  }

  /** A receipt on a protected story is the one it had, unless this step issued it; a failed round leaves none. */
  lemma ReceiptAfterStep(hash: AcceptanceHash, protected: seq<string>, s: RunState, step: Step, next: RunState, id: string)
    requires Next(hash, protected, s, step, next) && id in protected && StateOf(next, id).receipt.Some?
    ensures !Failure(step, id)
    ensures StateOf(next, id).receipt == StateOf(s, id).receipt || Grants(hash, s, step, id, StateOf(next, id).receipt.value)
  {
    match step
    case Reload => if id in s { ReloadKeeps(s[id], next[id]); }
    case Outcome(story, outcome, rendering) => ReceiptAfterOutcome(s, story, outcome, rendering, id);
    case Rewrite(file, observe) => ReceiptAfterRewrite(protected, s, file, observe, next, id);
    case _ =>
  }

  lemma BaseAfterStep(hash: AcceptanceHash, protected: seq<string>, s: RunState, step: Step, next: RunState, id: string)
    requires Next(hash, protected, s, step, next) && id in protected && StateOf(s, id).storyBase.Some?
    ensures StateOf(next, id).storyBase == StateOf(s, id).storyBase
  {
    match step
    case Reload => if id in s { ReloadKeeps(s[id], next[id]); }
    case Rewrite(file, observe) =>
      var read :| ReadsAs(file, read) && next == RestoreStories(read, protected, s, file, observe);
      RewriteOwns(protected, s, file, observe, read, id);
    case _ =>
  }

  // ---------------------------------------------------------------- whole runs

  /** The base of a protected story, once set, is never changed: not by the engine, and not by any rewrite. */
  lemma {:induction false} BaseIsWrittenOnce(hash: AcceptanceHash, protected: seq<string>, states: seq<RunState>, steps: seq<Step>,
                                             id: string, m: nat, n: nat)
    requires Run(hash, protected, states, steps) && id in protected && m <= n < |states| && StateOf(states[m], id).storyBase.Some?
    ensures StateOf(states[n], id).storyBase == StateOf(states[m], id).storyBase
    decreases n
  {
    if m < n {
      BaseIsWrittenOnce(hash, protected, states, steps, id, m, n - 1);
      BaseAfterStep(hash, protected, states[n - 1], steps[n - 1], states[n], id);
    }
  }

  /** Step k issued the receipt, and no failure of the story lies between k and n. */
  ghost predicate GrantedAt(hash: AcceptanceHash, states: seq<RunState>, steps: seq<Step>, id: string, receipt: Receipt, k: nat, n: nat) {
    && k < n <= |steps| < |states|
    && Grants(hash, states[k], steps[k], id, receipt)
    && forall j :: k < j < n ==> !Failure(steps[j], id)
  }

  lemma {:induction false} ReceiptProvenance(hash: AcceptanceHash, protected: seq<string>, states: seq<RunState>, steps: seq<Step>,
                                             id: string, n: nat) returns (k: nat)
    requires Run(hash, protected, states, steps) && id in protected && n < |states|
    requires StateOf(states[0], id).receipt.None? && StateOf(states[n], id).receipt.Some?
    ensures GrantedAt(hash, states, steps, id, StateOf(states[n], id).receipt.value, k, n)
    decreases n
  {
    var receipt := StateOf(states[n], id).receipt.value;
    ReceiptAfterStep(hash, protected, states[n - 1], steps[n - 1], states[n], id);
    if Grants(hash, states[n - 1], steps[n - 1], id, receipt) {
      k := n - 1;
    } else {
      k := ReceiptProvenance(hash, protected, states, steps, id, n - 1);
    }
  }

  /** Two different stories with the same acceptance digest. */
  predicate Collide(hash: AcceptanceHash, a: Story, b: Story) { a != b && hash(a.id, a.criteria) == hash(b.id, b.criteria) }

  /**
   Every pass was earned: a protected story that passes at a commit got its receipt from an earlier issuing step
   for the same story, commit, criteria, base and environment, with a candidate in place, and has not failed since.
   */
  lemma PassIsEarned(hash: AcceptanceHash, protected: seq<string>, states: seq<RunState>, steps: seq<Step>,
                     story: Story, n: nat, head: string, environment: string) returns (k: nat)
    requires Run(hash, protected, states, steps) && story.id in protected && n < |states|
    requires StateOf(states[0], story.id).receipt.None?
    requires IsStoryPassedAt(hash, story, StateOf(states[n], story.id), head, environment)
    ensures k < n && steps[k].Issue? && steps[k].story.id == story.id
    ensures steps[k].request.gitHead == head && steps[k].environment == environment
    ensures steps[k].request.acceptanceHash == hash(story.id, story.criteria) && (steps[k].story == story || Collide(hash, steps[k].story, story))
    ensures StateOf(states[k], story.id).storyBase == StateOf(states[n], story.id).storyBase == Some(steps[k].request.storyBase)
    ensures StateOf(states[k], story.id).passes && !StateOf(states[k], story.id).blocked
    ensures forall j :: k < j < n ==> !Failure(steps[j], story.id)
  {
    PassedMeansBound(hash, story, StateOf(states[n], story.id), head, environment);
    k := ReceiptProvenance(hash, protected, states, steps, story.id, n);
  }

  // ---------------------------------------------------------------- engine steps alone

  predicate ByEngine(step: Step) { !step.Rewrite? }

  lemma OutcomeIsNormal(s: RunState, id: string, outcome: NoteStep, rendering: Rendering)
    requires NormalRun(s)
    ensures NormalRun(ApplyNoteStep(s, id, outcome, rendering))
  {
    assert Normal(INITIAL_STORY_STATE);
    assert Normal(StateOf(s, id));
  }

  lemma IssueIsNormal(hash: AcceptanceHash, s: RunState, story: Story, request: Request, environment: string, binding: Option<RunnerBinding>)
    requires NormalRun(s)
    ensures NormalRun(IssueValidationReceipt(hash, s, story, request, environment, binding))
  {
    if Issuable(hash, s, story, request, environment, binding) {
      assert ValidReceipt(ReceiptFor(request, environment, binding.value));
    }
  }

  lemma MarkingIsNormal(hash: AcceptanceHash, s: RunState, story: Story, head: string)
    requires NormalRun(s)
    ensures NormalRun(MarkValidatorUnverifiable(hash, s, story, head))
  {
    assert IsGitHead(head) ==> ValidMarker(Marker(head, hash(story.id, story.criteria)));
  }

  lemma ReconciledIsNormal(hash: AcceptanceHash, stories: seq<Story>, s: RunState, head: string, environment: string, next: RunState)
    requires NormalRun(s) && Reconciled(hash, stories, s, head, environment, next)
    ensures NormalRun(next)
  {
    forall id | id in next ensures Normal(next[id]) { assert Normal(s[id]); }
  }

  lemma StoryReadsAsItself(s: RunState, next: RunState, id: string)
    requires NormalRun(s) && ReadsAs(RunJson(s), next) && id in s
    ensures id in next && next[id] == s[id]
  {
    NormalIsStable(s[id]);
    assert RunJson(s).stories[id] == StoryJson(s[id]);
  }

  lemma ReloadIsIdentity(s: RunState, next: RunState)
    requires NormalRun(s) && ReadsAs(RunJson(s), next)
    ensures next == s
  {
    forall id | id in s ensures next[id] == s[id] { StoryReadsAsItself(s, next, id); }
    assert next.Keys == s.Keys;
  }

  /**
   A rewrite leaves the run state in normal form exactly when no story of the plan needs settling: an agent that withdraws
   its candidate gets the verdict or the marker back without it.
   */
  lemma RewriteIsNormalWhen(protected: seq<string>, s: RunState, file: File, observe: bool, read: RunState)
    requires NormalRun(s) && ReadsAs(file, read)
    ensures NormalRun(RestoreStories(read, protected, s, file, observe)) <==>
              forall id :: id in protected ==> NeedsNoSettling(Lookup(read, id), StateOf(s, id), ObservedFields(file, id, observe))
  {
    var next := RestoreStories(read, protected, s, file, observe);
    forall id ensures id in next <==> id in read || id in protected { RestoreStoriesAt(read, protected, s, file, observe, id); }
    forall id | id in next ensures Normal(next[id]) <==>
      (id in protected ==> NeedsNoSettling(Lookup(read, id), StateOf(s, id), ObservedFields(file, id, observe)))
    {
      RewrittenStoryIsNormalWhen(protected, s, file, observe, read, id);
    }
  }

  lemma RewrittenStoryIsNormalWhen(protected: seq<string>, s: RunState, file: File, observe: bool, read: RunState, id: string)
    requires NormalRun(s) && ReadsAs(file, read) && id in RestoreStories(read, protected, s, file, observe)
    ensures Normal(RestoreStories(read, protected, s, file, observe)[id]) <==>
      (id in protected ==> NeedsNoSettling(Lookup(read, id), StateOf(s, id), ObservedFields(file, id, observe)))
  {
    assert Normal(INITIAL_STORY_STATE);
    RestoreStoriesAt(read, protected, s, file, observe, id);
    if id in read { NormalizedIsNormal(file.stories[id]); }
    RestoreIsNormalWhen(Lookup(read, id), StateOf(s, id), ObservedFields(file, id, observe));
  }

  /** A story with a verdict, and the file of an agent that withdraws candidate and verdict. */
  const SAMPLE_HEAD: string := seq(40, i => '0')

  const SAMPLE_RECEIPT := Receipt4("r", SAMPLE_HEAD, SAMPLE_DIGEST, SAMPLE_DIGEST, SAMPLE_DIGEST, SAMPLE_DIGEST, SAMPLE_HEAD, SAMPLE_DIGEST, 1)

  const PASSED := StoryState(true, true, Some(SAMPLE_HEAD), Some(SAMPLE_RECEIPT), None, "", 0.0, false, false)

  const WITHDRAWN := PASSED.(passes := false, validated := false, receipt := None)

  lemma SamplesAreNormal()
    ensures Normal(PASSED) && Normal(WITHDRAWN)
  {
    assert SAMPLE_DIGEST[7..] == seq(64, i => '0');
    assert !IsTrimmed("r"[0]);
  }

  lemma RewriteCanLeaveNormalForm(hash: AcceptanceHash)
    ensures NormalRun(map["S1" := PASSED])
    ensures exists file, next :: Next(hash, ["S1"], map["S1" := PASSED], Rewrite(file, true), next) && !NormalRun(next)
  {
    SamplesAreNormal();
    var s, read: RunState := map["S1" := PASSED], map["S1" := WITHDRAWN];
    var next := RestoreStories(read, ["S1"], s, RunJson(read), true);
    SaveAndReload(read);
    WithdrawalIsSeen(s, read);
    RewriteIsNormalWhen(["S1"], s, RunJson(read), true, read);
    assert Next(hash, ["S1"], s, Rewrite(RunJson(read), true), next);
  }

  lemma WithdrawalIsSeen(s: RunState, read: RunState)
    requires s == map["S1" := PASSED] && read == map["S1" := WITHDRAWN]
    ensures exists id :: id in ["S1"] && !NeedsNoSettling(Lookup(read, id), StateOf(s, id), ObservedFields(RunJson(read), id, true))
  {
    var fields := StoryJson(WITHDRAWN).fields;
    assert RunJson(read).stories["S1"] == Record(fields);
    assert fields[Validated] == Boolean(false);
    var observed := ObservedFields(RunJson(read), "S1", true);
    assert observed.Some? ==> observed.value.validated == Some(false);
    assert "S1" in ["S1"] && !NeedsNoSettling(Lookup(read, "S1"), StateOf(s, "S1"), observed);
  }

  lemma EngineStepIsNormal(hash: AcceptanceHash, protected: seq<string>, s: RunState, step: Step, next: RunState)
    requires Next(hash, protected, s, step, next) && ByEngine(step) && NormalRun(s)
    ensures NormalRun(next)
    ensures step.Reload? ==> next == s
  {
    match step
    case Reload => ReloadIsIdentity(s, next);
    case Reconcile(stories, head, environment) => ReconciledIsNormal(hash, stories, s, head, environment, next);
    case Outcome(id, outcome, rendering) => OutcomeIsNormal(s, id, outcome, rendering);
    case Issue(story, request, environment, binding) => IssueIsNormal(hash, s, story, request, environment, binding);
    case MarkUnverifiable(story, head) => MarkingIsNormal(hash, s, story, head);
    case _ =>
  }

  /** Every blocked story stays blocked, and a story that has retries left keeps some unless it becomes blocked. */
  ghost predicate KeepsRetries(s: RunState, next: RunState, id: string) {
    && (WithinRetries(StateOf(s, id)) ==> WithinRetries(StateOf(next, id)))
    && (StateOf(s, id).blocked ==> StateOf(next, id).blocked)
  }

  lemma OutcomeKeepsRetries(s: RunState, story: string, outcome: NoteStep, rendering: Rendering, id: string)
    ensures KeepsRetries(s, ApplyNoteStep(s, story, outcome, rendering), id)
  {
  }

  lemma EngineStepKeepsRetries(hash: AcceptanceHash, protected: seq<string>, s: RunState, step: Step, next: RunState, id: string)
    requires Next(hash, protected, s, step, next) && ByEngine(step)
    ensures KeepsRetries(s, next, id)
  {
    match step
    case Reload => if id in s { ReloadKeeps(s[id], next[id]); }
    case Outcome(story, outcome, rendering) => OutcomeKeepsRetries(s, story, outcome, rendering, id);
    case _ =>
  }

  lemma {:induction false} RetriesKeptThroughout(states: seq<RunState>, id: string, m: nat, n: nat)
    requires m <= n < |states| && WithinRetries(StateOf(states[m], id))
    requires forall i :: m <= i < n ==> KeepsRetries(states[i], states[i + 1], id)
    ensures WithinRetries(StateOf(states[n], id)) && (StateOf(states[m], id).blocked ==> StateOf(states[n], id).blocked)
    decreases n
  {
    if m < n {
      RetriesKeptThroughout(states, id, m, n - 1);
      assert KeepsRetries(states[n - 1], states[n - 1 + 1], id);
    }
  }

  /** From a normal start the engine only reaches normal states, so saving and reloading any of them changes nothing. */
  lemma {:induction false} EngineStatesReload(hash: AcceptanceHash, protected: seq<string>, states: seq<RunState>, steps: seq<Step>, n: nat)
    requires Run(hash, protected, states, steps) && n < |states| && NormalRun(states[0])
    requires forall i :: 0 <= i < n ==> ByEngine(steps[i])
    ensures NormalRun(states[n]) && ReadsAs(RunJson(states[n]), states[n])
    decreases n
  {
    if n > 0 {
      EngineStatesReload(hash, protected, states, steps, n - 1);
      EngineStepIsNormal(hash, protected, states[n - 1], steps[n - 1], states[n]);
    }
    SaveAndReload(states[n]);
  }

  /** By engine steps alone a blocked story stays blocked, and one that is not blocked has retries left. */
  lemma BlockedIsSticky(hash: AcceptanceHash, protected: seq<string>, states: seq<RunState>, steps: seq<Step>,
                        id: string, m: nat, n: nat)
    requires Run(hash, protected, states, steps) && m <= n < |states| && WithinRetries(StateOf(states[m], id))
    requires forall i :: m <= i < n ==> ByEngine(steps[i])
    ensures WithinRetries(StateOf(states[n], id)) && (StateOf(states[m], id).blocked ==> StateOf(states[n], id).blocked)
  {
    forall i | m <= i < n ensures KeepsRetries(states[i], states[i + 1], id) {
      EngineStepKeepsRetries(hash, protected, states[i], steps[i], states[i + 1], id);
    }
    RetriesKeptThroughout(states, id, m, n);
  }
}
