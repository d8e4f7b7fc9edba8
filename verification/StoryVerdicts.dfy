/**
 What whole runs mean for one story of the plan: which steps alone take a verdict back, how failures are counted up to the
 block, where candidates come from, and that nothing done to another story matters.
 */
module StoryVerdicts {
  import opened Wrappers
  import opened StoryTypes
  import opened StoryValidation
  import opened StoryGate
  import opened StoryNormal
  import opened StoryOwnership
  import opened StoryRuns

  // ---------------------------------------------------------------- verdicts

  predicate HasVerdict(s: StoryState, receipt: Receipt) { s.validated && s.receipt == Some(receipt) }

  /** Reading settles the verdict: it needs its candidate and its base. */
  predicate Settles(s: StoryState) { Settle(s).validated }

  /** The story's verdict is put back as it was, unless the file held it and reading has dropped it. */
  predicate DropsVerdict(file: File, observe: bool, id: string, expected: StoryState) {
    && observe && file.Stories? && id in file.stories
    && ReadEngineOwnedFields(file, id).Some? && SameOwnership(ReadEngineOwnedFields(file, id).value, OwnershipOf(expected))
    && NormalizeStoryState(file.stories[id]).Some? && !NormalizeStoryState(file.stories[id]).value.validated
  }

  /** The steps that take back the verdict that the story has. */
  ghost predicate TakesBack(hash: AcceptanceHash, s: RunState, step: Step, id: string, receipt: Receipt) {
    var story := StateOf(s, id);
    match step
    case Issue(_, request, environment, binding) =>
      && step.story.id == id && Issuable(hash, s, step.story, request, environment, binding)
      && ReceiptFor(request, environment, binding.value) != receipt
    case MarkUnverifiable(marked, head) =>
      marked.id == id && story.passes && !story.blocked && IsGitHead(head) && story.unverifiable != Some(Marker(head, hash(id, marked.criteria)))
    case Reconcile(stories, head, environment) =>
      exists i :: 0 <= i < |stories| && stories[i].id == id && Withdrawn(hash, s, stories[i], head, environment)
    case Outcome(other, outcome, _) => other == id && (outcome.Aborted? ==> !story.blocked)
    case Reload => !Settles(story)
    case Rewrite(file, observe) => DropsVerdict(file, observe, id, story)
    case _ => false
  }

  lemma OutcomeTakesBack(s: RunState, step: Step, id: string, receipt: Receipt)
    requires step.Outcome? && HasVerdict(StateOf(s, id), receipt)
    ensures HasVerdict(StateOf(ApplyNoteStep(s, step.id, step.outcome, step.rendering), id), receipt)
       <==> step.id != id || (step.outcome.Aborted? && StateOf(s, id).blocked)
  {
  }

  lemma RewriteTakesBack(protected: seq<string>, s: RunState, file: File, observe: bool, read: RunState, id: string, receipt: Receipt)
    requires ReadsAs(file, read) && id in protected && HasVerdict(StateOf(s, id), receipt)
    ensures HasVerdict(StateOf(RestoreStories(read, protected, s, file, observe), id), receipt) <==> !DropsVerdict(file, observe, id, StateOf(s, id))
  {
    RestoreStoriesAt(read, protected, s, file, observe, id);
    if id in read { RestoredVerdict(file, observe, id, read[id], StateOf(s, id), receipt); }
  }

  lemma RestoredVerdict(file: File, observe: bool, id: string, read: StoryState, expected: StoryState, receipt: Receipt)
    requires file.Stories? && id in file.stories && NormalizeStoryState(file.stories[id]) == Some(read) && HasVerdict(expected, receipt)
    ensures HasVerdict(RestoredStory(Some(read), expected, ObservedFields(file, id, observe)), receipt) <==> !DropsVerdict(file, observe, id, expected)
  {
    ObservedMatchesFile(file, id, read, OwnershipOf(expected));
    NormalizedIsNormal(file.stories[id]);
  }

  /** One step takes a verdict back exactly if it is one of these. */
  lemma VerdictAfterStep(hash: AcceptanceHash, protected: seq<string>, s: RunState, step: Step, next: RunState, id: string, receipt: Receipt)
    requires Next(hash, protected, s, step, next) && id in protected && HasVerdict(StateOf(s, id), receipt)
    ensures HasVerdict(StateOf(next, id), receipt) <==> !TakesBack(hash, s, step, id, receipt)
  {
    match step
    case Reload => ReloadKeeps(s[id], next[id]);
    case Outcome(_, _, _) => OutcomeTakesBack(s, step, id, receipt);
    case Rewrite(file, observe) =>
      var read :| ReadsAs(file, read) && next == RestoreStories(read, protected, s, file, observe);
      RewriteTakesBack(protected, s, file, observe, read, id, receipt);
    case _ =>
  }

  ghost predicate Lasts(states: seq<RunState>, id: string, receipt: Receipt, m: nat, n: nat)
    requires n < |states|
  {
    forall i :: m <= i <= n ==> HasVerdict(StateOf(states[i], id), receipt)
  }

  ghost predicate Untaken(hash: AcceptanceHash, states: seq<RunState>, steps: seq<Step>, id: string, receipt: Receipt, m: nat, n: nat)
    requires n <= |steps| < |states|
  {
    forall j :: m <= j < n ==> !TakesBack(hash, states[j], steps[j], id, receipt)
  }

  lemma OneMoreStep(hash: AcceptanceHash, states: seq<RunState>, steps: seq<Step>, id: string, receipt: Receipt, m: nat, n: nat)
    requires m < n <= |steps| < |states|
    ensures Lasts(states, id, receipt, m, n) <==> Lasts(states, id, receipt, m, n - 1) && HasVerdict(StateOf(states[n], id), receipt)
    ensures Untaken(hash, states, steps, id, receipt, m, n)
       <==> Untaken(hash, states, steps, id, receipt, m, n - 1) && !TakesBack(hash, states[n - 1], steps[n - 1], id, receipt)
  {
  }

  /**
   Over any run, rewrites included, a verdict lasts exactly until the first step that takes it back: a new receipt, a
   marker, a withdrawal, a round's outcome, or a reading that settles it. Rolling back passes, binding a base, escalating,
   and whatever is done for another story never do.
   */
  lemma {:induction false} VerdictLasts(hash: AcceptanceHash, protected: seq<string>, states: seq<RunState>, steps: seq<Step>,
                                        id: string, receipt: Receipt, m: nat, n: nat)
    requires Run(hash, protected, states, steps) && id in protected && m <= n < |states| && HasVerdict(StateOf(states[m], id), receipt)
    ensures Lasts(states, id, receipt, m, n) <==> Untaken(hash, states, steps, id, receipt, m, n)
    decreases n
  {
    if m < n {
      VerdictLasts(hash, protected, states, steps, id, receipt, m, n - 1);
      OneMoreStep(hash, states, steps, id, receipt, m, n);
      if Lasts(states, id, receipt, m, n - 1) {
        VerdictAfterStep(hash, protected, states[n - 1], steps[n - 1], states[n], id, receipt);
      }
    }
  }

  // ---------------------------------------------------------------- retries

  /** The failures of the story in steps m to n since its last success. */
  function FailuresSince(steps: seq<Step>, id: string, m: nat, n: nat): nat
    requires m <= n <= |steps|
    decreases n
  {
    if m == n then 0
    else if Failure(steps[n - 1], id) then FailuresSince(steps, id, m, n - 1) + 1
    else if steps[n - 1].Outcome? && steps[n - 1].id == id && steps[n - 1].outcome.ValidatorPassed? then 0
    else FailuresSince(steps, id, m, n - 1)
  }

  /** One step counts a failure, forgets all at a success, and otherwise leaves the count; the fifth failure blocks. */
  ghost predicate Counts(s: RunState, step: Step, next: RunState, id: string) {
    var story, after := StateOf(s, id), StateOf(next, id);
    && after.retryCount == (if Failure(step, id) then story.retryCount + 1.0
                            else if step.Outcome? && step.id == id && step.outcome.ValidatorPassed? then 0.0 else story.retryCount)
    && after.blocked == (story.blocked || (Failure(step, id) && after.retryCount >= MAX_RETRIES))
  }

  lemma OutcomeCounts(s: RunState, step: Step, id: string)
    requires step.Outcome?
    ensures Counts(s, step, ApplyNoteStep(s, step.id, step.outcome, step.rendering), id)
  {
  }

  lemma StepCounts(hash: AcceptanceHash, protected: seq<string>, s: RunState, step: Step, next: RunState, id: string)
    requires Next(hash, protected, s, step, next) && ByEngine(step)
    ensures Counts(s, step, next, id)
  {
    match step
    case Reload => if id in s { ReloadKeeps(s[id], next[id]); }
    case Outcome(_, _, _) => OutcomeCounts(s, step, id);
    case _ =>
  }

  /** At some time after m and up to n, the story had failed five times without a success between. */
  ghost predicate FiveReached(steps: seq<Step>, id: string, m: nat, n: nat)
    requires n <= |steps|
  {
    exists i :: m < i <= n && FailuresSince(steps, id, m, i) >= 5
  }

  /** Only a failure brings the fifth. */
  lemma FiveMore(steps: seq<Step>, id: string, m: nat, n: nat)
    requires m < n <= |steps|
    ensures FiveReached(steps, id, m, n)
       <==> FiveReached(steps, id, m, n - 1) || (Failure(steps[n - 1], id) && FailuresSince(steps, id, m, n) >= 5)
  {
    if FailuresSince(steps, id, m, n) >= 5 && !Failure(steps[n - 1], id) { assert FailuresSince(steps, id, m, n - 1) >= 5; }
  }

  /**
   Over engine steps of every kind, the retries of a story are its failures since its last success, and it is blocked
   exactly once it was blocked before or has failed five times without a success between.
   */
  lemma BlockedExactlyAfterFive(hash: AcceptanceHash, protected: seq<string>, states: seq<RunState>, steps: seq<Step>,
                                id: string, m: nat, n: nat)
    requires Run(hash, protected, states, steps) && m <= n < |states| && StateOf(states[m], id).retryCount == 0.0
    requires forall i :: m <= i < n ==> ByEngine(steps[i])
    ensures StateOf(states[n], id).retryCount == FailuresSince(steps, id, m, n) as real
    ensures StateOf(states[n], id).blocked <==> StateOf(states[m], id).blocked || FiveReached(steps, id, m, n)
  {
    forall i | m <= i < n ensures Counts(states[i], steps[i], states[i + 1], id) {
      StepCounts(hash, protected, states[i], steps[i], states[i + 1], id);
    }
    CountsAddUp(states, steps, id, m, n);
  }

  lemma {:induction false} CountsAddUp(states: seq<RunState>, steps: seq<Step>, id: string, m: nat, n: nat)
    requires m <= n <= |steps| < |states| && StateOf(states[m], id).retryCount == 0.0
    requires forall i :: m <= i < n ==> Counts(states[i], steps[i], states[i + 1], id)
    ensures StateOf(states[n], id).retryCount == FailuresSince(steps, id, m, n) as real
    ensures StateOf(states[n], id).blocked <==> StateOf(states[m], id).blocked || FiveReached(steps, id, m, n)
    decreases n
  {
    if m < n {
      CountsAddUp(states, steps, id, m, n - 1);
      assert Counts(states[n - 1], steps[n - 1], states[n - 1 + 1], id);
      FiveMore(steps, id, m, n);
    }
  }

  // ---------------------------------------------------------------- candidates

  /** The engine steps that take the story's candidate: a failure, an abort unless it is blocked, a rollback without verdict. */
  predicate TakesCandidate(s: RunState, step: Step, id: string) {
    var story := StateOf(s, id);
    || Failure(step, id)
    || (step.Outcome? && step.id == id && step.outcome.Aborted? && !story.blocked)
    || (step.RollbackPass? && step.id == id && !story.validated && !story.blocked)
  }

  lemma CandidateAfterOutcome(s: RunState, step: Step, id: string)
    requires step.Outcome?
    ensures StateOf(ApplyNoteStep(s, step.id, step.outcome, step.rendering), id).passes <==> StateOf(s, id).passes && !TakesCandidate(s, step, id)
  {
  }

  /** No engine step sets a candidate, and only these take one. */
  lemma CandidateAfterStep(hash: AcceptanceHash, protected: seq<string>, s: RunState, step: Step, next: RunState, id: string)
    requires Next(hash, protected, s, step, next) && ByEngine(step)
    ensures StateOf(next, id).passes <==> StateOf(s, id).passes && !TakesCandidate(s, step, id)
  {
    match step
    case Reload => if id in s { ReloadKeeps(s[id], next[id]); }
    case Outcome(_, _, _) => CandidateAfterOutcome(s, step, id);
    case _ =>
  }

  /** Over engine steps of every kind, a story has a candidate exactly if it had one and no step has taken it. */
  lemma CandidateLasts(hash: AcceptanceHash, protected: seq<string>, states: seq<RunState>, steps: seq<Step>, id: string, m: nat, n: nat)
    requires Run(hash, protected, states, steps) && m <= n < |states|
    requires forall j :: m <= j < n ==> ByEngine(steps[j])
    ensures StateOf(states[n], id).passes <==>
              StateOf(states[m], id).passes && forall j :: m <= j < n ==> !TakesCandidate(states[j], steps[j], id)
  {
    forall j | m <= j < n ensures LeavesCandidate(states[j], steps[j], states[j + 1], id) {
      CandidateAfterStep(hash, protected, states[j], steps[j], states[j + 1], id);
    }
    LeftThroughout(states, steps, id, m, n);
  }

  predicate LeavesCandidate(s: RunState, step: Step, next: RunState, id: string) {
    StateOf(next, id).passes <==> StateOf(s, id).passes && !TakesCandidate(s, step, id)
  }

  lemma {:induction false} LeftThroughout(states: seq<RunState>, steps: seq<Step>, id: string, m: nat, n: nat)
    requires m <= n <= |steps| < |states|
    requires forall j :: m <= j < n ==> LeavesCandidate(states[j], steps[j], states[j + 1], id)
    ensures StateOf(states[n], id).passes <==>
              StateOf(states[m], id).passes && forall j :: m <= j < n ==> !TakesCandidate(states[j], steps[j], id)
    decreases n
  {
    if m < n {
      LeftThroughout(states, steps, id, m, n - 1);
      assert LeavesCandidate(states[n - 1], steps[n - 1], states[n - 1 + 1], id);
    }
  }

  /** After a failure the story has a candidate again only if an agent has rewritten the file in between. */
  lemma {:induction false} CandidateFromRewrite(hash: AcceptanceHash, protected: seq<string>, states: seq<RunState>, steps: seq<Step>,
                                                id: string, k: nat, n: nat) returns (j: nat)
    requires Run(hash, protected, states, steps) && k < n < |states| && Failure(steps[k], id) && StateOf(states[n], id).passes
    ensures k < j < n && steps[j].Rewrite?
    decreases n
  {
    j := n - 1;
    if !steps[j].Rewrite? {
      CandidateAfterStep(hash, protected, states[j], steps[j], states[n], id);
      if k < j { j := CandidateFromRewrite(hash, protected, states, steps, id, k, j); }
    }
  }

  // ---------------------------------------------------------------- escalation

  predicate Escalates(s: RunState, step: Step, id: string) { step == Escalate(id, true) && id in s }

  lemma RewriteKeepsEscalation(protected: seq<string>, s: RunState, file: File, observe: bool, read: RunState, id: string)
    requires ReadsAs(file, read) && id in protected
    ensures StateOf(RestoreStories(read, protected, s, file, observe), id).escalated == StateOf(s, id).escalated
  {
    RestoreStoriesAt(read, protected, s, file, observe, id);
    if id in read { RestoredEscalation(file, observe, id, read[id], StateOf(s, id)); }
  }

  lemma RestoredEscalation(file: File, observe: bool, id: string, read: StoryState, expected: StoryState)
    requires file.Stories? && id in file.stories && NormalizeStoryState(file.stories[id]) == Some(read)
    ensures RestoredStory(Some(read), expected, ObservedFields(file, id, observe)).escalated == expected.escalated
  {
    ReadFieldsAreObserved(file, id, read);
  }

  lemma EscalationAfterStep(hash: AcceptanceHash, protected: seq<string>, s: RunState, step: Step, next: RunState, id: string)
    requires Next(hash, protected, s, step, next) && id in protected
    ensures StateOf(next, id).escalated <==> StateOf(s, id).escalated || Escalates(s, step, id)
  {
    match step
    case Reload => if id in s { ReloadKeeps(s[id], next[id]); }
    case Rewrite(file, observe) =>
      var read :| ReadsAs(file, read) && next == RestoreStories(read, protected, s, file, observe);
      RewriteKeepsEscalation(protected, s, file, observe, read, id);
    case Outcome(_, _, _) => OutcomeKeepsEscalation(s, step, id);
    case _ =>
  }

  lemma OutcomeKeepsEscalation(s: RunState, step: Step, id: string)
    requires step.Outcome?
    ensures StateOf(ApplyNoteStep(s, step.id, step.outcome, step.rendering), id).escalated == StateOf(s, id).escalated
  {
    if step.id != id {
      OutcomeLeavesOthers(s, step, id);
    } else {
      match step.outcome
      case GateFailed(failure) =>
      case ValidatorFailed(claim) =>
      case ValidatorPassed =>
      case Aborted(abort) =>
    }
  }

  /** Over any run, whatever agents write, a story is escalated exactly if it was, or the engine escalated it with a dedicated model. */
  lemma EscalatedByEngine(hash: AcceptanceHash, protected: seq<string>, states: seq<RunState>, steps: seq<Step>, id: string, m: nat, n: nat)
    requires Run(hash, protected, states, steps) && id in protected && m <= n < |states|
    ensures StateOf(states[n], id).escalated <==>
              StateOf(states[m], id).escalated || exists j :: m <= j < n && Escalates(states[j], steps[j], id)
  {
    forall j | m <= j < n ensures OnlyEscalates(states[j], steps[j], states[j + 1], id) {
      EscalationAfterStep(hash, protected, states[j], steps[j], states[j + 1], id);
    }
    EscalatedThroughout(states, steps, id, m, n);
  }

  predicate OnlyEscalates(s: RunState, step: Step, next: RunState, id: string) {
    StateOf(next, id).escalated <==> StateOf(s, id).escalated || Escalates(s, step, id)
  }

  lemma {:induction false} EscalatedThroughout(states: seq<RunState>, steps: seq<Step>, id: string, m: nat, n: nat)
    requires m <= n <= |steps| < |states|
    requires forall j :: m <= j < n ==> OnlyEscalates(states[j], steps[j], states[j + 1], id)
    ensures StateOf(states[n], id).escalated <==>
              StateOf(states[m], id).escalated || exists j :: m <= j < n && Escalates(states[j], steps[j], id)
    decreases n
  {
    if m < n {
      EscalatedThroughout(states, steps, id, m, n - 1);
      assert OnlyEscalates(states[n - 1], steps[n - 1], states[n - 1 + 1], id);
    }
  }

  // ---------------------------------------------------------------- other stories

  /** The step acts on this story, or on the file as a whole. */
  predicate Concerns(step: Step, id: string) {
    match step
    case Issue(story, _, _, _) => story.id == id
    case BindBase(other, _) => other == id
    case MarkUnverifiable(story, _) => story.id == id
    case RollbackPass(other) => other == id
    case Escalate(other, _) => other == id
    case Reconcile(stories, _, _) => exists i :: 0 <= i < |stories| && stories[i].id == id
    case Outcome(other, _, _) => other == id
    case Reload => true
    case Rewrite(_, _) => true
  }

  /** Whatever the engine does for other stories leaves this one exactly as it was. */
  lemma OthersStay(hash: AcceptanceHash, protected: seq<string>, states: seq<RunState>, steps: seq<Step>, id: string, m: nat, n: nat)
    requires Run(hash, protected, states, steps) && m <= n < |states|
    requires forall j :: m <= j < n ==> !Concerns(steps[j], id)
    ensures StateOf(states[n], id) == StateOf(states[m], id)
  {
    forall j | m <= j < n ensures StateOf(states[j + 1], id) == StateOf(states[j], id) {
      OtherStays(hash, protected, states[j], steps[j], states[j + 1], id);
    }
    SameThroughout(states, id, m, n);
  }

  lemma {:induction false} SameThroughout(states: seq<RunState>, id: string, m: nat, n: nat)
    requires m <= n < |states| && forall j :: m <= j < n ==> StateOf(states[j + 1], id) == StateOf(states[j], id)
    ensures StateOf(states[n], id) == StateOf(states[m], id)
    decreases n
  {
    if m < n {
      SameThroughout(states, id, m, n - 1);
      assert StateOf(states[n - 1 + 1], id) == StateOf(states[n - 1], id);
    }
  }

  lemma OtherStays(hash: AcceptanceHash, protected: seq<string>, s: RunState, step: Step, next: RunState, id: string)
    requires Next(hash, protected, s, step, next) && !Concerns(step, id)
    ensures StateOf(next, id) == StateOf(s, id)
  {
    match step
    case Outcome(_, _, _) => OutcomeLeavesOthers(s, step, id);
    case _ =>
  }

  lemma OutcomeLeavesOthers(s: RunState, step: Step, id: string)
    requires step.Outcome? && step.id != id
    ensures StateOf(ApplyNoteStep(s, step.id, step.outcome, step.rendering), id) == StateOf(s, id)
  {
  }
}
