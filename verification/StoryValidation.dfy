/** Whether a story counts as passed at a commit, and the transitions by which the engine gets there. */
module StoryValidation {
  import opened Wrappers
  import opened StoryTypes

  datatype InvalidReason =
    | Blocked | InvalidExpectedEnvironment | MissingCandidate | MissingStoryBase | NotValidated | MissingReceipt
    | InvalidReceipt | InvalidCurrentHead | HeadMismatch | StoryBaseMismatch | AcceptanceMismatch
    | MissingEnvironmentBinding | MissingRunnerBinding | EnvironmentMismatch

  datatype Evaluation = Current(receipt: Receipt) | Stale(reason: InvalidReason)

  function EvaluateStoryValidation(hash: AcceptanceHash, story: Story, state: StoryState, head: string, environment: string): Evaluation {
    if state.blocked then Stale(Blocked)
    else if !IsSha256Digest(environment) then Stale(InvalidExpectedEnvironment)
    else if !state.passes then Stale(MissingCandidate)
    else if state.storyBase.None? || !IsGitHead(state.storyBase.value) then Stale(MissingStoryBase)
    else if !state.validated then Stale(NotValidated)
    else if state.receipt.None? then Stale(MissingReceipt)
    else
      var receipt := state.receipt.value;
      if !ValidReceipt(receipt) then Stale(InvalidReceipt)
      else if !IsGitHead(head) then Stale(InvalidCurrentHead)
      else if receipt.gitHead != head then Stale(HeadMismatch)
      else if receipt.acceptanceHash != hash(story.id, story.criteria) then Stale(AcceptanceMismatch)
      else if receipt.Receipt1? || !IsSha256Digest(receipt.environment) then Stale(MissingEnvironmentBinding)
      else if receipt.Receipt2? || !IsSha256Digest(receipt.runner) || !IsSha256Digest(receipt.canary) then Stale(MissingRunnerBinding)
      else if !receipt.Receipt4? || receipt.storyBase != state.storyBase.value then Stale(StoryBaseMismatch)
      else if receipt.environment != environment then Stale(EnvironmentMismatch)
      else Current(receipt)
  }

  predicate IsStoryPassedAt(hash: AcceptanceHash, story: Story, state: StoryState, head: string, environment: string) {
    EvaluateStoryValidation(hash, story, state, head, environment).Current?
  }

  /** What a passed story is bound to: a valid version-4 receipt for this head, criteria, base and environment. */
  ghost predicate BoundTo(hash: AcceptanceHash, story: Story, state: StoryState, head: string, environment: string) {
    && !state.blocked && state.passes && state.validated
    && state.receipt.Some? && state.receipt.value.Receipt4? && ValidReceipt(state.receipt.value)
    && state.receipt.value.gitHead == head
    && state.receipt.value.acceptanceHash == hash(story.id, story.criteria)
    && state.storyBase == Some(state.receipt.value.storyBase)
    && state.receipt.value.environment == environment
  }

  lemma PassedMeansBound(hash: AcceptanceHash, story: Story, state: StoryState, head: string, environment: string)
    ensures IsStoryPassedAt(hash, story, state, head, environment) <==> BoundTo(hash, story, state, head, environment)
  {
  }

  /** What a reason claims about the story and its receipt. */
  predicate IsDefect(hash: AcceptanceHash, story: Story, state: StoryState, head: string, environment: string, reason: InvalidReason) {
    var base := if state.storyBase.Some? then state.storyBase.value else "";
    match reason
    case Blocked => state.blocked
    case InvalidExpectedEnvironment => !IsSha256Digest(environment)
    case MissingCandidate => !state.passes
    case MissingStoryBase => !IsGitHead(base)
    case NotValidated => !state.validated
    case MissingReceipt => state.receipt.None?
    case InvalidReceipt => state.receipt.Some? && !ValidReceipt(state.receipt.value)
    case InvalidCurrentHead => !IsGitHead(head)
    case HeadMismatch => state.receipt.Some? && state.receipt.value.gitHead != head
    case AcceptanceMismatch => state.receipt.Some? && state.receipt.value.acceptanceHash != hash(story.id, story.criteria)
    case MissingEnvironmentBinding => state.receipt.Some? && state.receipt.value.Receipt1?
    case MissingRunnerBinding => state.receipt.Some? && state.receipt.value.Receipt2?
    case StoryBaseMismatch => state.receipt.Some? && (state.receipt.value.Receipt3? || (state.receipt.value.Receipt4? && state.receipt.value.storyBase != base))
    case EnvironmentMismatch => state.receipt.Some? && !state.receipt.value.Receipt1? && state.receipt.value.environment != environment
  }

  /** A story that does not pass is given a reason that is true of it; one that passes has no defect at all. */
  lemma ReasonIsDefect(hash: AcceptanceHash, story: Story, state: StoryState, head: string, environment: string)
    ensures match EvaluateStoryValidation(hash, story, state, head, environment)
            case Stale(reason) => IsDefect(hash, story, state, head, environment, reason)
            case Current(receipt) => forall reason :: !IsDefect(hash, story, state, head, environment, reason)
  {
    assert !IsGitHead("");
  }

  // ---------------------------------------------------------------- issuing and withdrawing receipts

  datatype Request = Request(
    currentVersion: bool, requestId: string, storyId: string, criteria: seq<string>, acceptanceHash: string,
    gitHead: string, storyBase: string, manifest: string, changedPaths: int)

  datatype RunnerBinding = RunnerBinding(profile: string, canary: string)

  predicate Issuable(hash: AcceptanceHash, state: RunState, story: Story, request: Request, environment: string, binding: Option<RunnerBinding>) {
    && IsSha256Digest(environment)
    && binding.Some? && IsSha256Digest(binding.value.profile) && IsSha256Digest(binding.value.canary)
    && request.currentVersion && !IsBlank(request.requestId)
    && IsGitHead(request.gitHead) && IsGitHead(request.storyBase)
    && IsSha256Digest(request.manifest) && IsChangedPathCount(request.changedPaths)
    && request.storyId == story.id && request.criteria == story.criteria
    && request.acceptanceHash == hash(story.id, story.criteria)
    && story.id in state && state[story.id].passes && !state[story.id].blocked
    && state[story.id].storyBase.Some? && IsGitHead(state[story.id].storyBase.value)
    && request.storyBase == state[story.id].storyBase.value
  }

  function ReceiptFor(request: Request, environment: string, binding: RunnerBinding): Receipt {
    Receipt4(request.requestId, request.gitHead, request.acceptanceHash, environment, binding.profile, binding.canary,
             request.storyBase, request.manifest, request.changedPaths)
  }

  function IssueValidationReceipt(
    hash: AcceptanceHash, state: RunState, story: Story, request: Request, environment: string, binding: Option<RunnerBinding>)
    : RunState
  {
    if !Issuable(hash, state, story, request, environment, binding) then state
    else
      var receipt := ReceiptFor(request, environment, binding.value);
      if state[story.id].validated && state[story.id].receipt == Some(receipt) then state
      else state[story.id := state[story.id].(validated := true, receipt := Some(receipt), unverifiable := None)]
  }

  /** The first commit bound to a story stays. */
  function BindStoryValidationBase(state: RunState, id: string, head: string): RunState {
    if id !in state || !IsGitHead(head) || state[id].storyBase.Some? then state
    else state[id := state[id].(storyBase := Some(head))]
  }

  function MarkValidatorUnverifiable(hash: AcceptanceHash, state: RunState, story: Story, head: string): RunState {
    if story.id !in state || !state[story.id].passes || state[story.id].blocked || !IsGitHead(head) then state
    else
      var marker := Marker(head, hash(story.id, story.criteria));
      if state[story.id].unverifiable == Some(marker) then state
      else state[story.id := state[story.id].(validated := false, receipt := None, unverifiable := Some(marker))]
  }

  function RollbackUnvalidatedPass(state: RunState, id: string): RunState {
    if id !in state || !state[id].passes || state[id].validated || state[id].blocked then state
    else state[id := state[id].(passes := false, validated := false, receipt := None, unverifiable := None)]
  }

  function EnableEscalation(state: RunState, id: string, dedicated: bool): RunState {
    if !dedicated || id !in state || state[id].escalated then state
    else state[id := state[id].(escalated := true)]
  }

  // ---------------------------------------------------------------- reconciling with the current commit

  /** The story's verdict is withdrawn: it is recorded but no longer current. */
  predicate Withdrawn(hash: AcceptanceHash, state: RunState, story: Story, head: string, environment: string) {
    && story.id in state
    && !IsStoryPassedAt(hash, story, state[story.id], head, environment)
    && (state[story.id].validated || state[story.id].receipt.Some?)
  }

  /** The reconciled state, story by story: withdrawn stories lose verdict and receipt, the rest stays. */
  ghost predicate Reconciled(hash: AcceptanceHash, stories: seq<Story>, state: RunState, head: string, environment: string, next: RunState) {
    && next.Keys == state.Keys
    && forall id :: id in state ==>
         next[id] == if exists i :: 0 <= i < |stories| && stories[i].id == id && Withdrawn(hash, state, stories[i], head, environment)
                     then state[id].(validated := false, receipt := None) else state[id]
  }

  method ReconcileValidationReceipts(hash: AcceptanceHash, stories: seq<Story>, state: RunState, head: string, environment: string)
    returns (next: RunState, invalidated: seq<string>)
    ensures Reconciled(hash, stories, state, head, environment, next)
    ensures forall id :: id in invalidated <==>
      exists i :: 0 <= i < |stories| && stories[i].id == id && Withdrawn(hash, state, stories[i], head, environment)
  {
    next := state;
    invalidated := [];
    for i := 0 to |stories|
      invariant Reconciled(hash, stories[..i], state, head, environment, next)
      invariant forall id :: id in invalidated <==>
        exists j :: 0 <= j < i && stories[j].id == id && Withdrawn(hash, state, stories[j], head, environment)
    {
      ghost var before := next;
      ghost var listed := invalidated;
      var story := stories[i];
      if Withdrawn(hash, state, story, head, environment) {
        next := next[story.id := state[story.id].(validated := false, receipt := None)];
        invalidated := invalidated + [story.id];
      }
      ReconcileStep(hash, stories, state, head, environment, before, next, i);
      forall id ensures id in invalidated <==>
        exists j :: 0 <= j < i + 1 && stories[j].id == id && Withdrawn(hash, state, stories[j], head, environment)
      {
        if id in listed {
          var j :| 0 <= j < i && stories[j].id == id && Withdrawn(hash, state, stories[j], head, environment);
        }
      }
    }
    assert stories[..|stories|] == stories;
  }

  lemma ReconcileStep(hash: AcceptanceHash, stories: seq<Story>, state: RunState, head: string, environment: string,
                      before: RunState, after: RunState, i: nat)
    requires i < |stories| && Reconciled(hash, stories[..i], state, head, environment, before)
    requires after == if Withdrawn(hash, state, stories[i], head, environment)
                      then before[stories[i].id := state[stories[i].id].(validated := false, receipt := None)] else before
    ensures Reconciled(hash, stories[..i + 1], state, head, environment, after)
  {
    var shorter, longer := stories[..i], stories[..i + 1];
    assert forall j :: 0 <= j < i ==> longer[j] == shorter[j];
    assert longer[i] == stories[i];
  }

  /** After reconciling, exactly the stories that were passed at the commit still carry a verdict. */
  lemma ReconciledKeepsOnlyCurrent(hash: AcceptanceHash, stories: seq<Story>, state: RunState, head: string, environment: string,
                                   next: RunState, i: nat)
    requires Reconciled(hash, stories, state, head, environment, next) && i < |stories| && stories[i].id in state
    requires forall j :: 0 <= j < |stories| && j != i ==> stories[j].id != stories[i].id
    ensures IsStoryPassedAt(hash, stories[i], next[stories[i].id], head, environment)
       <==> IsStoryPassedAt(hash, stories[i], state[stories[i].id], head, environment)
    ensures next[stories[i].id].validated || next[stories[i].id].receipt.Some?
       ==> IsStoryPassedAt(hash, stories[i], next[stories[i].id], head, environment)
  {
    var id := stories[i].id;
    if Withdrawn(hash, state, stories[i], head, environment) {
      assert next[id] == state[id].(validated := false, receipt := None);
    } else {
      assert next[id] == state[id];
    }
  }
}
