/** Which story the engine works on next, when all are resolved, and why revalidation comes to an end. */
module StorySelection {
  import opened Wrappers
  import opened StoryTypes
  import opened StoryValidation

  // ---------------------------------------------------------------- the story set

  predicate IsStoryId(id: string) {
    && id != "" && !IsTrimmed(id[0]) && !IsTrimmed(id[|id| - 1])
    && forall i :: 0 <= i < |id| ==> id[i] != '\0' && id[i] != '\r' && id[i] != '\n'
  }

  datatype SetError = NoStories | IllegalId(index: nat) | RepeatedId(index: nat)

  /** The ids are well-formed and distinct even when letter case is folded. */
  ghost predicate DistinctIds(fold: string -> string, ids: seq<Option<string>>) {
    && (forall i :: 0 <= i < |ids| ==> ids[i].Some? && IsStoryId(ids[i].value))
    && forall i, j :: 0 <= i < j < |ids| ==> fold(ids[i].value) != fold(ids[j].value)
  }

  /** `None` stands for a story whose id is missing or not a string. */
  method ValidatePrdStorySet(fold: string -> string, ids: seq<Option<string>>) returns (failure: Option<SetError>)
    ensures failure.None? <==> ids != [] && DistinctIds(fold, ids)
    ensures failure == Some(NoStories) <==> ids == []
    ensures failure.Some? && failure.value.IllegalId? ==>
      var i := failure.value.index;
      i < |ids| && DistinctIds(fold, ids[..i]) && !(ids[i].Some? && IsStoryId(ids[i].value))
    ensures failure.Some? && failure.value.RepeatedId? ==>
      var i := failure.value.index;
      i < |ids| && DistinctIds(fold, ids[..i]) && ids[i].Some?
      && exists j :: 0 <= j < i && fold(ids[j].value) == fold(ids[i].value)
  {
    if ids == [] { return Some(NoStories); }
    var seen: set<string> := {};
    for index := 0 to |ids|
      invariant DistinctIds(fold, ids[..index])
      invariant forall key :: key in seen <==> exists j :: 0 <= j < index && fold(ids[..index][j].value) == key
    {
      ghost var before := ids[..index];
      assert forall j :: 0 <= j < index ==> before[j] == ids[j];
      if ids[index].None? || !IsStoryId(ids[index].value) { return Some(IllegalId(index)); }
      var key := fold(ids[index].value);
      if key in seen { return Some(RepeatedId(index)); }
      seen := seen + {key};
      ghost var after := ids[..index + 1];
      assert after[index] == ids[index] && forall j :: 0 <= j < index ==> after[j] == before[j];
    }
    assert ids[..|ids|] == ids;
    return None;
  }

  function IdsOf(stories: seq<Story>): seq<Option<string>> { seq(|stories|, i requires 0 <= i < |stories| => Some(stories[i].id)) }

  ghost predicate ValidStorySet(fold: string -> string, stories: seq<Story>) {
    stories != [] && DistinctIds(fold, IdsOf(stories))
  }

  lemma ValidSetHasDistinctIds(fold: string -> string, stories: seq<Story>)
    requires ValidStorySet(fold, stories)
    ensures Distinct(stories)
  {
    forall i, j | 0 <= i < j < |stories| ensures stories[i].id != stories[j].id {
      var ids := IdsOf(stories);
      assert fold(ids[i].value) != fold(ids[j].value);
    }
  }

  ghost predicate Distinct(stories: seq<Story>) { forall i, j :: 0 <= i < j < |stories| ==> stories[i].id != stories[j].id }

  // ---------------------------------------------------------------- selection

  datatype Mode = Implementation | ValidationOnly

  datatype Selection = Selection(story: Story, mode: Mode)

  /** The commit and environment that stories are judged at. */
  datatype Present = Present(hash: AcceptanceHash, head: string, environment: string)

  predicate LacksCandidate(state: RunState, story: Story) {
    !StateOf(state, story.id).blocked && !StateOf(state, story.id).passes
  }

  predicate LacksVerdict(now: Present, state: RunState, story: Story) {
    !StateOf(state, story.id).blocked && StateOf(state, story.id).passes
    && !IsStoryPassedAt(now.hash, story, StateOf(state, story.id), now.head, now.environment)
  }

  predicate Resolved(now: Present, state: RunState, story: Story) {
    StateOf(state, story.id).blocked || IsStoryPassedAt(now.hash, story, StateOf(state, story.id), now.head, now.environment)
  }

  /** The first story without a candidate; only when there is none, the first candidate without a current verdict. */
  ghost predicate Selects(now: Present, stories: seq<Story>, state: RunState, r: Option<Selection>) {
    match r
    case None => forall i :: 0 <= i < |stories| ==> Resolved(now, state, stories[i])
    case Some(Selection(story, Implementation)) =>
      exists i :: 0 <= i < |stories| && stories[i] == story && LacksCandidate(state, story)
                  && forall j :: 0 <= j < i ==> !LacksCandidate(state, stories[j])
    case Some(Selection(story, ValidationOnly)) =>
      && (forall i :: 0 <= i < |stories| ==> !LacksCandidate(state, stories[i]))
      && exists i :: 0 <= i < |stories| && stories[i] == story && LacksVerdict(now, state, story)
                     && forall j :: 0 <= j < i ==> Resolved(now, state, stories[j])
  }

  method SelectNextStory(now: Present, stories: seq<Story>, state: RunState) returns (r: Option<Selection>)
    ensures Selects(now, stories, state, r)
  {
    for i := 0 to |stories|
      invariant forall j :: 0 <= j < i ==> !LacksCandidate(state, stories[j])
    {
      var current := StateOf(state, stories[i].id);
      if !current.blocked && !current.passes { return Some(Selection(stories[i], Implementation)); }
    }
    for i := 0 to |stories|
      invariant forall j :: 0 <= j < i ==> Resolved(now, state, stories[j])
    {
      var current := StateOf(state, stories[i].id);
      if !current.blocked && current.passes && !IsStoryPassedAt(now.hash, stories[i], current, now.head, now.environment) {
        return Some(Selection(stories[i], ValidationOnly));
      }
    }
    return None;
  }

  /** At any state there is exactly one selection. */
  lemma SelectionIsUnique(now: Present, stories: seq<Story>, state: RunState, a: Option<Selection>, b: Option<Selection>)
    requires Selects(now, stories, state, a) && Selects(now, stories, state, b)
    ensures a == b
  {
    if a.Some? && b.Some? && a.value.mode == b.value.mode {
      var i := SelectedIndex(now, stories, state, a.value);
      var j := SelectedIndex(now, stories, state, b.value);
      assert i == j;
    }
  }

  lemma SelectedIndex(now: Present, stories: seq<Story>, state: RunState, s: Selection) returns (i: nat)
    requires Selects(now, stories, state, Some(s))
    ensures i < |stories| && stories[i] == s.story
    ensures if s.mode.Implementation?
            then LacksCandidate(state, stories[i]) && forall j :: 0 <= j < i ==> !LacksCandidate(state, stories[j])
            else LacksVerdict(now, state, stories[i]) && forall j :: 0 <= j < i ==> Resolved(now, state, stories[j])
  {
    if s.mode.Implementation? {
      i :| 0 <= i < |stories| && stories[i] == s.story && LacksCandidate(state, s.story)
           && forall j :: 0 <= j < i ==> !LacksCandidate(state, stories[j]);
    } else {
      i :| 0 <= i < |stories| && stories[i] == s.story && LacksVerdict(now, state, s.story)
           && forall j :: 0 <= j < i ==> Resolved(now, state, stories[j]);
    }
  }

  // ---------------------------------------------------------------- all resolved

  ghost predicate AllStoriesResolvedAt(fold: string -> string, now: Present, stories: seq<Story>, state: RunState) {
    && ValidStorySet(fold, stories) && IsSha256Digest(now.environment)
    && forall i :: 0 <= i < |stories| ==> Resolved(now, state, stories[i])
  }

  /** Nothing is selected exactly when everything is resolved, once the story set and the digest are well-formed. */
  lemma NothingSelectedMeansResolved(fold: string -> string, now: Present, stories: seq<Story>, state: RunState, r: Option<Selection>)
    requires Selects(now, stories, state, r)
    ensures AllStoriesResolvedAt(fold, now, stories, state)
       <==> ValidStorySet(fold, stories) && IsSha256Digest(now.environment) && r.None?
  {
    if r.Some? { var i := SelectedIndex(now, stories, state, r.value); assert !Resolved(now, state, stories[i]); }
  }

  datatype Entry = Entry(storyId: string, receipt: Receipt)

  /** The receipts of the stories that are not blocked, in plan order. */
  function CurrentReceipts(now: Present, stories: seq<Story>, state: RunState): seq<Entry> {
    if stories == [] then []
    else
      var story := stories[|stories| - 1];
      var earlier := CurrentReceipts(now, stories[..|stories| - 1], state);
      if !StateOf(state, story.id).blocked && Resolved(now, state, story)
      then earlier + [Entry(story.id, StateOf(state, story.id).receipt.value)] else earlier
  }

  /** Why the stories that are neither blocked nor passing do not pass, in plan order. */
  function InvalidStories(now: Present, stories: seq<Story>, state: RunState): seq<(string, InvalidReason)> {
    if stories == [] then []
    else
      var story := stories[|stories| - 1];
      var earlier := InvalidStories(now, stories[..|stories| - 1], state);
      if Resolved(now, state, story) then earlier
      else earlier + [(story.id, EvaluateStoryValidation(now.hash, story, StateOf(state, story.id), now.head, now.environment).reason)]
  }

  datatype ReceiptSet = Misconfigured | ReceiptSet(valid: bool, receipts: seq<Entry>, invalid: seq<(string, InvalidReason)>)

  /** The receipts that final review binds to; the set is valid exactly when every story is resolved. */
  method EvaluateStoryValidationReceiptSet(fold: string -> string, now: Present, stories: seq<Story>, state: RunState) returns (r: ReceiptSet)
    ensures r.Misconfigured? <==> !ValidStorySet(fold, stories)
    ensures r.ReceiptSet? ==> r.receipts == CurrentReceipts(now, stories, state) && r.invalid == InvalidStories(now, stories, state)
    ensures r.ReceiptSet? && r.valid <==> AllStoriesResolvedAt(fold, now, stories, state)
  {
    var failure := ValidatePrdStorySet(fold, IdsOf(stories));
    if failure.Some? { return Misconfigured; }
    var receipts: seq<Entry>, invalid: seq<(string, InvalidReason)> := [], [];
    if !IsSha256Digest(now.environment) {
      invalid := AllUnblocked(now, stories, state);
      return ReceiptSet(false, [], invalid);
    }
    for i := 0 to |stories|
      invariant receipts == CurrentReceipts(now, stories[..i], state)
      invariant invalid == InvalidStories(now, stories[..i], state)
    {
      var story := stories[i];
      OneMore(now, stories, state, i);
      var current := StateOf(state, story.id);
      if !current.blocked {
        var evaluation := EvaluateStoryValidation(now.hash, story, current, now.head, now.environment);
        match evaluation
        case Stale(reason) => invalid := invalid + [(story.id, reason)];
        case Current(receipt) => receipts := receipts + [Entry(story.id, receipt)];
      }
    }
    assert stories[..|stories|] == stories;
    NoneInvalid(now, stories, state);
    return ReceiptSet(invalid == [], receipts, invalid);
  }

  lemma OneMore(now: Present, stories: seq<Story>, state: RunState, i: nat)
    requires i < |stories|
    ensures var earlier, story := stories[..i], stories[i];
      && CurrentReceipts(now, stories[..i + 1], state) == CurrentReceipts(now, earlier, state)
           + (if !StateOf(state, story.id).blocked && Resolved(now, state, story)
              then [Entry(story.id, StateOf(state, story.id).receipt.value)] else [])
      && InvalidStories(now, stories[..i + 1], state) == InvalidStories(now, earlier, state)
           + (if Resolved(now, state, story) then []
              else [(story.id, EvaluateStoryValidation(now.hash, story, StateOf(state, story.id), now.head, now.environment).reason)])
  {
    assert stories[..i + 1][..i] == stories[..i];
    assert CurrentReceipts(now, stories[..i], state) + [] == CurrentReceipts(now, stories[..i], state);
    assert InvalidStories(now, stories[..i], state) + [] == InvalidStories(now, stories[..i], state);
  }

  lemma {:induction false} NoneInvalid(now: Present, stories: seq<Story>, state: RunState)
    ensures InvalidStories(now, stories, state) == [] <==> forall j :: 0 <= j < |stories| ==> Resolved(now, state, stories[j])
  {
    if stories != [] {
      var n := |stories| - 1;
      NoneInvalid(now, stories[..n], state);
      assert forall j :: 0 <= j < n ==> stories[..n][j] == stories[j];
    }
  }

  /** With a malformed environment no story passes, and that is the reason of every story that is not blocked. */
  method AllUnblocked(now: Present, stories: seq<Story>, state: RunState) returns (invalid: seq<(string, InvalidReason)>)
    requires !IsSha256Digest(now.environment)
    ensures invalid == InvalidStories(now, stories, state) && CurrentReceipts(now, stories, state) == []
  {
    invalid := [];
    for i := 0 to |stories|
      invariant invalid == InvalidStories(now, stories[..i], state) && CurrentReceipts(now, stories[..i], state) == []
    {
      assert stories[..i + 1][..i] == stories[..i];
      if !StateOf(state, stories[i].id).blocked { invalid := invalid + [(stories[i].id, InvalidExpectedEnvironment)]; }
    }
    assert stories[..|stories|] == stories;
  }

  // ---------------------------------------------------------------- convergence

  function Unresolved(now: Present, stories: seq<Story>, state: RunState): nat {
    if stories == [] then 0 else (if Resolved(now, state, stories[0]) then 0 else 1) + Unresolved(now, stories[1..], state)
  }

  /** Every story that is not blocked has a candidate and a bound base, at a well-formed commit and environment. */
  ghost predicate Ready(now: Present, stories: seq<Story>, state: RunState) {
    && IsGitHead(now.head) && IsSha256Digest(now.environment)
    && forall i :: 0 <= i < |stories| ==>
         var s := StateOf(state, stories[i].id);
         s.blocked || (stories[i].id in state && s.passes && s.storyBase.Some? && IsGitHead(s.storyBase.value))
  }

  /** One round: the selected story gets a receipt for the present commit and environment. */
  ghost predicate Round(now: Present, stories: seq<Story>, s: RunState, next: RunState) {
    exists story, request, binding ::
      RoundFor(now, stories, s, next, story, request, binding)
  }

  ghost predicate RoundFor(now: Present, stories: seq<Story>, s: RunState, next: RunState,
                           story: Story, request: Request, binding: Option<RunnerBinding>) {
    && Selects(now, stories, s, Some(Selection(story, ValidationOnly)))
    && request.gitHead == now.head && Issuable(now.hash, s, story, request, now.environment, binding)
    && next == IssueValidationReceipt(now.hash, s, story, request, now.environment, binding)
  }

  /** While a ready story set has an unresolved story, one is selected, for validation, and can be given a receipt. */
  lemma SomeRoundExists(now: Present, stories: seq<Story>, s: RunState)
    requires Ready(now, stories, s) && Unresolved(now, stories, s) > 0
    ensures exists next :: Round(now, stories, s, next)
  {
    var i := FirstUnresolved(now, stories, s);
    var story := stories[i];
    var base := StateOf(s, story.id).storyBase.value;
    var request := Request(true, "r", story.id, story.criteria, now.hash(story.id, story.criteria), now.head, base, SAMPLE_DIGEST, 0);
    var binding := Some(RunnerBinding(SAMPLE_DIGEST, SAMPLE_DIGEST));
    assert !IsTrimmed("r"[0]);
    assert SAMPLE_DIGEST[7..] == seq(64, i => '0');
    assert Selects(now, stories, s, Some(Selection(story, ValidationOnly)));
    var next := IssueValidationReceipt(now.hash, s, story, request, now.environment, binding);
    assert RoundFor(now, stories, s, next, story, request, binding);
    assert Round(now, stories, s, next);
  }

  lemma {:induction false} FirstUnresolved(now: Present, stories: seq<Story>, s: RunState) returns (i: nat)
    requires Unresolved(now, stories, s) > 0
    ensures i < |stories| && !Resolved(now, s, stories[i]) && forall j :: 0 <= j < i ==> Resolved(now, s, stories[j])
  {
    if Resolved(now, s, stories[0]) {
      var k := FirstUnresolved(now, stories[1..], s);
      i := k + 1;
      forall j | 0 <= j < i ensures Resolved(now, s, stories[j]) {
        if j > 0 { assert stories[j] == stories[1..][j - 1]; }
      }
    } else {
      i := 0;
    }
  }

  lemma {:induction false} NoneUnresolved(now: Present, stories: seq<Story>, s: RunState)
    ensures Unresolved(now, stories, s) == 0 <==> forall i :: 0 <= i < |stories| ==> Resolved(now, s, stories[i])
  {
    if stories != [] {
      NoneUnresolved(now, stories[1..], s);
      assert forall i :: 0 < i < |stories| ==> stories[i] == stories[1..][i - 1];
    }
  }

  /** The two states judge every story alike. */
  ghost predicate SameVerdicts(now: Present, stories: seq<Story>, s: RunState, next: RunState) {
    forall j :: 0 <= j < |stories| ==> Resolved(now, s, stories[j]) == Resolved(now, next, stories[j])
  }

  lemma {:induction false} SameCount(now: Present, stories: seq<Story>, s: RunState, next: RunState)
    requires SameVerdicts(now, stories, s, next)
    ensures Unresolved(now, stories, s) == Unresolved(now, stories, next)
  {
    if stories != [] {
      assert SameVerdicts(now, stories[1..], s, next);
      SameCount(now, stories[1..], s, next);
    }
  }

  lemma {:induction false} OneFewer(now: Present, stories: seq<Story>, s: RunState, next: RunState, i: nat)
    requires i < |stories| && !Resolved(now, s, stories[i]) && Resolved(now, next, stories[i])
    requires forall j :: 0 <= j < |stories| && j != i ==> Resolved(now, s, stories[j]) == Resolved(now, next, stories[j])
    ensures Unresolved(now, stories, next) == Unresolved(now, stories, s) - 1
  {
    if i == 0 {
      assert SameVerdicts(now, stories[1..], s, next);
      SameCount(now, stories[1..], s, next);
    } else {
      assert forall j :: 0 <= j < |stories| - 1 ==> stories[1..][j] == stories[j + 1];
      OneFewer(now, stories[1..], s, next, i - 1);
    }
  }

  /** A round resolves exactly the selected story and leaves every other one as it was. */
  lemma RoundResolvesOne(now: Present, stories: seq<Story>, s: RunState, next: RunState)
    requires Round(now, stories, s, next) && Ready(now, stories, s) && Distinct(stories)
    ensures Unresolved(now, stories, next) == Unresolved(now, stories, s) - 1
    ensures Ready(now, stories, next)
    ensures exists i :: 0 <= i < |stories| && OnlyChanges(s, next, stories[i].id)
  {
    var story, request, binding :| RoundFor(now, stories, s, next, story, request, binding);
    var i := SelectedIndex(now, stories, s, Selection(story, ValidationOnly));
    IssuedIsPassed(now, s, story, request, binding);
    assert OnlyChanges(s, next, stories[i].id);
    OneFewer(now, stories, s, next, i);
  }

  ghost predicate OnlyChanges(s: RunState, next: RunState, id: string) {
    next.Keys == s.Keys && forall other :: other in s && other != id ==> next[other] == s[other]
  }

  lemma IssuedIsPassed(now: Present, s: RunState, story: Story, request: Request, binding: Option<RunnerBinding>)
    requires request.gitHead == now.head && Issuable(now.hash, s, story, request, now.environment, binding)
    ensures IsStoryPassedAt(now.hash, story,
      StateOf(IssueValidationReceipt(now.hash, s, story, request, now.environment, binding), story.id), now.head, now.environment)
  {
    assert ValidReceipt(ReceiptFor(request, now.environment, binding.value));
  }

  ghost predicate Rounds(now: Present, stories: seq<Story>, states: seq<RunState>) {
    states != [] && forall i :: 0 <= i < |states| - 1 ==> Round(now, stories, states[i], states[i + 1])
  }

  lemma {:induction false} RoundsCountDown(now: Present, stories: seq<Story>, states: seq<RunState>, n: nat)
    requires Rounds(now, stories, states) && n < |states| && Ready(now, stories, states[0]) && Distinct(stories)
    ensures Ready(now, stories, states[n]) && Unresolved(now, stories, states[n]) == Unresolved(now, stories, states[0]) - n
  {
    if n > 0 {
      RoundsCountDown(now, stories, states, n - 1);
      RoundResolvesOne(now, stories, states[n - 1], states[n]);
    }
  }

  /**
   Validation converges: from a ready state, after n rounds nothing is left to select exactly when n is the number of
   stories that were unresolved at the start; before that another round is possible, and after it none is.
   */
  lemma ValidationConverges(fold: string -> string, now: Present, stories: seq<Story>, states: seq<RunState>)
    requires ValidStorySet(fold, stories) && Rounds(now, stories, states) && Ready(now, stories, states[0])
    ensures var n, last := |states| - 1, states[|states| - 1];
      && n <= Unresolved(now, stories, states[0])
      && (Selects(now, stories, last, None) <==> n == Unresolved(now, stories, states[0]))
      && (AllStoriesResolvedAt(fold, now, stories, last) <==> n == Unresolved(now, stories, states[0]))
      && ((exists next :: Round(now, stories, last, next)) <==> n < Unresolved(now, stories, states[0]))
  {
    ValidSetHasDistinctIds(fold, stories);
    var n, last := |states| - 1, states[|states| - 1];
    RoundsCountDown(now, stories, states, n);
    NoneUnresolved(now, stories, last);
    if n < Unresolved(now, stories, states[0]) {
      SomeRoundExists(now, stories, last);
    } else if next :| Round(now, stories, last, next) {
      RoundResolvesOne(now, stories, last, next);
    }
  }
}
