/** Restoring the fields that only the engine may write after an agent rewrote the state file. */
module StoryOwnership {
  import opened Wrappers
  import opened StoryTypes
  import opened StoryNormal

  /** The fields that only the engine may write. */
  datatype Ownership = Ownership(validated: bool, storyBase: Option<string>, receipt: Option<Receipt>, unverifiable: Option<Marker>)

  /** The same fields as found in the raw file; `None` is a missing field. */
  datatype Observed = Observed(
    validated: Option<bool>, storyBase: Option<Option<string>>, receipt: Option<Option<Receipt>>, unverifiable: Option<Option<Marker>>,
    escalated: Option<bool>)

  function OwnershipOf(s: StoryState): Ownership { Ownership(s.validated, s.storyBase, s.receipt, s.unverifiable) }

  function WithOwnership(s: StoryState, o: Ownership): StoryState {
    s.(validated := o.validated, storyBase := o.storyBase, receipt := o.receipt, unverifiable := o.unverifiable)
  }

  /** The raw ownership fields of one story, or `None` if one of them is malformed. */
  function ReadEngineOwnedFields(file: File, id: string): Option<Observed> {
    if !file.Stories? then None
    else if id !in file.stories then Some(Observed(None, None, None, None, None))
    else if !file.stories[id].Record? then None
    else
      var f := file.stories[id].fields;
      if !OptionalBoolean(f, Validated) || !OptionalBoolean(f, Escalated)
         || ReadBase(f).None? || ReadReceipt(f).None? || ReadMarker(f).None?
      then None
      else
        Some(Observed(
          if Validated in f then Some(f[Validated].b) else None,
          if StoryBaseGitHead in f then ReadBase(f) else None,
          if ValidationReceipt in f then ReadReceipt(f) else None,
          if ValidatorUnverifiable in f then ReadMarker(f) else None,
          if Escalated in f then Some(f[Escalated].b) else None))
  }

  predicate SameOwnership(received: Observed, expected: Ownership) {
    && received.validated == Some(expected.validated) && received.storyBase == Some(expected.storyBase)
    && received.receipt == Some(expected.receipt) && received.unverifiable == Some(expected.unverifiable)
  }

  function Received(current: StoryState, observed: Option<Observed>): Observed {
    if observed.Some? then observed.value
    else Observed(Some(current.validated), Some(current.storyBase), Some(current.receipt), Some(current.unverifiable), Some(current.escalated))
  }

  function RestoreValidationOwnership(
    state: RunState, id: string, expected: Ownership, fallback: Option<StoryState>, observed: Option<Observed>): RunState
  {
    if id !in state then
      if fallback.None? then state else state[id := WithOwnership(fallback.value, expected)]
    else if SameOwnership(Received(state[id], observed), expected) then state
    else state[id := WithOwnership(state[id], expected)]
  }

  function RestoreEscalated(
    state: RunState, id: string, expected: bool, fallback: Option<StoryState>, observed: Option<Observed>): RunState
  {
    if id !in state then
      if fallback.None? then state else state[id := fallback.value.(escalated := expected)]
    else if Received(state[id], observed).escalated == Some(expected) then state
    else state[id := state[id].(escalated := expected)]
  }

  /** One story after an agent's round: what the engine owned before is put back. */
  function RestoreStory(state: RunState, id: string, before: RunState, file: File, observe: bool): RunState {
    var expected := StateOf(before, id);
    var observed := if observe then ReadEngineOwnedFields(file, id) else None;
    var routed := RestoreEscalated(state, id, expected.escalated, Some(expected), observed);
    RestoreValidationOwnership(routed, id, OwnershipOf(expected), Some(expected), observed)
  }

  function RestoreStories(state: RunState, ids: seq<string>, before: RunState, file: File, observe: bool): RunState
    decreases |ids|
  {
    if ids == [] then state else RestoreStories(RestoreStory(state, ids[0], before, file, observe), ids[1..], before, file, observe)
  }

  // ---------------------------------------------------------------- what restoring guarantees

  /** The base is the engine's own, and no receipt or verdict is there that the engine had not given. */
  predicate Owned(before: RunState, s: StoryState, id: string) {
    && s.storyBase == StateOf(before, id).storyBase
    && (s.receipt.Some? ==> s.receipt == StateOf(before, id).receipt)
    && (s.validated ==> StateOf(before, id).validated)
  }

  /** Of a story that was read from the file, the raw fields decide what was observed. */
  lemma ObservedMatchesFile(file: File, id: string, s: StoryState, expected: Ownership)
    requires file.Stories? && id in file.stories && NormalizeStoryState(file.stories[id]) == Some(s)
    ensures ReadEngineOwnedFields(file, id).Some?
    ensures SameOwnership(ReadEngineOwnedFields(file, id).value, expected) ==>
      && s.storyBase == expected.storyBase
      && (s.receipt.Some? ==> s.receipt == expected.receipt)
      && (s.validated ==> expected.validated)
  {
  }

  lemma RestoreStoryOwns(state: RunState, id: string, before: RunState, file: File, observe: bool)
    requires file.Stories?
    requires id in state ==>
      || Owned(before, state[id], id)
      || (id in file.stories && NormalizeStoryState(file.stories[id]) == Some(state[id]))
    ensures var next := RestoreStory(state, id, before, file, observe);
      && id in next && Owned(before, next[id], id)
      && (forall other :: other != id ==> (other in next <==> other in state) && (other in state ==> next[other] == state[other]))
  {
    if observe && id in state && id in file.stories && NormalizeStoryState(file.stories[id]) == Some(state[id]) {
      ObservedMatchesFile(file, id, state[id], OwnershipOf(StateOf(before, id)));
    }
  }

  /** After restoring, every protected story carries only what the engine gave it. */
  lemma {:induction false} RestoreStoriesOwns(state: RunState, ids: seq<string>, before: RunState, file: File, observe: bool)
    requires file.Stories?
    requires forall id :: id in state ==>
      || Owned(before, state[id], id)
      || (id in file.stories && NormalizeStoryState(file.stories[id]) == Some(state[id]))
    ensures var next := RestoreStories(state, ids, before, file, observe);
      && (forall id :: id in state ==> id in next)
      && (forall id :: id in state && Owned(before, state[id], id) ==> Owned(before, next[id], id))
      && (forall id :: id in ids ==> id in next && Owned(before, next[id], id))
    decreases |ids|
  {
    if ids != [] {
      RestoreStoryOwns(state, ids[0], before, file, observe);
      RestoreStoriesOwns(RestoreStory(state, ids[0], before, file, observe), ids[1..], before, file, observe);
      assert ids == [ids[0]] + ids[1..];
    }
  }

  /**
   What the agent may write stays as it was read; escalation is the engine's; and so are verdict, base, receipt and marker,
   unless the file held exactly the engine's, in which case reading has settled them.
   */
  lemma RestoreGivesBack(state: RunState, id: string, before: RunState, file: File, observe: bool)
    requires ReadsAs(file, state) && id in state
    ensures var next, expected := RestoreStory(state, id, before, file, observe)[id], StateOf(before, id);
      && next.passes == state[id].passes && next.notes == state[id].notes
      && next.retryCount == state[id].retryCount && next.blocked == state[id].blocked
      && next.escalated == expected.escalated
      && ReadEngineOwnedFields(file, id).Some?
      && OwnershipOf(next) == if observe && SameOwnership(ReadEngineOwnedFields(file, id).value, OwnershipOf(expected))
                              then OwnershipOf(state[id]) else OwnershipOf(expected)
  {
    ReadFieldsAreObserved(file, id, state[id]);
    GivenBack(state, id, StateOf(before, id), if observe then ReadEngineOwnedFields(file, id) else None);
  }

  lemma GivenBack(state: RunState, id: string, expected: StoryState, observed: Option<Observed>)
    requires id in state
    requires observed.Some? && observed.value.escalated.Some? ==> observed.value.escalated.value == state[id].escalated
    ensures var routed := RestoreEscalated(state, id, expected.escalated, Some(expected), observed);
      && routed == state[id := state[id].(escalated := expected.escalated)]
      && RestoreValidationOwnership(routed, id, OwnershipOf(expected), Some(expected), observed)
         == if observed.Some? && SameOwnership(observed.value, OwnershipOf(expected)) then routed
            else routed[id := WithOwnership(routed[id], OwnershipOf(expected))]
  {
    assert state[id := state[id]] == state;
  }

  lemma ReadFieldsAreObserved(file: File, id: string, s: StoryState)
    requires file.Stories? && id in file.stories && NormalizeStoryState(file.stories[id]) == Some(s)
    ensures ReadEngineOwnedFields(file, id).Some?
    ensures ReadEngineOwnedFields(file, id).value.escalated.Some? ==> ReadEngineOwnedFields(file, id).value.escalated.value == s.escalated
  {
  }

  /** A story that the agent deleted comes back as the engine had it. */
  lemma DeletedStoryComesBack(state: RunState, id: string, before: RunState, file: File, observe: bool)
    requires ReadsAs(file, state) && id !in state
    ensures RestoreStory(state, id, before, file, observe) == state[id := StateOf(before, id)]
  {
    var expected := StateOf(before, id);
    assert state[id := expected.(escalated := expected.escalated)] == state[id := expected];
    assert WithOwnership(expected, OwnershipOf(expected)) == expected;
    assert state[id := expected][id := expected] == state[id := expected];
  }

  // ---------------------------------------------------------------- one story among all

  function Lookup(state: RunState, id: string): Option<StoryState> { if id in state then Some(state[id]) else None }

  function ObservedFields(file: File, id: string, observe: bool): Option<Observed> { if observe then ReadEngineOwnedFields(file, id) else None }

  /** What restoring makes of one story; a deleted one comes back as it was expected. */
  function RestoredStory(current: Option<StoryState>, expected: StoryState, observed: Option<Observed>): StoryState {
    if current.None? then expected
    else
      var routed := if Received(current.value, observed).escalated == Some(expected.escalated) then current.value
                    else current.value.(escalated := expected.escalated);
      if SameOwnership(Received(current.value, observed), OwnershipOf(expected)) then routed
      else WithOwnership(routed, OwnershipOf(expected))
  }

  lemma RestoreStoryIs(state: RunState, id: string, before: RunState, file: File, observe: bool)
    ensures RestoreStory(state, id, before, file, observe)
         == state[id := RestoredStory(Lookup(state, id), StateOf(before, id), ObservedFields(file, id, observe))]
  {
    if id in state {
      assert state[id := state[id]] == state;
    } else {
      var expected := StateOf(before, id);
      assert expected.(escalated := expected.escalated) == expected == WithOwnership(expected, OwnershipOf(expected));
    }
  }

  lemma RestoredAgain(current: Option<StoryState>, expected: StoryState, observed: Option<Observed>)
    ensures RestoredStory(Some(RestoredStory(current, expected, observed)), expected, observed) == RestoredStory(current, expected, observed)
  {
  }

  /** Each protected story is restored for itself, however often it is listed, and no other story changes. */
  lemma {:induction false} RestoreStoriesAt(state: RunState, ids: seq<string>, before: RunState, file: File, observe: bool, id: string)
    ensures Lookup(RestoreStories(state, ids, before, file, observe), id)
         == if id in ids then Some(RestoredStory(Lookup(state, id), StateOf(before, id), ObservedFields(file, id, observe))) else Lookup(state, id)
    decreases |ids|
  {
    if ids != [] {
      var next := RestoreStory(state, ids[0], before, file, observe);
      RestoreStoryIs(state, ids[0], before, file, observe);
      RestoreStoriesAt(next, ids[1..], before, file, observe, id);
      assert id in ids <==> id == ids[0] || id in ids[1..];
      if id == ids[0] { RestoredAgain(Lookup(state, id), StateOf(before, id), ObservedFields(file, id, observe)); }
    }
  }

  // ---------------------------------------------------------------- restoring and the normal form

  /** Nothing had to be restored, nothing was given that needs a candidate, or the candidate is still there. */
  predicate NeedsNoSettling(current: Option<StoryState>, expected: StoryState, observed: Option<Observed>) {
    || current.None?
    || SameOwnership(Received(current.value, observed), OwnershipOf(expected))
    || (!expected.validated && expected.unverifiable.None?)
    || (current.value.passes && !current.value.blocked)
  }

  /** Restoring puts verdict and marker back whatever the agent did to the candidate. */
  lemma RestoreIsNormalWhen(current: Option<StoryState>, expected: StoryState, observed: Option<Observed>)
    requires current.Some? ==> Normal(current.value)
    requires Normal(expected)
    ensures Normal(RestoredStory(current, expected, observed)) <==> NeedsNoSettling(current, expected, observed)
  {
  }

  /** The same of a story in a file that an agent rewrote. */
  lemma RestoreStoryIsNormalWhen(read: RunState, id: string, before: RunState, file: File, observe: bool)
    requires ReadsAs(file, read) && Normal(StateOf(before, id))
    ensures Normal(RestoreStory(read, id, before, file, observe)[id])
       <==> NeedsNoSettling(Lookup(read, id), StateOf(before, id), ObservedFields(file, id, observe))
  {
    RestoreStoryIs(read, id, before, file, observe);
    if id in read { NormalizedIsNormal(file.stories[id]); }
    RestoreIsNormalWhen(Lookup(read, id), StateOf(before, id), ObservedFields(file, id, observe));
  }
}
