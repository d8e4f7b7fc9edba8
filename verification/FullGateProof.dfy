/** Proofs that the contract's checks passed for an input, and when such a proof stands for another run. */
module FullGateProof {
  import opened Wrappers
  import opened StoryTypes
  import opened CheckSelection
  import opened GateRecords

  datatype Alias = Alias(ref: string, target: string)

  datatype Scope = Scope(base: string, manifest: string, selected: seq<string>, reasons: Option<seq<Reason>>)

  datatype Input = Input(
    contract: Contract, head: string, defaultBranch: string, additionalRefs: seq<string>, aliases: seq<Alias>, platform: Platform,
    requirement: Option<Requirement>, scope: Option<Scope>)

  datatype ScopeData = ScopeData(base: string, manifest: string, selected: seq<string>, reasons: seq<Reason>)

  /** What is digested. */
  datatype InputData = InputData(
    head: string, defaultBranch: string, contractDigest: string, platform: Platform, refs: seq<string>, aliases: seq<Alias>,
    requirement: Option<Requirement>, scope: Option<ScopeData>)

  /** Digests, and the normal form of Git references; aliases may be refused. */
  datatype Environment = Environment(
    digest: InputData -> string, contractDigest: Contract -> string,
    normalizeRefs: (string, seq<string>) -> seq<string>, normalizeAliases: seq<Alias> -> Option<seq<Alias>>)

  /** Digests have the form of digests. */
  ghost predicate WellFormedDigests(e: Environment) {
    && (forall a: InputData :: IsSha256Digest(e.digest(a)))
    && (forall a: Contract :: IsSha256Digest(e.contractDigest(a)))
  }

  datatype CheckEvidence = CheckEvidence(category: Category, id: string, owner: string)

  datatype GateResult = GateResult(
    ok: bool, failed: bool, total: int, ran: int, ms: int, skipped: seq<string>, skippedByPath: Option<seq<string>>,
    mode: Option<Mode>, selected: Option<seq<string>>, requirement: Option<Requirement>, reasons: Option<seq<Reason>>)

  datatype Proof = Proof(
    inputDigest: string, head: string, defaultBranch: string, contractDigest: string, platform: Platform,
    checks: seq<CheckEvidence>, scope: Option<Scope>, mode: Mode, requirement: Option<Requirement>, reasons: seq<Reason>,
    result: GateResult)

  // ---------------------------------------------------------------- the contract's checks

  function Picked(platform: Platform, selected: Option<seq<string>>): Criterion {
    if selected.None? then On(platform) else Chosen(platform, SetOf(selected.value))
  }

  function EvidenceIn(category: Category, checks: seq<Check>): seq<CheckEvidence> {
    seq(|checks|, i requires 0 <= i < |checks| => CheckEvidence(category, checks[i].id, checks[i].owner))
  }

  /** The checks of the first categories that are picked, with their category. */
  function EvidenceUpTo(contract: Contract, platform: Platform, selected: Option<seq<string>>, n: nat): seq<CheckEvidence>
    requires n <= |CATEGORIES|
  {
    if n == 0 then []
    else
      EvidenceUpTo(contract, platform, selected, n - 1)
      + EvidenceIn(CATEGORIES[n - 1], Keep(Picked(platform, selected), ChecksOf(PolicyOf(contract, CATEGORIES[n - 1]))))
  }

  function EvidenceOf(contract: Contract, platform: Platform, selected: Option<seq<string>>): seq<CheckEvidence> {
    EvidenceUpTo(contract, platform, selected, |CATEGORIES|)
  }

  function EvidenceIds(checks: seq<CheckEvidence>): seq<string> { seq(|checks|, i requires 0 <= i < |checks| => checks[i].id) }

  /** What the selection leaves out on the platform. */
  function Unselected(platform: Platform, selected: Option<seq<string>>, declared: seq<Check>): seq<string> {
    if selected.None? then [] else Ids(Keep(NotChosen(platform, SetOf(selected.value)), declared))
  }

  function SkippedOf(contract: Contract, platform: Platform, selected: Option<seq<string>>): seq<string> {
    Ids(Keep(Off(platform), Declared(contract)))
    + Unselected(platform, selected, Declared(contract))
  }

  lemma EvidenceIdsIn(before: seq<CheckEvidence>, category: Category, kept: seq<Check>, more: seq<Check>)
    requires EvidenceIds(before) == Ids(kept)
    ensures EvidenceIds(before + EvidenceIn(category, more)) == Ids(kept + more)
  {
    var here := EvidenceIn(category, more);
    forall k | 0 <= k < |before + here| ensures EvidenceIds(before + here)[k] == Ids(kept + more)[k] {
      if k < |before| { assert EvidenceIds(before)[k] == Ids(kept)[k]; }
    }
    assert |EvidenceIds(before)| == |Ids(kept)|;
  }

  lemma {:induction false} EvidenceIdsUpTo(contract: Contract, platform: Platform, selected: Option<seq<string>>, n: nat)
    requires n <= |CATEGORIES|
    ensures EvidenceIds(EvidenceUpTo(contract, platform, selected, n)) == Ids(Keep(Picked(platform, selected), DeclaredUpTo(contract, n)))
  {
    if n > 0 {
      var c, checks := Picked(platform, selected), ChecksOf(PolicyOf(contract, CATEGORIES[n - 1]));
      EvidenceIdsUpTo(contract, platform, selected, n - 1);
      KeepAppend(c, DeclaredUpTo(contract, n - 1), checks);
      EvidenceIdsIn(EvidenceUpTo(contract, platform, selected, n - 1), CATEGORIES[n - 1], Keep(c, DeclaredUpTo(contract, n - 1)), Keep(c, checks));
    }
  }

  /** The evidence lists the picked checks of the contract in its order. */
  lemma EvidenceIdsAre(contract: Contract, platform: Platform, selected: Option<seq<string>>)
    ensures EvidenceIds(EvidenceOf(contract, platform, selected)) == Ids(Keep(Picked(platform, selected), Declared(contract)))
  {
    EvidenceIdsUpTo(contract, platform, selected, |CATEGORIES|);
    DeclaredInAll(contract);
  }

  method ContractCheckEvidence(contract: Contract, platform: Platform, selected: Option<seq<string>>) returns (checks: seq<CheckEvidence>)
    ensures checks == EvidenceOf(contract, platform, selected)
  {
    checks := [];
    for c := 0 to |CATEGORIES|
      invariant checks == EvidenceUpTo(contract, platform, selected, c)
    {
      checks := AddEvidence(checks, CATEGORIES[c], ChecksOf(PolicyOf(contract, CATEGORIES[c])), platform, selected);
    }
  }

  method AddEvidence(before: seq<CheckEvidence>, category: Category, declared: seq<Check>, platform: Platform, selected: Option<seq<string>>)
    returns (checks: seq<CheckEvidence>)
    ensures checks == before + EvidenceIn(category, Keep(Picked(platform, selected), declared))
  {
    checks := before;
    for i := 0 to |declared|
      invariant checks == before + EvidenceIn(category, Keep(Picked(platform, selected), declared[..i]))
    {
      assert declared[..i + 1][..i] == declared[..i];
      if platform in declared[i].platforms && (selected.None? || declared[i].id in SetOf(selected.value)) {
        checks := checks + [CheckEvidence(category, declared[i].id, declared[i].owner)];
      }
    }
    assert declared[..|declared|] == declared;
  }

  lemma KeepNext(c: Criterion, declared: seq<Check>, i: nat)
    requires i < |declared|
    ensures Ids(Keep(c, declared[..i + 1])) == Ids(Keep(c, declared[..i])) + if Meets(c, declared[i]) then [declared[i].id] else []
  {
    assert declared[..i + 1][..i] == declared[..i];
    assert Ids(Keep(c, declared[..i])) + [] == Ids(Keep(c, declared[..i]));
  }

  lemma UnselectedNext(platform: Platform, selected: Option<seq<string>>, declared: seq<Check>, i: nat)
    requires i < |declared|
    ensures Unselected(platform, selected, declared[..i + 1]) == Unselected(platform, selected, declared[..i])
              + if selected.Some? && platform in declared[i].platforms && declared[i].id !in SetOf(selected.value) then [declared[i].id] else []
  {
    if selected.Some? { KeepNext(NotChosen(platform, SetOf(selected.value)), declared, i); }
  }

  /** First what the platform excludes, then what the selection excludes. */
  method SkippedContractCheckIds(contract: Contract, platform: Platform, selected: Option<seq<string>>) returns (ids: seq<string>)
    ensures ids == SkippedOf(contract, platform, selected)
  {
    var byPlatform: seq<string>, bySelection: seq<string> := [], [];
    var declared := Declared(contract);
    for i := 0 to |declared|
      invariant byPlatform == Ids(Keep(Off(platform), declared[..i]))
      invariant bySelection == Unselected(platform, selected, declared[..i])
    {
      KeepNext(Off(platform), declared, i);
      UnselectedNext(platform, selected, declared, i);
      if platform !in declared[i].platforms { byPlatform := byPlatform + [declared[i].id]; }
      else if selected.Some? && declared[i].id !in SetOf(selected.value) { bySelection := bySelection + [declared[i].id]; }
    }
    assert declared[..|declared|] == declared;
    return byPlatform + bySelection;
  }

  // ---------------------------------------------------------------- the input digest

  /** `None` is the exception. */
  function NormalizedReasons(reasons: Option<seq<Reason>>, selected: seq<string>): Option<seq<Reason>> {
    if reasons.None? then Some([]) else if ReasonsFit(reasons.value, selected) then reasons else None
  }

  predicate ScopeIsBound(scope: Scope) {
    IsGitHead(scope.base) && IsSha256Digest(scope.manifest) && scope.selected != [] && !HasDuplicate(scope.selected)
  }

  function ScopeDataOf(scope: Option<Scope>, required: bool): Option<Option<ScopeData>> {
    match scope
    case None => Some(None)
    case Some(s) =>
      var reasons := NormalizedReasons(s.reasons, s.selected);
      if !ScopeIsBound(s) || reasons.None? || (required && reasons.value == []) then None
      else Some(Some(ScopeData(s.base, s.manifest, s.selected, reasons.value)))
  }

  /** `None` is the exception. */
  function InputDataOf(e: Environment, i: Input): Option<InputData> {
    var aliases := e.normalizeAliases(i.aliases);
    var scope := ScopeDataOf(i.scope, i.requirement.Some?);
    if !IsGitHead(i.head) || !IsGitHead(i.defaultBranch) || aliases.None?
       || (i.requirement.Some? && !WellFormedRequirement(i.requirement.value)) || scope.None?
    then None
    else
      Some(InputData(i.head, i.defaultBranch, e.contractDigest(i.contract), i.platform,
                     e.normalizeRefs(i.head, i.additionalRefs + Targets(aliases.value)), aliases.value, i.requirement, scope.value))
  }

  function Targets(aliases: seq<Alias>): seq<string> { seq(|aliases|, i requires 0 <= i < |aliases| => aliases[i].target) }

  function FullGateInputDigest(e: Environment, i: Input): Option<string> {
    match InputDataOf(e, i) case None => None case Some(data) => Some(e.digest(data))
  }

  // ---------------------------------------------------------------- making a proof

  function ResultMode(result: GateResult): Mode { if result.mode.None? then FullMode else result.mode.value }

  function ResultSelected(i: Input, result: GateResult): seq<string> {
    if result.selected.Some? then result.selected.value else EvidenceIds(EvidenceOf(i.contract, i.platform, None))
  }

  function DefaultSource(mode: Mode): Source {
    match mode case ScopedMode => ByPath case FallbackMode => FallbackFull case FullMode => Full
  }

  function ProofReasons(i: Input, result: GateResult): Option<seq<Reason>> {
    var selected := ResultSelected(i, result);
    var supplied := NormalizedReasons(result.reasons, selected);
    if supplied == Some([])
    then Some(seq(|selected|, k requires 0 <= k < |selected| => Reason(selected[k], [DefaultSource(ResultMode(result))])))
    else supplied
  }

  /** The result is a complete pass of exactly what the selection demands, and its scope is the input's. */
  predicate Provable(e: Environment, i: Input, result: GateResult) {
    var mode, selected := ResultMode(result), ResultSelected(i, result);
    var reasons := ProofReasons(i, result);
    var all := EvidenceIds(EvidenceOf(i.contract, i.platform, None));
    var inputReasons := NormalizedReasons(if i.scope.Some? then i.scope.value.reasons else None, selected);
    && result.ok && !result.failed && result.ran == result.total
    && (i.requirement.Some? ==> WellFormedRequirement(i.requirement.value))
    && result.requirement == i.requirement
    && !(mode != ScopedMode && i.scope.Some? && i.requirement.None?)
    && (mode == ScopedMode ==> i.scope.Some? && selected == i.scope.value.selected)
    && reasons.Some?
    && (i.requirement.Some? ==> result.reasons.Some? && result.reasons.value != [])
    && RequirementMatchesSelection(i.requirement, selected, reasons.value, all)
    && inputReasons.Some? && (inputReasons.value != [] ==> inputReasons == reasons)
    && selected == EvidenceIds(EvidenceOf(i.contract, i.platform, Some(selected)))
    && |selected| == result.total
    && result.skipped == SkippedOf(i.contract, i.platform, Some(selected))
    && FullGateInputDigest(e, i).Some?
  }

  /** `None` is the exception. */
  function CreateFullGateProof(e: Environment, i: Input, result: GateResult): Option<Proof> {
    if !Provable(e, i, result) then None
    else
      var selected := ResultSelected(i, result);
      var reasons := ProofReasons(i, result).value;
      Some(Proof(
        FullGateInputDigest(e, i).value, i.head, i.defaultBranch, e.contractDigest(i.contract), i.platform,
        EvidenceOf(i.contract, i.platform, Some(selected)), CopiedScope(i.scope), ResultMode(result), i.requirement, reasons,
        result.(reasons := if result.reasons.None? then None else Some(reasons))))
  }

  /** A scope without reasons, or with none, is stored without. */
  function CopiedScope(scope: Option<Scope>): Option<Scope> {
    if scope.Some? && scope.value.reasons == Some([]) then Some(scope.value.(reasons := None)) else scope
  }

  // ---------------------------------------------------------------- reusing it

  function WithScope(expected: Input, scope: Option<Scope>): Input { if scope.Some? then expected.(scope := scope) else expected }

  function ScopeIds(scope: Option<Scope>): Option<seq<string>> { if scope.Some? then Some(scope.value.selected) else None }

  predicate SameBinding(e: Environment, p: Proof, expected: Input, base: Option<string>) {
    && IsSha256Digest(p.inputDigest) && IsSha256Digest(p.contractDigest)
    && p.head == expected.head && p.defaultBranch == expected.defaultBranch
    && p.contractDigest == e.contractDigest(expected.contract) && p.platform == expected.platform
    && p.requirement == expected.requirement
    && (p.scope.Some? ==> Some(p.scope.value.base) == base)
    && FullGateInputDigest(e, WithScope(expected, p.scope)) == Some(p.inputDigest)
  }

  predicate SameChecks(p: Proof, expected: Input) {
    var checks := EvidenceOf(expected.contract, expected.platform, ScopeIds(p.scope));
    && (p.scope.Some? ==> p.scope.value.selected == EvidenceIds(checks) && p.result.selected == Some(EvidenceIds(checks)))
    && p.checks == checks && p.result.total == |checks|
    && p.result.skipped == SkippedOf(expected.contract, expected.platform, ScopeIds(p.scope))
  }

  predicate SelectionIsAccounted(p: Proof, expected: Input) {
    && (p.mode == ScopedMode ==> p.scope.Some?)
    && (p.mode != ScopedMode && p.scope.Some? ==> p.requirement.Some?)
    && (p.scope.Some? && p.requirement.Some? ==>
          p.reasons == if p.scope.value.reasons.Some? then p.scope.value.reasons.value else [])
    && ResultMode(p.result) == p.mode
    && (p.requirement.Some? ==> p.result.reasons.Some?)
    && (p.result.reasons.Some? ==> p.result.reasons == Some(p.reasons))
    && RequirementMatchesSelection(p.requirement, EvidenceIds(p.checks), p.reasons,
                                   EvidenceIds(EvidenceOf(expected.contract, expected.platform, None)))
  }

  predicate Passed(p: Proof) { p.result.ok && !p.result.failed && p.result.ran == p.result.total }

  function ReusableFullGateResult(e: Environment, p: Option<Proof>, expected: Input, base: Option<string>): Option<GateResult> {
    if p.Some? && SameBinding(e, p.value, expected, base) && SameChecks(p.value, expected)
       && SelectionIsAccounted(p.value, expected) && Passed(p.value)
    then Some(p.value.result) else None
  }

  // ---------------------------------------------------------------- soundness

  /** The digests of these two inputs, and of their contracts, do not collide. */
  ghost predicate ToldApart(e: Environment, a: Input, b: Input) {
    && (InputDataOf(e, a).Some? && InputDataOf(e, b).Some? && FullGateInputDigest(e, a) == FullGateInputDigest(e, b) ==>
          InputDataOf(e, a) == InputDataOf(e, b))
    && (e.contractDigest(a.contract) == e.contractDigest(b.contract) ==> a.contract == b.contract)
  }

  /** The two inputs agree in everything that decides the checks and their outcome. */
  ghost predicate SameInput(e: Environment, a: Input, b: Input) {
    && a.head == b.head && a.defaultBranch == b.defaultBranch && a.contract == b.contract && a.platform == b.platform
    && e.normalizeAliases(a.aliases) == e.normalizeAliases(b.aliases)
    && (e.normalizeAliases(a.aliases).Some? ==>
          e.normalizeRefs(a.head, a.additionalRefs + Targets(e.normalizeAliases(a.aliases).value))
          == e.normalizeRefs(b.head, b.additionalRefs + Targets(e.normalizeAliases(b.aliases).value)))
    && a.requirement == b.requirement
  }

  lemma DigestBinds(e: Environment, a: Input, b: Input)
    requires ToldApart(e, a, b) && FullGateInputDigest(e, a).Some? && FullGateInputDigest(e, a) == FullGateInputDigest(e, b)
    ensures SameInput(e, a, b)
    ensures ScopeDataOf(a.scope, a.requirement.Some?) == ScopeDataOf(b.scope, b.requirement.Some?)
  {
  }

  /**
   Whatever is reused from a proof was made for the same head, default branch, contract, platform, references, aliases and
   requirement, and its checks are the contract's under the bound scope, or all that apply without a scope; all passed.
   */
  lemma ReuseIsSound(e: Environment, made: Input, result: GateResult, expected: Input, base: Option<string>)
    requires CreateFullGateProof(e, made, result).Some?
    requires ToldApart(e, made, WithScope(expected, CopiedScope(made.scope)))
    requires ReusableFullGateResult(e, CreateFullGateProof(e, made, result), expected, base).Some?
    ensures SameInput(e, made, expected)
    ensures made.scope.Some? ==> base == Some(made.scope.value.base)
    ensures var reused := ReusableFullGateResult(e, CreateFullGateProof(e, made, result), expected, base).value;
      && reused.ok && !reused.failed && reused.ran == reused.total
      && CreateFullGateProof(e, made, result).value.checks == EvidenceOf(expected.contract, expected.platform, ScopeIds(made.scope))
      && reused.total == |EvidenceOf(expected.contract, expected.platform, ScopeIds(made.scope))|
      && reused.skipped == SkippedOf(expected.contract, expected.platform, ScopeIds(made.scope))
  {
    var p := CreateFullGateProof(e, made, result).value;
    DigestBinds(e, made, WithScope(expected, p.scope));
  }

  // ---------------------------------------------------------------- the gate's own proofs

  datatype Manifest = Manifest(base: string, digest: string)

  /** What the gate reports when all selected checks pass. */
  function PassingResult(s: Selection, ms: int): GateResult
    requires s.Selected?
  {
    GateResult(true, false, |s.applicable|, |s.applicable|, ms, s.skippedByPlatform + s.skippedByPath, Some(s.skippedByPath),
               Some(s.mode), Some(Ids(s.applicable)), s.requirement, Some(s.reasons))
  }

  /** The scope that the engine binds: for a scoped run or an issue's requirement, when the change is known. */
  function BoundScope(s: Selection, manifest: Option<Manifest>): Option<Scope>
    requires s.Selected?
  {
    if (s.mode == ScopedMode || s.requirement.Some?) && manifest.Some?
    then Some(Scope(manifest.value.base, manifest.value.digest, Ids(s.applicable), Some(s.reasons))) else None
  }

  /** The input and the gate run for it fit together. */
  ghost predicate OwnRun(e: Environment, i: Input, s: Selection, change: Option<ChangeSelection>, manifest: Option<Manifest>) {
    && WellFormed(Declared(i.contract)) && WellFormedDigests(e)
    && s == Select(Declared(i.contract), i.platform, change, i.requirement) && s.Selected? && s.applicable != []
    && i.scope == BoundScope(s, manifest)
    && (change.Some? ==> manifest.Some?)
    && (manifest.Some? ==> IsGitHead(manifest.value.base) && IsSha256Digest(manifest.value.digest))
    && IsGitHead(i.head) && IsGitHead(i.defaultBranch) && e.normalizeAliases(i.aliases).Some?
  }

  lemma OwnSelectionFits(e: Environment, i: Input, s: Selection, change: Option<ChangeSelection>, manifest: Option<Manifest>)
    requires OwnRun(e, i, s, change, manifest)
    ensures ReasonsFit(s.reasons, Ids(s.applicable)) && s.reasons != [] && s.requirement == i.requirement
    ensures EvidenceIds(EvidenceOf(i.contract, i.platform, Some(Ids(s.applicable)))) == Ids(s.applicable)
    ensures SkippedOf(i.contract, i.platform, Some(Ids(s.applicable))) == s.skippedByPlatform + s.skippedByPath
    ensures EvidenceIds(EvidenceOf(i.contract, i.platform, None)) == Ids(Keep(On(i.platform), Declared(i.contract)))
    ensures RequirementMatchesSelection(i.requirement, Ids(s.applicable), s.reasons, Ids(Keep(On(i.platform), Declared(i.contract))))
    ensures !HasDuplicate(Ids(s.applicable)) && Ids(s.applicable) != []
    ensures i.requirement.Some? ==> WellFormedRequirement(i.requirement.value)
  {
    var declared := Declared(i.contract);
    SelectionReasonsTell(declared, i.platform, change, i.requirement);
    SelectionPartitions(declared, i.platform, change, i.requirement);
    SkippedAreOthers(declared, i.platform, s);
    IdsAndSets(s.applicable);
    EvidenceIdsAre(i.contract, i.platform, Some(Ids(s.applicable)));
    EvidenceIdsAre(i.contract, i.platform, None);
    SelectionMatchesRequirement(declared, i.platform, change, i.requirement);
    if i.requirement.Some? { RequirementIsWellFormed(declared, i.platform, i.requirement.value); }
  }

  lemma OwnInputIsBound(e: Environment, i: Input, s: Selection, change: Option<ChangeSelection>, manifest: Option<Manifest>)
    requires OwnRun(e, i, s, change, manifest)
    ensures InputDataOf(e, i).Some? && CopiedScope(i.scope) == i.scope
  {
    OwnSelectionFits(e, i, s, change, manifest);
    BoundScopeIsData(i.scope, Ids(s.applicable), s.reasons, i.requirement.Some?);
  }

  lemma BoundScopeIsData(scope: Option<Scope>, selected: seq<string>, reasons: seq<Reason>, required: bool)
    requires scope.Some? ==> ScopeIsBound(scope.value) && scope.value.selected == selected && scope.value.reasons == Some(reasons)
    requires ReasonsFit(reasons, selected) && reasons != []
    ensures ScopeDataOf(scope, required).Some? && CopiedScope(scope) == scope
  {
  }

  /** Only a run over a known change is scoped. */
  lemma ScopedHasChange(declared: seq<Check>, platform: Platform, change: Option<ChangeSelection>, requirement: Option<Requirement>)
    requires Select(declared, platform, change, requirement).Selected?
    ensures Select(declared, platform, change, requirement).mode == ScopedMode ==> change.Some?
    ensures Select(declared, platform, change, requirement).requirement == requirement
  {
  }

  /** A passing run of the gate's own selection always yields a proof. */
  lemma OwnRunIsProvable(e: Environment, i: Input, s: Selection, change: Option<ChangeSelection>, manifest: Option<Manifest>, ms: int)
    requires OwnRun(e, i, s, change, manifest)
    ensures Provable(e, i, PassingResult(s, ms))
    ensures ProofReasons(i, PassingResult(s, ms)) == Some(s.reasons)
  {
    OwnSelectionFits(e, i, s, change, manifest);
    OwnInputIsBound(e, i, s, change, manifest);
    ScopedHasChange(Declared(i.contract), i.platform, change, i.requirement);
  }

  /** Every check on the platform was chosen. */
  ghost predicate ChoosesAll(declared: seq<Check>, platform: Platform, ids: seq<string>) {
    forall check :: check in declared && platform in check.platforms ==> check.id in ids
  }

  lemma {:induction false} AllChosenUpTo(contract: Contract, platform: Platform, ids: seq<string>, n: nat)
    requires n <= |CATEGORIES| && ChoosesAll(Declared(contract), platform, ids)
    ensures EvidenceUpTo(contract, platform, Some(ids), n) == EvidenceUpTo(contract, platform, None, n)
  {
    if n > 0 {
      AllChosenUpTo(contract, platform, ids, n - 1);
      KeepSame(Picked(platform, Some(ids)), Picked(platform, None), ChecksOf(PolicyOf(contract, CATEGORIES[n - 1])));
    }
  }

  lemma UnscopedChoosesAll(e: Environment, i: Input, s: Selection, change: Option<ChangeSelection>, manifest: Option<Manifest>)
    requires OwnRun(e, i, s, change, manifest) && i.scope.None?
    ensures ChoosesAll(Declared(i.contract), i.platform, Ids(s.applicable))
  {
    SelectionPartitions(Declared(i.contract), i.platform, change, i.requirement);
    UnscopedSkipsNothing(Declared(i.contract), i.platform, change, i.requirement);
    NoneLeftOut(Declared(i.contract), i.platform, s.applicable);
  }

  lemma NoneLeftOut(declared: seq<Check>, platform: Platform, applicable: seq<Check>)
    requires Ids(LeftOut(declared, platform, applicable)) == []
    ensures ChoosesAll(declared, platform, Ids(applicable))
  {
    IdsAndSets(applicable);
    assert |Ids(LeftOut(declared, platform, applicable))| == 0;
    forall check | check in declared && platform in check.platforms ensures check.id in Ids(applicable) {
      Kept(NotChosen(platform, IdSet(applicable)), declared, check);
    }
  }

  lemma UnscopedSkipsNothing(declared: seq<Check>, platform: Platform, change: Option<ChangeSelection>, requirement: Option<Requirement>)
    requires Select(declared, platform, change, requirement).Selected?
    ensures var s := Select(declared, platform, change, requirement);
      && (change.None? || (s.mode != ScopedMode && requirement.None?) ==> s.skippedByPath == [])
      && s.requirement == requirement
  {
  }

  /** Without a scope the gate ran the whole platform set. */
  lemma UnscopedRunsAll(e: Environment, i: Input, s: Selection, change: Option<ChangeSelection>, manifest: Option<Manifest>)
    requires OwnRun(e, i, s, change, manifest) && i.scope.None?
    ensures EvidenceOf(i.contract, i.platform, Some(Ids(s.applicable))) == EvidenceOf(i.contract, i.platform, None)
    ensures SkippedOf(i.contract, i.platform, Some(Ids(s.applicable))) == SkippedOf(i.contract, i.platform, None)
  {
    UnscopedChoosesAll(e, i, s, change, manifest);
    AllChosenUpTo(i.contract, i.platform, Ids(s.applicable), |CATEGORIES|);
    AllChosenSkipsNone(i.contract, i.platform, Ids(s.applicable));
  }

  lemma AllChosenSkipsNone(contract: Contract, platform: Platform, ids: seq<string>)
    requires ChoosesAll(Declared(contract), platform, ids)
    ensures SkippedOf(contract, platform, Some(ids)) == SkippedOf(contract, platform, None)
  {
    var left := Keep(NotChosen(platform, SetOf(ids)), Declared(contract));
    if left != [] { Kept(NotChosen(platform, SetOf(ids)), Declared(contract), left[0]); }
    assert Ids([]) == [];
  }

  /** The checks and the selection of an own proof stand up to the reuse check, for the same contract and platform. */
  lemma OwnProofFits(e: Environment, i: Input, s: Selection, change: Option<ChangeSelection>, manifest: Option<Manifest>, ms: int)
    requires OwnRun(e, i, s, change, manifest) && CreateFullGateProof(e, i, PassingResult(s, ms)).Some?
    ensures var p := CreateFullGateProof(e, i, PassingResult(s, ms)).value;
      SameChecks(p, i) && SelectionIsAccounted(p, i) && Passed(p) && p.scope == i.scope && p.requirement == i.requirement
  {
    OwnSelectionFits(e, i, s, change, manifest);
    OwnInputIsBound(e, i, s, change, manifest);
    OwnRunIsProvable(e, i, s, change, manifest, ms);
    if i.scope.None? { UnscopedRunsAll(e, i, s, change, manifest); }
  }

  /** The part of the reuse check that looks at the expected input sees no more of it than contract and platform. */
  lemma FitsAlike(p: Proof, a: Input, b: Input)
    requires a.contract == b.contract && a.platform == b.platform
    ensures SameChecks(p, a) == SameChecks(p, b) && SelectionIsAccounted(p, a) == SelectionIsAccounted(p, b)
  {
  }

  lemma SameInputSameDigest(e: Environment, a: Input, b: Input)
    requires SameInput(e, a, b) && a.scope == b.scope
    ensures FullGateInputDigest(e, a) == FullGateInputDigest(e, b)
  {
  }

  /**
   A proof of the gate's own passing run exists, and it is reused for exactly the expected inputs that agree with the
   input it was made for: same head, default branch, contract, platform, references, aliases, requirement and story base.
   */
  lemma ReusableExactlyForTheSame(e: Environment, i: Input, s: Selection, change: Option<ChangeSelection>, manifest: Option<Manifest>,
                                  ms: int, expected: Input, base: Option<string>)
    requires OwnRun(e, i, s, change, manifest) && ToldApart(e, i, WithScope(expected, i.scope))
    ensures var proof := CreateFullGateProof(e, i, PassingResult(s, ms));
      && proof.Some?
      && ReusableFullGateResult(e, proof, expected, base) ==
           if Reusable(e, i, expected, base) then Some(PassingResult(s, ms)) else None
  {
    OwnRunIsProvable(e, i, s, change, manifest, ms);
    OwnInputIsBound(e, i, s, change, manifest);
    OwnProofFits(e, i, s, change, manifest, ms);
    var p := CreateFullGateProof(e, i, PassingResult(s, ms)).value;
    if Reusable(e, i, expected, base) {
      FitsAlike(p, i, expected);
      SameInputSameDigest(e, i, WithScope(expected, p.scope));
      ProofIsDigested(e, i, p);
    } else if SameBinding(e, p, expected, base) {
      DigestBinds(e, i, WithScope(expected, p.scope));
    }
  }

  lemma ProofIsDigested(e: Environment, i: Input, p: Proof)
    requires WellFormedDigests(e) && FullGateInputDigest(e, i) == Some(p.inputDigest) && p.contractDigest == e.contractDigest(i.contract)
    ensures IsSha256Digest(p.inputDigest) && IsSha256Digest(p.contractDigest)
  {
    assert IsSha256Digest(e.digest(InputDataOf(e, i).value));
  }

  /** The expected input is the same, and so is the story base that a scope binds. */
  ghost predicate Reusable(e: Environment, made: Input, expected: Input, base: Option<string>) {
    && SameInput(e, made, expected)
    && (if made.scope.Some? then base == Some(made.scope.value.base) else expected.scope.None?)
  }
}
