/** Which checks of a quality contract run for a change, and why. */
module CheckSelection {
  import opened Wrappers

  datatype Platform = Linux | MacOs | Windows

  datatype Check = Check(id: string, owner: string, platforms: seq<Platform>, paths: Option<seq<string>>, command: string)

  datatype Category = Test | Build | Static | Security

  datatype Policy = NotApplicable(reason: string) | Checks(checks: seq<Check>)

  datatype Contract = Contract(test: Policy, build: Policy, static_: Policy, security: Policy)

  datatype Source = Always | ByPath | Explicit | Full | FallbackFull

  datatype Reason = Reason(checkId: string, sources: seq<Source>)

  datatype Requirement = Requirement(full: bool, checkIds: seq<string>)

  datatype Mode = FullMode | ScopedMode | FallbackMode

  datatype ChangeSelection = ChangeSelection(matchedPathCheckIds: seq<string>, allChangedPathsMatched: bool)

  function PolicyOf(contract: Contract, category: Category): Policy {
    match category
    case Test => contract.test
    case Build => contract.build
    case Static => contract.static_
    case Security => contract.security
  }

  function ChecksOf(policy: Policy): seq<Check> { if policy.Checks? then policy.checks else [] }

  const CATEGORIES: seq<Category> := [Test, Build, Static, Security]

  function Declared(contract: Contract): seq<Check> {
    ChecksOf(contract.test) + ChecksOf(contract.build) + ChecksOf(contract.static_) + ChecksOf(contract.security)
  }

  function Ids(checks: seq<Check>): seq<string> { seq(|checks|, i requires 0 <= i < |checks| => checks[i].id) }

  ghost predicate Distinct(ids: seq<string>) { forall i, j :: 0 <= i < j < |ids| ==> ids[i] != ids[j] }

  /** What the contract reader admits: ids are distinct and not empty, and declared paths are not empty. */
  ghost predicate WellFormed(declared: seq<Check>) {
    && Distinct(Ids(declared))
    && forall i :: 0 <= i < |declared| ==> declared[i].id != "" && (declared[i].paths.Some? ==> declared[i].paths.value != [])
  }

  // ---------------------------------------------------------------- sub-lists of the declared checks

  /** The conditions by which checks are kept. */
  datatype Criterion =
    | On(platform: Platform)
    | Off(platform: Platform)
    | Wanted(platform: Platform, matched: set<string>, explicit: set<string>)
    | Chosen(platform: Platform, ids: set<string>)
    | NotChosen(platform: Platform, ids: set<string>)

  predicate Meets(c: Criterion, check: Check) {
    match c
    case On(platform) => platform in check.platforms
    case Off(platform) => platform !in check.platforms
    case Wanted(platform, matched, explicit) =>
      platform in check.platforms && (check.paths.None? || check.id in matched || check.id in explicit)
    case Chosen(platform, ids) => platform in check.platforms && check.id in ids
    case NotChosen(platform, ids) => platform in check.platforms && check.id !in ids
  }

  /** The checks that meet the criterion, in order. */
  function Keep(c: Criterion, checks: seq<Check>): seq<Check> {
    if checks == [] then []
    else Keep(c, checks[..|checks| - 1]) + if Meets(c, checks[|checks| - 1]) then [checks[|checks| - 1]] else []
  }

  lemma {:induction false} Kept(c: Criterion, checks: seq<Check>, check: Check)
    ensures check in Keep(c, checks) <==> check in checks && Meets(c, check)
  {
    if checks != [] {
      Kept(c, checks[..|checks| - 1], check);
      assert checks == checks[..|checks| - 1] + [checks[|checks| - 1]];
    }
  }

  lemma {:induction false} KeepSame(a: Criterion, b: Criterion, checks: seq<Check>)
    requires forall check :: check in checks ==> Meets(a, check) == Meets(b, check)
    ensures Keep(a, checks) == Keep(b, checks)
  {
    if checks != [] { KeepSame(a, b, checks[..|checks| - 1]); }
  }

  lemma {:induction false} KeepAppend(c: Criterion, a: seq<Check>, b: seq<Check>)
    ensures Keep(c, a + b) == Keep(c, a) + Keep(c, b)
  {
    if b == [] {
      assert a + b == a;
    } else {
      assert (a + b)[..|a + b| - 1] == a + b[..|b| - 1];
      KeepAppend(c, a, b[..|b| - 1]);
    }
  }

  /** Keeping the wanted checks of those on the platform keeps the wanted ones. */
  lemma {:induction false} KeepTwice(inner: Criterion, outer: Criterion, checks: seq<Check>)
    requires forall check :: Meets(outer, check) ==> Meets(inner, check)
    ensures Keep(outer, Keep(inner, checks)) == Keep(outer, checks)
  {
    if checks != [] {
      var last := checks[|checks| - 1];
      KeepTwice(inner, outer, checks[..|checks| - 1]);
      KeepAppend(outer, Keep(inner, checks[..|checks| - 1]), if Meets(inner, last) then [last] else []);
      assert Keep(outer, [last]) == (if Meets(outer, last) then [last] else []) by { assert [last][..0] == []; }
    }
  }

  lemma {:induction false} KeptIdsDistinct(c: Criterion, checks: seq<Check>)
    requires Distinct(Ids(checks))
    ensures Distinct(Ids(Keep(c, checks)))
    ensures forall i :: 0 <= i < |Keep(c, checks)| ==> Keep(c, checks)[i] in checks
  {
    if checks != [] {
      var shorter, last := checks[..|checks| - 1], checks[|checks| - 1];
      assert Ids(shorter) == Ids(checks)[..|checks| - 1];
      KeptIdsDistinct(c, shorter);
      forall i | 0 <= i < |Keep(c, shorter)| ensures Keep(c, shorter)[i].id != last.id {
        var k :| 0 <= k < |shorter| && shorter[k] == Keep(c, shorter)[i];
        assert Ids(checks)[k] != Ids(checks)[|checks| - 1];
      }
      DistinctOneMore(Keep(c, shorter), last);
      assert Keep(c, shorter) + [] == Keep(c, shorter);
    }
  }

  lemma DistinctOneMore(checks: seq<Check>, last: Check)
    requires Distinct(Ids(checks)) && forall i :: 0 <= i < |checks| ==> checks[i].id != last.id
    ensures Distinct(Ids(checks + [last]))
  {
    var ids, longer := Ids(checks), Ids(checks + [last]);
    assert forall i :: 0 <= i < |checks| ==> longer[i] == ids[i];
  }

  /** The ids of a list, as a set. */
  function IdSet(checks: seq<Check>): set<string> { set check | check in checks :: check.id }

  lemma IdNames(checks: seq<Check>, a: Check, b: Check)
    requires Distinct(Ids(checks)) && a in checks && b in checks && a.id == b.id
    ensures a == b
  {
    var i :| 0 <= i < |checks| && checks[i] == a;
    var j :| 0 <= j < |checks| && checks[j] == b;
    assert Ids(checks)[i] == Ids(checks)[j];
  }

  /** Choosing the checks on a platform by the ids of a sub-list gives that sub-list, in contract order. */
  lemma ChosenAreKept(declared: seq<Check>, platform: Platform, c: Criterion)
    requires Distinct(Ids(declared)) && forall check :: Meets(c, check) ==> Meets(On(platform), check)
    ensures Keep(Chosen(platform, IdSet(Keep(c, declared))), declared) == Keep(c, declared)
  {
    var ids := IdSet(Keep(c, declared));
    forall check | check in declared ensures Meets(Chosen(platform, ids), check) == Meets(c, check) {
      Kept(c, declared, check);
      if check.id in ids {
        var other :| other in Keep(c, declared) && other.id == check.id;
        Kept(c, declared, other);
        IdNames(declared, check, other);
      }
    }
    KeepSame(Chosen(platform, ids), c, declared);
  }

  // ---------------------------------------------------------------- the selection

  datatype Selection =
    | Rejected(skippedByPlatform: seq<string>, unmet: Requirement)
    | Selected(applicable: seq<Check>, skippedByPlatform: seq<string>, skippedByPath: seq<string>, mode: Mode,
               requirement: Option<Requirement>, reasons: seq<Reason>)

  predicate HasDuplicate(ids: seq<string>) { exists i, j :: 0 <= i < j < |ids| && ids[i] == ids[j] }

  /** Something is required that the contract does not declare for the platform. */
  predicate Unavailable(declared: seq<Check>, platform: Platform, id: string) {
    forall i :: 0 <= i < |declared| && declared[i].id == id ==> platform !in declared[i].platforms
  }

  predicate Unmeetable(declared: seq<Check>, platform: Platform, r: Requirement) {
    || HasDuplicate(r.checkIds) || (r.full && r.checkIds != [])
    || exists i :: 0 <= i < |r.checkIds| && Unavailable(declared, platform, r.checkIds[i])
  }

  function SetOf(ids: seq<string>): set<string> { set id | id in ids }

  function ExplicitIds(requirement: Option<Requirement>): set<string> {
    if requirement.None? then {} else SetOf(requirement.value.checkIds)
  }

  /** The ids that a helper may name: checks on the platform that declare paths. */
  predicate IsPathCheckId(declared: seq<Check>, platform: Platform, id: string) {
    exists i :: 0 <= i < |declared| && declared[i].id == id && platform in declared[i].platforms && declared[i].paths.Some?
  }

  predicate Trusted(declared: seq<Check>, platform: Platform, change: ChangeSelection) {
    && change.allChangedPathsMatched && !HasDuplicate(change.matchedPathCheckIds)
    && forall i :: 0 <= i < |change.matchedPathCheckIds| ==> IsPathCheckId(declared, platform, change.matchedPathCheckIds[i])
  }

  function WholeReason(check: Check, source: Source, explicit: set<string>): Reason {
    Reason(check.id, [source] + if check.id in explicit then [Explicit] else [])
  }

  function WholeReasons(checks: seq<Check>, source: Source, explicit: set<string>): seq<Reason> {
    seq(|checks|, i requires 0 <= i < |checks| => WholeReason(checks[i], source, explicit))
  }

  function ScopedReason(check: Check, matched: set<string>, explicit: set<string>): Reason {
    Reason(check.id, (if check.paths.None? then [Always] else []) + (if check.id in matched then [ByPath] else [])
                     + if check.id in explicit then [Explicit] else [])
  }

  function ScopedReasons(checks: seq<Check>, matched: set<string>, explicit: set<string>): seq<Reason> {
    seq(|checks|, i requires 0 <= i < |checks| => ScopedReason(checks[i], matched, explicit))
  }

  function Whole(declared: seq<Check>, platform: Platform, mode: Mode, requirement: Option<Requirement>): Selection {
    var checks := Keep(On(platform), declared);
    Selected(checks, Ids(Keep(Off(platform), declared)), [], mode, requirement,
             WholeReasons(checks, if mode.FullMode? then Full else FallbackFull, ExplicitIds(requirement)))
  }

  function Select(declared: seq<Check>, platform: Platform, change: Option<ChangeSelection>, requirement: Option<Requirement>): Selection {
    if requirement.Some? && Unmeetable(declared, platform, requirement.value)
    then Rejected(Ids(Keep(Off(platform), declared)), requirement.value)
    else if requirement.Some? && requirement.value.full then Whole(declared, platform, FullMode, requirement)
    else if change.None? then Whole(declared, platform, if requirement.Some? then FallbackMode else FullMode, requirement)
    else
      var matched, explicit := SetOf(change.value.matchedPathCheckIds), ExplicitIds(requirement);
      var scoped := Keep(Wanted(platform, matched, explicit), declared);
      if !Trusted(declared, platform, change.value) || scoped == [] then Whole(declared, platform, FallbackMode, requirement)
      else
        var skippedByPath := Ids(Keep(NotChosen(platform, IdSet(scoped)), declared));
        Selected(scoped, Ids(Keep(Off(platform), declared)), skippedByPath,
                 if requirement.None? && skippedByPath == [] then FullMode else ScopedMode,
                 requirement, ScopedReasons(scoped, matched, explicit))
  }

  method RequirementFails(declared: seq<Check>, platform: Platform, r: Requirement) returns (fails: bool)
    ensures fails <==> Unmeetable(declared, platform, r)
  {
    if HasDuplicate(r.checkIds) || (r.full && r.checkIds != []) { return true; }
    for i := 0 to |r.checkIds|
      invariant forall j :: 0 <= j < i ==> !Unavailable(declared, platform, r.checkIds[j])
    {
      if Unavailable(declared, platform, r.checkIds[i]) { return true; }
    }
    return false;
  }

  /** The set of matched ids, and whether each is named once and is a path check. */
  method MatchedChecks(declared: seq<Check>, platform: Platform, change: ChangeSelection) returns (matched: set<string>, valid: bool)
    ensures matched == SetOf(change.matchedPathCheckIds)
    ensures valid && change.allChangedPathsMatched <==> Trusted(declared, platform, change)
  {
    var ids := change.matchedPathCheckIds;
    matched, valid := {}, true;
    for i := 0 to |ids|
      invariant matched == SetOf(ids[..i])
      invariant valid <==> !HasDuplicate(ids[..i]) && forall j :: 0 <= j < i ==> IsPathCheckId(declared, platform, ids[j])
    {
      var shorter, longer := ids[..i], ids[..i + 1];
      assert longer == shorter + [ids[i]];
      DuplicateOne(shorter, ids[i]);
      if ids[i] in matched || !IsPathCheckId(declared, platform, ids[i]) { valid := false; }
      matched := matched + {ids[i]};
    }
    assert ids[..|ids|] == ids;
  }

  lemma DuplicateOne(ids: seq<string>, id: string)
    ensures HasDuplicate(ids + [id]) <==> HasDuplicate(ids) || id in SetOf(ids)
  {
    var longer := ids + [id];
    if HasDuplicate(ids) {
      var i, j :| 0 <= i < j < |ids| && ids[i] == ids[j];
      assert longer[i] == longer[j];
    }
    if id in ids {
      var i :| 0 <= i < |ids| && ids[i] == id;
      assert longer[i] == longer[|ids|];
    }
  }

  method SelectContractQualityChecks(contract: Contract, platform: Platform, change: Option<ChangeSelection>, requirement: Option<Requirement>)
    returns (r: Selection)
    ensures r == Select(Declared(contract), platform, change, requirement)
  {
    var declared := Declared(contract);
    if requirement.Some? {
      var fails := RequirementFails(declared, platform, requirement.value);
      if fails { return Rejected(Ids(Keep(Off(platform), declared)), requirement.value); }
      if requirement.value.full { return Whole(declared, platform, FullMode, requirement); }
    }
    if change.None? { return Whole(declared, platform, if requirement.Some? then FallbackMode else FullMode, requirement); }
    var matched, valid := MatchedChecks(declared, platform, change.value);
    var explicit := ExplicitIds(requirement);
    var platformChecks := Keep(On(platform), declared);
    var scoped := Keep(Wanted(platform, matched, explicit), platformChecks);
    KeepTwice(On(platform), Wanted(platform, matched, explicit), declared);
    if !valid || !change.value.allChangedPathsMatched || scoped == [] { return Whole(declared, platform, FallbackMode, requirement); }
    var skippedByPath := Ids(Keep(NotChosen(platform, IdSet(scoped)), platformChecks));
    KeepTwice(On(platform), NotChosen(platform, IdSet(scoped)), declared);
    return Selected(scoped, Ids(Keep(Off(platform), declared)), skippedByPath,
                    if requirement.Some? then ScopedMode else if skippedByPath == [] then FullMode else ScopedMode,
                    requirement, ScopedReasons(scoped, matched, explicit));
  }

  // ---------------------------------------------------------------- the selection orders and partitions the checks

  lemma KeepLast(c: Criterion, checks: seq<Check>)
    requires checks != []
    ensures multiset(Keep(c, checks)) == multiset(Keep(c, checks[..|checks| - 1]))
      + if Meets(c, checks[|checks| - 1]) then multiset{checks[|checks| - 1]} else multiset{}
  {
  }

  lemma {:induction false} SplitInTwo(a: Criterion, b: Criterion, c: Criterion, checks: seq<Check>)
    requires forall check :: check in checks ==> Meets(c, check) == (Meets(a, check) || Meets(b, check)) && !(Meets(a, check) && Meets(b, check))
    ensures multiset(Keep(a, checks)) + multiset(Keep(b, checks)) == multiset(Keep(c, checks))
  {
    if checks != [] {
      SplitInTwo(a, b, c, checks[..|checks| - 1]);
      KeepLast(a, checks);
      KeepLast(b, checks);
      KeepLast(c, checks);
    }
  }

  lemma {:induction false} OnAndOff(platform: Platform, checks: seq<Check>)
    ensures multiset(Keep(On(platform), checks)) + multiset(Keep(Off(platform), checks)) == multiset(checks)
  {
    if checks != [] {
      OnAndOff(platform, checks[..|checks| - 1]);
      assert checks == checks[..|checks| - 1] + [checks[|checks| - 1]];
    }
  }

  /** The checks that a selection leaves out because of the change. */
  function LeftOut(declared: seq<Check>, platform: Platform, applicable: seq<Check>): seq<Check> {
    Keep(NotChosen(platform, IdSet(applicable)), declared)
  }

  /** Every declared check is run, or skipped by platform, or skipped by path: exactly one of them, in contract order. */
  ghost predicate Partitions(declared: seq<Check>, platform: Platform, s: Selection)
    requires s.Selected?
  {
    && s.applicable == Keep(Chosen(platform, IdSet(s.applicable)), declared)
    && s.skippedByPath == Ids(LeftOut(declared, platform, s.applicable))
    && s.skippedByPlatform == Ids(Keep(Off(platform), declared))
    && multiset(s.applicable) + multiset(LeftOut(declared, platform, s.applicable)) + multiset(Keep(Off(platform), declared))
       == multiset(declared)
  }

  lemma SelectionPartitions(declared: seq<Check>, platform: Platform, change: Option<ChangeSelection>, requirement: Option<Requirement>)
    requires WellFormed(declared) && Select(declared, platform, change, requirement).Selected?
    ensures Partitions(declared, platform, Select(declared, platform, change, requirement))
    ensures Select(declared, platform, change, requirement).applicable == [] <==> Keep(On(platform), declared) == []
  {
    var c := SelectionCriterion(declared, platform, change, requirement);
    KeptPartitions(declared, platform, c, Select(declared, platform, change, requirement));
  }

  lemma KeptPartitions(declared: seq<Check>, platform: Platform, c: Criterion, s: Selection)
    requires WellFormed(declared) && s.Selected? && s.applicable == Keep(c, declared)
    requires forall check :: Meets(c, check) ==> Meets(On(platform), check)
    requires c == On(platform) || (s.applicable != [] && s.skippedByPath == Ids(LeftOut(declared, platform, s.applicable)))
    requires c == On(platform) ==> s.skippedByPath == []
    requires s.skippedByPlatform == Ids(Keep(Off(platform), declared))
    ensures Partitions(declared, platform, s) && (s.applicable == [] <==> Keep(On(platform), declared) == [])
  {
    ChosenAreKept(declared, platform, c);
    ChosenPartitions(declared, platform, s.applicable);
    if c == On(platform) { NothingLeftOut(declared, platform); }
    if s.applicable != [] {
      Kept(c, declared, s.applicable[0]);
      Kept(On(platform), declared, s.applicable[0]);
    }
  }

  lemma ChosenPartitions(declared: seq<Check>, platform: Platform, applicable: seq<Check>)
    requires applicable == Keep(Chosen(platform, IdSet(applicable)), declared)
    ensures multiset(applicable) + multiset(LeftOut(declared, platform, applicable)) + multiset(Keep(Off(platform), declared))
         == multiset(declared)
  {
    var ids := IdSet(applicable);
    SplitInTwo(Chosen(platform, ids), NotChosen(platform, ids), On(platform), declared);
    OnAndOff(platform, declared);
  }

  lemma SelectionCriterion(declared: seq<Check>, platform: Platform, change: Option<ChangeSelection>, requirement: Option<Requirement>)
    returns (c: Criterion)
    requires Select(declared, platform, change, requirement).Selected?
    ensures Select(declared, platform, change, requirement).applicable == Keep(c, declared)
    ensures forall check :: Meets(c, check) ==> Meets(On(platform), check)
    ensures c == On(platform) || (c.Wanted? && Select(declared, platform, change, requirement).applicable != []
              && Select(declared, platform, change, requirement).skippedByPath == Ids(LeftOut(declared, platform, Keep(c, declared))))
    ensures c == On(platform) ==> Select(declared, platform, change, requirement).skippedByPath == []
    ensures Select(declared, platform, change, requirement).skippedByPlatform == Ids(Keep(Off(platform), declared))
  {
    var s := Select(declared, platform, change, requirement);
    if s == Whole(declared, platform, s.mode, requirement) {
      c := On(platform);
    } else {
      c := Wanted(platform, SetOf(change.value.matchedPathCheckIds), ExplicitIds(requirement));
    }
  }

  lemma NothingLeftOut(declared: seq<Check>, platform: Platform)
    ensures LeftOut(declared, platform, Keep(On(platform), declared)) == []
  {
    var left := LeftOut(declared, platform, Keep(On(platform), declared));
    if left != [] {
      Kept(NotChosen(platform, IdSet(Keep(On(platform), declared))), declared, left[0]);
      Kept(On(platform), declared, left[0]);
    }
  }

  /** Only a scoped selection leaves out a check of the platform. */
  lemma OnlyScopedSkips(declared: seq<Check>, platform: Platform, change: Option<ChangeSelection>, requirement: Option<Requirement>)
    requires WellFormed(declared) && Select(declared, platform, change, requirement).Selected?
    ensures var s := Select(declared, platform, change, requirement);
      s.mode != ScopedMode ==> s.applicable == Keep(On(platform), declared) && s.skippedByPath == []
  {
    var s := Select(declared, platform, change, requirement);
    var c := SelectionCriterion(declared, platform, change, requirement);
    if s.mode != ScopedMode && c != On(platform) {
      assert |LeftOut(declared, platform, s.applicable)| == |s.skippedByPath| == 0;
      NothingLeftOutMeansAll(declared, platform, c);
    }
  }

  lemma NothingLeftOutMeansAll(declared: seq<Check>, platform: Platform, c: Criterion)
    requires forall check :: Meets(c, check) ==> Meets(On(platform), check)
    requires Distinct(Ids(declared)) && LeftOut(declared, platform, Keep(c, declared)) == []
    ensures Keep(c, declared) == Keep(On(platform), declared)
  {
    var ids := IdSet(Keep(c, declared));
    forall check | check in declared ensures Meets(c, check) == Meets(On(platform), check) {
      Kept(NotChosen(platform, ids), declared, check);
      if check.id in ids {
        var other :| other in Keep(c, declared) && other.id == check.id;
        Kept(c, declared, other);
        IdNames(declared, check, other);
      }
    }
    KeepSame(c, On(platform), declared);
  }

  // ---------------------------------------------------------------- the path helper, and what a skip means

  datatype PathCheck = PathCheck(id: string, paths: seq<string>)

  /** How Git decides whether a path specification matches a changed path. */
  type Pathspec = (string, string) -> bool

  predicate Covers(matches: Pathspec, paths: seq<string>, path: string) {
    exists k :: 0 <= k < |paths| && matches(paths[k], path)
  }

  function CoveredBy(matches: Pathspec, paths: seq<string>, changed: seq<string>): seq<string> {
    if changed == [] then []
    else CoveredBy(matches, paths, changed[..|changed| - 1])
         + if Covers(matches, paths, changed[|changed| - 1]) then [changed[|changed| - 1]] else []
  }

  lemma {:induction false} CoveredAre(matches: Pathspec, paths: seq<string>, changed: seq<string>, path: string)
    ensures path in CoveredBy(matches, paths, changed) <==> path in changed && Covers(matches, paths, path)
  {
    if changed != [] {
      CoveredAre(matches, paths, changed[..|changed| - 1], path);
      assert changed == changed[..|changed| - 1] + [changed[|changed| - 1]];
    }
  }

  /** The checks on the platform that declare paths, with them. */
  function PathChecks(declared: seq<Check>, platform: Platform): seq<PathCheck> {
    if declared == [] then []
    else
      var last := declared[|declared| - 1];
      PathChecks(declared[..|declared| - 1], platform)
      + if platform in last.platforms && last.paths.Some? && last.paths.value != [] then [PathCheck(last.id, last.paths.value)] else []
  }

  predicate Touches(matches: Pathspec, check: PathCheck, changed: seq<string>) {
    exists k :: 0 <= k < |changed| && Covers(matches, check.paths, changed[k])
  }

  predicate AnyCovers(matches: Pathspec, checks: seq<PathCheck>, path: string) {
    exists i :: 0 <= i < |checks| && Covers(matches, checks[i].paths, path)
  }

  /** What the helper must answer: which checks a changed path matches, and whether every changed path is matched. */
  ghost predicate Exact(matches: Pathspec, checks: seq<PathCheck>, changed: seq<string>, r: ChangeSelection) {
    && (forall id :: id in r.matchedPathCheckIds <==> exists i :: 0 <= i < |checks| && checks[i].id == id && Touches(matches, checks[i], changed))
    && (r.allChangedPathsMatched <==>
          changed != [] && forall k :: 0 <= k < |changed| ==> AnyCovers(matches, checks, changed[k]))
  }

  method SelectPaths(matches: Pathspec, checks: seq<PathCheck>, changed: seq<string>) returns (r: ChangeSelection)
    ensures Exact(matches, checks, changed, r)
  {
    var covered: set<string>, ids: seq<string> := {}, [];
    for i := 0 to |checks|
      invariant forall path :: path in covered <==> path in changed && exists j :: 0 <= j < i && Covers(matches, checks[j].paths, path)
      invariant forall id :: id in ids <==> exists j :: 0 <= j < i && checks[j].id == id && Touches(matches, checks[j], changed)
    {
      var matchedPaths := CoveredBy(matches, checks[i].paths, changed);
      forall path ensures path in matchedPaths <==> path in changed && Covers(matches, checks[i].paths, path) {
        CoveredAre(matches, checks[i].paths, changed, path);
      }
      TouchesMeansCovered(matches, checks[i], changed);
      if |matchedPaths| > 0 { ids := ids + [checks[i].id]; }
      covered := covered + SetOf(matchedPaths);
    }
    r := ChangeSelection(ids, changed != [] && forall k :: 0 <= k < |changed| ==> changed[k] in covered);
  }

  lemma TouchesMeansCovered(matches: Pathspec, check: PathCheck, changed: seq<string>)
    ensures Touches(matches, check, changed) <==> CoveredBy(matches, check.paths, changed) != []
  {
    var covered := CoveredBy(matches, check.paths, changed);
    if covered != [] { CoveredAre(matches, check.paths, changed, covered[0]); }
    if Touches(matches, check, changed) {
      var k :| 0 <= k < |changed| && Covers(matches, check.paths, changed[k]);
      CoveredAre(matches, check.paths, changed, changed[k]);
    }
  }

  lemma {:induction false} PathCheckOf(declared: seq<Check>, platform: Platform, check: PathCheck)
    ensures check in PathChecks(declared, platform) <==>
      exists i :: 0 <= i < |declared| && platform in declared[i].platforms
                  && declared[i].paths == Some(check.paths) && check.paths != [] && declared[i].id == check.id
  {
    if declared != [] {
      var shorter, last := declared[..|declared| - 1], declared[|declared| - 1];
      PathCheckOf(shorter, platform, check);
      if platform in last.platforms && last.paths == Some(check.paths) && check.paths != [] && last.id == check.id {
        assert declared[|declared| - 1] == last;
      }
      if i :| 0 <= i < |shorter| && platform in shorter[i].platforms && shorter[i].paths == Some(check.paths) && check.paths != []
              && shorter[i].id == check.id {
        assert declared[i] == shorter[i];
      }
    }
  }

  /** The check's own paths match a changed path. */
  predicate Affected(matches: Pathspec, check: Check, changed: seq<string>) {
    check.paths.Some? && exists k :: 0 <= k < |changed| && Covers(matches, check.paths.value, changed[k])
  }

  /** A check that runs has paths that match the changed path. */
  ghost predicate RunsFor(matches: Pathspec, applicable: seq<Check>, path: string) {
    exists check :: check in applicable && check.paths.Some? && Covers(matches, check.paths.value, path)
  }

  /**
   With an exact helper, a check of the platform is left out only if it declares paths, none of them matches a changed
   path, and it is not required; and every changed path is matched by a check that runs, or the whole platform set runs.
   */
  lemma SelectionIsSafe(declared: seq<Check>, platform: Platform, matches: Pathspec, changed: seq<string>, change: ChangeSelection,
                        requirement: Option<Requirement>)
    requires WellFormed(declared) && Exact(matches, PathChecks(declared, platform), changed, change)
    requires Select(declared, platform, Some(change), requirement).Selected?
    ensures var s := Select(declared, platform, Some(change), requirement);
      && (forall check :: check in declared && platform in check.platforms && check !in s.applicable ==>
            check.paths.Some? && !Affected(matches, check, changed) && check.id !in ExplicitIds(requirement))
      && (s.applicable == Keep(On(platform), declared)
          || forall k :: 0 <= k < |changed| ==>
               RunsFor(matches, s.applicable, changed[k]))
  {
    var s := Select(declared, platform, Some(change), requirement);
    forall check | check in declared && platform in check.platforms && check !in s.applicable
      ensures check.paths.Some? && !Affected(matches, check, changed) && check.id !in ExplicitIds(requirement)
    {
      UnselectedIsUnaffected(declared, platform, matches, changed, change, requirement, check);
    }
    if s.applicable != Keep(On(platform), declared) {
      forall k | 0 <= k < |changed|
        ensures RunsFor(matches, s.applicable, changed[k])
      {
        var check := CoveringCheck(declared, platform, matches, changed, change, k);
        AffectedIsMatched(declared, platform, matches, changed, change, check);
        Kept(Wanted(platform, SetOf(change.matchedPathCheckIds), ExplicitIds(requirement)), declared, check);
      }
    }
  }

  lemma AffectedIsMatched(declared: seq<Check>, platform: Platform, matches: Pathspec, changed: seq<string>, change: ChangeSelection, check: Check)
    requires WellFormed(declared) && Exact(matches, PathChecks(declared, platform), changed, change)
    requires check in declared && platform in check.platforms && Affected(matches, check, changed)
    ensures check.id in change.matchedPathCheckIds
  {
    var i :| 0 <= i < |declared| && declared[i] == check;
    var p := PathCheck(check.id, check.paths.value);
    PathCheckOf(declared, platform, p);
    assert p in PathChecks(declared, platform);
    assert Touches(matches, p, changed);
  }

  lemma UnselectedIsUnaffected(declared: seq<Check>, platform: Platform, matches: Pathspec, changed: seq<string>, change: ChangeSelection,
                               requirement: Option<Requirement>, check: Check)
    requires WellFormed(declared) && Exact(matches, PathChecks(declared, platform), changed, change)
    requires Select(declared, platform, Some(change), requirement).Selected?
    requires check in declared && platform in check.platforms && check !in Select(declared, platform, Some(change), requirement).applicable
    ensures check.paths.Some? && !Affected(matches, check, changed) && check.id !in ExplicitIds(requirement)
  {
    Kept(On(platform), declared, check);
    Kept(Wanted(platform, SetOf(change.matchedPathCheckIds), ExplicitIds(requirement)), declared, check);
    if Affected(matches, check, changed) { AffectedIsMatched(declared, platform, matches, changed, change, check); }
  }

  lemma CoveringCheck(declared: seq<Check>, platform: Platform, matches: Pathspec, changed: seq<string>, change: ChangeSelection, k: nat)
    returns (check: Check)
    requires Exact(matches, PathChecks(declared, platform), changed, change) && change.allChangedPathsMatched && k < |changed|
    ensures check in declared && platform in check.platforms && check.paths.Some? && Covers(matches, check.paths.value, changed[k])
    ensures Affected(matches, check, changed)
  {
    var checks := PathChecks(declared, platform);
    assert AnyCovers(matches, checks, changed[k]);
    var i :| 0 <= i < |checks| && Covers(matches, checks[i].paths, changed[k]);
    assert checks[i] in checks;
    PathCheckOf(declared, platform, checks[i]);
    var p := checks[i];
    var j :| 0 <= j < |declared| && platform in declared[j].platforms && declared[j].paths == Some(p.paths) && p.paths != []
             && declared[j].id == p.id;
    check := declared[j];
  }

  /** Collects the path checks category by category. */
  method CurrentPlatformPathChecks(contract: Contract, platform: Platform) returns (selected: seq<PathCheck>)
    ensures selected == PathChecks(Declared(contract), platform)
  {
    selected := [];
    for c := 0 to |CATEGORIES|
      invariant selected == PathChecks(DeclaredUpTo(contract, c), platform)
    {
      selected := AddPathChecks(selected, DeclaredUpTo(contract, c), ChecksOf(PolicyOf(contract, CATEGORIES[c])), platform);
    }
    DeclaredInAll(contract);
  }

  method AddPathChecks(found: seq<PathCheck>, ghost seen: seq<Check>, checks: seq<Check>, platform: Platform) returns (selected: seq<PathCheck>)
    requires found == PathChecks(seen, platform)
    ensures selected == PathChecks(seen + checks, platform)
  {
    selected := found;
    assert seen + checks[..0] == seen;
    for i := 0 to |checks|
      invariant selected == PathChecks(seen + checks[..i], platform)
    {
      ghost var longer := seen + checks[..i + 1];
      assert longer[..|longer| - 1] == seen + checks[..i];
      var check := checks[i];
      if check.paths.Some? && platform in check.platforms && |check.paths.value| > 0 {
        selected := selected + [PathCheck(check.id, check.paths.value)];
      }
    }
    assert checks[..|checks|] == checks;
  }

  /** The checks of the first categories. */
  ghost function DeclaredUpTo(contract: Contract, n: nat): seq<Check>
    requires n <= |CATEGORIES|
  {
    if n == 0 then [] else DeclaredUpTo(contract, n - 1) + ChecksOf(PolicyOf(contract, CATEGORIES[n - 1]))
  }

  lemma DeclaredInAll(contract: Contract)
    ensures DeclaredUpTo(contract, |CATEGORIES|) == Declared(contract)
  {
    assert DeclaredUpTo(contract, 1) == ChecksOf(contract.test);
    assert DeclaredUpTo(contract, 2) == ChecksOf(contract.test) + ChecksOf(contract.build);
    assert DeclaredUpTo(contract, 3) == DeclaredUpTo(contract, 2) + ChecksOf(contract.static_);
  }
}
