/** The two validators of a recorded selection, and that every selection of the gate satisfies both. */
module GateRecords {
  import opened Wrappers
  import opened CheckSelection

  /** The checks that were run because they were required. */
  function ExplicitChecks(reasons: seq<Reason>): set<string> {
    set i | 0 <= i < |reasons| && Explicit in reasons[i].sources :: reasons[i].checkId
  }

  /** Whether the reasons account for what an issue requires. */
  predicate RequirementMatchesSelection(requirement: Option<Requirement>, selected: seq<string>, reasons: seq<Reason>, all: seq<string>) {
    var explicit := ExplicitChecks(reasons);
    match requirement
    case None => |explicit| == 0
    case Some(r) =>
      if r.full then
        r.checkIds == [] && selected == all
        && forall i :: 0 <= i < |reasons| ==> Full in reasons[i].sources && Explicit !in reasons[i].sources
      else
        var required := SetOf(r.checkIds);
        && (forall id :: id in required ==> id in selected)
        && (forall i :: 0 <= i < |reasons| ==> (reasons[i].checkId in explicit <==> reasons[i].checkId in required))
        && |explicit| == |required|
  }

  predicate RepeatsSource(sources: seq<Source>) { exists i, j :: 0 <= i < j < |sources| && sources[i] == sources[j] }

  /** One reason for every selected check, in order, with sources that do not repeat. */
  predicate ReasonsFit(reasons: seq<Reason>, selected: seq<string>) {
    && |reasons| == |selected|
    && forall i :: 0 <= i < |reasons| ==>
         reasons[i].checkId == selected[i] && reasons[i].sources != [] && !RepeatsSource(reasons[i].sources)
  }

  /** The selection fields of an evidence record. */
  datatype GateRecord = GateRecord(mode: Option<Mode>, selected: Option<seq<string>>, skipped: Option<seq<string>>,
                                   requirement: Option<Requirement>, reasons: Option<seq<Reason>>, total: int)

  predicate WellFormedRequirement(r: Requirement) {
    (forall i :: 0 <= i < |r.checkIds| ==> r.checkIds[i] != "") && !HasDuplicate(r.checkIds) && (r.full ==> r.checkIds == [])
  }

  /** The explicit reasons account for the requirement. */
  predicate ExplicitFit(requirement: Option<Requirement>, reasons: seq<Reason>, selected: seq<string>) {
    var explicit := ExplicitChecks(reasons);
    match requirement
    case None => |explicit| == 0
    case Some(r) =>
      if r.full then forall i :: 0 <= i < |reasons| ==> Full in reasons[i].sources && Explicit !in reasons[i].sources
      else
        var required := SetOf(r.checkIds);
        && (forall id :: id in required ==> id in selected)
        && (forall i :: 0 <= i < |reasons| ==> (reasons[i].checkId in explicit <==> reasons[i].checkId in required))
        && |explicit| == |required|
  }

  predicate HasValidOptionalGateSelection(v: GateRecord) {
    if v.mode.None? && v.selected.None? && v.skipped.None? && v.requirement.None? && v.reasons.None? then true
    else if v.mode.None? || v.selected.None? || v.skipped.None? || "" in v.selected.value || "" in v.skipped.value then false
    else
      var selected, skipped := v.selected.value, v.skipped.value;
      var reasons := if v.reasons.Some? then v.reasons.value else [];
      && (v.requirement.Some? ==> WellFormedRequirement(v.requirement.value))
      && (v.reasons.Some? ==> ReasonsFit(reasons, selected))
      && ExplicitFit(v.requirement, reasons, selected)
      && (v.requirement.Some? ==> v.reasons.Some?)
      && !HasDuplicate(selected) && !HasDuplicate(skipped)
      && (forall i :: 0 <= i < |selected| ==> selected[i] !in skipped)
      && v.total == |selected|
  }

  /** The record that the gate leaves of a selection. */
  function RecordOf(s: Selection): GateRecord
    requires s.Selected?
  {
    GateRecord(Some(s.mode), Some(Ids(s.applicable)), Some(s.skippedByPlatform + s.skippedByPath), s.requirement, Some(s.reasons),
               |s.applicable|)
  }

  // ---------------------------------------------------------------- every selection satisfies both

  /** The reasons of a selection, and which of them are explicit. */
  ghost predicate ReasonsTell(applicable: seq<Check>, reasons: seq<Reason>, explicit: set<string>) {
    && |reasons| == |applicable|
    && forall i :: 0 <= i < |reasons| ==>
         && reasons[i].checkId == applicable[i].id && reasons[i].sources != [] && !RepeatsSource(reasons[i].sources)
         && (Explicit in reasons[i].sources <==> applicable[i].id in explicit)
  }

  lemma WholeReasonsTell(checks: seq<Check>, source: Source, explicit: set<string>)
    requires source != Explicit
    ensures ReasonsTell(checks, WholeReasons(checks, source, explicit), explicit)
  {
  }

  lemma ScopedReasonsTell(declared: seq<Check>, platform: Platform, matched: set<string>, explicit: set<string>)
    ensures var checks := Keep(Wanted(platform, matched, explicit), declared);
      ReasonsTell(checks, ScopedReasons(checks, matched, explicit), explicit)
  {
    var checks := Keep(Wanted(platform, matched, explicit), declared);
    forall i | 0 <= i < |checks| ensures ScopedReason(checks[i], matched, explicit).sources != [] {
      assert checks[i] in checks;
      Kept(Wanted(platform, matched, explicit), declared, checks[i]);
    }
  }

  lemma SelectionReasonsTell(declared: seq<Check>, platform: Platform, change: Option<ChangeSelection>, requirement: Option<Requirement>)
    requires Select(declared, platform, change, requirement).Selected?
    ensures var s := Select(declared, platform, change, requirement); ReasonsTell(s.applicable, s.reasons, ExplicitIds(requirement))
  {
    var s := Select(declared, platform, change, requirement);
    var explicit := ExplicitIds(requirement);
    if s == Whole(declared, platform, s.mode, requirement) {
      WholeReasonsTell(s.applicable, if s.mode.FullMode? then Full else FallbackFull, explicit);
    } else {
      ScopedReasonsTell(declared, platform, SetOf(change.value.matchedPathCheckIds), explicit);
    }
  }

  /** Whatever is required is run. */
  lemma RequiredAreSelected(declared: seq<Check>, platform: Platform, change: Option<ChangeSelection>, requirement: Option<Requirement>, id: string)
    requires Select(declared, platform, change, requirement).Selected? && id in ExplicitIds(requirement)
    ensures id in IdSet(Select(declared, platform, change, requirement).applicable)
  {
    var r := requirement.value;
    var k :| 0 <= k < |r.checkIds| && r.checkIds[k] == id;
    assert !Unavailable(declared, platform, r.checkIds[k]);
    var i :| 0 <= i < |declared| && declared[i].id == id && platform in declared[i].platforms;
    var c := SelectionCriterion(declared, platform, change, requirement);
    var s := Select(declared, platform, change, requirement);
    Kept(On(platform), declared, declared[i]);
    if s != Whole(declared, platform, s.mode, requirement) {
      Kept(Wanted(platform, SetOf(change.value.matchedPathCheckIds), ExplicitIds(requirement)), declared, declared[i]);
    }
    assert declared[i] in s.applicable;
  }

  lemma ExplicitAreRequired(applicable: seq<Check>, reasons: seq<Reason>, explicit: set<string>)
    requires ReasonsTell(applicable, reasons, explicit) && explicit <= IdSet(applicable)
    ensures ExplicitChecks(reasons) == explicit
  {
    forall id | id in explicit ensures id in ExplicitChecks(reasons) {
      var check :| check in applicable && check.id == id;
      var i :| 0 <= i < |applicable| && applicable[i] == check;
      assert Explicit in reasons[i].sources;
    }
  }

  lemma IdsAndSets(checks: seq<Check>)
    ensures SetOf(Ids(checks)) == IdSet(checks)
  {
    forall id | id in IdSet(checks) ensures id in Ids(checks) {
      var check :| check in checks && check.id == id;
      var i :| 0 <= i < |checks| && checks[i] == check;
      assert Ids(checks)[i] == id;
    }
    forall id | id in Ids(checks) ensures id in IdSet(checks) {
      var i :| 0 <= i < |checks| && Ids(checks)[i] == id;
      assert checks[i] in checks;
    }
  }

  /** An issue's full requirement is met by the whole platform set, for the reason `full`. */
  lemma FullRequirementRunsAll(declared: seq<Check>, platform: Platform, change: Option<ChangeSelection>, requirement: Option<Requirement>)
    requires Select(declared, platform, change, requirement).Selected? && requirement.Some? && requirement.value.full
    ensures var s := Select(declared, platform, change, requirement);
      && requirement.value.checkIds == [] && s.applicable == Keep(On(platform), declared)
      && forall i :: 0 <= i < |s.reasons| ==> Full in s.reasons[i].sources && Explicit !in s.reasons[i].sources
  {
  }

  lemma SelectionMatchesRequirement(declared: seq<Check>, platform: Platform, change: Option<ChangeSelection>, requirement: Option<Requirement>)
    requires WellFormed(declared) && Select(declared, platform, change, requirement).Selected?
    ensures var s := Select(declared, platform, change, requirement);
      RequirementMatchesSelection(requirement, Ids(s.applicable), s.reasons, Ids(Keep(On(platform), declared)))
      && ExplicitChecks(s.reasons) == ExplicitIds(requirement)
  {
    var s := Select(declared, platform, change, requirement);
    SelectionReasonsTell(declared, platform, change, requirement);
    forall id | id in ExplicitIds(requirement) ensures id in IdSet(s.applicable) {
      RequiredAreSelected(declared, platform, change, requirement, id);
    }
    ExplicitAreRequired(s.applicable, s.reasons, ExplicitIds(requirement));
    IdsAndSets(s.applicable);
    if requirement.Some? && requirement.value.full { FullRequirementRunsAll(declared, platform, change, requirement); }
  }

  /** What is run and what is skipped are lists without repetition that have nothing in common. */
  lemma SkippedAreOthers(declared: seq<Check>, platform: Platform, s: Selection)
    requires WellFormed(declared) && s.Selected? && Partitions(declared, platform, s)
    ensures var selected, skipped := Ids(s.applicable), s.skippedByPlatform + s.skippedByPath;
      && !HasDuplicate(selected) && !HasDuplicate(skipped) && (forall i :: 0 <= i < |selected| ==> selected[i] !in skipped)
      && "" !in selected && "" !in skipped
  {
    var off, out := Keep(Off(platform), declared), LeftOut(declared, platform, s.applicable);
    KeptIdsDistinct(Chosen(platform, IdSet(s.applicable)), declared);
    KeptIdsDistinct(Off(platform), declared);
    KeptIdsDistinct(NotChosen(platform, IdSet(s.applicable)), declared);
    forall a: Check, b: Check | a in s.applicable && b in off + out ensures a.id != b.id {
      Apart(declared, platform, s.applicable, a, b);
    }
    forall a: Check, b: Check | a in off && b in out ensures a.id != b.id {
      OffAndOutApart(declared, platform, s.applicable, a, b);
    }
    JoinDistinct(off, out);
    assert Ids(off) + Ids(out) == Ids(off + out);
    IdsAndSets(off + out);
  }

  lemma Apart(declared: seq<Check>, platform: Platform, applicable: seq<Check>, a: Check, b: Check)
    requires WellFormed(declared) && applicable == Keep(Chosen(platform, IdSet(applicable)), declared)
    requires a in applicable && b in Keep(Off(platform), declared) + LeftOut(declared, platform, applicable)
    ensures a.id != b.id
  {
    Kept(Chosen(platform, IdSet(applicable)), declared, a);
    Kept(Off(platform), declared, b);
    Kept(NotChosen(platform, IdSet(applicable)), declared, b);
    if a.id == b.id { IdNames(declared, a, b); }
  }

  lemma OffAndOutApart(declared: seq<Check>, platform: Platform, applicable: seq<Check>, a: Check, b: Check)
    requires WellFormed(declared) && a in Keep(Off(platform), declared) && b in LeftOut(declared, platform, applicable)
    ensures a.id != b.id
  {
    Kept(Off(platform), declared, a);
    Kept(NotChosen(platform, IdSet(applicable)), declared, b);
    if a.id == b.id { IdNames(declared, a, b); }
  }

  lemma JoinDistinct(a: seq<Check>, b: seq<Check>)
    requires Distinct(Ids(a)) && Distinct(Ids(b)) && forall x: Check, y: Check :: x in a && y in b ==> x.id != y.id
    ensures Distinct(Ids(a + b))
  {
    var ids := Ids(a + b);
    forall i, j | 0 <= i < j < |ids| ensures ids[i] != ids[j] {
      if j < |a| { assert Ids(a)[i] != Ids(a)[j]; }
      else if i >= |a| { assert Ids(b)[i - |a|] != Ids(b)[j - |a|]; }
      else { assert a[i] in a && b[j - |a|] in b; }
    }
  }

  lemma RequirementIsWellFormed(declared: seq<Check>, platform: Platform, r: Requirement)
    requires WellFormed(declared) && !Unmeetable(declared, platform, r)
    ensures WellFormedRequirement(r)
  {
    forall i | 0 <= i < |r.checkIds| ensures r.checkIds[i] != "" {
      assert !Unavailable(declared, platform, r.checkIds[i]);
    }
  }

  lemma SelectionExplicitFits(declared: seq<Check>, platform: Platform, change: Option<ChangeSelection>, requirement: Option<Requirement>)
    requires WellFormed(declared) && Select(declared, platform, change, requirement).Selected?
    ensures var s := Select(declared, platform, change, requirement);
      ExplicitFit(requirement, s.reasons, Ids(s.applicable)) && ReasonsFit(s.reasons, Ids(s.applicable))
  {
    SelectionMatchesRequirement(declared, platform, change, requirement);
    SelectionReasonsTell(declared, platform, change, requirement);
  }

  /** The evidence validator accepts what the gate records of any selection. */
  lemma SelectionIsValidEvidence(declared: seq<Check>, platform: Platform, change: Option<ChangeSelection>, requirement: Option<Requirement>)
    requires WellFormed(declared) && Select(declared, platform, change, requirement).Selected?
    ensures HasValidOptionalGateSelection(RecordOf(Select(declared, platform, change, requirement)))
  {
    var s := Select(declared, platform, change, requirement);
    SelectionPartitions(declared, platform, change, requirement);
    SkippedAreOthers(declared, platform, s);
    SelectionExplicitFits(declared, platform, change, requirement);
    if requirement.Some? { RequirementIsWellFormed(declared, platform, requirement.value); }
  }

  // ---------------------------------------------------------------- what the validators establish

  lemma {:induction false} SubsetOfSameSize(a: set<string>, b: set<string>)
    requires a <= b && |a| == |b|
    ensures a == b
  {
    if a != {} {
      var x :| x in a;
      SubsetOfSameSize(a - {x}, b - {x});
    } else {
      assert |b| == 0;
    }
  }

  /** Comparing membership reason by reason, and sizes, is enough: the explicit checks are exactly the required ones. */
  lemma ExplicitAreExactlyRequired(requirement: Requirement, selected: seq<string>, reasons: seq<Reason>, all: seq<string>)
    requires RequirementMatchesSelection(Some(requirement), selected, reasons, all) && !requirement.full
    ensures ExplicitChecks(reasons) == SetOf(requirement.checkIds)
    ensures forall id :: id in requirement.checkIds ==> id in selected
  {
    SubsetOfSameSize(ExplicitChecks(reasons), SetOf(requirement.checkIds));
  }

  /** An accepted record: run and skipped checks are apart, every run check has its reason, and what is explicit was required. */
  lemma AcceptedRecordMeans(v: GateRecord)
    requires HasValidOptionalGateSelection(v) && v.mode.Some?
    ensures v.selected.Some? && v.skipped.Some? && v.total == |v.selected.value|
    ensures SetOf(v.selected.value) !! SetOf(v.skipped.value)
    ensures v.reasons.Some? ==> ReasonsFit(v.reasons.value, v.selected.value)
    ensures v.requirement.None? && v.reasons.Some? ==> ExplicitChecks(v.reasons.value) == {}
    ensures v.requirement.Some? && !v.requirement.value.full ==>
      v.reasons.Some? && ExplicitChecks(v.reasons.value) == SetOf(v.requirement.value.checkIds) <= SetOf(v.selected.value)
  {
    if v.requirement.Some? && !v.requirement.value.full {
      SubsetOfSameSize(ExplicitChecks(v.reasons.value), SetOf(v.requirement.value.checkIds));
    }
  }
}
