/** Reading a run state from JSON: strict records, and the normal form every read state has. */
module StoryNormal {
  import opened Wrappers
  import opened StoryTypes

  /** The field names that the readers know, and all others. */
  datatype Key =
    | SchemaVersion | RequestId | GitHead | AcceptanceHash | ValidationEnvironmentDigest | RunnerProfileDigest
    | CanaryEvidenceDigest | StoryBaseGitHead | ChangeManifestDigest | ChangedPathCount
    | Passes | Validated | ValidationReceipt | ValidatorUnverifiable | Notes | RetryCount | IsBlocked | Escalated
    | Other(name: string)

  /** A parsed JSON value; a missing key stands for `undefined`. */
  datatype Json = Null | Boolean(b: bool) | Number(n: real) | Text(s: string) | List(items: seq<Json>) | Record(fields: map<Key, Json>)

  /** A parsed state file: an object keyed by story id, or some other value. */
  datatype File = NotAnObject | Stories(stories: map<string, Json>)

  // ---------------------------------------------------------------- receipts and markers

  const KEYS1 := {SchemaVersion, RequestId, GitHead, AcceptanceHash}
  const KEYS2 := KEYS1 + {ValidationEnvironmentDigest}
  const KEYS3 := KEYS2 + {RunnerProfileDigest, CanaryEvidenceDigest}
  const KEYS4 := KEYS3 + {StoryBaseGitHead, ChangeManifestDigest, ChangedPathCount}

  predicate IsTextAt(fields: map<Key, Json>, key: Key) { key in fields && fields[key].Text? }

  /** The four versions have exactly their own keys; every textual binding has its own shape. */
  function ParseValidationReceipt(value: Json): Option<Receipt> {
    if !value.Record? then None
    else
      var f := value.fields;
      var version := if SchemaVersion in f then f[SchemaVersion] else Null;
      if f.Keys != KeysFor(version) then None
      else if version != Number(1.0) && version != Number(2.0) && version != Number(3.0) && version != Number(4.0) then None
      else
        var parsed := ReceiptOf(f, version);
        if parsed.Some? && ValidReceipt(parsed.value) then parsed else None
  }

  function KeysFor(version: Json): set<Key> {
    if version == Number(1.0) then KEYS1 else if version == Number(2.0) then KEYS2 else if version == Number(3.0) then KEYS3 else KEYS4
  }

  function ReceiptOf(f: map<Key, Json>, version: Json): Option<Receipt>
    requires f.Keys == KeysFor(version)
  {
    if !f[RequestId].Text? || !f[GitHead].Text? || !f[AcceptanceHash].Text? then None
    else if version == Number(1.0) then Some(Receipt1(f[RequestId].s, f[GitHead].s, f[AcceptanceHash].s))
    else if !f[ValidationEnvironmentDigest].Text? then None
    else if version == Number(2.0) then
      Some(Receipt2(f[RequestId].s, f[GitHead].s, f[AcceptanceHash].s, f[ValidationEnvironmentDigest].s))
    else if !f[RunnerProfileDigest].Text? || !f[CanaryEvidenceDigest].Text? then None
    else if version == Number(3.0) then
      Some(Receipt3(f[RequestId].s, f[GitHead].s, f[AcceptanceHash].s, f[ValidationEnvironmentDigest].s,
                    f[RunnerProfileDigest].s, f[CanaryEvidenceDigest].s))
    else ReceiptOf4(f)
  }

  function ReceiptOf4(f: map<Key, Json>): Option<Receipt>
    requires f.Keys == KEYS4 && f[RequestId].Text? && f[GitHead].Text? && f[AcceptanceHash].Text?
    requires f[ValidationEnvironmentDigest].Text? && f[RunnerProfileDigest].Text? && f[CanaryEvidenceDigest].Text?
  {
    if !f[StoryBaseGitHead].Text? || !f[ChangeManifestDigest].Text? || !f[ChangedPathCount].Number?
       || f[ChangedPathCount].n.Floor as real != f[ChangedPathCount].n then None
    else
      Some(Receipt4(f[RequestId].s, f[GitHead].s, f[AcceptanceHash].s, f[ValidationEnvironmentDigest].s,
                    f[RunnerProfileDigest].s, f[CanaryEvidenceDigest].s,
                    f[StoryBaseGitHead].s, f[ChangeManifestDigest].s, f[ChangedPathCount].n.Floor))
  }

  function ReceiptJson(r: Receipt): Json {
    match r
    case Receipt1(id, head, ac) =>
      Record(map[SchemaVersion := Number(1.0), RequestId := Text(id), GitHead := Text(head), AcceptanceHash := Text(ac)])
    case Receipt2(id, head, ac, env) =>
      Record(map[SchemaVersion := Number(2.0), RequestId := Text(id), GitHead := Text(head), AcceptanceHash := Text(ac),
                 ValidationEnvironmentDigest := Text(env)])
    case Receipt3(id, head, ac, env, runner, canary) =>
      Record(map[SchemaVersion := Number(3.0), RequestId := Text(id), GitHead := Text(head), AcceptanceHash := Text(ac),
                 ValidationEnvironmentDigest := Text(env), RunnerProfileDigest := Text(runner), CanaryEvidenceDigest := Text(canary)])
    case Receipt4(id, head, ac, env, runner, canary, base, manifest, count) =>
      Record(map[SchemaVersion := Number(4.0), RequestId := Text(id), GitHead := Text(head), AcceptanceHash := Text(ac),
                 ValidationEnvironmentDigest := Text(env), RunnerProfileDigest := Text(runner), CanaryEvidenceDigest := Text(canary),
                 StoryBaseGitHead := Text(base), ChangeManifestDigest := Text(manifest), ChangedPathCount := Number(count as real)])
  }

  /** A record is a receipt exactly when it is what a valid receipt is written as. */
  lemma ReceiptRoundTrip(r: Receipt)
    ensures ParseValidationReceipt(ReceiptJson(r)) == if ValidReceipt(r) then Some(r) else None
  {
    if r.Receipt4? { Receipt4RoundTrip(r); } else if r.Receipt3? { Receipt3RoundTrip(r); } else { OldReceiptRoundTrip(r); }
  }

  lemma Receipt4RoundTrip(r: Receipt)
    requires r.Receipt4?
    ensures ParseValidationReceipt(ReceiptJson(r)) == if ValidReceipt(r) then Some(r) else None
  {
    Reads4(r);
    var f := ReceiptJson(r).fields;
    assert f.Keys == KeysFor(f[SchemaVersion]);
  }

  lemma Reads4(r: Receipt)
    requires r.Receipt4?
    ensures ReceiptJson(r).fields.Keys == KEYS4 && ReceiptOf(ReceiptJson(r).fields, Number(4.0)) == Some(r)
  {
    assert ReceiptJson(r).fields.Keys == KEYS4;
  }

  lemma Receipt3RoundTrip(r: Receipt)
    requires r.Receipt3?
    ensures ParseValidationReceipt(ReceiptJson(r)) == if ValidReceipt(r) then Some(r) else None
  {
    assert ReceiptJson(r).fields.Keys == KEYS3;
  }

  lemma OldReceiptRoundTrip(r: Receipt)
    requires r.Receipt1? || r.Receipt2?
    ensures ParseValidationReceipt(ReceiptJson(r)) == if ValidReceipt(r) then Some(r) else None
  {
    assert ReceiptJson(r).fields.Keys == if r.Receipt1? then KEYS1 else KEYS2;
  }

  lemma ParsedReceiptIsWritten(value: Json)
    requires ParseValidationReceipt(value).Some?
    ensures ValidReceipt(ParseValidationReceipt(value).value)
    ensures value == ReceiptJson(ParseValidationReceipt(value).value)
  {
    var r := ParseValidationReceipt(value).value;
    assert value.fields == ReceiptJson(r).fields;
  }

  function ParseMarker(value: Json): Option<Marker> {
    if value.Record? && value.fields.Keys == {SchemaVersion, GitHead, AcceptanceHash}
       && value.fields[SchemaVersion] == Number(1.0) && value.fields[GitHead].Text? && value.fields[AcceptanceHash].Text?
       && ValidMarker(Marker(value.fields[GitHead].s, value.fields[AcceptanceHash].s))
    then Some(Marker(value.fields[GitHead].s, value.fields[AcceptanceHash].s)) else None
  }

  function MarkerJson(m: Marker): Json {
    Record(map[SchemaVersion := Number(1.0), GitHead := Text(m.gitHead), AcceptanceHash := Text(m.acceptanceHash)])
  }

  lemma MarkerRoundTrip(m: Marker)
    ensures ParseMarker(MarkerJson(m)) == if ValidMarker(m) then Some(m) else None
  {
    assert MarkerJson(m).fields.Keys == {SchemaVersion, GitHead, AcceptanceHash};
  }

  // ---------------------------------------------------------------- one story

  predicate Absent(f: map<Key, Json>, key: Key) { key !in f || f[key] == Null }

  predicate OptionalBoolean(f: map<Key, Json>, key: Key) { key in f ==> f[key].Boolean? }

  /** A nullable field: `None` is malformed, `Some(None)` is absent or null. */
  function ReadBase(f: map<Key, Json>): Option<Option<string>> {
    if Absent(f, StoryBaseGitHead) then Some(None)
    else if f[StoryBaseGitHead].Text? && IsGitHead(f[StoryBaseGitHead].s) then Some(Some(f[StoryBaseGitHead].s))
    else None
  }

  function ReadReceipt(f: map<Key, Json>): Option<Option<Receipt>> {
    if Absent(f, ValidationReceipt) then Some(None)
    else match ParseValidationReceipt(f[ValidationReceipt]) case None => None case Some(r) => Some(Some(r))
  }

  function ReadMarker(f: map<Key, Json>): Option<Option<Marker>> {
    if Absent(f, ValidatorUnverifiable) then Some(None)
    else match ParseMarker(f[ValidatorUnverifiable]) case None => None case Some(m) => Some(Some(m))
  }

  predicate PlainFieldsFit(f: map<Key, Json>) {
    && Passes in f && f[Passes].Boolean? && IsTextAt(f, Notes) && RetryCount in f && f[RetryCount].Number?
    && IsBlocked in f && f[IsBlocked].Boolean? && OptionalBoolean(f, Validated) && OptionalBoolean(f, Escalated)
  }

  /** The fields of a story as they stand, each of its own shape. */
  function ReadStoryFields(value: Json): Option<StoryState> {
    if !value.Record? || !PlainFieldsFit(value.fields) then None
    else
      var f := value.fields;
      var base, receipt, marker := ReadBase(f), ReadReceipt(f), ReadMarker(f);
      if base.None? || receipt.None? || marker.None? then None
      else
        Some(StoryState(
          f[Passes].b, Validated in f && f[Validated].b, base.value, receipt.value, marker.value,
          f[Notes].s, f[RetryCount].n, f[IsBlocked].b, Escalated in f && f[Escalated].b))
  }

  /** The verdict stands only with a current receipt for the recorded base; the marker only without it. */
  function Settle(s: StoryState): StoryState {
    var current := !s.blocked && s.passes && s.validated && s.receipt.Some? && s.receipt.value.Receipt4?
                   && s.storyBase == Some(s.receipt.value.storyBase);
    s.(validated := current, receipt := if current then s.receipt else None,
       unverifiable := if s.passes && !s.blocked && !current then s.unverifiable else None)
  }

  function NormalizeStoryState(value: Json): Option<StoryState> {
    match ReadStoryFields(value) case None => None case Some(s) => Some(Settle(s))
  }

  function BaseJson(base: Option<string>): Json { match base case None => Null case Some(t) => Text(t) }

  function OptionalReceiptJson(r: Option<Receipt>): Json { match r case None => Null case Some(receipt) => ReceiptJson(receipt) }

  function OptionalMarkerJson(m: Option<Marker>): Json { match m case None => Null case Some(marker) => MarkerJson(marker) }

  /** What the engine writes for a story. */
  function StoryJson(s: StoryState): Json {
    Record(map[Passes := Boolean(s.passes), Validated := Boolean(s.validated),
               StoryBaseGitHead := BaseJson(s.storyBase),
               ValidationReceipt := OptionalReceiptJson(s.receipt),
               ValidatorUnverifiable := OptionalMarkerJson(s.unverifiable),
               Notes := Text(s.notes), RetryCount := Number(s.retryCount),
               IsBlocked := Boolean(s.blocked), Escalated := Boolean(s.escalated)])
  }

  /** The ownership fields fit together: a verdict needs a candidate, a current receipt and its base. */
  predicate Normal(s: StoryState) {
    && s.validated == s.receipt.Some?
    && (s.storyBase.Some? ==> IsGitHead(s.storyBase.value))
    && (s.validated ==>
          && s.passes && !s.blocked && s.receipt.value.Receipt4? && ValidReceipt(s.receipt.value)
          && s.storyBase == Some(s.receipt.value.storyBase))
    && (s.unverifiable.Some? ==> s.passes && !s.blocked && !s.validated && ValidMarker(s.unverifiable.value))
  }

  /** Every field has the shape that reading it demands. */
  predicate WellShaped(s: StoryState) {
    && (s.storyBase.Some? ==> IsGitHead(s.storyBase.value))
    && (s.receipt.Some? ==> ValidReceipt(s.receipt.value))
    && (s.unverifiable.Some? ==> ValidMarker(s.unverifiable.value))
  }

  lemma ReadFieldsAreWellShaped(value: Json)
    requires ReadStoryFields(value).Some?
    ensures WellShaped(ReadStoryFields(value).value)
  {
    var f := value.fields;
    if !Absent(f, ValidationReceipt) { ParsedReceiptIsWritten(f[ValidationReceipt]); }
  }

  lemma WrittenReceiptReads(f: map<Key, Json>, r: Option<Receipt>)
    requires ValidationReceipt in f && f[ValidationReceipt] == OptionalReceiptJson(r) && (r.Some? ==> ValidReceipt(r.value))
    ensures ReadReceipt(f) == Some(r)
  {
    if r.Some? { ReceiptRoundTrip(r.value); }
  }

  lemma WrittenMarkerReads(f: map<Key, Json>, m: Option<Marker>)
    requires ValidatorUnverifiable in f && f[ValidatorUnverifiable] == OptionalMarkerJson(m) && (m.Some? ==> ValidMarker(m.value))
    ensures ReadMarker(f) == Some(m)
  {
    if m.Some? { MarkerRoundTrip(m.value); }
  }

  /** The record holds what the engine writes for the story. */
  predicate Holds(f: map<Key, Json>, s: StoryState) {
    && Passes in f && f[Passes] == Boolean(s.passes)
    && Validated in f && f[Validated] == Boolean(s.validated)
    && StoryBaseGitHead in f && f[StoryBaseGitHead] == BaseJson(s.storyBase)
    && ValidationReceipt in f && f[ValidationReceipt] == OptionalReceiptJson(s.receipt)
    && ValidatorUnverifiable in f && f[ValidatorUnverifiable] == OptionalMarkerJson(s.unverifiable)
    && Notes in f && f[Notes] == Text(s.notes)
    && RetryCount in f && f[RetryCount] == Number(s.retryCount)
    && IsBlocked in f && f[IsBlocked] == Boolean(s.blocked)
    && Escalated in f && f[Escalated] == Boolean(s.escalated)
  }

  lemma WrittenHolds(s: StoryState)
    ensures Holds(StoryJson(s).fields, s)
  {
  }

  lemma HeldFieldsRead(f: map<Key, Json>, s: StoryState)
    requires Holds(f, s) && WellShaped(s)
    ensures ReadStoryFields(Record(f)) == Some(s)
  {
    WrittenReceiptReads(f, s.receipt);
    WrittenMarkerReads(f, s.unverifiable);
    assert ReadBase(f) == Some(s.storyBase);
  }

  lemma WrittenFieldsRead(s: StoryState)
    requires WellShaped(s)
    ensures ReadStoryFields(StoryJson(s)) == Some(s)
  {
    WrittenHolds(s);
    HeldFieldsRead(StoryJson(s).fields, s);
  }

  lemma NormalizedIsNormal(value: Json)
    requires NormalizeStoryState(value).Some?
    ensures Normal(NormalizeStoryState(value).value)
  {
    ReadFieldsAreWellShaped(value);
  }

  predicate Stable(s: StoryState) { NormalizeStoryState(StoryJson(s)) == Some(s) }

  /** Writing a story and reading it again is the identity exactly on normal states. */
  lemma NormalIsStable(s: StoryState)
    ensures Stable(s) <==> Normal(s)
  {
    if Normal(s) {
      WrittenFieldsRead(s);
      assert Settle(s) == s;
    }
    if Stable(s) { NormalizedIsNormal(StoryJson(s)); }
  }

  /** Normalization is idempotent. */
  lemma NormalizationIsIdempotent(value: Json)
    requires NormalizeStoryState(value).Some?
    ensures NormalizeStoryState(StoryJson(NormalizeStoryState(value).value)) == NormalizeStoryState(value)
  {
    NormalizedIsNormal(value);
    NormalIsStable(NormalizeStoryState(value).value);
  }

  // ---------------------------------------------------------------- a whole run state

  ghost predicate NormalRun(state: RunState) { forall id :: id in state ==> Normal(state[id]) }

  function RunJson(state: RunState): File { Stories(map id | id in state :: StoryJson(state[id])) }

  /** The state a file is read as, if every story in it can be read. */
  ghost predicate ReadsAs(file: File, state: RunState) {
    && file.Stories? && state.Keys == file.stories.Keys
    && forall id :: id in state ==> NormalizeStoryState(file.stories[id]) == Some(state[id])
  }

  /** The stories are read one by one; the first that does not fit the schema is reported. */
  method ParseRunStateValue(file: File) returns (r: Result<RunState, Option<string>>)
    ensures r.Ok? ==> ReadsAs(file, r.value)
    ensures r.Err? && r.error.None? ==> !file.Stories?
    ensures r.Err? && r.error.Some? ==> file.Stories? && r.error.value in file.stories && NormalizeStoryState(file.stories[r.error.value]).None?
  {
    if !file.Stories? { return Err(None); }
    var state: RunState := map[];
    var remaining := file.stories.Keys;
    while remaining != {}
      invariant remaining <= file.stories.Keys
      invariant state.Keys == file.stories.Keys - remaining
      invariant forall id :: id in state ==> NormalizeStoryState(file.stories[id]) == Some(state[id])
      decreases remaining
    {
      var id :| id in remaining;
      var normalized := NormalizeStoryState(file.stories[id]);
      if normalized.None? { return Err(Some(id)); }
      state := state[id := normalized.value];
      remaining := remaining - {id};
    }
    return Ok(state);
  }

  lemma ReadStateIsNormal(file: File, state: RunState)
    requires ReadsAs(file, state)
    ensures NormalRun(state)
  {
    forall id | id in state ensures Normal(state[id]) { NormalizedIsNormal(file.stories[id]); }
  }

  /** Saving a state and reading it back is the identity exactly when the state is normal. */
  lemma SaveAndReload(state: RunState)
    ensures ReadsAs(RunJson(state), state) <==> NormalRun(state)
  {
    var file := RunJson(state);
    forall id | id in state
      ensures NormalizeStoryState(file.stories[id]) == Some(state[id]) <==> Normal(state[id])
    {
      NormalIsStable(state[id]);
    }
  }
}
