/** Stories, their run state and validation receipts, and the textual checks on them. */
module StoryTypes {
  import opened Wrappers

  const MAX_SAFE_INTEGER: int := 9007199254740991

  predicate IsLowerHex(c: char) { '0' <= c <= '9' || 'a' <= c <= 'f' }

  predicate AllLowerHex(s: string) { forall i :: 0 <= i < |s| ==> IsLowerHex(s[i]) }

  /** A full commit id: 40 or 64 lower-case hexadecimal digits. */
  predicate IsGitHead(s: string) { (|s| == 40 || |s| == 64) && AllLowerHex(s) }

  predicate IsSha256Digest(s: string) { |s| == 71 && s[..7] == "sha256:" && AllLowerHex(s[7..]) }

  predicate IsChangedPathCount(n: int) { 0 <= n <= MAX_SAFE_INTEGER }

  /** White space as `String.prototype.trim` removes it. */
  predicate IsTrimmed(c: char) {
    var n := c as int;
    0x09 <= n <= 0x0D || n == 0x20 || n == 0xA0 || n == 0x1680 || 0x2000 <= n <= 0x200A
    || n == 0x2028 || n == 0x2029 || n == 0x202F || n == 0x205F || n == 0x3000 || n == 0xFEFF
  }

  predicate IsBlank(s: string) { forall i :: 0 <= i < |s| ==> IsTrimmed(s[i]) }

  const SAMPLE_DIGEST: string := "sha256:" + seq(64, i => '0')

  /** Some digest of a story id and its ordered acceptance criteria. */
  type AcceptanceHash = h: (string, seq<string>) -> string
    | forall id: string, criteria: seq<string> :: IsSha256Digest(h(id, criteria))
    witness (id: string, criteria: seq<string>) => SAMPLE_DIGEST

  datatype Story = Story(id: string, criteria: seq<string>)

  /** Receipts by schema version; versions 1 to 3 lack bindings that version 4 has. */
  datatype Receipt =
    | Receipt1(requestId: string, gitHead: string, acceptanceHash: string)
    | Receipt2(requestId: string, gitHead: string, acceptanceHash: string, environment: string)
    | Receipt3(requestId: string, gitHead: string, acceptanceHash: string, environment: string, runner: string, canary: string)
    | Receipt4(requestId: string, gitHead: string, acceptanceHash: string, environment: string, runner: string, canary: string,
               storyBase: string, manifest: string, changedPaths: int)

  predicate ValidReceipt(r: Receipt) {
    && !IsBlank(r.requestId) && IsGitHead(r.gitHead) && IsSha256Digest(r.acceptanceHash)
    && (!r.Receipt1? ==> IsSha256Digest(r.environment))
    && (r.Receipt3? || r.Receipt4? ==> IsSha256Digest(r.runner) && IsSha256Digest(r.canary))
    && (r.Receipt4? ==> IsGitHead(r.storyBase) && IsSha256Digest(r.manifest) && IsChangedPathCount(r.changedPaths))
  }

  /** The engine could not verify the candidate at this commit. */
  datatype Marker = Marker(gitHead: string, acceptanceHash: string)

  predicate ValidMarker(m: Marker) { IsGitHead(m.gitHead) && IsSha256Digest(m.acceptanceHash) }

  datatype StoryState = StoryState(
    passes: bool, validated: bool, storyBase: Option<string>, receipt: Option<Receipt>,
    unverifiable: Option<Marker>, notes: string, retryCount: real, blocked: bool, escalated: bool)

  const INITIAL_STORY_STATE := StoryState(false, false, None, None, None, "", 0.0, false, false)

  type RunState = map<string, StoryState>

  function StateOf(state: RunState, id: string): StoryState {
    if id in state then state[id] else INITIAL_STORY_STATE
  }
}
