/** Clipping a diagnostic to its last 2000 code points, and the check that a reader applies to it. */
module Diagnostics {
  import opened Utf16

  const DIAGNOSTIC_CHARS: nat := 2000

  /** How many characters a forward iteration over the text visits: a surrogate pair is one. */
  function CodePoints(s: Text): nat {
    if s == [] then 0 else if PairAt(s, 0) then 1 + CodePoints(s[2..]) else 1 + CodePoints(s[1..])
  }

  /** The position cuts a surrogate pair in two. */
  predicate Splits(s: Text, k: nat) { k > 0 && PairAt(s, k - 1) }

  lemma SuffixStep(s: Text, k: nat)
    requires k < |s|
    ensures PairAt(s, k) ==> CodePoints(s[k..]) == CodePoints(s[k + 1..]) == 1 + CodePoints(s[k + 2..])
    ensures !PairAt(s, k) ==> CodePoints(s[k..]) == 1 + CodePoints(s[k + 1..])
  {
    assert s[k..][1..] == s[k + 1..];
    if PairAt(s, k) {
      assert s[k..][2..] == s[k + 2..];
      assert s[k + 1..][1..] == s[k + 2..];
    }
  }

  lemma {:induction false} LongerSuffixHasMore(s: Text, k: nat, m: nat)
    requires k <= m <= |s|
    ensures CodePoints(s[k..]) >= CodePoints(s[m..])
    decreases m - k
  {
    if k < m {
      SuffixStep(s, k);
      LongerSuffixHasMore(s, k + 1, m);
    }
  }

  /** A clip is a suffix of at most 2000 code points that splits no pair, and no longer suffix is that short. */
  ghost predicate IsClip(s: Text, start: nat) {
    && start <= |s| && !Splits(s, start)
    && CodePoints(s[start..]) <= DIAGNOSTIC_CHARS
    && forall k: nat :: k < start ==> CodePoints(s[k..]) > DIAGNOSTIC_CHARS
  }

  lemma ClipIsUnique(s: Text, a: nat, b: nat)
    requires IsClip(s, a) && IsClip(s, b)
    ensures a == b
  {
  }

  method ClipEvidenceDiagnostic(value: Text) returns (clipped: Text)
    ensures exists start: nat :: IsClip(value, start) && clipped == value[start..]
    ensures clipped == value <==> CodePoints(value) <= DIAGNOSTIC_CHARS
  {
    var start := |value|;
    var remaining := DIAGNOSTIC_CHARS;
    while start > 0 && remaining > 0
      invariant 0 <= start <= |value| && 0 <= remaining
      invariant !Splits(value, start)
      invariant CodePoints(value[start..]) + remaining == DIAGNOSTIC_CHARS
    {
      start := start - 1;
      SuffixStep(value, start);
      if IsLowSurrogate(value[start]) && start > 0 {
        if IsHighSurrogate(value[start - 1]) {
          start := start - 1;
          SuffixStep(value, start);
        }
      }
      remaining := remaining - 1;
    }
    if start > 0 {
      SuffixStep(value, start - 1);
      forall k: nat | k < start ensures CodePoints(value[k..]) > DIAGNOSTIC_CHARS { LongerSuffixHasMore(value, k, start - 1); }
      assert CodePoints(value[0..]) > DIAGNOSTIC_CHARS;
    }
    assert value[0..] == value;
    assert IsClip(value, start);
    clipped := value[start..];
  }

  /** The reader's check, which counts forward and gives up after 2000. */
  method IsBoundedDiagnostic(value: Text) returns (bounded: bool)
    ensures bounded <==> CodePoints(value) <= DIAGNOSTIC_CHARS
  {
    var count := 0;
    var index := 0;
    assert value[0..] == value;
    while index < |value|
      invariant 0 <= index <= |value| && count <= DIAGNOSTIC_CHARS
      invariant count + CodePoints(value[index..]) == CodePoints(value)
    {
      SuffixStep(value, index);
      index := index + if PairAt(value, index) then 2 else 1;
      count := count + 1;
      if count > DIAGNOSTIC_CHARS { return false; }
    }
    return true;
  }

  /** Clipping a clip again changes nothing. */
  lemma {:induction false} ClipIsIdempotent(value: Text, start: nat)
    requires IsClip(value, start)
    ensures forall again: nat :: IsClip(value[start..], again) ==> value[start..][again..] == value[start..]
  {
    var clipped := value[start..];
    assert clipped[0..] == clipped;
    forall again: nat | IsClip(clipped, again) ensures again == 0 {
      ClipIsUnique(clipped, again, 0);
    }
  }

  /** A clip of well-formed text is well formed: no pair is lost to the cut. */
  lemma ClipKeepsWellFormed(value: Text, start: nat)
    requires WellFormed(value) && IsClip(value, start)
    ensures WellFormed(value[start..])
  {
    var s := value[start..];
    forall i | 0 <= i < |s| && IsHighSurrogate(s[i]) ensures PairAt(s, i) { assert PairAt(value, start + i); }
    forall i | 0 <= i < |s| && IsLowSurrogate(s[i]) ensures PairAt(s, i - 1) { assert PairAt(value, start + i - 1); }
  }
}
