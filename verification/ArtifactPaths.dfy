/** Which declared artifact root owns a path. */
module ArtifactPaths {
  import opened Wrappers
  import opened Utf16

  const SLASH: CodeUnit := 0x2F
  const STAR: CodeUnit := 0x2A

  /** The characters of a glob that a root may not contain. */
  predicate IsGlob(c: CodeUnit) { c == STAR || c == 0x3F || c == 0x5B || c == 0x5D || c == 0x7B || c == 0x7D }

  const TREE: Text := [SLASH, STAR, STAR]

  /** The root of a pattern that ends in a slash and two stars; `None` is the exception for any other pattern. */
  function RootOf(pattern: Text): Option<Text> {
    if |pattern| < 3 || pattern[|pattern| - 3..] != TREE || BACKSLASH in pattern then None
    else
      var root := pattern[..|pattern| - 3];
      if exists i :: 0 <= i < |root| && IsGlob(root[i]) then None else Some(root)
  }

  /** One past the last slash, or zero. */
  function AfterLastSlash(s: Text): (n: nat)
    ensures n <= |s| && (n > 0 ==> s[n - 1] == SLASH)
    ensures forall k :: n <= k < |s| ==> s[k] != SLASH
  {
    if s == [] then 0 else if s[|s| - 1] == SLASH then |s| else AfterLastSlash(s[..|s| - 1])
  }

  function WithoutSlash(path: Text): Text { if path != [] && path[|path| - 1] == SLASH then path[..|path| - 1] else path }

  /** A root is the path itself or its first segments. */
  predicate IsSegmentPrefix(root: Text, path: Text) {
    root == path || (|root| < |path| && root == path[..|root|] && path[|root|] == SLASH)
  }

  predicate Owns(roots: set<Text>, path: Text, root: Text) {
    root in roots && root != [] && BACKSLASH !in path && IsSegmentPrefix(root, WithoutSlash(path))
  }

  /** The deepest root that owns the path. */
  ghost predicate IsOwningRoot(roots: set<Text>, path: Text, r: Option<Text>) {
    match r
    case None => forall q :: !Owns(roots, path, q)
    case Some(root) => Owns(roots, path, root) && forall q :: Owns(roots, path, q) ==> |q| <= |root|
  }

  /** The roots of all patterns, or `None` if one of them cannot be checked safely. */
  method Roots(patterns: seq<Text>) returns (r: Option<set<Text>>)
    ensures r.Some? <==> forall i :: 0 <= i < |patterns| ==> RootOf(patterns[i]).Some?
    ensures r.Some? ==> forall root :: root in r.value <==> exists i :: 0 <= i < |patterns| && RootOf(patterns[i]) == Some(root)
  {
    var roots: set<Text> := {};
    for i := 0 to |patterns|
      invariant forall j :: 0 <= j < i ==> RootOf(patterns[j]).Some?
      invariant forall root :: root in roots <==> exists j :: 0 <= j < i && RootOf(patterns[j]) == Some(root)
    {
      var root := RootOf(patterns[i]);
      if root.None? { return None; }
      roots := roots + {root.value};
    }
    return Some(roots);
  }

  /** A pattern stands for its root and everything below it. */
  lemma PatternCoversItsTree(roots: set<Text>, pattern: Text, below: Text)
    requires RootOf(pattern).Some? && RootOf(pattern).value in roots && RootOf(pattern).value != []
    requires below != [] && BACKSLASH !in below && below[|below| - 1] != SLASH
    ensures Owns(roots, RootOf(pattern).value + [SLASH], RootOf(pattern).value)
    ensures Owns(roots, RootOf(pattern).value + [SLASH] + below, RootOf(pattern).value)
  {
    var root := RootOf(pattern).value;
    var path := root + [SLASH] + below;
    assert path[..|root|] == root && path[|root|] == SLASH && WithoutSlash(path) == path;
    assert WithoutSlash(root + [SLASH]) == root;
  }

  method OwningRoot(roots: set<Text>, path: Text) returns (r: Option<Text>)
    ensures IsOwningRoot(roots, path, r)
  {
    if BACKSLASH in path { return None; }
    var candidate := WithoutSlash(path);
    while candidate != []
      invariant candidate == [] || IsSegmentPrefix(candidate, WithoutSlash(path))
      invariant forall q :: Owns(roots, path, q) ==> |q| <= |candidate|
      decreases |candidate|
    {
      if candidate in roots { return Some(candidate); }
      var after := AfterLastSlash(candidate);
      ShorterCandidates(roots, path, candidate, if after == 0 then 0 else after - 1);
      if after == 0 { return None; }
      candidate := candidate[..after - 1];
    }
    return None;
  }

  /** Between the candidate and its last slash there is no owner. */
  lemma ShorterCandidates(roots: set<Text>, path: Text, candidate: Text, cut: nat)
    requires candidate != [] && candidate !in roots && IsSegmentPrefix(candidate, WithoutSlash(path))
    requires cut < |candidate| && cut == if AfterLastSlash(candidate) == 0 then 0 else AfterLastSlash(candidate) - 1
    requires forall q :: Owns(roots, path, q) ==> |q| <= |candidate|
    ensures forall q :: Owns(roots, path, q) ==> |q| <= cut
    ensures cut > 0 ==> IsSegmentPrefix(candidate[..cut], WithoutSlash(path))
  {
    forall q | Owns(roots, path, q) ensures |q| <= cut { OwnersEndAtSlashes(roots, path, candidate, q); }
    SegmentsOfSegments(WithoutSlash(path), candidate, cut);
  }

  lemma SegmentsOfSegments(whole: Text, candidate: Text, cut: nat)
    requires IsSegmentPrefix(candidate, whole) && cut < |candidate| && (cut > 0 ==> candidate[cut] == SLASH)
    ensures cut > 0 ==> IsSegmentPrefix(candidate[..cut], whole)
  {
    assert candidate == whole[..|candidate|];
    assert candidate[..cut] == whole[..cut];
  }

  lemma OwnersEndAtSlashes(roots: set<Text>, path: Text, candidate: Text, q: Text)
    requires IsSegmentPrefix(candidate, WithoutSlash(path)) && candidate !in roots
    requires Owns(roots, path, q) && |q| <= |candidate|
    ensures |q| < |candidate| && candidate[|q|] == SLASH
  {
    var whole := WithoutSlash(path);
    assert q == whole[..|q|] && candidate == whole[..|candidate|];
  }

  /** There is only one deepest root. */
  lemma OwningRootIsUnique(roots: set<Text>, path: Text, a: Option<Text>, b: Option<Text>)
    requires IsOwningRoot(roots, path, a) && IsOwningRoot(roots, path, b)
    ensures a == b
  {
    if a.Some? && b.Some? {
      var whole := WithoutSlash(path);
      assert a.value == whole[..|a.value|] && b.value == whole[..|b.value|];
    }
  }
}
