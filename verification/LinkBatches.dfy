/** Splitting a list of links into the requests that a reader program can take, greedily. */
module LinkBatches {
  import opened Wrappers

  datatype Link = Link(index: nat, relativePath: string)

  datatype Batch = Batch(links: seq<Link>, firstIndex: nat, count: nat)

  /** Whether a request for these links fits on the command line. */
  type Transport = seq<Link> -> bool

  function LinksOf(paths: seq<string>): seq<Link> { seq(|paths|, i requires 0 <= i < |paths| => Link(i, paths[i])) }

  /** Where a batch ends. */
  function End(b: Batch): nat { b.firstIndex + b.count }

  /** A non-empty run of the links that fits. */
  ghost predicate IsRun(fits: Transport, links: seq<Link>, b: Batch) {
    b.count > 0 && End(b) <= |links| && b.links == links[b.firstIndex..End(b)] && fits(b.links)
  }

  /** The link after the batch did not fit. */
  ghost predicate IsFull(fits: Transport, links: seq<Link>, b: Batch) {
    b.firstIndex <= End(b) < |links| && !fits(links[b.firstIndex..End(b) + 1])
  }

  /** Non-empty runs of the links, one after the other from the first link, each of which fits. */
  ghost predicate Runs(fits: Transport, links: seq<Link>, batches: seq<Batch>) {
    && (batches != [] ==> batches[0].firstIndex == 0)
    && (forall k :: 0 <= k < |batches| ==> IsRun(fits, links, batches[k]))
    && forall k :: 0 < k < |batches| ==> batches[k].firstIndex == End(batches[k - 1])
  }

  /** How many links the batches hold together. */
  function Covered(batches: seq<Batch>): nat { if batches == [] then 0 else End(batches[|batches| - 1]) }

  /** A partition of all links into consecutive batches that fit. */
  ghost predicate Partition(fits: Transport, links: seq<Link>, batches: seq<Batch>) {
    Runs(fits, links, batches) && Covered(batches) == |links|
  }

  /** No batch could have taken the link after it. */
  ghost predicate Maximal(fits: Transport, links: seq<Link>, batches: seq<Batch>) {
    forall k :: 0 <= k < |batches| && End(batches[k]) < |links| ==> IsFull(fits, links, batches[k])
  }

  /** Every batch was closed because the link after it did not fit. */
  ghost predicate AllFull(fits: Transport, links: seq<Link>, batches: seq<Batch>) {
    forall k :: 0 <= k < |batches| ==> IsFull(fits, links, batches[k])
  }

  lemma OneMoreRun(fits: Transport, links: seq<Link>, batches: seq<Batch>, b: Batch)
    requires Runs(fits, links, batches) && IsRun(fits, links, b) && b.firstIndex == Covered(batches)
    ensures Runs(fits, links, batches + [b]) && Covered(batches + [b]) == End(b)
  {
  }

  lemma OneMoreFull(fits: Transport, links: seq<Link>, batches: seq<Batch>, b: Batch)
    requires AllFull(fits, links, batches) && (IsFull(fits, links, b) || End(b) == |links|)
    ensures IsFull(fits, links, b) ==> AllFull(fits, links, batches + [b])
    ensures Maximal(fits, links, batches + [b])
  {
  }

  /** The error is the index of the link that cannot be sent even alone. */
  method ManagedExternalFileLinkBatches(fits: Transport, paths: seq<string>) returns (r: Result<seq<Batch>, nat>)
    ensures r.Ok? ==> Partition(fits, LinksOf(paths), r.value) && Maximal(fits, LinksOf(paths), r.value)
    ensures r.Err? ==> r.error < |paths| && !fits([LinksOf(paths)[r.error]])
  {
    var links := LinksOf(paths);
    var batches: seq<Batch>, currentLinks: seq<Link> := [], [];
    for index := 0 to |links|
      invariant Runs(fits, links, batches) && AllFull(fits, links, batches)
      invariant Covered(batches) <= index && currentLinks == links[Covered(batches)..index]
      invariant index > 0 ==> currentLinks != [] && fits(currentLinks)
    {
      var link := links[index];
      assert currentLinks + [link] == links[Covered(batches)..index + 1];
      if fits(currentLinks + [link]) {
        currentLinks := currentLinks + [link];
      } else {
        assert currentLinks == [] ==> currentLinks + [link] == [link];
        if currentLinks == [] { return Err(index); }
        var batch := Batch(currentLinks, currentLinks[0].index, |currentLinks|);
        OneMoreRun(fits, links, batches, batch);
        OneMoreFull(fits, links, batches, batch);
        batches := batches + [batch];
        currentLinks := [link];
        assert links[index..index + 1] == [link];
        if !fits(currentLinks) { return Err(index); }
      }
    }
    if currentLinks != [] {
      var batch := Batch(currentLinks, currentLinks[0].index, |currentLinks|);
      OneMoreRun(fits, links, batches, batch);
      OneMoreFull(fits, links, batches, batch);
      batches := batches + [batch];
    }
    return Ok(batches);
  }

  /** All links are sent exactly once and in order. */
  lemma {:induction false} EveryLinkOnce(fits: Transport, links: seq<Link>, batches: seq<Batch>)
    requires Runs(fits, links, batches)
    ensures Covered(batches) <= |links| && Flatten(batches) == links[..Covered(batches)]
  {
    if batches != [] {
      var shorter, last := batches[..|batches| - 1], batches[|batches| - 1];
      EveryLinkOnce(fits, links, shorter);
      assert links[..End(last)] == links[..last.firstIndex] + links[last.firstIndex..End(last)];
    }
  }

  function Flatten(batches: seq<Batch>): seq<Link> {
    if batches == [] then [] else Flatten(batches[..|batches| - 1]) + batches[|batches| - 1].links
  }

  // ---------------------------------------------------------------- optimality

  /** Shorter runs fit whenever longer ones do. */
  ghost predicate ShorterFits(fits: Transport, links: seq<Link>) {
    forall a, b, c, d :: 0 <= a <= b < c <= d <= |links| && fits(links[a..d]) ==> fits(links[b..c])
  }

  /** A run that fits and starts no later than a full one ends no later. */
  lemma FullReachesFurther(fits: Transport, links: seq<Link>, a: nat, full: nat, c: nat, d: nat)
    requires ShorterFits(fits, links) && c <= a <= full < |links| && d <= |links| && c <= d
    requires !fits(links[a..full + 1]) && fits(links[c..d])
    ensures d <= full
  {
  }

  /** Greedy batches reach at least as far as any others. */
  lemma {:induction false} StaysAhead(fits: Transport, links: seq<Link>, greedy: seq<Batch>, other: seq<Batch>, k: nat)
    requires ShorterFits(fits, links) && Partition(fits, links, greedy) && Maximal(fits, links, greedy) && Runs(fits, links, other)
    requires k < |greedy| && k < |other|
    ensures End(greedy[k]) >= End(other[k])
  {
    if k > 0 { StaysAhead(fits, links, greedy, other, k - 1); }
    if End(greedy[k]) < |links| {
      FullReachesFurther(fits, links, greedy[k].firstIndex, End(greedy[k]), other[k].firstIndex, End(other[k]));
    }
  }

  /** No partition into consecutive batches that fit has fewer batches. */
  lemma GreedyIsOptimal(fits: Transport, links: seq<Link>, greedy: seq<Batch>, other: seq<Batch>)
    requires ShorterFits(fits, links) && Partition(fits, links, greedy) && Maximal(fits, links, greedy) && Partition(fits, links, other)
    ensures |greedy| <= |other|
  {
    if |other| < |greedy| {
      var next := greedy[|other|];
      if other != [] { StaysAhead(fits, links, greedy, other, |other| - 1); }
    }
  }

  /** When shorter runs fit, a link that cannot be sent alone means that there is no partition at all. */
  lemma FailureIsFinal(fits: Transport, links: seq<Link>, i: nat, other: seq<Batch>)
    requires ShorterFits(fits, links) && i < |links| && !fits([links[i]])
    ensures !Partition(fits, links, other)
  {
    assert links[i..i + 1] == [links[i]];
    if Partition(fits, links, other) { var k := Holding(fits, links, other, i); }
  }

  lemma {:induction false} Holding(fits: Transport, links: seq<Link>, batches: seq<Batch>, i: nat) returns (k: nat)
    requires Runs(fits, links, batches) && i < Covered(batches)
    ensures k < |batches| && batches[k].firstIndex <= i < End(batches[k])
    ensures fits(links[batches[k].firstIndex..End(batches[k])])
  {
    var last := |batches| - 1;
    if batches[last].firstIndex <= i {
      k := last;
    } else {
      k := Holding(fits, links, batches[..last], i);
    }
  }
}
