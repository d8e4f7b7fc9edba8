/** Ordinal order on texts, and sorting by it. */
module OrdinalOrder {
  import opened Utf16

  predicate Less(a: Text, b: Text) {
    b != [] && (a == [] || a[0] < b[0] || (a[0] == b[0] && Less(a[1..], b[1..])))
  }

  predicate StrictlySorted(s: seq<Text>) {
    forall i, j :: 0 <= i < j < |s| ==> Less(s[i], s[j])
  }

  ghost predicate Lists(s: seq<Text>, keys: set<Text>) {
    forall k :: k in s <==> k in keys
  }

  lemma {:induction false} LessIsTotal(a: Text, b: Text)
    ensures Less(a, b) || Less(b, a) || a == b
    ensures !(Less(a, b) && Less(b, a)) && !Less(a, a)
  {
    if a != [] && b != [] && a[0] == b[0] {
      LessIsTotal(a[1..], b[1..]);
      assert a == [a[0]] + a[1..] && b == [b[0]] + b[1..];
    }
    if a != [] { LessIsTotal(a[1..], a[1..]); }
  }

  lemma {:induction false} LessIsTransitive(a: Text, b: Text, c: Text)
    requires Less(a, b) && Less(b, c)
    ensures Less(a, c)
  {
    if a != [] && a[0] == b[0] == c[0] { LessIsTransitive(a[1..], b[1..], c[1..]); }
  }

  /** Puts a key in its place in a sorted sequence. */
  function Insert(k: Text, s: seq<Text>): seq<Text> {
    if s == [] || Less(k, s[0]) then [k] + s else [s[0]] + Insert(k, s[1..])
  }

  function Sort(s: seq<Text>): seq<Text> {
    if s == [] then [] else Insert(s[0], Sort(s[1..]))
  }

  lemma {:induction false} InsertKeepsOrder(k: Text, s: seq<Text>)
    requires StrictlySorted(s) && k !in s
    ensures StrictlySorted(Insert(k, s))
    ensures forall x :: x in Insert(k, s) <==> x == k || x in s
  {
    if s == [] {
    } else if Less(k, s[0]) {
      forall j | 0 < j < |s| ensures Less(k, s[j]) { LessIsTransitive(k, s[0], s[j]); }
    } else {
      LessIsTotal(k, s[0]);
      var t := Insert(k, s[1..]);
      InsertKeepsOrder(k, s[1..]);
      assert s == [s[0]] + s[1..];
      forall x | x in t ensures Less(s[0], x) {
        if x != k { var i :| 0 <= i < |s[1..]| && s[1..][i] == x; assert s[i + 1] == x; }
      }
    }
  }

  lemma {:induction false} SortIsSorted(s: seq<Text>)
    requires forall i, j :: 0 <= i < j < |s| ==> s[i] != s[j]
    ensures StrictlySorted(Sort(s))
    ensures forall x :: x in Sort(s) <==> x in s
  {
    if s != [] {
      SortIsSorted(s[1..]);
      InsertKeepsOrder(s[0], Sort(s[1..]));
      assert s == [s[0]] + s[1..];
    }
  }

  /** A set of keys has only one sorted listing, whatever order the keys came in. */
  lemma {:induction false} SortedListingIsUnique(a: seq<Text>, b: seq<Text>, keys: set<Text>)
    requires StrictlySorted(a) && StrictlySorted(b) && Lists(a, keys) && Lists(b, keys)
    ensures a == b
  {
    assert a != [] ==> a[0] in keys;
    assert b != [] ==> b[0] in keys;
    if a != [] && b != [] {
      FirstIsLeast(a, b, keys);
      FirstIsLeast(b, a, keys);
      LessIsTotal(a[0], b[0]);
      TailLists(a, keys);
      TailLists(b, keys);
      SortedListingIsUnique(a[1..], b[1..], keys - {a[0]});
      assert a == [a[0]] + a[1..] && b == [b[0]] + b[1..];
    }
  }

  lemma FirstIsLeast(a: seq<Text>, b: seq<Text>, keys: set<Text>)
    requires StrictlySorted(a) && Lists(a, keys) && Lists(b, keys) && a != [] && b != []
    ensures a[0] == b[0] || Less(a[0], b[0])
  {
    assert b[0] in keys;
    assert b[0] in a;
  }

  lemma TailLists(a: seq<Text>, keys: set<Text>)
    requires StrictlySorted(a) && Lists(a, keys) && a != []
    ensures Lists(a[1..], keys - {a[0]}) && StrictlySorted(a[1..])
  {
    assert a == [a[0]] + a[1..];
    LessIsTotal(a[0], a[0]);
    forall x | x in a[1..] ensures x != a[0] { }
  }

  // ---------------------------------------------------------------- sorting forgets the order

  lemma {:induction false} InsertAdds(k: Text, s: seq<Text>)
    ensures multiset(Insert(k, s)) == multiset(s) + multiset{k}
  {
    if s != [] && !Less(k, s[0]) {
      InsertAdds(k, s[1..]);
      assert s == [s[0]] + s[1..];
    }
  }

  lemma {:induction false} SortKeeps(s: seq<Text>)
    ensures multiset(Sort(s)) == multiset(s)
  {
    if s != [] {
      SortKeeps(s[1..]);
      InsertAdds(s[0], Sort(s[1..]));
      assert s == [s[0]] + s[1..];
    }
  }

  lemma {:induction false} InsertCommutes(a: Text, b: Text, s: seq<Text>)
    ensures Insert(a, Insert(b, s)) == Insert(b, Insert(a, s))
  {
    LessIsTotal(a, b);
    if s != [] {
      if Less(a, s[0]) && Less(b, s[0]) {
      } else if Less(a, s[0]) {
        SmallerStaysFirst(a, b, s);
      } else if Less(b, s[0]) {
        SmallerStaysFirst(b, a, s);
      } else {
        InsertCommutes(a, b, s[1..]);
      }
    }
  }

  lemma SmallerStaysFirst(a: Text, b: Text, s: seq<Text>)
    requires s != [] && Less(a, s[0]) && !Less(b, s[0])
    ensures Insert(a, Insert(b, s)) == Insert(b, Insert(a, s))
  {
    LessIsTotal(b, s[0]);
    LessIsTotal(a, b);
    if Less(b, a) { LessIsTransitive(b, a, s[0]); }
    assert ([a] + s)[1..] == s;
  }

  /** An element can be taken out of the middle and inserted last. */
  lemma {:induction false} SortTakesOut(s: seq<Text>, k: nat)
    requires k < |s|
    ensures Sort(s) == Insert(s[k], Sort(s[..k] + s[k + 1..]))
  {
    if k == 0 {
      assert s[..0] + s[1..] == s[1..];
    } else {
      var tail := s[1..];
      SortTakesOut(tail, k - 1);
      var less := s[..k] + s[k + 1..];
      assert less[0] == s[0] && less[1..] == tail[..k - 1] + tail[k..];
      InsertCommutes(s[0], s[k], Sort(less[1..]));
    }
  }

  /** Sorting gives the same for every order of the same elements. */
  lemma {:induction false} SortForgetsOrder(a: seq<Text>, b: seq<Text>)
    requires multiset(a) == multiset(b)
    ensures Sort(a) == Sort(b)
  {
    if a == [] {
      assert |multiset(b)| == 0;
    } else {
      assert a[0] in multiset(b);
      var k :| 0 <= k < |b| && b[k] == a[0];
      var less := b[..k] + b[k + 1..];
      assert a == [a[0]] + a[1..];
      assert b == b[..k] + [b[k]] + b[k + 1..];
      assert multiset(a[1..]) == multiset(a) - multiset{a[0]};
      assert multiset(less) == multiset(b) - multiset{b[k]};
      SortForgetsOrder(a[1..], less);
      SortTakesOut(b, k);
    }
  }
}
