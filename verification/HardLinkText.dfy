/** The text that is digested for a scan: its sorted records, joined by NUL, can be cut into records in one way only. */
module HardLinkText {
  import opened Wrappers
  import opened Utf16
  import opened OrdinalOrder
  import opened HardLinks
  import A = ArtifactPaths
  import C = JsonCanonical

  // ---------------------------------------------------------------- joined records and their fields

  /** The fields of all records, in order. */
  function Flat(records: seq<seq<Text>>): seq<Text> { if records == [] then [] else records[0] + Flat(records[1..]) }

  function FieldsOf(records: seq<Text>): seq<seq<Text>> { if records == [] then [] else [Split(NUL, records[0])] + FieldsOf(records[1..]) }

  lemma {:induction false} FieldsAt(records: seq<Text>, i: nat)
    ensures |FieldsOf(records)| == |records|
    ensures i < |records| ==> FieldsOf(records)[i] == Split(NUL, records[i])
  {
    if records != [] { FieldsAt(records[1..], if i > 0 then i - 1 else 0); }
  }

  lemma {:induction false} SplitOfTwo(separator: CodeUnit, a: Text, b: Text)
    ensures Split(separator, a + [separator] + b) == Split(separator, a) + Split(separator, b)
  {
    var whole := a + [separator] + b;
    if a == [] {
      assert whole == [separator] + b;
      assert whole[1..] == b;
    } else {
      assert whole[1..] == a[1..] + [separator] + b;
      SplitOfTwo(separator, a[1..], b);
    }
  }

  lemma {:induction false} SplitOfJoined(records: seq<Text>)
    requires records != []
    ensures Split(NUL, Join(NUL, records)) == Flat(FieldsOf(records))
  {
    if |records| == 1 {
      assert FieldsOf(records) == [Split(NUL, records[0])] + [];
      assert Flat(FieldsOf(records)) == Split(NUL, records[0]) + [];
    } else {
      SplitOfTwo(NUL, records[0], Join(NUL, records[1..]));
      SplitOfJoined(records[1..]);
      assert FieldsOf(records)[1..] == FieldsOf(records[1..]);
    }
  }

  lemma {:induction false} JoinOfSplit(separator: CodeUnit, t: Text)
    ensures Join(separator, Split(separator, t)) == t
  {
    if t != [] {
      var rest := Split(separator, t[1..]);
      JoinOfSplit(separator, t[1..]);
      if t[0] == separator {
        assert ([[]] + rest)[1..] == rest;
        assert Join(separator, [[]] + rest) == [] + [separator] + Join(separator, rest);
      } else {
        PrefixedJoin(separator, t[0], rest);
      }
    }
  }

  lemma PrefixedJoin(separator: CodeUnit, c: CodeUnit, fields: seq<Text>)
    requires fields != []
    ensures Join(separator, [[c] + fields[0]] + fields[1..]) == [c] + Join(separator, fields)
  {
    if |fields| > 1 { assert ([[c] + fields[0]] + fields[1..])[1..] == fields[1..]; }
  }

  // ---------------------------------------------------------------- the shapes of records

  function Count(c: CodeUnit, t: Text): nat { if t == [] then 0 else (if t[0] == c then 1 else 0) + Count(c, t[1..]) }

  function Colons(t: Text): nat { Count(COLON, t) }

  predicate Plain(t: Text) { A.SLASH !in t }

  /** A kind, the ten numbers, and a link digest or nothing. */
  predicate IsEntry(f: seq<Text>) {
    && |f| == 5 && Colons(f[1]) == 0 && Plain(f[1]) && 1 <= |f[1]| <= 13
    && Colons(f[3]) == 9 && Plain(f[3]) && Colons(f[4]) == 0 && (|f[4]| == 0 || |f[4]| == 64)
  }

  /** The tag, two numbers, a root, and at least two paths under it: one without slash is the root itself. */
  predicate IsGroup(f: seq<Text>) {
    && |f| >= 5 && |f[0]| == 15 && Plain(f[0]) && Colons(f[0]) == 0 && Colons(f[1]) == 1 && Plain(f[1])
    && forall i :: 3 <= i < |f| && Plain(f[i]) ==> f[i] == f[2]
  }

  predicate Shaped(f: seq<Text>) { IsEntry(f) || IsGroup(f) }

  ghost predicate AllShaped(records: seq<seq<Text>>) { forall i :: 0 <= i < |records| ==> Shaped(records[i]) }

  /** A group that runs on into the next record ends before its kind and numbers, or its tag and numbers, are over. */
  lemma GroupEndsSoon(y: seq<Text>, n: nat, h: seq<Text>)
    requires IsGroup(y) && Shaped(h) && 3 <= n <= |y| && forall i :: 0 <= i < |h| && n + i < |y| ==> y[n + i] == h[i]
    ensures |y| - n <= if IsEntry(h) then 3 else 1
  {
  }

  /** No record starts inside an entry, before its last two fields. */
  lemma NotWithinEntry(h: seq<Text>, k: nat, next: seq<Text>) returns (i: nat)
    requires IsEntry(h) && Shaped(next) && 1 <= k <= 3
    ensures i < 5 - k && next[i] != h[k + i]
  {
    i := if k > 1 then 1 else if IsEntry(next) then 3 else 0;
  }

  /** No record starts at the numbers of a group. */
  lemma NotWithinGroup(h: seq<Text>, next: seq<Text>) returns (i: nat)
    requires IsGroup(h) && Shaped(next)
    ensures i < 4 && next[i] != h[1 + i]
  {
    i := if IsGroup(next) then 0 else if next[1] == h[2] then 3 else 1;
  }

  // ---------------------------------------------------------------- one way to cut

  lemma FlatHead(records: seq<seq<Text>>, i: nat)
    requires records != [] && i < |records[0]|
    ensures i < |Flat(records)| && Flat(records)[i] == records[0][i]
  {
  }

  lemma FlatTail(records: seq<seq<Text>>)
    requires records != []
    ensures |Flat(records)| == |records[0]| + |Flat(records[1..])|
    ensures forall i :: 0 <= i < |Flat(records[1..])| ==> Flat(records)[|records[0]| + i] == Flat(records[1..])[i]
  {
  }

  /** The fields of the second record. */
  lemma FlatSecond(records: seq<seq<Text>>)
    requires |records| > 1
    ensures |Flat(records)| >= |records[0]| + |records[1]|
    ensures forall i :: 0 <= i < |records[1]| ==> Flat(records)[|records[0]| + i] == records[1][i]
  {
    FlatTail(records);
    FlatTail(records[1..]);
    forall i | 0 <= i < |records[1]| ensures Flat(records)[|records[0]| + i] == records[1][i] { FlatHead(records[1..], i); }
  }

  /** The second record of one text, seen from the first of the other. */
  lemma Overlaps(a: seq<seq<Text>>, b: seq<seq<Text>>, i: nat)
    requires |a| > 1 && b != [] && Flat(a) == Flat(b) && i < |a[1]| && |a[0]| + i < |b[0]|
    ensures b[0][|a[0]| + i] == a[1][i]
  {
    FlatSecond(a);
    FlatHead(b, |a[0]| + i);
  }

  lemma HeadsAreAlike(a: seq<seq<Text>>, b: seq<seq<Text>>)
    requires a != [] && b != [] && AllShaped(a) && AllShaped(b) && Flat(a) == Flat(b)
    ensures IsEntry(a[0]) <==> IsEntry(b[0])
  {
    assert Shaped(a[0]) && Shaped(b[0]);
    FlatHead(a, 1);
    FlatHead(b, 1);
  }

  lemma SecondAt(records: seq<seq<Text>>, i: nat)
    requires |records| > 1 && i < |records[1]|
    ensures |records[0]| + i < |Flat(records)| && Flat(records)[|records[0]| + i] == records[1][i]
  {
    FlatSecond(records);
  }

  lemma SecondIsThere(a: seq<seq<Text>>, b: seq<seq<Text>>)
    requires |a| > 1 && b != [] && Flat(a) == Flat(b) && |b[0]| < |a[0]| + |a[1]|
    ensures |b| > 1
  {
    FlatSecond(a);
    FlatTail(b);
  }

  /** A field of the second record of one text cannot be a different field of the second record of the other. */
  lemma Aligned(a: seq<seq<Text>>, b: seq<seq<Text>>, k: nat, i: nat)
    requires |a| > 1 && |b| > 1 && Flat(a) == Flat(b) && |b[0]| == |a[0]| + k && k + i < |a[1]| && i < |b[1]|
    ensures b[1][i] == a[1][k + i]
  {
    SecondAt(a, k + i);
    SecondAt(b, i);
  }

  /** The second records start at the same field. */
  lemma SameStart(a: seq<seq<Text>>, b: seq<seq<Text>>, k: nat)
    requires |a| > 1 && b != [] && AllShaped(a) && AllShaped(b) && Flat(a) == Flat(b)
    requires |b[0]| == |a[0]| + k && k <= if IsEntry(a[1]) then 3 else 1
    ensures k == 0
  {
    assert Shaped(a[1]);
    if k > 0 {
      SecondIsThere(a, b);
      assert Shaped(b[1]);
      var i := Misaligned(a[1], k, b[1]);
      Aligned(a, b, k, i);
    }
  }

  lemma Misaligned(h: seq<Text>, k: nat, next: seq<Text>) returns (i: nat)
    requires Shaped(h) && Shaped(next) && 1 <= k <= if IsEntry(h) then 3 else 1
    ensures k + i < |h| && i < |next| && next[i] != h[k + i]
  {
    if IsEntry(h) { i := NotWithinEntry(h, k, next); } else { i := NotWithinGroup(h, next); }
  }

  /** The first record of two equal texts is not longer in one of them. */
  lemma HeadsEndTogether(a: seq<seq<Text>>, b: seq<seq<Text>>)
    requires a != [] && b != [] && AllShaped(a) && AllShaped(b) && Flat(a) == Flat(b) && |a[0]| <= |b[0]|
    ensures |a[0]| == |b[0]|
  {
    HeadsAreAlike(a, b);
    assert Shaped(a[0]) && Shaped(b[0]);
    FlatTail(a);
    FlatTail(b);
    if !IsEntry(b[0]) && |a| > 1 {
      var n := |a[0]|;
      forall i | 0 <= i < |a[1]| && n + i < |b[0]| ensures b[0][n + i] == a[1][i] { Overlaps(a, b, i); }
      GroupEndsSoon(b[0], n, a[1]);
      SameStart(a, b, |b[0]| - n);
    }
  }

  /** Equal fields come from equal records. */
  lemma {:induction false} OneCut(a: seq<seq<Text>>, b: seq<seq<Text>>)
    requires AllShaped(a) && AllShaped(b) && Flat(a) == Flat(b)
    ensures a == b
  {
    assert (a != [] ==> Shaped(a[0])) && (b != [] ==> Shaped(b[0]));
    if a != [] && b != [] {
      if |a[0]| <= |b[0]| { HeadsEndTogether(a, b); } else { HeadsEndTogether(b, a); }
      assert a[0] == Flat(a)[..|a[0]|] && b[0] == Flat(b)[..|b[0]|];
      assert Flat(a[1..]) == Flat(a)[|a[0]|..] && Flat(b[1..]) == Flat(b)[|b[0]|..];
      OneCut(a[1..], b[1..]);
    }
  }

  // ---------------------------------------------------------------- the records of an accepted scan

  lemma {:induction false} CountAbsent(c: CodeUnit, t: Text)
    requires c !in t
    ensures Count(c, t) == 0
  {
    if t != [] { CountAbsent(c, t[1..]); }
  }

  lemma {:induction false} CountOfTwo(c: CodeUnit, a: Text, b: Text)
    ensures Count(c, a + b) == Count(c, a) + Count(c, b)
  {
    if a == [] {
      assert a + b == b;
    } else {
      CountOfTwo(c, a[1..], b);
      assert (a + b)[1..] == a[1..] + b;
    }
  }

  lemma {:induction false} CountOfJoin(separator: CodeUnit, fields: seq<Text>)
    requires fields != [] && forall i :: 0 <= i < |fields| ==> separator !in fields[i]
    ensures Count(separator, Join(separator, fields)) == |fields| - 1
  {
    CountAbsent(separator, fields[0]);
    if |fields| > 1 {
      CountOfJoin(separator, fields[1..]);
      CountOfTwo(separator, fields[0] + [separator], Join(separator, fields[1..]));
      CountOfTwo(separator, fields[0], [separator]);
    }
  }

  lemma NumbersAreShaped(numbers: seq<nat>)
    requires numbers != []
    ensures Colons(NumbersText(numbers)) == |numbers| - 1 && Plain(NumbersText(numbers))
  {
    var t := seq(|numbers|, i requires 0 <= i < |numbers| => C.DecimalText(numbers[i]));
    forall i | 0 <= i < |t| ensures COLON !in t[i] && A.SLASH !in t[i] {
      DecimalHasNo(numbers[i], COLON);
      DecimalHasNo(numbers[i], A.SLASH);
    }
    CountOfJoin(COLON, t);
    JoinHasNo(COLON, t, A.SLASH);
  }

  lemma KindIsShaped(kind: Kind)
    ensures Colons(KindText(kind)) == 0 && Plain(KindText(kind)) && 1 <= |KindText(kind)| <= 13
  {
    CountAbsent(COLON, KindText(kind));
  }

  lemma EntryIsShaped(o: Observation)
    requires Legible(o)
    ensures IsEntry(EntryFields(o))
  {
    KindIsShaped(o.kind);
    NumbersAreShaped(Numbers(o.stat));
    CountAbsent(COLON, OrEmpty(o.linkDigest));
  }

  /** A path without slash is owned only by itself. */
  lemma PlainIsRoot(roots: set<Text>, path: Text, root: Text)
    requires A.Owns(roots, path, root) && Plain(path)
    ensures path == root
  {
    assert A.WithoutSlash(path) == path;
  }

  lemma MemberIsUnder(os: seq<Observation>, roots: set<Text>, inode: Inode, i: nat)
    requires Accepted(os) && Scanned(os, roots) && inode in Inodes(os) && i < |Sort(Paths(Members(os, inode)))|
    ensures GroupFits(Members(os, inode)) && A.Owns(roots, Sort(Paths(Members(os, inode)))[i], Members(os, inode)[0].root.value)
  {
    var members := Members(os, inode);
    var path := Sort(Paths(members))[i];
    SortKeeps(Paths(members));
    assert path in multiset(Paths(members));
    var j :| 0 <= j < |members| && members[j].path == path;
    MemberIs(os, inode, members[j]);
    var k :| 0 <= k < |os| && os[k] == members[j];
    assert A.IsOwningRoot(roots, os[k].path, os[k].root);
  }

  lemma GroupIsShaped(os: seq<Observation>, roots: set<Text>, inode: Inode)
    requires Accepted(os) && Scanned(os, roots) && inode in Inodes(os)
    ensures IsGroup(GroupFields(inode, Members(os, inode)))
  {
    var members := Members(os, inode);
    var fields, paths := GroupFields(inode, members), Sort(Paths(members));
    GroupHasTwo(os, inode);
    forall i | 0 <= i < |paths| && Plain(paths[i]) ensures paths[i] == members[0].root.value {
      MemberIsUnder(os, roots, inode, i);
      PlainIsRoot(roots, paths[i], members[0].root.value);
    }
    assert fields == [fields[0], NumbersText([inode.0, inode.1]), members[0].root.value] + paths;
    NumbersAreShaped([inode.0, inode.1]);
    TagHasNo(fields[0]);
    CountAbsent(COLON, fields[0]);
    FieldsAreShaped(fields[0], fields[1], fields[2], paths);
  }

  lemma TagHasNo(tag: Text)
    requires tag == GROUP_TAG
    ensures |tag| == 15 && Plain(tag) && COLON !in tag
  {
  }

  lemma FieldsAreShaped(tag: Text, key: Text, root: Text, paths: seq<Text>)
    requires |tag| == 15 && Plain(tag) && Colons(tag) == 0 && Colons(key) == 1 && Plain(key)
    requires |paths| >= 2 && forall i :: 0 <= i < |paths| && Plain(paths[i]) ==> paths[i] == root
    ensures IsGroup([tag, key, root] + paths)
  {
    var f := [tag, key, root] + paths;
    forall i | 3 <= i < |f| && Plain(f[i]) ensures f[i] == f[2] { assert f[i] == paths[i - 3]; }
  }

  lemma GroupHasTwo(os: seq<Observation>, inode: Inode)
    requires Accepted(os) && inode in Inodes(os)
    ensures GroupFits(Members(os, inode)) && |Sort(Paths(Members(os, inode)))| >= 2
  {
    var members := Members(os, inode);
    var paths := Sort(Paths(members));
    HasMembers(os, inode);
    MemberIs(os, inode, members[0]);
    SortKeeps(Paths(members));
    assert |paths| == |multiset(paths)| == |multiset(Paths(members))| == |members|;
  }

  lemma RecordIsShaped(os: seq<Observation>, roots: set<Text>, i: nat)
    requires Accepted(os) && Scanned(os, roots) && i < |Records(os)|
    ensures Shaped(Split(NUL, Records(os)[i]))
  {
    if i < |os| {
      ScannedIsLegible(os, roots, i);
      EntryRecordIsShaped(os[i], EntryFields(os[i]));
    } else {
      var inode := Inodes(os)[i - |os|];
      GroupRecordIsShaped(os, roots, inode, GroupFields(inode, Members(os, inode)));
    }
  }

  lemma EntryRecordIsShaped(o: Observation, fields: seq<Text>)
    requires Legible(o) && fields == EntryFields(o)
    ensures Shaped(Split(NUL, EntryRecord(o)))
  {
    EntryIsLegible(o);
    EntryIsShaped(o);
    assert IsEntry(fields);
  }

  lemma GroupRecordIsShaped(os: seq<Observation>, roots: set<Text>, inode: Inode, fields: seq<Text>)
    requires Accepted(os) && Scanned(os, roots) && inode in Inodes(os) && fields == GroupFields(inode, Members(os, inode))
    ensures Shaped(Split(NUL, GroupRecord(inode, Members(os, inode))))
  {
    forall j | 0 <= j < |os| ensures Legible(os[j]) { ScannedIsLegible(os, roots, j); }
    GroupIsLegible(os, inode);
    GroupIsShaped(os, roots, inode);
    assert IsGroup(fields);
  }

  lemma SortedAreShaped(os: seq<Observation>, roots: set<Text>)
    requires Accepted(os) && Scanned(os, roots)
    ensures AllShaped(FieldsOf(Sort(Records(os))))
  {
    var sorted := Sort(Records(os));
    FieldsAt(sorted, 0);
    SortKeeps(Records(os));
    forall i | 0 <= i < |FieldsOf(sorted)| ensures Shaped(FieldsOf(sorted)[i]) {
      FieldsAt(sorted, i);
      assert sorted[i] in multiset(Records(os));
      var j :| 0 <= j < |Records(os)| && Records(os)[j] == sorted[i];
      RecordIsShaped(os, roots, j);
    }
  }

  // ---------------------------------------------------------------- what the digested text tells

  lemma FieldsTell(a: seq<Text>, b: seq<Text>)
    requires FieldsOf(a) == FieldsOf(b)
    ensures a == b
  {
    FieldsAt(a, 0);
    FieldsAt(b, 0);
    forall i | 0 <= i < |a| ensures a[i] == b[i] {
      FieldsAt(a, i);
      FieldsAt(b, i);
      JoinOfSplit(NUL, a[i]);
      JoinOfSplit(NUL, b[i]);
    }
  }

  /** The text of no record is not that of some. */
  lemma NoRecordTells(records: seq<Text>)
    requires AllShaped(FieldsOf(records)) && Join(NUL, records) == []
    ensures records == []
  {
    assert records != [] ==> Shaped(FieldsOf(records)[0]);
    if records != [] {
      FlatTail(FieldsOf(records));
      SplitOfJoined(records);
    }
  }

  lemma JoinTellsRecords(a: seq<Text>, b: seq<Text>)
    requires AllShaped(FieldsOf(a)) && AllShaped(FieldsOf(b)) && Join(NUL, a) == Join(NUL, b)
    ensures a == b
  {
    if a == [] {
      NoRecordTells(b);
    } else if b == [] {
      NoRecordTells(a);
    } else {
      SplitOfJoined(a);
      SplitOfJoined(b);
      OneCut(FieldsOf(a), FieldsOf(b));
      FieldsTell(a, b);
    }
  }

  /** Two accepted scans give the same text to digest exactly if they observed the same entries, in whatever order. */
  lemma TextTellsObservations(a: seq<Observation>, b: seq<Observation>, roots: set<Text>)
    requires Accepted(a) && Accepted(b) && Scanned(a, roots) && Scanned(b, roots)
    ensures Join(NUL, Sort(Records(a))) == Join(NUL, Sort(Records(b))) <==> multiset(a) == multiset(b)
  {
    if Join(NUL, Sort(Records(a))) == Join(NUL, Sort(Records(b))) {
      SortedAreShaped(a, roots);
      SortedAreShaped(b, roots);
      JoinTellsRecords(Sort(Records(a)), Sort(Records(b)));
      RecordsTellObservations(a, b, roots);
    }
    if multiset(a) == multiset(b) { OrderDoesNotMatter(a, b); }
  }
}
