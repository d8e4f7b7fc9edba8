/** The proof that a scanned checkout is closed under hard links: every name of a file lies under one artifact root. */
module HardLinks {
  import opened Wrappers
  import opened Utf16
  import opened OrdinalOrder
  import C = JsonCanonical
  import A = ArtifactPaths

  const NUL: CodeUnit := 0
  const COLON: CodeUnit := 0x3A
  const GROUP_TAG: Text := [0x68, 0x61, 0x72, 0x64, 0x2D, 0x6C, 0x69, 0x6E, 0x6B, 0x2D, 0x67, 0x72, 0x6F, 0x75, 0x70]

  datatype Kind = Directory | File | SymbolicLink

  datatype Stat = Stat(dev: nat, ino: nat, uid: nat, gid: nat, mode: nat, size: nat, nlink: nat, mtime: nat, ctime: nat, birthtime: nat)

  datatype Observation = Observation(path: Text, root: Option<Text>, kind: Kind, linkDigest: Option<Text>, stat: Stat)

  type Inode = (nat, nat)

  function InodeOf(o: Observation): Inode { (o.stat.dev, o.stat.ino) }

  /** A file with several names. */
  predicate IsLinked(o: Observation) { o.kind.File? && o.stat.nlink > 1 }

  predicate IsHexDigest(t: Text) { |t| == 64 && forall i :: 0 <= i < |t| ==> 0x30 <= t[i] <= 0x39 || 0x61 <= t[i] <= 0x66 }

  predicate EntryFits(o: Observation) {
    && o.path != [] && NUL !in o.path
    && if o.kind.SymbolicLink? then o.stat.nlink == 1 && o.linkDigest.Some? && IsHexDigest(o.linkDigest.value) else o.linkDigest.None?
  }

  ghost predicate DistinctPaths(os: seq<Observation>) { forall i, j :: 0 <= i < j < |os| ==> os[i].path != os[j].path }

  // ---------------------------------------------------------------- groups

  /** The observed names of an inode, in the order of observation. */
  function Members(os: seq<Observation>, inode: Inode): seq<Observation> {
    if os == [] then []
    else
      var last := os[|os| - 1];
      Members(os[..|os| - 1], inode) + if IsLinked(last) && InodeOf(last) == inode then [last] else []
  }

  /** The linked inodes, in the order in which they were first seen. */
  function Inodes(os: seq<Observation>): seq<Inode> {
    if os == [] then []
    else
      var earlier, last := Inodes(os[..|os| - 1]), os[|os| - 1];
      if IsLinked(last) && InodeOf(last) !in earlier then earlier + [InodeOf(last)] else earlier
  }

  /** All names of the file are there, with one identity, under one declared root. */
  predicate GroupFits(members: seq<Observation>) {
    && members != []
    && (forall i :: 0 <= i < |members| ==> members[i].stat == members[0].stat && members[i].root == members[0].root)
    && |members| == members[0].stat.nlink && members[0].root.Some?
  }

  ghost predicate Accepted(os: seq<Observation>) {
    && DistinctPaths(os)
    && (forall i :: 0 <= i < |os| ==> EntryFits(os[i]))
    && forall inode :: inode in Inodes(os) ==> GroupFits(Members(os, inode))
  }

  lemma {:induction false} MemberIs(os: seq<Observation>, inode: Inode, o: Observation)
    ensures o in Members(os, inode) <==> o in os && IsLinked(o) && InodeOf(o) == inode
  {
    if os != [] {
      MemberIs(os[..|os| - 1], inode, o);
      assert os == os[..|os| - 1] + [os[|os| - 1]];
    }
  }

  lemma {:induction false} InodeIs(os: seq<Observation>, inode: Inode)
    ensures inode in Inodes(os) <==> exists o :: o in os && IsLinked(o) && InodeOf(o) == inode
    ensures forall i, j :: 0 <= i < j < |Inodes(os)| ==> Inodes(os)[i] != Inodes(os)[j]
  {
    if os != [] {
      var shorter, last := os[..|os| - 1], os[|os| - 1];
      InodeIs(shorter, inode);
      assert os == shorter + [last];
      if IsLinked(last) && InodeOf(last) == inode { assert last in os; }
    }
  }

  // ---------------------------------------------------------------- records

  function Join(separator: CodeUnit, fields: seq<Text>): Text {
    if fields == [] then [] else if |fields| == 1 then fields[0] else fields[0] + [separator] + Join(separator, fields[1..])
  }

  function OrEmpty(t: Option<Text>): Text { if t.Some? then t.value else [] }

  function KindText(kind: Kind): Text {
    match kind
    case Directory => [0x64, 0x69, 0x72, 0x65, 0x63, 0x74, 0x6F, 0x72, 0x79]
    case File => [0x66, 0x69, 0x6C, 0x65]
    case SymbolicLink => [0x73, 0x79, 0x6D, 0x62, 0x6F, 0x6C, 0x69, 0x63, 0x2D, 0x6C, 0x69, 0x6E, 0x6B]
  }

  function Numbers(s: Stat): seq<nat> { [s.dev, s.ino, s.uid, s.gid, s.mode, s.size, s.nlink, s.mtime, s.ctime, s.birthtime] }

  function NumbersText(numbers: seq<nat>): Text {
    Join(COLON, seq(|numbers|, i requires 0 <= i < |numbers| => C.DecimalText(numbers[i])))
  }

  function Metadata(o: Observation): Text { NumbersText(Numbers(o.stat)) }

  function EntryFields(o: Observation): seq<Text> { [o.path, KindText(o.kind), OrEmpty(o.root), Metadata(o), OrEmpty(o.linkDigest)] }

  function EntryRecord(o: Observation): Text { Join(NUL, EntryFields(o)) }

  function Paths(os: seq<Observation>): seq<Text> { seq(|os|, i requires 0 <= i < |os| => os[i].path) }

  function GroupFields(inode: Inode, members: seq<Observation>): seq<Text> {
    [GROUP_TAG, NumbersText([inode.0, inode.1]), if members == [] then [] else OrEmpty(members[0].root)] + Sort(Paths(members))
  }

  function GroupRecord(inode: Inode, members: seq<Observation>): Text { Join(NUL, GroupFields(inode, members)) }

  function EntryRecords(os: seq<Observation>): seq<Text> { seq(|os|, i requires 0 <= i < |os| => EntryRecord(os[i])) }

  function GroupRecords(os: seq<Observation>, inodes: seq<Inode>): seq<Text> {
    seq(|inodes|, i requires 0 <= i < |inodes| => GroupRecord(inodes[i], Members(os, inodes[i])))
  }

  /** All records of a scan, before sorting. */
  function Records(os: seq<Observation>): seq<Text> { EntryRecords(os) + GroupRecords(os, Inodes(os)) }

  // ---------------------------------------------------------------- the freeze

  datatype Proof = Proof(records: seq<Text>, groups: nat)

  /** What has been put into the map of groups. */
  ghost predicate Grouped(os: seq<Observation>, groups: map<Inode, seq<Observation>>, order: seq<Inode>) {
    && order == Inodes(os)
    && (forall inode :: inode in groups <==> inode in order)
    && forall inode :: inode in groups ==> groups[inode] == Members(os, inode)
  }

  lemma GroupedOne(os: seq<Observation>, o: Observation, groups: map<Inode, seq<Observation>>, order: seq<Inode>, inode: Inode)
    requires Grouped(os, groups, order)
    requires IsLinked(o) && inode == InodeOf(o)
    ensures inode in groups ==> Grouped(os + [o], groups[inode := groups[inode] + [o]], order)
    ensures inode !in groups ==> Grouped(os + [o], groups[inode := [o]], order + [inode])
  {
    assert (os + [o])[..|os|] == os;
    forall other ensures Members(os + [o], other) == Members(os, other) + if other == inode then [o] else [] { }
    if inode !in groups {
      InodeIs(os, inode);
      if Members(os, inode) != [] { MemberIs(os, inode, Members(os, inode)[0]); }
    }
  }

  lemma GroupedOther(os: seq<Observation>, o: Observation, groups: map<Inode, seq<Observation>>, order: seq<Inode>)
    requires Grouped(os, groups, order) && !IsLinked(o)
    ensures Grouped(os + [o], groups, order)
  {
    assert (os + [o])[..|os|] == os;
    forall inode ensures Members(os + [o], inode) == Members(os, inode) { }
  }

  /** Reads all observations into records and groups; `None` is the exception. */
  method Collect(os: seq<Observation>) returns (ok: bool, groups: map<Inode, seq<Observation>>, order: seq<Inode>, records: seq<Text>)
    ensures ok <==> DistinctPaths(os) && forall i :: 0 <= i < |os| ==> EntryFits(os[i])
    ensures ok ==> Grouped(os, groups, order) && records == EntryRecords(os)
  {
    groups, order, records := map[], [], [];
    var paths: set<Text> := {};
    for i := 0 to |os|
      invariant DistinctPaths(os[..i]) && forall j :: 0 <= j < i ==> EntryFits(os[j])
      invariant forall p :: p in paths <==> exists j :: 0 <= j < i && os[..i][j].path == p
      invariant Grouped(os[..i], groups, order) && records == EntryRecords(os[..i])
    {
      var o := os[i];
      ghost var seen := os[..i];
      assert os[..i + 1] == seen + [o];
      if o.path == [] || NUL in o.path || o.path in paths {
        ghost var j :| !EntryFits(o) || (0 <= j < i && seen[j].path == o.path);
        assert EntryFits(o) ==> os[j].path == os[i].path;
        return false, map[], [], [];
      }
      if !EntryFits(o) { return false, map[], [], []; }
      paths := paths + {o.path};
      records := records + [EntryRecord(o)];
      if !IsLinked(o) {
        GroupedOther(seen, o, groups, order);
      } else {
        GroupedOne(seen, o, groups, order, InodeOf(o));
        if InodeOf(o) in groups {
          groups := groups[InodeOf(o) := groups[InodeOf(o)] + [o]];
        } else {
          groups, order := groups[InodeOf(o) := [o]], order + [InodeOf(o)];
        }
      }
      assert forall j :: 0 <= j < i ==> (seen + [o])[j] == seen[j];
    }
    assert os[..|os|] == os;
    ok := true;
  }

  /** Whether a group is whole, of one identity, and under one root: compared as the records compare it. */
  method CheckGroup(members: seq<Observation>) returns (ok: bool)
    requires members != []
    ensures ok <==> GroupFits(members)
  {
    var first := members[0];
    for i := 0 to |members|
      invariant forall j :: 0 <= j < i ==> members[j].stat == first.stat
    {
      MetadataTells(members[i].stat, first.stat);
      if Metadata(members[i]) != Metadata(first) { return false; }
    }
    if |members| != first.stat.nlink { return false; }
    if first.root.None? || exists i :: 0 <= i < |members| && members[i].root.None? { return false; }
    return forall i :: 0 <= i < |members| ==> members[i].root == first.root;
  }

  method FreezeCleanValidationHardLinks(os: seq<Observation>) returns (r: Option<Proof>)
    ensures r.Some? <==> Accepted(os)
    ensures r.Some? ==> r.value == Proof(Sort(Records(os)), |Inodes(os)|)
  {
    var ok, groups, order, records := Collect(os);
    if !ok { return None; }
    for k := 0 to |order|
      invariant records == EntryRecords(os) + GroupRecords(os, order[..k])
      invariant forall j :: 0 <= j < k ==> GroupFits(Members(os, order[j]))
    {
      assert order[k] in order;
      HasMembers(os, order[k]);
      var fits := CheckGroup(groups[order[k]]);
      if !fits { return None; }
      records := records + [GroupRecord(order[k], groups[order[k]])];
      GroupRecordNext(os, order, k);
    }
    assert order[..|order|] == order;
    return Some(Proof(Sort(records), |order|));
  }

  lemma GroupRecordNext(os: seq<Observation>, order: seq<Inode>, k: nat)
    requires k < |order|
    ensures EntryRecords(os) + GroupRecords(os, order[..k + 1])
         == EntryRecords(os) + GroupRecords(os, order[..k]) + [GroupRecord(order[k], Members(os, order[k]))]
  {
    assert GroupRecords(os, order[..k + 1]) == GroupRecords(os, order[..k]) + [GroupRecord(order[k], Members(os, order[k]))];
  }

  lemma HasMembers(os: seq<Observation>, inode: Inode)
    requires inode in Inodes(os)
    ensures Members(os, inode) != []
  {
    InodeIs(os, inode);
    var o :| o in os && IsLinked(o) && InodeOf(o) == inode;
    MemberIs(os, inode, o);
  }

  // ---------------------------------------------------------------- fields can be told apart

  /** The fields of a joined text. */
  function Split(separator: CodeUnit, t: Text): (r: seq<Text>)
    ensures r != []
  {
    if t == [] then [[]]
    else if t[0] == separator then [[]] + Split(separator, t[1..])
    else var rest := Split(separator, t[1..]); [[t[0]] + rest[0]] + rest[1..]
  }

  lemma {:induction false} SplitOfField(separator: CodeUnit, field: Text, rest: Text)
    requires separator !in field
    ensures Split(separator, field + [separator] + rest) == [field] + Split(separator, rest)
    ensures Split(separator, field) == [field]
  {
    if field == [] {
      assert field + [separator] + rest == [separator] + rest;
    } else {
      SplitOfField(separator, field[1..], rest);
      assert (field + [separator] + rest)[1..] == field[1..] + [separator] + rest;
      assert [field[0]] + field[1..] == field;
    }
  }

  lemma {:induction false} SplitOfJoin(separator: CodeUnit, fields: seq<Text>)
    requires fields != [] && forall i :: 0 <= i < |fields| ==> separator !in fields[i]
    ensures Split(separator, Join(separator, fields)) == fields
  {
    if |fields| == 1 {
      SplitOfField(separator, fields[0], []);
    } else {
      SplitOfJoin(separator, fields[1..]);
      SplitOfField(separator, fields[0], Join(separator, fields[1..]));
    }
  }

  lemma {:induction false} DecimalHasNo(n: nat, c: CodeUnit)
    requires c < 0x30 || c > 0x39
    ensures c !in C.DecimalText(n)
  {
    if n >= 10 { DecimalHasNo(n / 10, c); }
  }

  lemma DecimalTells(a: nat, b: nat)
    requires C.DecimalText(a) == C.DecimalText(b)
    ensures a == b
  {
    var digit := (c: CodeUnit) => 0x30 <= c <= 0x39;
    C.DecimalIsWhole(digit, a);
    C.DecimalIsWhole(digit, b);
  }

  lemma NumbersTell(a: seq<nat>, b: seq<nat>)
    requires a != [] && b != [] && NumbersText(a) == NumbersText(b)
    ensures a == b
  {
    var x := seq(|a|, i requires 0 <= i < |a| => C.DecimalText(a[i]));
    var y := seq(|b|, i requires 0 <= i < |b| => C.DecimalText(b[i]));
    forall n: nat ensures COLON !in C.DecimalText(n) { DecimalHasNo(n, COLON); }
    SplitOfJoin(COLON, x);
    SplitOfJoin(COLON, y);
    forall i | 0 <= i < |a| ensures a[i] == b[i] {
      assert x[i] == y[i];
      DecimalTells(a[i], b[i]);
    }
  }

  lemma MetadataTells(a: Stat, b: Stat)
    ensures NumbersText(Numbers(a)) == NumbersText(Numbers(b)) <==> a == b
  {
    if NumbersText(Numbers(a)) == NumbersText(Numbers(b)) {
      NumbersTell(Numbers(a), Numbers(b));
      assert forall i :: 0 <= i < 10 ==> Numbers(a)[i] == Numbers(b)[i];
    }
  }

  // ---------------------------------------------------------------- what acceptance means

  /** The roots of a scan are those that own the paths. */
  ghost predicate Scanned(os: seq<Observation>, roots: set<Text>) {
    forall i :: 0 <= i < |os| ==> A.IsOwningRoot(roots, os[i].path, os[i].root)
  }

  lemma {:induction false} MembersDistinct(os: seq<Observation>, inode: Inode)
    requires DistinctPaths(os)
    ensures DistinctPaths(Members(os, inode))
  {
    if os != [] {
      var shorter, last := os[..|os| - 1], os[|os| - 1];
      MembersDistinct(shorter, inode);
      var members := Members(shorter, inode);
      forall i | 0 <= i < |members| ensures members[i].path != last.path {
        MemberIs(shorter, inode, members[i]);
        assert members[i] in members;
        var k :| 0 <= k < |shorter| && shorter[k] == members[i];
        assert os[k].path != os[|os| - 1].path;
      }
    }
  }

  /** Every file with several names has all of them in the scan, with one identity, owned by one declared root. */
  lemma AcceptedIsClosed(os: seq<Observation>, roots: set<Text>, o: Observation) returns (root: Text)
    requires Accepted(os) && Scanned(os, roots) && o in os && IsLinked(o)
    ensures root in roots
    ensures var names := Members(os, InodeOf(o));
      && |names| == o.stat.nlink && DistinctPaths(names)
      && forall i :: 0 <= i < |names| ==>
           names[i] in os && names[i].stat == o.stat && A.IsOwningRoot(roots, names[i].path, Some(root))
  {
    var names := Members(os, InodeOf(o));
    InodeIs(os, InodeOf(o));
    MemberIs(os, InodeOf(o), o);
    assert GroupFits(names);
    MembersDistinct(os, InodeOf(o));
    root := names[0].root.value;
    var k :| 0 <= k < |names| && names[k] == o;
    forall i | 0 <= i < |names| ensures names[i] in os && A.IsOwningRoot(roots, names[i].path, Some(root)) {
      assert names[i] in names;
      MemberIs(os, InodeOf(o), names[i]);
    }
    assert A.Owns(roots, names[0].path, root);
  }

  // ---------------------------------------------------------------- the order of observation does not matter

  lemma {:induction false} MembersCount(os: seq<Observation>, inode: Inode, o: Observation)
    ensures multiset(Members(os, inode))[o] == if IsLinked(o) && InodeOf(o) == inode then multiset(os)[o] else 0
  {
    if os != [] {
      MembersCount(os[..|os| - 1], inode, o);
      assert os == os[..|os| - 1] + [os[|os| - 1]];
    }
  }

  lemma MembersPermuted(a: seq<Observation>, b: seq<Observation>, inode: Inode)
    requires multiset(a) == multiset(b)
    ensures multiset(Members(a, inode)) == multiset(Members(b, inode))
  {
    forall o ensures multiset(Members(a, inode))[o] == multiset(Members(b, inode))[o] {
      MembersCount(a, inode, o);
      MembersCount(b, inode, o);
    }
  }

  /** No path twice, said of a multiset. */
  ghost predicate OncePerPath(m: multiset<Observation>) {
    && (forall o: Observation :: o in m ==> m[o] == 1)
    && forall o: Observation, p: Observation :: o in m && p in m && o.path == p.path ==> o == p
  }

  lemma {:induction false} DistinctMeansOnce(os: seq<Observation>)
    ensures DistinctPaths(os) <==> OncePerPath(multiset(os))
  {
    if OncePerPath(multiset(os)) {
      forall i, j | 0 <= i < j < |os| ensures os[i].path != os[j].path {
        assert os == os[..j] + os[j..];
        assert os[i] in os[..j] && os[j] in os[j..];
        assert os[i] in multiset(os) && os[j] in multiset(os);
      }
    }
    if DistinctPaths(os) { DistinctIsOnce(os); }
  }

  lemma {:induction false} DistinctIsOnce(os: seq<Observation>)
    requires DistinctPaths(os)
    ensures OncePerPath(multiset(os))
  {
    if os != [] {
      var shorter, last := os[..|os| - 1], os[|os| - 1];
      DistinctIsOnce(shorter);
      assert os == shorter + [last];
      forall o: Observation | o in multiset(shorter) ensures o.path != last.path {
        var k :| 0 <= k < |shorter| && shorter[k] == o;
        assert os[k].path != os[|os| - 1].path;
      }
      OnceMore(multiset(shorter), last);
    }
  }

  lemma OnceMore(m: multiset<Observation>, last: Observation)
    requires OncePerPath(m) && forall o: Observation :: o in m ==> o.path != last.path
    ensures OncePerPath(m + multiset{last})
  {
    assert last !in m;
  }

  lemma GroupFitsPermuted(a: seq<Observation>, b: seq<Observation>)
    requires multiset(a) == multiset(b) && GroupFits(a)
    ensures GroupFits(b) && b[0].root == a[0].root
  {
    assert |a| == |multiset(a)| == |multiset(b)| == |b|;
    forall i | 0 <= i < |b| ensures b[i].stat == a[0].stat && b[i].root == a[0].root {
      assert b[i] in multiset(a);
    }
  }

  lemma InodesPermuted(a: seq<Observation>, b: seq<Observation>)
    requires multiset(a) == multiset(b)
    ensures multiset(Inodes(a)) == multiset(Inodes(b)) && |Inodes(a)| == |Inodes(b)|
  {
    forall inode ensures inode in Inodes(a) <==> inode in Inodes(b) {
      InodeIs(a, inode);
      InodeIs(b, inode);
      assert forall o :: o in a <==> o in multiset(a);
      assert forall o :: o in b <==> o in multiset(b);
    }
    InodeIs(a, (0, 0));
    InodeIs(b, (0, 0));
    SameDistinct(Inodes(a), Inodes(b));
    assert |Inodes(a)| == |multiset(Inodes(a))|;
  }

  lemma {:induction false} DistinctCount<T>(s: seq<T>, x: T)
    requires forall i, j :: 0 <= i < j < |s| ==> s[i] != s[j]
    ensures multiset(s)[x] == if x in s then 1 else 0
  {
    if s != [] {
      DistinctCount(s[..|s| - 1], x);
      assert s == s[..|s| - 1] + [s[|s| - 1]];
    }
  }

  lemma SameDistinct<T>(a: seq<T>, b: seq<T>)
    requires forall i, j :: 0 <= i < j < |a| ==> a[i] != a[j]
    requires forall i, j :: 0 <= i < j < |b| ==> b[i] != b[j]
    requires forall x :: x in a <==> x in b
    ensures multiset(a) == multiset(b)
  {
    forall x ensures multiset(a)[x] == multiset(b)[x] {
      DistinctCount(a, x);
      DistinctCount(b, x);
    }
  }

  lemma AcceptedPermuted(a: seq<Observation>, b: seq<Observation>)
    requires multiset(a) == multiset(b) && Accepted(a)
    ensures Accepted(b)
  {
    DistinctMeansOnce(a);
    DistinctMeansOnce(b);
    forall i | 0 <= i < |b| ensures EntryFits(b[i]) { assert b[i] in multiset(a); }
    InodesPermuted(a, b);
    forall inode | inode in Inodes(b) ensures GroupFits(Members(b, inode)) {
      assert inode in multiset(Inodes(a));
      MembersPermuted(a, b, inode);
      GroupFitsPermuted(Members(a, inode), Members(b, inode));
    }
  }

  /** The texts of a list, one for each element. */
  function Texts<T>(f: T -> Text, s: seq<T>): seq<Text> { seq(|s|, i requires 0 <= i < |s| => f(s[i])) }

  lemma TextsTakeOut<T>(f: T -> Text, s: seq<T>, k: nat)
    requires k < |s|
    ensures multiset(s) == multiset(s[..k] + s[k + 1..]) + multiset{s[k]}
    ensures multiset(Texts(f, s)) == multiset(Texts(f, s[..k] + s[k + 1..])) + multiset{f(s[k])}
  {
    assert s == s[..k] + [s[k]] + s[k + 1..];
    var before, after := Texts(f, s[..k]), Texts(f, s[k + 1..]);
    assert Texts(f, s) == before + [f(s[k])] + after;
    assert Texts(f, s[..k] + s[k + 1..]) == before + after;
  }

  lemma {:induction false} TextsPermuted<T>(f: T -> Text, a: seq<T>, b: seq<T>)
    requires multiset(a) == multiset(b)
    ensures multiset(Texts(f, a)) == multiset(Texts(f, b))
  {
    if a == [] {
      assert |multiset(b)| == 0;
    } else {
      assert a[0] in multiset(b);
      var k :| 0 <= k < |b| && b[k] == a[0];
      var less := b[..k] + b[k + 1..];
      assert a[..0] + a[0 + 1..] == a[1..];
      TextsTakeOut(f, a, 0);
      TextsTakeOut(f, b, k);
      assert multiset(a[1..]) == multiset(a) - multiset{a[0]} && multiset(less) == multiset(b) - multiset{b[k]};
      TextsPermuted(f, a[1..], less);
    }
  }

  lemma GroupRecordPermuted(inode: Inode, a: seq<Observation>, b: seq<Observation>)
    requires multiset(a) == multiset(b) && GroupFits(a)
    ensures GroupRecord(inode, a) == GroupRecord(inode, b)
  {
    GroupFitsPermuted(a, b);
    TextsPermuted((o: Observation) => o.path, a, b);
    assert Texts((o: Observation) => o.path, a) == Paths(a) && Texts((o: Observation) => o.path, b) == Paths(b);
    SortForgetsOrder(Paths(a), Paths(b));
  }

  lemma GroupRecordAlike(a: seq<Observation>, b: seq<Observation>, inode: Inode)
    requires multiset(a) == multiset(b) && Accepted(a) && inode in multiset(Inodes(a))
    ensures GroupRecord(inode, Members(a, inode)) == GroupRecord(inode, Members(b, inode))
  {
    assert inode in Inodes(a);
    MembersPermuted(a, b, inode);
    GroupRecordPermuted(inode, Members(a, inode), Members(b, inode));
  }

  lemma GroupRecordsAlike(a: seq<Observation>, b: seq<Observation>, inodes: seq<Inode>)
    requires multiset(a) == multiset(b) && Accepted(a) && forall i :: 0 <= i < |inodes| ==> inodes[i] in multiset(Inodes(a))
    ensures GroupRecords(a, inodes) == GroupRecords(b, inodes)
  {
    forall i | 0 <= i < |inodes| ensures GroupRecords(a, inodes)[i] == GroupRecords(b, inodes)[i] {
      GroupRecordAlike(a, b, inodes[i]);
    }
  }

  lemma GroupRecordsPermuted(a: seq<Observation>, b: seq<Observation>)
    requires multiset(a) == multiset(b) && Accepted(a)
    ensures multiset(GroupRecords(a, Inodes(a))) == multiset(GroupRecords(b, Inodes(b)))
  {
    var f := (inode: Inode) => GroupRecord(inode, Members(a, inode));
    InodesPermuted(a, b);
    TextsPermuted(f, Inodes(a), Inodes(b));
    assert Texts(f, Inodes(a)) == GroupRecords(a, Inodes(a));
    assert Texts(f, Inodes(b)) == GroupRecords(a, Inodes(b));
    forall i | 0 <= i < |Inodes(b)| ensures Inodes(b)[i] in multiset(Inodes(a)) { assert Inodes(b)[i] in multiset(Inodes(b)); }
    GroupRecordsAlike(a, b, Inodes(b));
  }

  /** Acceptance, the number of groups and the sorted records are the same for every order of observation. */
  lemma OrderDoesNotMatter(a: seq<Observation>, b: seq<Observation>)
    requires multiset(a) == multiset(b)
    ensures Accepted(a) <==> Accepted(b)
    ensures |Inodes(a)| == |Inodes(b)|
    ensures Accepted(a) ==> Sort(Records(a)) == Sort(Records(b))
  {
    InodesPermuted(a, b);
    if Accepted(b) { AcceptedPermuted(b, a); }
    if Accepted(a) {
      AcceptedPermuted(a, b);
      TextsPermuted(EntryRecord, a, b);
      assert Texts(EntryRecord, a) == EntryRecords(a) && Texts(EntryRecord, b) == EntryRecords(b);
      GroupRecordsPermuted(a, b);
      SortForgetsOrder(Records(a), Records(b));
    }
  }

  // ---------------------------------------------------------------- the records tell the observations

  /** The fields of an entry hold no NUL, and an empty root field means no root. */
  ghost predicate Legible(o: Observation) {
    && EntryFits(o) && NUL !in OrEmpty(o.root) && o.root != Some([])
  }

  lemma ScannedIsLegible(os: seq<Observation>, roots: set<Text>, i: nat)
    requires Accepted(os) && Scanned(os, roots) && i < |os|
    ensures Legible(os[i])
  {
    var o := os[i];
    if o.root.Some? {
      assert A.Owns(roots, o.path, o.root.value);
      assert o.root.value == A.WithoutSlash(o.path)[..|o.root.value|];
    }
  }

  lemma {:induction false} NumbersHaveNoNul(numbers: seq<nat>)
    ensures NUL !in NumbersText(numbers)
  {
    var t := seq(|numbers|, i requires 0 <= i < |numbers| => C.DecimalText(numbers[i]));
    forall i | 0 <= i < |t| ensures NUL !in t[i] { DecimalHasNo(numbers[i], NUL); }
    JoinHasNo(COLON, t, NUL);
  }

  lemma {:induction false} JoinHasNo(separator: CodeUnit, fields: seq<Text>, c: CodeUnit)
    requires c != separator && forall i :: 0 <= i < |fields| ==> c !in fields[i]
    ensures c !in Join(separator, fields)
  {
    if |fields| > 1 { JoinHasNo(separator, fields[1..], c); }
  }

  lemma EntryIsLegible(o: Observation)
    requires Legible(o)
    ensures Split(NUL, EntryRecord(o)) == EntryFields(o)
  {
    NumbersHaveNoNul(Numbers(o.stat));
    SplitOfJoin(NUL, EntryFields(o));
  }

  lemma EntryTells(a: Observation, b: Observation)
    requires Legible(a) && Legible(b) && EntryRecord(a) == EntryRecord(b)
    ensures a == b
  {
    EntryIsLegible(a);
    EntryIsLegible(b);
    var x, y := EntryFields(a), EntryFields(b);
    assert x[0] == y[0] && x[1] == y[1] && x[2] == y[2] && x[3] == y[3] && x[4] == y[4];
    MetadataTells(a.stat, b.stat);
    KindTells(a.kind, b.kind);
  }

  lemma KindTells(a: Kind, b: Kind)
    requires KindText(a) == KindText(b)
    ensures a == b
  {
    assert |KindText(a)| == |KindText(b)|;
  }

  lemma SortedPathsHaveNoNul(members: seq<Observation>)
    requires forall i :: 0 <= i < |members| ==> NUL !in members[i].path
    ensures forall i :: 0 <= i < |Sort(Paths(members))| ==> NUL !in Sort(Paths(members))[i]
  {
    SortKeeps(Paths(members));
    forall i | 0 <= i < |Sort(Paths(members))| ensures NUL !in Sort(Paths(members))[i] {
      assert Sort(Paths(members))[i] in multiset(Paths(members));
    }
  }

  lemma GroupIsLegible(os: seq<Observation>, inode: Inode)
    requires forall i :: 0 <= i < |os| ==> Legible(os[i])
    ensures Split(NUL, GroupRecord(inode, Members(os, inode))) == GroupFields(inode, Members(os, inode))
  {
    var members := Members(os, inode);
    forall i | 0 <= i < |members| ensures Legible(members[i]) {
      assert members[i] in members;
      MemberIs(os, inode, members[i]);
    }
    NumbersHaveNoNul([inode.0, inode.1]);
    SortedPathsHaveNoNul(members);
    GroupFieldsSplit(inode, members);
  }

  lemma GroupFieldsSplit(inode: Inode, members: seq<Observation>)
    requires NUL !in NumbersText([inode.0, inode.1]) && (members != [] ==> NUL !in OrEmpty(members[0].root))
    requires forall i :: 0 <= i < |Sort(Paths(members))| ==> NUL !in Sort(Paths(members))[i]
    ensures Split(NUL, GroupRecord(inode, members)) == GroupFields(inode, members)
  {
    var fields := GroupFields(inode, members);
    forall i | 0 <= i < |fields| ensures NUL !in fields[i] {
      if i >= 3 { assert fields[i] == Sort(Paths(members))[i - 3]; }
    }
    SplitOfJoin(NUL, fields);
  }

  lemma EntryIsNoGroup(o: Observation, os: seq<Observation>, inode: Inode)
    requires Legible(o) && forall i :: 0 <= i < |os| ==> Legible(os[i])
    ensures EntryRecord(o) != GroupRecord(inode, Members(os, inode))
  {
    EntryIsLegible(o);
    GroupIsLegible(os, inode);
    FirstIsDigit(inode.0, inode.1);
    assert KindText(o.kind)[0] != NumbersText([inode.0, inode.1])[0];
    assert EntryFields(o)[1] != GroupFields(inode, Members(os, inode))[1];
  }

  lemma FirstIsDigit(a: nat, b: nat)
    ensures NumbersText([a, b]) != [] && 0x30 <= NumbersText([a, b])[0] <= 0x39
  {
    var digit := (c: CodeUnit) => 0x30 <= c <= 0x39;
    C.DecimalIsWhole(digit, a);
    var t := C.DecimalText(a);
    assert digit(t[0]);
    var numbers := [a, b];
    assert seq(|numbers|, i requires 0 <= i < |numbers| => C.DecimalText(numbers[i])) == [t, C.DecimalText(b)];
  }

  lemma RecordFound(os: seq<Observation>, o: Observation, j: nat)
    requires Legible(o) && forall i :: 0 <= i < |os| ==> Legible(os[i])
    requires j < |Records(os)| && Records(os)[j] == EntryRecord(o)
    ensures o in os
  {
    if j < |os| {
      EntryTells(o, os[j]);
    } else {
      EntryIsNoGroup(o, os, Inodes(os)[j - |os|]);
    }
  }

  lemma EntryFound(a: seq<Observation>, b: seq<Observation>, o: Observation)
    requires forall i :: 0 <= i < |a| ==> Legible(a[i])
    requires forall i :: 0 <= i < |b| ==> Legible(b[i])
    requires Sort(Records(a)) == Sort(Records(b)) && o in a
    ensures o in b
  {
    var i :| 0 <= i < |a| && a[i] == o;
    assert Records(a)[i] == EntryRecord(o);
    SortKeeps(Records(a));
    SortKeeps(Records(b));
    assert EntryRecord(o) in multiset(Records(b));
    var j :| 0 <= j < |Records(b)| && Records(b)[j] == EntryRecord(o);
    RecordFound(b, o, j);
  }

  /** Two accepted scans with the same record list observed the same entries. */
  lemma RecordsTellObservations(a: seq<Observation>, b: seq<Observation>, roots: set<Text>)
    requires Accepted(a) && Accepted(b) && Scanned(a, roots) && Scanned(b, roots)
    requires Sort(Records(a)) == Sort(Records(b))
    ensures multiset(a) == multiset(b)
  {
    forall i | 0 <= i < |a| ensures Legible(a[i]) { ScannedIsLegible(a, roots, i); }
    forall i | 0 <= i < |b| ensures Legible(b[i]) { ScannedIsLegible(b, roots, i); }
    forall o ensures o in a <==> o in b {
      if o in a { EntryFound(a, b, o); }
      if o in b { EntryFound(b, a, o); }
    }
    SameDistinct(a, b);
  }
}
