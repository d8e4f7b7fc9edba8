/**
 The budget that all reader batches of one scan share: links, target bytes and one deadline; and the accounts that
 reader and host keep of the bytes read.
 */
module LinkBudget {
  import opened Wrappers

  const MAX_SAFE := 9007199254740991

  datatype Limits = Limits(maxLinks: nat, maxTargetReadBytes: nat)

  /** A target file: its identity holds its size. */
  datatype Target = Target(path: string, size: nat, identity: string)

  datatype Held = Held(bytes: int, digest: Option<string>)

  predicate IsDigest(s: string) { |s| == 64 && forall i :: 0 <= i < |s| ==> '0' <= s[i] <= '9' || 'a' <= s[i] <= 'f' }

  // ---------------------------------------------------------------- the budget as a value

  datatype Budget = Budget(links: nat, readBytes: nat, active: bool, poisoned: bool, targets: map<string, Held>)

  const FRESH := Budget(0, 0, false, false, map[])

  datatype Call =
    | Begin
    | Finish(bytes: int)
    | Poison
    | CountLink
    | ReserveTarget(identity: string, bytes: int, digest: Option<string>)

  /** The outcome of a call; `timely` says that the scan was neither aborted nor late. */
  datatype Outcome = Refused | Done | Granted(bytes: nat) | Reserved(first: bool)

  predicate Usable(b: Budget, timely: bool) { !b.poisoned && timely }

  function OutcomeOf(l: Limits, b: Budget, call: Call, timely: bool): Outcome {
    match call
    case Begin => if Usable(b, timely) && !b.active && b.readBytes <= l.maxTargetReadBytes then Granted(l.maxTargetReadBytes - b.readBytes) else Refused
    case Finish(bytes) =>
      if b.active && 0 <= bytes <= MAX_SAFE && b.readBytes + bytes <= l.maxTargetReadBytes && Usable(b, timely) then Done else Refused
    case Poison => Done
    case CountLink => if Usable(b, timely) && b.links + 1 <= l.maxLinks then Done else Refused
    case ReserveTarget(identity, bytes, digest) =>
      if (digest.Some? && !IsDigest(digest.value)) || !Usable(b, timely) then Refused
      else if identity in b.targets then
        var held := b.targets[identity];
        if held.bytes != bytes || (digest.Some? && held.digest.Some? && held.digest != digest) then Refused else Reserved(false)
      else if 0 <= bytes <= MAX_SAFE then Reserved(true) else Refused
  }

  /** The budget after a call, refused or not. */
  function After(l: Limits, b: Budget, call: Call, timely: bool): Budget {
    match call
    case Begin => if OutcomeOf(l, b, call, timely).Granted? then b.(active := true) else b
    case Finish(bytes) =>
      if !b.active then b
      else if 0 <= bytes <= MAX_SAFE && b.readBytes + bytes <= l.maxTargetReadBytes then b.(active := false, readBytes := b.readBytes + bytes)
      else b.(active := false)
    case Poison => b.(active := false, poisoned := true)
    case CountLink => if Usable(b, timely) then b.(links := b.links + 1) else b
    case ReserveTarget(identity, bytes, digest) =>
      match OutcomeOf(l, b, call, timely)
      case Reserved(true) => b.(targets := b.targets[identity := Held(bytes, digest)])
      case Reserved(false) =>
        if digest.Some? && b.targets[identity].digest.None? then b.(targets := b.targets[identity := Held(bytes, digest)]) else b
      case _ => b
  }

  class ExternalFileLinkSnapshotBudget {
    const limits: Limits
    var targets: map<string, Held>
    var links: nat
    var targetReadBytes: nat
    var readerBatchActive: bool
    var poisoned: bool

    ghost function State(): Budget
      reads this
    {
      Budget(links, targetReadBytes, readerBatchActive, poisoned, targets)
    }

    ghost predicate Valid()
      reads this
    {
      targetReadBytes <= limits.maxTargetReadBytes <= MAX_SAFE
    }

    constructor (limits: Limits)
      requires 1 <= limits.maxLinks <= MAX_SAFE && limits.maxTargetReadBytes <= MAX_SAFE
      ensures Valid() && this.limits == limits && State() == FRESH
    {
      this.limits := limits;
      targets, links, targetReadBytes, readerBatchActive, poisoned := map[], 0, 0, false, false;
    }

    /** False stands for the exception. */
    method Checkpoint(timely: bool) returns (ok: bool)
      ensures ok <==> Usable(State(), timely)
    {
      return !poisoned && timely;
    }

    method BeginReaderBatch(timely: bool) returns (r: Outcome)
      requires Valid()
      modifies this
      ensures Valid() && r == OutcomeOf(limits, old(State()), Begin, timely) && State() == After(limits, old(State()), Begin, timely)
    {
      var ok := Checkpoint(timely);
      if !ok || readerBatchActive { return Refused; }
      readerBatchActive := true;
      return Granted(limits.maxTargetReadBytes - targetReadBytes);
    }

    method FinishReaderBatch(bytes: int, timely: bool) returns (r: Outcome)
      requires Valid()
      modifies this
      ensures Valid() && r == OutcomeOf(limits, old(State()), Finish(bytes), timely)
      ensures State() == After(limits, old(State()), Finish(bytes), timely)
    {
      if !readerBatchActive { return Refused; }
      readerBatchActive := false;
      if bytes < 0 || bytes > MAX_SAFE { return Refused; }
      if targetReadBytes + bytes > limits.maxTargetReadBytes { return Refused; }
      targetReadBytes := targetReadBytes + bytes;
      var ok := Checkpoint(timely);
      return if ok then Done else Refused;
    }

    method PoisonReaderBatch()
      requires Valid()
      modifies this
      ensures Valid() && State() == After(limits, old(State()), Poison, true)
    {
      readerBatchActive := false;
      poisoned := true;
    }

    method CountOneLink(timely: bool) returns (r: Outcome)
      requires Valid()
      modifies this
      ensures Valid() && r == OutcomeOf(limits, old(State()), CountLink, timely) && State() == After(limits, old(State()), CountLink, timely)
    {
      var ok := Checkpoint(timely);
      if !ok { return Refused; }
      links := links + 1;
      return if links > limits.maxLinks then Refused else Done;
    }

    method Reserve(identity: string, bytes: int, digest: Option<string>, timely: bool) returns (r: Outcome)
      requires Valid()
      modifies this`targets
      ensures Valid() && r == OutcomeOf(limits, old(State()), ReserveTarget(identity, bytes, digest), timely)
      ensures State() == After(limits, old(State()), ReserveTarget(identity, bytes, digest), timely)
    {
      if digest.Some? && !IsDigest(digest.value) { return Refused; }
      var ok := Checkpoint(timely);
      if !ok { return Refused; }
      if identity in targets {
        var previous := targets[identity];
        if previous.bytes != bytes || (digest.Some? && previous.digest.Some? && previous.digest != digest) { return Refused; }
        if digest.Some? && previous.digest.None? { targets := targets[identity := Held(bytes, digest)]; }
        return Reserved(false);
      }
      if bytes < 0 || bytes > MAX_SAFE { return Refused; }
      targets := targets[identity := Held(bytes, digest)];
      return Reserved(true);
    }
  }

  // ---------------------------------------------------------------- every sequence of calls

  function State(l: Limits, calls: seq<(Call, bool)>): Budget {
    if calls == [] then FRESH
    else var last := calls[|calls| - 1]; After(l, State(l, calls[..|calls| - 1]), last.0, last.1)
  }

  /** The outcome of the i-th call. */
  function OutcomeAt(l: Limits, calls: seq<(Call, bool)>, i: nat): Outcome
    requires i < |calls|
  {
    OutcomeOf(l, State(l, calls[..i]), calls[i].0, calls[i].1)
  }

  /** The call ends a batch, successfully or not. */
  predicate Ends(call: Call) { call.Finish? || call.Poison? }

  /** The bytes charged by finished batches. */
  function Charged(l: Limits, calls: seq<(Call, bool)>): int {
    if calls == [] then 0
    else
      var n := |calls| - 1;
      Charged(l, calls[..n]) + State(l, calls).readBytes - State(l, calls[..n]).readBytes
  }

  lemma StateNext(l: Limits, calls: seq<(Call, bool)>, i: nat)
    requires i < |calls|
    ensures State(l, calls[..i + 1]) == After(l, State(l, calls[..i]), calls[i].0, calls[i].1)
  {
    assert calls[..i + 1][..i] == calls[..i];
  }

  lemma {:induction false} WithinLimit(l: Limits, calls: seq<(Call, bool)>)
    ensures 0 <= State(l, calls).readBytes <= l.maxTargetReadBytes
    ensures Charged(l, calls) == State(l, calls).readBytes
  {
    if calls != [] { WithinLimit(l, calls[..|calls| - 1]); }
  }

  /** A grant together with what is already charged is exactly the maximum. */
  lemma GrantIsTheRest(l: Limits, calls: seq<(Call, bool)>, i: nat)
    requires i < |calls| && OutcomeAt(l, calls, i).Granted?
    ensures OutcomeAt(l, calls, i).bytes + Charged(l, calls[..i]) == l.maxTargetReadBytes
  {
    WithinLimit(l, calls[..i]);
  }

  /** While a batch is open, the budget says so. */
  lemma {:induction false} OpenStaysActive(l: Limits, calls: seq<(Call, bool)>, i: nat, j: nat)
    requires i < j <= |calls| && OutcomeAt(l, calls, i).Granted?
    requires forall k :: i < k < j ==> !Ends(calls[k].0)
    ensures State(l, calls[..j]).active
  {
    StateNext(l, calls, j - 1);
    if j > i + 1 { OpenStaysActive(l, calls, i, j - 1); }
  }

  /** Between two grants the first batch was ended: at most one is open. */
  lemma OneBatchAtATime(l: Limits, calls: seq<(Call, bool)>, i: nat, j: nat)
    requires i < j < |calls| && OutcomeAt(l, calls, i).Granted? && OutcomeAt(l, calls, j).Granted?
    ensures exists k :: i < k < j && Ends(calls[k].0)
  {
    if forall k :: i < k < j ==> !Ends(calls[k].0) { OpenStaysActive(l, calls, i, j); }
  }

  lemma {:induction false} PoisonLasts(l: Limits, calls: seq<(Call, bool)>, i: nat, j: nat)
    requires i < j <= |calls| && calls[i].0.Poison?
    ensures State(l, calls[..j]).poisoned
  {
    StateNext(l, calls, j - 1);
    if j > i + 1 { PoisonLasts(l, calls, i, j - 1); }
  }

  /** After poisoning nothing succeeds any more but poisoning itself. */
  lemma NothingAfterPoison(l: Limits, calls: seq<(Call, bool)>, i: nat, j: nat)
    requires i < j < |calls| && calls[i].0.Poison? && !calls[j].0.Poison?
    ensures OutcomeAt(l, calls, j) == Refused
  {
    PoisonLasts(l, calls, i, j);
  }

  // ---------------------------------------------------------------- what a batch costs

  /** The bytes of the targets, every target counted once. */
  function DistinctBytes(targets: seq<Target>): nat {
    if targets == [] then 0
    else
      var earlier, last := targets[..|targets| - 1], targets[|targets| - 1];
      DistinctBytes(earlier) + if last in earlier then 0 else last.size
  }

  lemma {:induction false} DistinctBytesGrow(targets: seq<Target>, n: nat)
    requires n <= |targets|
    ensures DistinctBytes(targets[..n]) <= DistinctBytes(targets)
  {
    if n < |targets| {
      DistinctBytesGrow(targets[..|targets| - 1], n);
      assert targets[..|targets| - 1][..n] == targets[..n];
    } else {
      assert targets[..n] == targets;
    }
  }

  /** The reader reads a target it has not read before, within its limit; `None` is its failure. */
  method ReadBatch(targets: seq<Target>, limit: nat) returns (r: Option<nat>)
    ensures r.Some? <==> DistinctBytes(targets) <= limit
    ensures r.Some? ==> r.value == DistinctBytes(targets)
  {
    var cached: set<Target>, bytes: nat := {}, 0;
    for i := 0 to |targets|
      invariant forall t :: t in cached <==> t in targets[..i]
      invariant bytes == DistinctBytes(targets[..i]) <= limit
    {
      assert targets[..i + 1][..i] == targets[..i];
      if targets[i] !in cached {
        DistinctBytesGrow(targets, i + 1);
        if bytes + targets[i].size > limit { return None; }
        bytes := bytes + targets[i].size;
        cached := cached + {targets[i]};
      }
    }
    assert targets[..|targets|] == targets;
    return Some(bytes);
  }

  /** The host's own account, by target: a map in the order of insertion. */
  method HostCharge(targets: seq<Target>) returns (bytes: nat)
    ensures bytes == DistinctBytes(targets)
  {
    var batchTargets: map<Target, nat>, order: seq<Target> := map[], [];
    for i := 0 to |targets|
      invariant forall t :: t in batchTargets <==> t in targets[..i]
      invariant forall t :: t in batchTargets ==> batchTargets[t] == t.size
      invariant forall k :: 0 <= k < |order| ==> order[k] in batchTargets
      invariant SizesOf(order) == DistinctBytes(targets[..i])
    {
      assert targets[..i + 1][..i] == targets[..i];
      if targets[i] !in batchTargets {
        assert (order + [targets[i]])[..|order|] == order;
        order := order + [targets[i]];
      }
      batchTargets := batchTargets[targets[i] := targets[i].size];
    }
    assert targets[..|targets|] == targets;
    bytes := 0;
    for k := 0 to |order|
      invariant bytes == SizesOf(order[..k])
    {
      assert order[..k + 1][..k] == order[..k];
      bytes := bytes + batchTargets[order[k]];
    }
    assert order[..|order|] == order;
  }

  function SizesOf(order: seq<Target>): nat {
    if order == [] then 0 else SizesOf(order[..|order| - 1]) + order[|order| - 1].size
  }

  lemma {:induction false} SizeIsWithin(targets: seq<Target>, t: Target)
    requires t in targets
    ensures t.size <= DistinctBytes(targets)
  {
    var earlier, last := targets[..|targets| - 1], targets[|targets| - 1];
    if t in earlier { SizeIsWithin(earlier, t); }
  }

  // ---------------------------------------------------------------- a whole scan

  /** What the reader tells of one external link: its target, and the digest of the bytes read. */
  datatype Snapshot = Snapshot(target: Target, digest: string)

  /** What happens to one batch: the snapshots, whether the reader completes, and what the clock says when it is asked. */
  datatype Episode = Episode(snapshots: seq<Snapshot>, completes: bool, clock: seq<bool>)

  predicate TimelyAt(e: Episode, k: nat) { k < |e.clock| ==> e.clock[k] }

  function TargetsOf(snapshots: seq<Snapshot>): seq<Target> { seq(|snapshots|, i requires 0 <= i < |snapshots| => snapshots[i].target) }

  function TotalBytes(episodes: seq<Episode>): nat {
    if episodes == [] then 0
    else TotalBytes(episodes[..|episodes| - 1]) + DistinctBytes(TargetsOf(episodes[|episodes| - 1].snapshots))
  }

  function AllSnapshots(episodes: seq<Episode>): seq<Snapshot> {
    if episodes == [] then [] else AllSnapshots(episodes[..|episodes| - 1]) + episodes[|episodes| - 1].snapshots
  }

  /** The key of a target is made of its path and all of its identity. */
  ghost predicate Injective(key: Target -> string) { forall a, b :: key(a) == key(b) ==> a == b }

  /** The targets that are held are those of the snapshots, each with its size and its digest. */
  ghost predicate HeldBy(key: Target -> string, targets: map<string, Held>, snapshots: seq<Snapshot>) {
    && (forall i :: 0 <= i < |snapshots| ==> HoldsOne(key, targets, snapshots[i]))
    && (forall k :: k in targets ==> exists i :: 0 <= i < |snapshots| && key(snapshots[i].target) == k)
  }

  predicate HoldsOne(key: Target -> string, targets: map<string, Held>, s: Snapshot) {
    key(s.target) in targets && targets[key(s.target)] == Held(s.target.size, Some(s.digest))
  }

  /** The digest has its shape, and agrees with every earlier one of the same target. */
  ghost predicate Agrees(earlier: seq<Snapshot>, s: Snapshot) {
    IsDigest(s.digest) && forall i :: 0 <= i < |earlier| && earlier[i].target == s.target ==> earlier[i].digest == s.digest
  }

  /** The i-th snapshot can be reserved after those before it. */
  ghost predicate ReservableAt(earlier: seq<Snapshot>, e: Episode, i: nat)
    requires i < |e.snapshots|
  {
    TimelyAt(e, 4 + i) && Agrees(earlier + e.snapshots[..i], e.snapshots[i])
  }

  ghost predicate Reservable(earlier: seq<Snapshot>, e: Episode, n: nat)
    requires n <= |e.snapshots|
  {
    forall i :: 0 <= i < n ==> ReservableAt(earlier, e, i)
  }

  /** A held target agrees with a snapshot exactly if all snapshots of it agree. */
  lemma HeldAgrees(key: Target -> string, targets: map<string, Held>, earlier: seq<Snapshot>, s: Snapshot)
    requires Injective(key) && HeldBy(key, targets, earlier) && IsDigest(s.digest)
    ensures Agrees(earlier, s) <==> (key(s.target) in targets ==> HoldsOne(key, targets, s))
  {
    if key(s.target) in targets {
      var i :| 0 <= i < |earlier| && key(earlier[i].target) == key(s.target);
      assert HoldsOne(key, targets, earlier[i]);
      if HoldsOne(key, targets, s) {
        forall j | 0 <= j < |earlier| && earlier[j].target == s.target ensures earlier[j].digest == s.digest {
          assert HoldsOne(key, targets, earlier[j]);
        }
      }
    } else {
      assert forall j :: 0 <= j < |earlier| ==> HoldsOne(key, targets, earlier[j]);
    }
  }

  lemma HeldOneMore(key: Target -> string, targets: map<string, Held>, earlier: seq<Snapshot>, s: Snapshot)
    requires Injective(key) && HeldBy(key, targets, earlier) && (key(s.target) in targets ==> HoldsOne(key, targets, s))
    ensures HeldBy(key, targets[key(s.target) := Held(s.target.size, Some(s.digest))], earlier + [s])
  {
    var next := targets[key(s.target) := Held(s.target.size, Some(s.digest))];
    forall i | 0 <= i < |earlier + [s]| ensures HoldsOne(key, next, (earlier + [s])[i]) {
      if i < |earlier| { assert HoldsOne(key, targets, earlier[i]); }
    }
    forall k | k in next ensures exists i :: 0 <= i < |earlier + [s]| && key((earlier + [s])[i].target) == k {
      if k == key(s.target) {
        assert (earlier + [s])[|earlier|] == s;
      } else {
        var i :| 0 <= i < |earlier| && key(earlier[i].target) == k;
        assert (earlier + [s])[i] == earlier[i];
      }
    }
  }

  /** One reservation of a snapshot, after those before it. */
  method ReserveOne(budget: ExternalFileLinkSnapshotBudget, key: Target -> string, ghost earlier: seq<Snapshot>, s: Snapshot, timely: bool)
    returns (ok: bool)
    requires budget.Valid() && !budget.poisoned && Injective(key) && HeldBy(key, budget.targets, earlier) && s.target.size <= MAX_SAFE
    modifies budget`targets
    ensures budget.Valid() && ok == (timely && Agrees(earlier, s))
    ensures ok ==> HeldBy(key, budget.targets, earlier + [s])
  {
    if IsDigest(s.digest) { HeldAgrees(key, budget.targets, earlier, s); }
    ghost var before := budget.targets;
    var r := budget.Reserve(key(s.target), s.target.size, Some(s.digest), timely);
    ok := r.Reserved?;
    ghost var k := key(s.target);
    if k in before {
      var i :| 0 <= i < |earlier| && key(earlier[i].target) == k;
      assert HoldsOne(key, before, earlier[i]);
      assert before[k := before[k]] == before;
    }
    if ok { HeldOneMore(key, before, earlier, s); }
  }

  method ReserveAll(budget: ExternalFileLinkSnapshotBudget, key: Target -> string, ghost earlier: seq<Snapshot>, e: Episode) returns (ok: bool)
    requires budget.Valid() && !budget.poisoned && Injective(key) && HeldBy(key, budget.targets, earlier)
    requires forall i :: 0 <= i < |e.snapshots| ==> e.snapshots[i].target.size <= MAX_SAFE
    modifies budget`targets
    ensures budget.Valid() && ok == Reservable(earlier, e, |e.snapshots|)
    ensures ok ==> HeldBy(key, budget.targets, earlier + e.snapshots)
  {
    assert earlier + e.snapshots[..0] == earlier;
    for i := 0 to |e.snapshots|
      invariant budget.Valid() && Reservable(earlier, e, i) && HeldBy(key, budget.targets, earlier + e.snapshots[..i])
    {
      assert earlier + e.snapshots[..i] + [e.snapshots[i]] == earlier + e.snapshots[..i + 1];
      ok := ReserveOne(budget, key, earlier + e.snapshots[..i], e.snapshots[i], TimelyAt(e, 4 + i));
      assert ok == ReservableAt(earlier, e, i);
      if !ok { return; }
    }
    assert e.snapshots[..|e.snapshots|] == e.snapshots;
    ok := true;
  }

  /**
   The batch goes through: the clock allows every step, the reader completes, its distinct targets fit into what earlier
   batches have left, and no digest disagrees with one before.
   */
  ghost predicate GoesThrough(l: Limits, episodes: seq<Episode>, i: nat)
    requires i < |episodes|
  {
    var e, before := episodes[i], episodes[..i];
    && TimelyAt(e, 0) && TimelyAt(e, 1) && e.completes && TimelyAt(e, 2) && TimelyAt(e, 3)
    && TotalBytes(before) + DistinctBytes(TargetsOf(e.snapshots)) <= l.maxTargetReadBytes
    && Reservable(AllSnapshots(before), e, |e.snapshots|)
  }

  /** Runs the reader of one batch: it must complete in time, and read no more than it was granted. */
  method RunReader(budget: ExternalFileLinkSnapshotBudget, e: Episode, grant: nat) returns (r: Option<nat>)
    requires budget.Valid() && !budget.poisoned
    ensures r.Some? <==> TimelyAt(e, 1) && e.completes && TimelyAt(e, 2) && DistinctBytes(TargetsOf(e.snapshots)) <= grant
    ensures r.Some? ==> r.value == DistinctBytes(TargetsOf(e.snapshots))
  {
    var ok := budget.Checkpoint(TimelyAt(e, 1));
    if !ok { return None; }
    r := ReadBatch(TargetsOf(e.snapshots), grant);
    ok := budget.Checkpoint(TimelyAt(e, 2));
    if !ok || !e.completes { return None; }
  }

  /** After the grant: reads, charges and reserves; false is the exception. */
  method RunBatch(budget: ExternalFileLinkSnapshotBudget, key: Target -> string, ghost earlier: seq<Snapshot>, e: Episode, grant: nat)
    returns (ok: bool)
    requires budget.Valid() && !budget.poisoned && budget.readerBatchActive && grant == budget.limits.maxTargetReadBytes - budget.targetReadBytes
    requires Injective(key) && HeldBy(key, budget.targets, earlier)
    modifies budget
    ensures budget.Valid() && !budget.poisoned && (ok ==> !budget.readerBatchActive)
    ensures ok == (TimelyAt(e, 1) && e.completes && TimelyAt(e, 2) && TimelyAt(e, 3)
                   && DistinctBytes(TargetsOf(e.snapshots)) <= grant && Reservable(earlier, e, |e.snapshots|))
    ensures ok ==> budget.targetReadBytes == old(budget.targetReadBytes) + DistinctBytes(TargetsOf(e.snapshots))
    ensures ok ==> HeldBy(key, budget.targets, earlier + e.snapshots)
    ensures old(budget.targetReadBytes) <= budget.targetReadBytes
  {
    var read := RunReader(budget, e, grant);
    if read.None? { return false; }
    var charge := HostCharge(TargetsOf(e.snapshots));
    assert charge == read.value;
    var finished := budget.FinishReaderBatch(charge, TimelyAt(e, 3));
    if finished.Refused? { return false; }
    forall i | 0 <= i < |e.snapshots| ensures e.snapshots[i].target.size <= MAX_SAFE {
      assert TargetsOf(e.snapshots)[i] == e.snapshots[i].target;
      SizeIsWithin(TargetsOf(e.snapshots), e.snapshots[i].target);
    }
    ok := ReserveAll(budget, key, earlier, e);
  }

  lemma NothingHeld(key: Target -> string, targets: map<string, Held>)
    requires targets == map[]
    ensures HeldBy(key, targets, AllSnapshots([]))
  {
  }

  /** Between two batches: nothing is open, and all batches so far are charged and held. */
  ghost predicate Settled(budget: ExternalFileLinkSnapshotBudget, key: Target -> string, episodes: seq<Episode>)
    reads budget
  {
    && budget.Valid() && !budget.poisoned && !budget.readerBatchActive
    && budget.targetReadBytes == TotalBytes(episodes) && HeldBy(key, budget.targets, AllSnapshots(episodes))
  }

  /** One batch on the shared budget; one that fails after the grant poisons it. */
  method NextBatch(budget: ExternalFileLinkSnapshotBudget, key: Target -> string, episodes: seq<Episode>, i: nat) returns (ok: bool)
    requires i < |episodes| && Injective(key) && Settled(budget, key, episodes[..i])
    modifies budget
    ensures ok == GoesThrough(budget.limits, episodes, i)
    ensures ok ==> Settled(budget, key, episodes[..i + 1])
    ensures !ok ==> budget.Valid() && budget.poisoned == TimelyAt(episodes[i], 0) && TotalBytes(episodes[..i]) <= budget.targetReadBytes
  {
    assert episodes[..i + 1][..i] == episodes[..i];
    var grant := budget.BeginReaderBatch(TimelyAt(episodes[i], 0));
    if grant.Refused? { return false; }
    ok := RunBatch(budget, key, AllSnapshots(episodes[..i]), episodes[i], grant.bytes);
    if !ok { budget.PoisonReaderBatch(); }
  }

  /**
   Runs the batches one after the other on the shared budget, up to the first that does not go through, which poisons it
   once it was granted anything. The host's charge is the reader's own count; what all successful readers read together
   is what the budget was charged, within its limit, and every target is held once, with its one size and digest.
   */
  method RunBatches(budget: ExternalFileLinkSnapshotBudget, key: Target -> string, episodes: seq<Episode>) returns (completed: nat)
    requires budget.Valid() && budget.State() == FRESH && Injective(key)
    modifies budget
    ensures budget.Valid() && completed <= |episodes|
    ensures forall i :: 0 <= i < completed ==> GoesThrough(budget.limits, episodes, i)
    ensures completed < |episodes| ==> !GoesThrough(budget.limits, episodes, completed)
    ensures completed < |episodes| ==> budget.poisoned == TimelyAt(episodes[completed], 0)
    ensures TotalBytes(episodes[..completed]) <= budget.targetReadBytes <= budget.limits.maxTargetReadBytes
    ensures completed == |episodes| ==> budget.targetReadBytes == TotalBytes(episodes) && !budget.poisoned
    ensures completed == |episodes| ==> HeldBy(key, budget.targets, AllSnapshots(episodes))
  {
    completed := 0;
    NothingHeld(key, budget.targets);
    while completed < |episodes|
      invariant completed <= |episodes| && Settled(budget, key, episodes[..completed])
      invariant forall i :: 0 <= i < completed ==> GoesThrough(budget.limits, episodes, i)
    {
      var ok := NextBatch(budget, key, episodes, completed);
      if !ok { return; }
      completed := completed + 1;
    }
    assert episodes[..completed] == episodes;
  }
}
