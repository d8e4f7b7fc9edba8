/**
 What a supervisor session takes in and does, as a trace, the rules that every trace must keep, and what they mean.
 Frames, authority records, clocks and observations enter the trace where the session takes them; the rules say which
 of its own actions they allow.
 */
module SupervisorTrace {
  import opened Wrappers
  import F = OutputFlow

  datatype Reason = Timeout | UserInterrupt | ParentShutdown | OutputFailure | Natural | ProcessTreeNotEmpty

  /** What a drain receipt proves: the target never ran, or it ran and its job is empty, pipes ended and output settled. */
  datatype Proof = NeverStarted | ZeroPipesEof

  datatype Receipt = Receipt(proof: Proof, reason: Reason, drainedAt: string)

  /** The canonical record of the active child, as found when it is read. */
  datatype Authority = Unreadable | PreparedBound | Armed(digest: string)

  /** A frame of the control stream. */
  datatype Control =
    | EndOfFile
    | Malformed
    | Data(operationId: string)
    | Abort(operationId: string)
    | Terminate(operationId: string, reason: Reason)
    | Start(operationId: string, digest: string)
    | OutputAck(operationId: string, sequence: int, bytes: int)
    | Ack(operationId: string, receiptDigest: string)

  /** The deadline of the present phase, and that for a natural drain. */
  datatype Deadline = Phase | NaturalDrain

  datatype Action =
    | Received(frame: Control)
    | Found(authority: Authority)
    | Clock(deadline: Deadline, passed: bool)
    | Observed(active: nat, flow: F.System, drained: bool)
    | Create(operationId: string)
    | Resume
    | Count
    | Kill
    | Decide(reason: Reason)
    | Install(receipt: Receipt, active: nat, flow: F.System)
    | SendDrained(proof: Proof)

  predicate External(reason: Reason) { !reason.Natural? && !reason.ProcessTreeNotEmpty? }

  /** The reason for which a frame ends the operation, if it does. */
  function TerminationOf(operationId: string, frame: Control): Option<Reason> {
    if frame.EndOfFile? then Some(ParentShutdown)
    else if frame.Terminate? && frame.operationId == operationId && External(frame.reason) then Some(frame.reason)
    else None
  }

  // ---------------------------------------------------------------- what is remembered of a trace

  /**
   `count` counts the frames since the job was created, and `opening` is the first of them; `armed` is the digest found
   since the last frame; `reason` is that of the first terminating frame.
   */
  datatype Frames = Frames(
    last: Option<Control>, operationId: Option<string>, count: nat, opening: Option<Control>, armed: Option<string>, reason: Option<Reason>)

  /**
   The latest look at the job and its output. `settling`: only settling was awaited, and the phase was open just before;
   `inTime` and `inPhase`: the deadline was found not to have passed since.
   */
  datatype Look = NoLook | Unfinished | Finished(settling: bool, inTime: bool, inPhase: bool)

  /** `window`: the natural deadline was asked for; `quiet`: no process or pipe was left; `open`: the phase was, since the last look. */
  datatype Sight = Sight(look: Look, window: bool, quiet: bool, open: bool, seen: bool)

  datatype Acts = Acts(resumed: bool, counted: bool, killed: bool, decided: Option<Reason>, installed: Option<Receipt>, announced: bool)

  datatype Monitor = Monitor(frames: Frames, sight: Sight, acts: Acts)

  const FRESH := Monitor(
    Frames(None, None, 0, None, None, None), Sight(NoLook, false, false, false, false), Acts(false, false, false, None, None, false))

  function Hear(f: Frames, a: Action): Frames {
    match a
    case Received(frame) =>
      if f.operationId.None? then f.(last := Some(frame), armed := None)
      else Frames(Some(frame), f.operationId, f.count + 1, if f.count == 0 then Some(frame) else f.opening, None,
                  if f.reason.None? then TerminationOf(f.operationId.value, frame) else f.reason)
    case Found(authority) => f.(armed := if authority.Armed? then Some(authority.digest) else None)
    case Create(operationId) => f.(operationId := Some(operationId))
    case _ => f
  }

  function LookAfter(look: Look, deadline: Deadline, passed: bool): Look {
    if !look.Finished? then look
    else if passed then Unfinished
    else if deadline.Phase? then look.(inPhase := true) else look.(inTime := true)
  }

  function See(s: Sight, a: Action): Sight {
    match a
    case Clock(deadline, passed) =>
      Sight(LookAfter(s.look, deadline, passed), s.window || deadline.NaturalDrain?, s.quiet, if deadline.Phase? then !passed else s.open, s.seen)
    case Observed(active, flow, drained) =>
      Sight(if drained then Finished(s.quiet && s.open, false, false) else Unfinished, s.window, s.quiet || Quiet(a), false, s.seen || drained)
    case _ => s
  }

  function Do(x: Acts, a: Action): Acts {
    match a
    case Resume => x.(resumed := true)
    case Count => x.(counted := true)
    case Kill => x.(killed := true)
    case Decide(reason) => x.(decided := Some(reason))
    case Install(receipt, _, _) => x.(installed := Some(receipt))
    case SendDrained(_) => x.(announced := true)
    case _ => x
  }

  function Step(m: Monitor, a: Action): Monitor { Monitor(Hear(m.frames, a), See(m.sight, a), Do(m.acts, a)) }

  function WatchAll(trace: seq<Action>): Monitor {
    if trace == [] then FRESH else Step(WatchAll(trace[..|trace| - 1]), trace[|trace| - 1])
  }

  // ---------------------------------------------------------------- the rules

  /** A look at a job without processes, whose pipes have ended. */
  predicate Quiet(a: Action) { a.Observed? && a.active == 0 && F.PipesEnded(a.flow) }

  /** The reason that a receipt must give: the first termination, or else how the target ended by itself. */
  function DueReason(m: Monitor): Reason {
    if m.frames.reason.Some? then m.frames.reason.value else if m.acts.counted then Natural else ProcessTreeNotEmpty
  }

  /** The latest look makes a natural end: before any window was opened, within both deadlines, or once only settling is awaited. */
  predicate CountsNow(s: Sight) { s.look.Finished? && (!s.window || (s.look.inTime && s.look.inPhase) || s.look.settling) }

  predicate MayResume(m: Monitor) {
    && m.frames.operationId.Some? && m.frames.count == 1 && m.frames.armed.Some?
    && m.frames.opening == Some(Start(m.frames.operationId.value, m.frames.armed.value))
    && !m.acts.resumed && m.acts.decided.None?
  }

  predicate MayCount(m: Monitor) {
    && m.frames.operationId.Some? && m.frames.reason.None? && m.acts.resumed && !m.acts.counted && m.acts.decided.None?
    && CountsNow(m.sight)
  }

  predicate MayDecide(m: Monitor) {
    && m.frames.operationId.Some? && m.acts.decided.None? && (m.acts.killed || m.sight.seen)
    && (m.frames.reason.None? ==> m.acts.resumed && m.acts.killed == !m.acts.counted)
  }

  /** The end that a receipt attests. */
  ghost predicate Attested(receipt: Receipt, active: nat, flow: F.System) {
    active == 0 && F.SettledEnd(flow) && (receipt.reason.Natural? ==> !flow.failed && (flow.connected ==> F.Complete(flow)))
  }

  predicate MayInstall(m: Monitor, receipt: Receipt) {
    && m.acts.decided == Some(receipt.reason) && m.acts.installed.None?
    && receipt.proof == (if m.acts.resumed then ZeroPipesEof else NeverStarted)
    && m.sight.look.Finished? && m.sight.look.inPhase
  }

  ghost predicate Allowed(m: Monitor, a: Action) {
    match a
    case Received(_) => m.acts.decided.None? || m.acts.installed.Some?
    case Observed(active, flow, drained) => drained ==> active == 0 && F.SettledEnd(flow)
    case Create(operationId) => m.frames.operationId.None? && m.frames.last == Some(Data(operationId))
    case Resume => MayResume(m)
    case Count => MayCount(m)
    case Decide(reason) => MayDecide(m) && reason == DueReason(m)
    case Install(receipt, active, flow) => MayInstall(m, receipt) && Attested(receipt, active, flow)
    case SendDrained(proof) => m.acts.installed.Some? && m.acts.installed.value.proof == proof && !m.acts.announced
    case _ => true
  }

  /** No rule is broken anywhere in the trace. */
  ghost predicate Accepted(trace: seq<Action>) {
    trace == [] || (Accepted(trace[..|trace| - 1]) && Allowed(WatchAll(trace[..|trace| - 1]), trace[|trace| - 1]))
  }

  lemma WatchOne(trace: seq<Action>, a: Action)
    ensures WatchAll(trace + [a]) == Step(WatchAll(trace), a)
    ensures Accepted(trace + [a]) <==> Accepted(trace) && Allowed(WatchAll(trace), a)
  {
    assert (trace + [a])[..|trace|] == trace;
  }

  /** The step at i was allowed after the actions before it. */
  lemma {:induction false} AcceptedAt(trace: seq<Action>, i: nat)
    requires Accepted(trace) && i < |trace|
    ensures Accepted(trace[..i]) && Allowed(WatchAll(trace[..i]), trace[i])
  {
    var n := |trace| - 1;
    if i < n {
      AcceptedAt(trace[..n], i);
      assert trace[..n][..i] == trace[..i];
    }
  }

  // ---------------------------------------------------------------- what the memory of the frames means

  ghost predicate NoFrameIn(trace: seq<Action>, lo: int, hi: nat)
    requires -1 <= lo && hi <= |trace|
  {
    forall j :: lo < j < hi ==> !trace[j].Received?
  }

  lemma {:induction false} LastAt(trace: seq<Action>) returns (d: nat)
    requires WatchAll(trace).frames.last.Some?
    ensures d < |trace| && trace[d] == Received(WatchAll(trace).frames.last.value) && NoFrameIn(trace, d, |trace|)
  {
    var n := |trace| - 1;
    if trace[n].Received? { d := n; } else { d := LastAt(trace[..n]); }
  }

  lemma {:induction false} ArmedAt(trace: seq<Action>) returns (f: nat)
    requires WatchAll(trace).frames.armed.Some?
    ensures f < |trace| && trace[f] == Found(Armed(WatchAll(trace).frames.armed.value)) && NoFrameIn(trace, f, |trace|)
  {
    var n := |trace| - 1;
    if trace[n].Found? { f := n; } else { f := ArmedAt(trace[..n]); }
  }

  lemma {:induction false} CreationAt(trace: seq<Action>) returns (c: nat)
    requires WatchAll(trace).frames.operationId.Some?
    ensures c < |trace| && trace[c] == Create(WatchAll(trace).frames.operationId.value)
  {
    var n := |trace| - 1;
    if trace[n].Create? { c := n; } else { c := CreationAt(trace[..n]); }
  }

  lemma {:induction false} NothingBeforeCreation(trace: seq<Action>)
    requires WatchAll(trace).frames.operationId.None?
    ensures var f := WatchAll(trace).frames; f.count == 0 && f.reason.None? && f.opening.None?
    ensures forall j :: 0 <= j < |trace| ==> !trace[j].Create?
  {
    if trace != [] { NothingBeforeCreation(trace[..|trace| - 1]); }
  }

  ghost predicate CreatedAt(trace: seq<Action>, c: nat) { c < |trace| && trace[c].Create? }

  lemma {:induction false} CreatedOnce(trace: seq<Action>, c: nat)
    requires Accepted(trace) && CreatedAt(trace, c)
    ensures WatchAll(trace).frames.operationId == Some(trace[c].operationId)
    ensures forall j :: 0 <= j < |trace| && j != c ==> !trace[j].Create?
  {
    var n := |trace| - 1;
    if c < n { CreatedOnce(trace[..n], c); } else { NothingBeforeCreation(trace[..n]); }
  }

  /** Of the actions after c and before hi, only that at k is a frame. */
  ghost predicate OnlyFrame(trace: seq<Action>, c: nat, k: nat, hi: nat)
    requires hi <= |trace|
  {
    c < k < hi && trace[k].Received? && forall j :: c < j < hi && j != k ==> !trace[j].Received?
  }

  lemma {:induction false} CountTells(trace: seq<Action>, c: nat)
    requires Accepted(trace) && CreatedAt(trace, c)
    ensures WatchAll(trace).frames.count == 0 ==> NoFrameIn(trace, c, |trace|)
  {
    var n := |trace| - 1;
    if c < n {
      CreatedOnce(trace[..n], c);
      CountTells(trace[..n], c);
    }
  }

  lemma {:induction false} OpeningAt(trace: seq<Action>, c: nat) returns (k: nat)
    requires Accepted(trace) && CreatedAt(trace, c) && WatchAll(trace).frames.count == 1
    ensures OnlyFrame(trace, c, k, |trace|) && WatchAll(trace).frames.opening == Some(trace[k].frame)
  {
    var n := |trace| - 1;
    if c == n { NothingBeforeCreation(trace[..n]); }
    CreatedOnce(trace[..n], c);
    if trace[n].Received? {
      CountTells(trace[..n], c);
      k := n;
    } else {
      k := OpeningAt(trace[..n], c);
    }
  }

  predicate Ends(operationId: string, a: Action) { a.Received? && TerminationOf(operationId, a.frame).Some? }

  /** After the creation at c and before hi, no frame ends the operation. */
  ghost predicate NoEnd(trace: seq<Action>, c: nat, hi: nat)
    requires CreatedAt(trace, c) && hi <= |trace|
  {
    forall j :: c < j < hi ==> !Ends(trace[c].operationId, trace[j])
  }

  /** The frame at k is the first after the creation at c that ends the operation. */
  ghost predicate FirstEnd(trace: seq<Action>, c: nat, k: nat)
    requires CreatedAt(trace, c) && k < |trace|
  {
    c < k && Ends(trace[c].operationId, trace[k]) && NoEnd(trace, c, k)
  }

  lemma {:induction false} ReasonAt(trace: seq<Action>, c: nat) returns (k: nat)
    requires Accepted(trace) && CreatedAt(trace, c)
    ensures k < |trace|
    ensures WatchAll(trace).frames.reason.None? ==> NoEnd(trace, c, |trace|)
    ensures WatchAll(trace).frames.reason.Some? ==>
              FirstEnd(trace, c, k) && WatchAll(trace).frames.reason == TerminationOf(trace[c].operationId, trace[k].frame)
  {
    var n := |trace| - 1;
    k := n;
    if c == n {
      NothingBeforeCreation(trace[..n]);
    } else {
      CreatedOnce(trace[..n], c);
      var earlier := ReasonAt(trace[..n], c);
      if WatchAll(trace[..n]).frames.reason.Some? { k := earlier; }
    }
  }

  // ---------------------------------------------------------------- what the memory of acts and looks means

  datatype Deed = Resuming | Counting | Killing | Deciding | Installing | Announcing | SeeingDrained | AskingNatural

  predicate Is(deed: Deed, a: Action) {
    match deed
    case Resuming => a.Resume?
    case Counting => a.Count?
    case Killing => a.Kill?
    case Deciding => a.Decide?
    case Installing => a.Install?
    case Announcing => a.SendDrained?
    case SeeingDrained => a.Observed? && a.drained
    case AskingNatural => a.Clock? && a.deadline.NaturalDrain?
  }

  predicate Remembers(m: Monitor, deed: Deed) {
    match deed
    case Resuming => m.acts.resumed
    case Counting => m.acts.counted
    case Killing => m.acts.killed
    case Deciding => m.acts.decided.Some?
    case Installing => m.acts.installed.Some?
    case Announcing => m.acts.announced
    case SeeingDrained => m.sight.seen
    case AskingNatural => m.sight.window
  }

  ghost predicate DoneBefore(trace: seq<Action>, deed: Deed, hi: nat)
    requires hi <= |trace|
  {
    exists j :: 0 <= j < hi && Is(deed, trace[j])
  }

  lemma {:induction false} MemoryTells(trace: seq<Action>, deed: Deed)
    ensures Remembers(WatchAll(trace), deed) <==> DoneBefore(trace, deed, |trace|)
  {
    if trace != [] {
      var n := |trace| - 1;
      MemoryTells(trace[..n], deed);
      DoneNow(trace, deed);
      RememberOne(WatchAll(trace[..n]), trace[n], deed);
    }
  }

  lemma RememberOne(m: Monitor, a: Action, deed: Deed)
    ensures Remembers(Step(m, a), deed) <==> Remembers(m, deed) || Is(deed, a)
  {
  }

  lemma DoneNow(trace: seq<Action>, deed: Deed)
    requires trace != []
    ensures var n := |trace| - 1; DoneBefore(trace, deed, |trace|) <==> DoneBefore(trace[..n], deed, n) || Is(deed, trace[n])
  {
    var n := |trace| - 1;
    if DoneBefore(trace[..n], deed, n) {
      var j :| 0 <= j < n && Is(deed, trace[..n][j]);
      assert Is(deed, trace[j]);
    }
    if DoneBefore(trace, deed, |trace|) {
      var j :| 0 <= j < |trace| && Is(deed, trace[j]);
      assert j < n ==> Is(deed, trace[..n][j]);
    }
  }

  /** What the monitor remembers before step i was done before it. */
  lemma DoneAt(trace: seq<Action>, deed: Deed, i: nat)
    requires i <= |trace|
    ensures Remembers(WatchAll(trace[..i]), deed) <==> DoneBefore(trace, deed, i)
  {
    MemoryTells(trace[..i], deed);
    if DoneBefore(trace, deed, i) {
      var j :| 0 <= j < i && Is(deed, trace[j]);
      assert Is(deed, trace[..i][j]);
    }
    if DoneBefore(trace[..i], deed, i) {
      var j :| 0 <= j < i && Is(deed, trace[..i][j]);
      assert Is(deed, trace[j]);
    }
  }

  lemma {:induction false} DecisionAt(trace: seq<Action>) returns (e: nat)
    requires Accepted(trace) && WatchAll(trace).acts.decided.Some? && WatchAll(trace).acts.installed.None?
    ensures e < |trace| && trace[e] == Decide(WatchAll(trace).acts.decided.value) && NoFrameIn(trace, e, |trace|)
  {
    var n := |trace| - 1;
    if trace[n].Decide? {
      e := n;
    } else {
      StillDecided(WatchAll(trace[..n]), trace[n]);
      e := DecisionAt(trace[..n]);
    }
  }

  lemma StillDecided(m: Monitor, a: Action)
    requires Allowed(m, a) && !a.Decide? && Step(m, a).acts.decided.Some? && Step(m, a).acts.installed.None?
    ensures m.acts.decided == Step(m, a).acts.decided && m.acts.installed.None? && !a.Received?
  {
  }

  lemma {:induction false} ReceiptAt(trace: seq<Action>) returns (r: nat)
    requires WatchAll(trace).acts.installed.Some?
    ensures r < |trace| && trace[r].Install? && trace[r].receipt == WatchAll(trace).acts.installed.value
  {
    var n := |trace| - 1;
    if trace[n].Install? { r := n; } else { r := ReceiptAt(trace[..n]); }
  }

  predicate Passed(a: Action) { a.Clock? && a.passed }

  /** The look at o found everything drained; until hi there is no other look, and no deadline is found to have passed. */
  ghost predicate DrainedAt(trace: seq<Action>, o: nat, hi: nat)
    requires hi <= |trace|
  {
    o < hi && Is(SeeingDrained, trace[o]) && forall j :: o < j < hi ==> !trace[j].Observed? && !Passed(trace[j])
  }

  /** After o and before hi, the deadline was found not to have passed. */
  ghost predicate OpenAfter(trace: seq<Action>, deadline: Deadline, o: nat, hi: nat)
    requires hi <= |trace|
  {
    exists t :: o < t < hi && trace[t] == Clock(deadline, false)
  }

  /** The phase was found open at t; until hi there is no look, and the phase is not found to be over. */
  ghost predicate PhaseOpenAt(trace: seq<Action>, t: nat, hi: nat)
    requires hi <= |trace|
  {
    t < hi && trace[t] == Clock(Phase, false) && forall j :: t < j < hi ==> !trace[j].Observed? && trace[j] != Clock(Phase, true)
  }

  /** Before the look at o, the job was seen without processes and pipes, and then the phase was found open. */
  ghost predicate SettlingAt(trace: seq<Action>, o: nat)
    requires o <= |trace|
  {
    exists q: nat, t: nat :: q < t < o && Quiet(trace[q]) && PhaseOpenAt(trace, t, o)
  }

  lemma {:induction false} QuietAt(trace: seq<Action>) returns (q: nat)
    requires WatchAll(trace).sight.quiet
    ensures q < |trace| && Quiet(trace[q])
  {
    var n := |trace| - 1;
    if Quiet(trace[n]) { q := n; } else { q := QuietAt(trace[..n]); }
  }

  lemma {:induction false} PhaseAt(trace: seq<Action>) returns (t: nat)
    requires WatchAll(trace).sight.open
    ensures PhaseOpenAt(trace, t, |trace|)
  {
    var n := |trace| - 1;
    if trace[n] == Clock(Phase, false) { t := n; } else { t := PhaseAt(trace[..n]); }
  }

  lemma SettlingBefore(trace: seq<Action>, o: nat)
    requires o <= |trace| && WatchAll(trace[..o]).sight.quiet && WatchAll(trace[..o]).sight.open
    ensures SettlingAt(trace, o)
  {
    var q := QuietAt(trace[..o]);
    var t := PhaseAt(trace[..o]);
    assert q < t;
    assert PhaseOpenAt(trace, t, o);
  }

  /** What the latest look means. */
  ghost predicate LookMeans(look: Look, trace: seq<Action>, o: nat)
    requires look.Finished?
  {
    && DrainedAt(trace, o, |trace|)
    && (look.inTime ==> OpenAfter(trace, NaturalDrain, o, |trace|))
    && (look.inPhase ==> OpenAfter(trace, Phase, o, |trace|))
    && (look.settling ==> SettlingAt(trace, o))
  }

  lemma {:induction false} LookAt(trace: seq<Action>) returns (o: nat)
    requires WatchAll(trace).sight.look.Finished?
    ensures LookMeans(WatchAll(trace).sight.look, trace, o)
  {
    var n := |trace| - 1;
    if trace[n].Observed? {
      o := n;
      if WatchAll(trace).sight.look.settling { SettlingBefore(trace, n); }
    } else {
      o := LookAt(trace[..n]);
      LookLasts(WatchAll(trace[..n]).sight.look, trace, o);
    }
  }

  lemma LookLasts(look: Look, trace: seq<Action>, o: nat)
    requires trace != [] && look.Finished? && LookMeans(look, trace[..|trace| - 1], o)
    requires !trace[|trace| - 1].Observed? && !Passed(trace[|trace| - 1])
    ensures var a := trace[|trace| - 1]; LookMeans(if a.Clock? then LookAfter(look, a.deadline, a.passed) else look, trace, o)
  {
    var n := |trace| - 1;
    var shorter := trace[..n];
    if OpenAfter(shorter, NaturalDrain, o, n) { OpenStays(trace, NaturalDrain, o, n); }
    if OpenAfter(shorter, Phase, o, n) { OpenStays(trace, Phase, o, n); }
    if SettlingAt(shorter, o) { SettlingStays(trace, n, o); }
    assert trace[n].Clock? ==> trace[n] == Clock(trace[n].deadline, false);
  }

  lemma OpenStays(trace: seq<Action>, deadline: Deadline, o: nat, n: nat)
    requires n <= |trace| && OpenAfter(trace[..n], deadline, o, n)
    ensures OpenAfter(trace, deadline, o, n) && OpenAfter(trace, deadline, o, |trace|)
  {
    var t :| o < t < n && trace[..n][t] == Clock(deadline, false);
    assert trace[t] == Clock(deadline, false);
  }

  lemma SettlingStays(trace: seq<Action>, n: nat, o: nat)
    requires o <= n <= |trace| && SettlingAt(trace[..n], o)
    ensures SettlingAt(trace, o)
  {
    var shorter := trace[..n];
    var q: nat, t: nat :| q < t < o && Quiet(shorter[q]) && PhaseOpenAt(shorter, t, o);
    assert Quiet(trace[q]) && PhaseOpenAt(trace, t, o);
  }

  /** The same of the latest look before i. */
  lemma LookBefore(trace: seq<Action>, i: nat) returns (o: nat)
    requires i <= |trace| && WatchAll(trace[..i]).sight.look.Finished?
    ensures var look := WatchAll(trace[..i]).sight.look;
      && DrainedAt(trace, o, i)
      && (look.inTime ==> OpenAfter(trace, NaturalDrain, o, i)) && (look.inPhase ==> OpenAfter(trace, Phase, o, i))
      && (look.settling ==> SettlingAt(trace, o))
  {
    var look := WatchAll(trace[..i]).sight.look;
    o := LookAt(trace[..i]);
    assert DrainedAt(trace, o, i);
    if look.inTime { OpenStays(trace, NaturalDrain, o, i); }
    if look.inPhase { OpenStays(trace, Phase, o, i); }
    if look.settling { SettlingStays(trace, i, o); }
  }

  // ---------------------------------------------------------------- what every accepted trace shows

  /** Resume, count, decision, receipt and DRAINED each happen at most once. */
  lemma NoSecond(trace: seq<Action>, i: nat, j: nat, deed: Deed)
    requires Accepted(trace) && i < j < |trace| && Is(deed, trace[i]) && Is(deed, trace[j])
    ensures deed.Killing? || deed.SeeingDrained? || deed.AskingNatural?
  {
    AcceptedAt(trace, j);
    DoneAt(trace, deed, j);
  }

  /**
   The target is resumed at most once: after DATA named its operation and the job was created for it, when the only frame
   since was a START for this operation, with the digest that was then found in the armed record.
   */
  lemma ResumedOnceAfterStart(trace: seq<Action>, i: nat) returns (d: nat, c: nat, k: nat, f: nat)
    requires Accepted(trace) && i < |trace| && trace[i].Resume?
    ensures d < c < k < f < i && CreatedAt(trace, c) && trace[d] == Received(Data(trace[c].operationId)) && NoFrameIn(trace, d, c)
    ensures OnlyFrame(trace, c, k, i) && trace[f].Found? && trace[f].authority.Armed?
    ensures trace[k].frame == Start(trace[c].operationId, trace[f].authority.digest)
    ensures forall j :: 0 <= j < |trace| && j != i ==> !trace[j].Resume?
  {
    AcceptedAt(trace, i);
    var before := trace[..i];
    c := CreationAt(before);
    k := OpeningAt(before, c);
    f := ArmedAt(before);
    AcceptedAt(trace, c);
    d := LastAt(trace[..c]);
    forall j | 0 <= j < |trace| && j != i ensures !trace[j].Resume? {
      if trace[j].Resume? { if j < i { NoSecond(trace, j, i, Resuming); } else { NoSecond(trace, i, j, Resuming); } }
    }
  }

  /** A never-started receipt has no resume before or after it, and any other comes after the resume. */
  lemma ReceiptFitsResume(trace: seq<Action>, i: nat)
    requires Accepted(trace) && i < |trace| && trace[i].Install?
    ensures trace[i].receipt.proof == ZeroPipesEof <==> DoneBefore(trace, Resuming, i)
    ensures trace[i].receipt.proof == NeverStarted ==> forall j :: 0 <= j < |trace| ==> !trace[j].Resume?
  {
    AcceptedAt(trace, i);
    DoneAt(trace, Resuming, i);
    DoneAt(trace, Deciding, i);
    if trace[i].receipt.proof == NeverStarted {
      forall j | 0 <= j < |trace| ensures !trace[j].Resume? { NoResumeAfterReceipt(trace, i, j); }
    }
  }

  lemma NoResumeAfterReceipt(trace: seq<Action>, i: nat, j: nat)
    requires Accepted(trace) && i < |trace| && trace[i].Install? && j < |trace|
    requires !DoneBefore(trace, Resuming, i) && DoneBefore(trace, Deciding, i)
    ensures !trace[j].Resume?
  {
    if trace[j].Resume? {
      assert i < j by { assert j < i ==> Is(Resuming, trace[j]); }
      AcceptedAt(trace, j);
      DoneAt(trace, Deciding, j);
    }
  }

  /** DRAINED is sent at most once, after the only receipt, and with its proof. */
  lemma DrainedFollowsOneReceipt(trace: seq<Action>, i: nat) returns (r: nat)
    requires Accepted(trace) && i < |trace| && trace[i].SendDrained?
    ensures r < i && trace[r].Install? && trace[r].receipt.proof == trace[i].proof
    ensures forall j :: 0 <= j < |trace| ==> (trace[j].SendDrained? ==> j == i) && (trace[j].Install? ==> j == r)
  {
    AcceptedAt(trace, i);
    r := ReceiptAt(trace[..i]);
    forall j | 0 <= j < |trace| ensures (trace[j].SendDrained? ==> j == i) && (trace[j].Install? ==> j == r) {
      if trace[j].SendDrained? && j != i { NoSecond(trace, if j < i then j else i, if j < i then i else j, Announcing); }
      if trace[j].Install? && j != r { NoSecond(trace, if j < r then j else r, if j < r then r else j, Installing); }
    }
  }

  /** The receipt is installed after a look that found everything drained, with the phase then still open. */
  lemma ReceiptSeesTheEnd(trace: seq<Action>, i: nat) returns (o: nat)
    requires Accepted(trace) && i < |trace| && trace[i].Install?
    ensures DrainedAt(trace, o, i) && OpenAfter(trace, Phase, o, i) && Attested(trace[i].receipt, trace[i].active, trace[i].flow)
    ensures trace[o].active == 0 && F.SettledEnd(trace[o].flow)
  {
    AcceptedAt(trace, i);
    o := LookBefore(trace, i);
    AcceptedAt(trace, o);
  }

  /** Nothing ended the operation before i, and the target ended by itself. */
  ghost predicate EndedByItself(trace: seq<Action>, c: nat, i: nat, natural: bool)
    requires CreatedAt(trace, c) && i <= |trace|
  {
    && NoEnd(trace, c, i) && DoneBefore(trace, Resuming, i)
    && DoneBefore(trace, Counting, i) == natural && DoneBefore(trace, Killing, i) == !natural
  }

  /**
   The reason of a receipt was decided after the job was killed or seen drained, and no frame was taken since. It is that
   of the first frame that ends the operation; without one the target ran, and either its end was counted as natural or
   the job was killed.
   */
  lemma ReceiptTellsTheReason(trace: seq<Action>, i: nat) returns (c: nat, k: nat, e: nat)
    requires Accepted(trace) && i < |trace| && trace[i].Install?
    ensures CreatedAt(trace, c) && c < e < i && trace[e] == Decide(trace[i].receipt.reason) && NoFrameIn(trace, e, i)
    ensures DoneBefore(trace, Killing, e) || DoneBefore(trace, SeeingDrained, e)
    ensures var reason := trace[i].receipt.reason;
      || (k < e && FirstEnd(trace, c, k) && TerminationOf(trace[c].operationId, trace[k].frame) == Some(reason))
      || (reason.Natural? && EndedByItself(trace, c, e, true))
      || (reason.ProcessTreeNotEmpty? && EndedByItself(trace, c, e, false))
    ensures NoEnd(trace, c, e) ==> NoEnd(trace, c, i)
  {
    AcceptedAt(trace, i);
    e := DecisionAt(trace[..i]);
    AcceptedAt(trace, e);
    c := CreationAt(trace[..e]);
    k := ReasonAt(trace[..e], c);
    DoneAt(trace, Killing, e);
    DoneAt(trace, SeeingDrained, e);
    DoneAt(trace, Counting, e);
    DoneAt(trace, Resuming, e);
    ReasonIsOf(trace, c, k, e);
  }

  lemma ReasonIsOf(trace: seq<Action>, c: nat, k: nat, e: nat)
    requires e <= |trace| && CreatedAt(trace[..e], c) && k < e
    ensures FirstEnd(trace[..e], c, k) ==> FirstEnd(trace, c, k)
    ensures NoEnd(trace[..e], c, e) ==> NoEnd(trace, c, e)
  {
  }

  /**
   An end is counted as natural only before any frame ended the operation, and after a look that found everything drained:
   either no natural deadline had been asked for, or this one and that of the phase were found open after the look, or
   before the look only settling was awaited while the phase was open.
   */
  lemma CountedInTime(trace: seq<Action>, i: nat) returns (c: nat, o: nat)
    requires Accepted(trace) && i < |trace| && trace[i].Count?
    ensures CreatedAt(trace, c) && c < i && NoEnd(trace, c, i) && DrainedAt(trace, o, i)
    ensures !DoneBefore(trace, AskingNatural, i) || (OpenAfter(trace, NaturalDrain, o, i) && OpenAfter(trace, Phase, o, i)) || SettlingAt(trace, o)
  {
    AcceptedAt(trace, i);
    c := CreationAt(trace[..i]);
    var k := ReasonAt(trace[..i], c);
    ReasonIsOf(trace, c, k, i);
    o := LookBefore(trace, i);
    DoneAt(trace, AskingNatural, i);
  }
}
