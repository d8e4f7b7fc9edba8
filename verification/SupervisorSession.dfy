/**
 The supervisor session: BOUND, DATA, ARMED, then START, TERMINATE, ABORT or the end of the parent's control stream,
 and a drain receipt at the end. Time, frames, threads, the target's processes and the file system answer through a
 script of moments, one for every question that the session asks; a script that runs out is the session being cut off.
 */
module SupervisorSession {
  import opened Wrappers
  import opened SupervisorBackground
  import opened SupervisorTrace
  import F = OutputFlow

  /** Whether the deadline passed, whether the call succeeded, the record that was read, and the text that was made up. */
  datatype Answer = Answer(expired: bool, succeeds: bool, authority: Authority, text: string)

  /** Until a question is answered the background goes on; the frame is the one that is there if the session takes one. */
  datatype Moment = Moment(background: seq<Background>, answer: Answer, frame: Option<Control>)

  class Session {
    const digestOf: Receipt -> string
    var script: seq<Moment>
    var job: Job
    var flow: F.System
    var target: string
    var wasResumed: bool
    var binding: Option<string>
    var receiptDigest: Option<string>
    var terminationReason: Option<Reason>
    var terminationBeforeStart: bool
    ghost var trace: seq<Action>

    constructor (digestOf: Receipt -> string, script: seq<Moment>)
      ensures this.script == script && trace == [] && !wasResumed && terminationReason.None? && job.active == 0
      ensures flow == F.START && Valid() && Tracked()
    {
      this.digestOf := digestOf;
      this.script := script;
      job, flow, target := Job(0, false), F.START, "";
      wasResumed, binding, receiptDigest, terminationReason, terminationBeforeStart := false, None, None, None, false;
      trace := [];
      new;
      F.StartIsInvariant();
    }

    ghost function M(): Monitor
      reads this`trace
    {
      WatchAll(trace)
    }

    /** No rule is broken, and the trace agrees with what the session keeps. */
    ghost predicate Valid()
      reads this
    {
      && F.Invariant(flow) && Accepted(trace)
      && (M().frames.reason.None? && M().acts.installed.None? ==> !flow.terminated)
      && (M().frames.operationId.Some? ==> M().frames.operationId == Some(target))
      && (M().frames.reason.Some? ==> External(M().frames.reason.value))
      && M().acts.resumed == wasResumed
      && (receiptDigest.Some? ==> M().acts.installed.Some? && receiptDigest == Some(digestOf(M().acts.installed.value)))
    }

    /** The reason that the session keeps is that of the first terminating frame. */
    ghost predicate Tracked()
      reads this
    {
      M().acts.installed.None? ==> M().frames.reason == terminationReason
    }

    /** The same, once the frame that was just taken is handled. */
    ghost predicate Pending(frame: Control)
      reads this
    {
      M().acts.installed.None? ==> M().frames.reason == FirstOf(terminationReason, TerminationOf(target, frame))
    }

    /** The job is empty, and both pipes have ended. */
    predicate Over()
      reads this
    {
      job.active == 0 && F.PipesEnded(flow)
    }

    /** What only goes one way while the session waits. */
    twostate predicate WentOn()
      reads this
    {
      |script| <= |old(script)| && JobKept(old(job), job) && FlowKept(old(flow), flow)
    }

    /** The same with the control thread at work. */
    twostate predicate EndKept()
      reads this
    {
      JobKept(old(job), job) && FlowEndKept(old(flow), flow)
    }

    twostate predicate ScriptShrinks(ok: bool)
      reads this
    {
      |script| <= |old(script)| && (ok ==> |script| < |old(script)|)
    }

    /** Only the end of the stream tells that the parent is gone, and then the writer is disconnected. */
    predicate Told(requested: Option<Reason>, parentConnected: bool)
      reads this`flow
    {
      parentConnected || (requested.Some? && !flow.connected)
    }

    /** The job exists, and its end is open. */
    ghost predicate Undecided()
      reads this
    {
      M().frames.operationId.Some? && M().acts.decided.None? && M().acts.installed.None?
    }

    /** Asks one question; meanwhile the background goes on. `None` is the end of the script. */
    method Ask() returns (answer: Option<Answer>)
      requires Valid()
      modifies this`script, this`job, this`flow
      ensures Valid() && WentOn()
      ensures answer.None? <==> old(script) == []
      ensures answer.Some? ==> answer.value == old(script)[0].answer && script == old(script)[1..]
    {
      if script == [] { return None; }
      var m := script[0];
      script := script[1..];
      GoOn(m.background);
      return Some(m.answer);
    }

    method GoOn(background: seq<Background>)
      requires Valid()
      modifies this`job, this`flow
      ensures Valid() && JobKept(old(job), job) && FlowKept(old(flow), flow)
    {
      JobGoesOn(job, background);
      FlowGoesOn(flow, background);
      job := JobAfter(job, background);
      flow := FlowAfter(flow, background);
    }

    /** Frames and the resume of the target are logged where they happen; looks and receipts show the present job and output. */
    ghost method Log(a: Action)
      requires Valid() && Allowed(M(), a) && !a.Received? && !a.Resume? && (a.Create? ==> a.operationId == target)
      requires a.Observed? ==> a.active == job.active && a.flow == flow
      requires a.Install? ==> a.active == job.active && a.flow == flow
      modifies this`trace
      ensures trace == old(trace) + [a] && M() == Step(old(M()), a) && Valid()
    {
      WatchOne(trace, a);
      trace := trace + [a];
    }

    /** Whether the deadline has passed. */
    method Passed(deadline: Deadline) returns (passed: Option<bool>)
      requires Valid()
      modifies this`script, this`job, this`flow, this`trace
      ensures Valid() && WentOn() && (passed.Some? ==> |script| < |old(script)|)
      ensures passed.None? ==> trace == old(trace)
      ensures passed.Some? ==> passed.value == old(script)[0].answer.expired && M() == Step(old(M()), Clock(deadline, passed.value))
    {
      var answer := Ask();
      if answer.None? { return None; }
      Log(Clock(deadline, answer.value.expired));
      return Some(answer.value.expired);
    }

    /** Reads the canonical record of the active child. */
    method ReadAuthority() returns (authority: Authority)
      requires Valid()
      modifies this`script, this`job, this`flow, this`trace
      ensures Valid() && WentOn() && M() == old(M()).(frames := old(M()).frames.(armed := M().frames.armed))
      ensures authority.Unreadable? || (old(script) != [] && authority == old(script)[0].answer.authority)
      ensures !authority.Unreadable? ==> M() == Step(old(M()), Found(authority))
    {
      var answer := Ask();
      if answer.None? { return Unreadable; }
      Log(Found(answer.value.authority));
      return answer.value.authority;
    }

    /** Takes the frame that is there, if one is. */
    method TryTake() returns (ok: bool, frame: Option<Control>)
      requires Valid() && Tracked() && (M().acts.decided.None? || M().acts.installed.Some?)
      modifies this`script, this`job, this`flow, this`trace
      ensures Valid() && WentOn() && ok == (old(script) != [])
      ensures ok ==> |script| < |old(script)| && frame == old(script)[0].frame
      ensures frame.Some? ==> ok && M() == Step(old(M()), Received(frame.value))
      ensures frame.Some? && M().frames.operationId.Some? ==> Pending(frame.value)
      ensures frame.None? || M().frames.operationId.None? ==> Tracked()
      ensures frame.None? ==> trace == old(trace)
    {
      if script == [] { return false, None; }
      frame := script[0].frame;
      var _ := Ask();
      if frame.Some? {
        WatchOne(trace, Received(frame.value));
        trace := trace + [Received(frame.value)];
      }
      ok := true;
    }

    /** Takes a frame before the deadline; `None` is the exception. */
    method Take() returns (frame: Option<Control>)
      requires Valid() && Tracked() && (M().acts.decided.None? || M().acts.installed.Some?)
      modifies this`script, this`job, this`flow, this`trace
      ensures Valid() && WentOn()
      ensures frame.Some? ==> |script| < |old(script)| && old(script)[0].frame == frame && !old(script)[0].answer.expired
      ensures frame.Some? ==> M() == Step(old(M()), Received(frame.value))
      ensures frame.Some? && M().frames.operationId.Some? ==> Pending(frame.value)
      ensures frame.None? || M().frames.operationId.None? ==> Tracked()
      ensures frame.None? ==> trace == old(trace)
    {
      if script == [] || script[0].answer.expired { return None; }
      var _, taken := TryTake();
      return taken;
    }

    // -------------------------------------------------------------- what a frame does

    /** What a termination does to the output. */
    method DiscardOutput(disconnect: bool)
      requires Valid() && (M().frames.reason.Some? || M().acts.installed.Some?)
      modifies this`flow
      ensures Valid() && FlowEndKept(old(flow), flow) && flow.terminated && flow.credit.discarded && (disconnect ==> !flow.connected)
    {
      if disconnect { Disconnect(); }
      F.NextKeeps(flow, F.Terminate);
      flow := F.Next(flow, F.Terminate);
    }

    method Disconnect()
      requires Valid()
      modifies this`flow
      ensures Valid() && !flow.connected && flow.terminated == old(flow.terminated) && FlowEndKept(old(flow), flow)
    {
      F.NextKeeps(flow, F.Disconnect);
      flow := F.Next(flow, F.Disconnect);
    }

    /** Remembers the frame's reason unless an earlier one is known; `None` is the exception for a frame that ends nothing. */
    method HandleTermination(frame: Control) returns (r: Option<Reason>)
      requires Valid() && Pending(frame)
      modifies this`flow, this`terminationReason
      ensures Valid() && Tracked() && FlowEndKept(old(flow), flow)
      ensures terminationReason == FirstOf(old(terminationReason), TerminationOf(target, frame))
      ensures r == if TerminationOf(target, frame).Some? then terminationReason else None
      ensures r.None? ==> flow == old(flow)
      ensures r.Some? ==> flow.credit.discarded && (frame.EndOfFile? ==> !flow.connected)
    {
      var reason := ParentShutdown;
      if !frame.EndOfFile? {
        if !frame.Terminate? || frame.operationId != target || !External(frame.reason) { return None; }
        reason := frame.reason;
      }
      DiscardOutput(frame.EndOfFile?);
      if terminationReason.None? { terminationReason := Some(reason); }
      return terminationReason;
    }

    /** Takes the frame if it acknowledges output; an acknowledgement that does not fit is the exception. */
    method HandleOutputAcknowledgement(frame: Control) returns (ok: bool, taken: bool)
      requires Valid()
      modifies this`flow
      ensures Valid() && taken == frame.OutputAck? && FlowEndKept(old(flow), flow)
      ensures !taken ==> flow == old(flow) && ok == !frame.Malformed?
      ensures taken ==> ok == (frame.operationId == target && 1 <= frame.sequence && 1 <= frame.bytes <= F.MAX_CHUNK
                               && F.Acknowledgeable(old(flow).credit, frame.sequence, frame.bytes))
      ensures taken && ok ==> flow == F.Next(old(flow), F.Acknowledge(true, frame.sequence, frame.bytes))
    {
      if !frame.OutputAck? { return !frame.Malformed?, false; }
      if frame.operationId != target || frame.sequence < 1 || frame.bytes < 1 || frame.bytes > F.MAX_CHUNK
         || !F.Acknowledgeable(flow.credit, frame.sequence, frame.bytes)
      { return false, true; }
      F.NextKeeps(flow, F.Acknowledge(true, frame.sequence, frame.bytes));
      flow := F.Next(flow, F.Acknowledge(true, frame.sequence, frame.bytes));
      return true, true;
    }

    /** An acknowledgement that fits, or a termination; anything else is the exception. */
    method HandleControl(frame: Control) returns (ok: bool, requested: Option<Reason>, parentConnected: bool)
      requires Valid() && Pending(frame)
      modifies this`flow, this`terminationReason
      ensures Valid() && FlowEndKept(old(flow), flow) && (ok ==> Tracked())
      ensures ok ==> frame.OutputAck? == requested.None? && terminationReason == FirstOf(old(terminationReason), TerminationOf(target, frame))
      ensures ok && requested.Some? ==> TerminationOf(target, frame).Some? && requested == terminationReason
      ensures ok ==> parentConnected == !frame.EndOfFile? && Told(requested, parentConnected)
    {
      var taken;
      requested, parentConnected := None, true;
      ok, taken := HandleOutputAcknowledgement(frame);
      if !ok || taken { return; }
      requested := HandleTermination(frame);
      return requested.Some?, requested, !frame.EndOfFile?;
    }

    /** Takes a frame if one is there: an output acknowledgement, or else a termination. */
    method PollControl() returns (ok: bool, requested: Option<Reason>, parentConnected: bool)
      requires Valid() && Tracked() && Undecided() && terminationReason.None?
      modifies this`script, this`job, this`flow, this`terminationReason, this`trace
      ensures Valid() && ScriptShrinks(ok) && M() == old(M()).(frames := M().frames) && SameOpening(old(M()).frames, M().frames)
      ensures ok ==> Tracked() && requested == terminationReason && Told(requested, parentConnected)
    {
      requested, parentConnected := None, true;
      var frame;
      ok, frame := TryTake();
      if frame.None? { return; }
      ok, requested, parentConnected := HandleControl(frame.value);
    }

    // -------------------------------------------------------------- looking at the job and its output

    /** Reads whether a pipe failed, which is the exception, and then whether both ended. */
    method OutputPipesEnded() returns (r: Option<bool>)
      requires Valid()
      modifies this`script, this`job, this`flow
      ensures Valid() && WentOn() && ScriptShrinks(r.Some?)
      ensures r.Some? ==> r.value == F.PipesEnded(flow)
      ensures r.Some? && old(F.PipesEnded(flow)) ==> !flow.failed
    {
      var answer := Ask();
      if answer.None? || flow.failed { return None; }
      answer := Ask();
      if answer.None? { return None; }
      return Some(F.PipesEnded(flow));
    }

    /** The same, and then whether the credit is settled; the background goes on between the reads. */
    method OutputEnded() returns (r: Option<bool>)
      requires Valid()
      modifies this`script, this`job, this`flow
      ensures Valid() && WentOn() && ScriptShrinks(r.Some?)
      ensures r == Some(true) ==> F.SettledEnd(flow)
      ensures r == Some(true) && old(F.PipesEnded(flow)) ==> !flow.failed
    {
      r := OutputPipesEnded();
      if r != Some(true) { return; }
      var answer := Ask();
      if answer.None? { return None; }
      return Some(F.Settled(flow.credit));
    }

    /** Reads the number of processes, and then whether the output ended. */
    method ObserveDrained() returns (r: Option<bool>)
      requires Valid()
      modifies this`script, this`job, this`flow, this`trace
      ensures Valid() && WentOn() && ScriptShrinks(r.Some?) && M() == old(M()).(sight := M().sight)
      ensures old(M()).sight.quiet ==> M().sight.quiet
      ensures r == Some(true) ==> SeenDrained(old(M()).sight, M().sight) && job.active == 0 && F.SettledEnd(flow)
      ensures r == Some(true) && old(F.PipesEnded(flow)) ==> !flow.failed
    {
      var answer := Ask();
      if answer.None? { return None; }
      r := Some(false);
      if job.active == 0 { r := OutputEnded(); }
      if r.Some? { Log(Observed(job.active, flow, r.value)); }
    }

    /** Whether the job has no processes and both pipes have ended; `None` is the exception. */
    method ObserveQuiet() returns (r: Option<bool>)
      requires Valid()
      modifies this`script, this`job, this`flow, this`trace
      ensures Valid() && WentOn() && M() == old(M()).(sight := M().sight)
      ensures r == Some(true) ==> Over() && M().sight.quiet
    {
      var answer := Ask();
      if answer.None? { return None; }
      r := Some(false);
      if job.active == 0 { r := OutputPipesEnded(); }
      if r.Some? { Log(Observed(job.active, flow, false)); }
    }

    /** One round of the wait: `None` is a deadline that passed, or an exception. */
    method DrainedInPhase() returns (r: Option<bool>)
      requires Valid()
      modifies this`script, this`job, this`flow, this`trace
      ensures Valid() && WentOn() && ScriptShrinks(r.Some?) && M() == old(M()).(sight := M().sight)
      ensures r == Some(true) ==> job.active == 0 && F.SettledEnd(flow) && M().sight.look.Finished? && M().sight.look.inPhase
      ensures r == Some(true) && old(F.PipesEnded(flow)) ==> !flow.failed
    {
      var over := Passed(Phase);
      if over != Some(false) { return None; }
      r := ObserveDrained();
      if r.None? { return; }
      over := Passed(Phase);
      if over != Some(false) { return None; }
    }

    method WaitForEmptyAndEof() returns (drained: bool)
      requires Valid()
      modifies this`script, this`job, this`flow, this`trace
      ensures Valid() && WentOn() && M() == old(M()).(sight := M().sight)
      ensures drained ==> job.active == 0 && F.SettledEnd(flow) && M().sight.look.Finished? && M().sight.look.inPhase
      ensures drained && old(F.PipesEnded(flow)) ==> !flow.failed
    {
      while true
        invariant Valid() && WentOn() && M() == old(M()).(sight := M().sight)
        decreases |script|
      {
        var round := DrainedInPhase();
        if round.None? { return false; }
        if round.value { return true; }
        var over := Passed(Phase);
        if over != Some(false) { return false; }
      }
      return false;
    }

    method TerminateJob() returns (ok: bool)
      requires Valid()
      modifies this`script, this`job, this`flow, this`trace
      ensures Valid() && WentOn() && M() == if ok then Step(old(M()), Kill) else old(M())
    {
      var answer := Ask();
      if answer.None? || !answer.value.succeeds { return false; }
      Log(Kill);
      return true;
    }

    // -------------------------------------------------------------- the receipt

    /** A frame after the receipt: `Ok(true)` ends the wait, `Ok(false)` passes over the frame, an error is the exception. */
    method HandlePostDrain(frame: Control) returns (r: Result<bool, ()>)
      requires Valid() && M().acts.installed.Some?
      modifies this`flow, this`terminationReason
      ensures Valid() && FlowEndKept(old(flow), flow)
      ensures r == Ok(true) <==> Acknowledges(frame)
      ensures r == Ok(false) <==> (frame.Terminate? && TerminationOf(target, frame).Some?) || IgnoredStart(frame)
    {
      match frame
      case EndOfFile =>
        Disconnect();
        return Ok(true);
      case Terminate(_, _) =>
        var reason := HandleTermination(frame);
        return if reason.Some? then Ok(false) else Err(());
      case Start(operationId, digest) =>
        return if terminationBeforeStart && operationId == target && binding == Some(digest) then Ok(false) else Err(());
      case Ack(operationId, digest) =>
        return if operationId == target && receiptDigest == Some(digest) then Ok(true) else Err(());
      case _ => return Err(());
    }

    /** The frame tells that the parent is gone, or that it has this very receipt. */
    predicate Acknowledges(frame: Control)
      reads this`target, this`receiptDigest
    {
      frame.EndOfFile? || (frame.Ack? && frame.operationId == target && receiptDigest == Some(frame.receiptDigest))
    }

    /** A START for this target and its record, which a termination has overtaken. */
    predicate IgnoredStart(frame: Control)
      reads this`target, this`binding, this`terminationBeforeStart
    {
      frame.Start? && terminationBeforeStart && frame.operationId == target && binding == Some(frame.digest)
    }

    /** One round of the wait: takes a frame before the deadline, and handles it. */
    method TakeAfterReceipt() returns (r: Result<bool, ()>)
      requires Valid() && M().acts.installed.Some?
      modifies this`script, this`job, this`flow, this`terminationReason, this`trace
      ensures Valid() && EndKept() && ScriptShrinks(r.Ok?) && AfterReceipt(old(M()), M())
      ensures r == Ok(true) ==> M().frames.last.Some? && Acknowledges(M().frames.last.value)
    {
      var over := Passed(Phase);
      if over != Some(false) { return Err(()); }
      var frame := Take();
      if frame.None? { return Err(()); }
      r := HandlePostDrain(frame.value);
    }

    /** After the receipt nothing that the parent sends can change what happened; only its acknowledgement ends the wait well. */
    method WaitForAcknowledgement() returns (ok: bool)
      requires Valid() && M().acts.installed.Some?
      modifies this`script, this`job, this`flow, this`terminationReason, this`trace
      ensures Valid() && EndKept() && AfterReceipt(old(M()), M())
      ensures ok ==> M().frames.last.Some? && Acknowledges(M().frames.last.value)
    {
      while true
        invariant Valid() && EndKept() && AfterReceipt(old(M()), M())
        decreases |script|
      {
        var r := TakeAfterReceipt();
        if r != Ok(false) { return r == Ok(true); }
      }
      return false;
    }

    /** If the receipt was announced, then the parent has acknowledged it, or is gone. */
    ghost predicate Answered()
      reads this
    {
      M().acts.announced ==> M().frames.last.Some? && Acknowledges(M().frames.last.value)
    }

    /** The decision on the reason may be taken now, for this kind of receipt. */
    ghost predicate Due(proof: Proof, reason: Reason)
      reads this
    {
      && MayDecide(M()) && reason == DueReason(M()) && M().acts.installed.None? && !M().acts.announced
      && proof == ProofFor(wasResumed) && (reason.Natural? ==> F.PipesEnded(flow) && !flow.terminated)
    }

    /** From the decision on the reason until the job is seen empty with its output ended. */
    method DecideAndDrain(reason: Reason, proof: Proof) returns (ok: bool)
      requires Valid() && Due(proof, reason)
      modifies this`script, this`job, this`flow, this`trace
      ensures Valid() && WentOn() && M().frames == old(M()).frames && M().acts == old(M()).acts.(decided := Some(reason))
      ensures ok ==> Installable(reason)
    {
      Log(Decide(reason));
      ok := WaitForEmptyAndEof();
    }

    /** Installs the one receipt and announces it. */
    method Issue(reason: Reason, proof: Proof) returns (ok: bool)
      requires Valid() && Installable(reason) && proof == ProofFor(wasResumed) && !M().acts.announced
      modifies this`script, this`job, this`flow, this`trace, this`receiptDigest
      ensures Valid() && WentOn() && M().frames == old(M()).frames && M().acts.killed == old(M()).acts.killed
      ensures ok ==> Issued(M(), proof, reason) && (M().acts.announced ==> old(flow.connected))
    {
      ok := InstallReceipt(proof, reason);
      if ok { ok := Announce(proof); }
    }

    /** Waits for the end, and installs and announces the one receipt. */
    method DrainAndSend(reason: Reason, waitForAcknowledgement: bool, proof: Proof) returns (ok: bool)
      requires Valid() && Due(proof, reason) && (waitForAcknowledgement || !flow.connected)
      modifies this`script, this`job, this`flow, this`terminationReason, this`trace, this`receiptDigest
      ensures Valid() && SameOpening(old(M()).frames, M().frames) && M().acts.killed == old(M()).acts.killed
      ensures ok ==> Over() && Issued(M(), proof, reason)
      ensures ok ==> Answered()
    {
      ok := DecideAndDrain(reason, proof);
      if !ok || binding.None? { return false; }
      ok := Issue(reason, proof);
      if ok && waitForAcknowledgement { ok := WaitForAcknowledgement(); }
    }

    /** Nothing is sent once the parent is disconnected. */
    method Announce(proof: Proof) returns (ok: bool)
      requires Valid() && Proven(M(), proof) && !M().acts.announced
      modifies this`script, this`job, this`flow, this`trace
      ensures Valid() && WentOn() && M() == old(M()).(acts := old(M()).acts.(announced := old(flow.connected)))
    {
      if flow.connected { Log(SendDrained(proof)); }
      var answer := Ask();
      return answer.Some? && answer.value.succeeds;
    }

    /** The job was seen empty with its output ended, in time, for the reason that was decided. */
    ghost predicate Installable(reason: Reason)
      reads this
    {
      && M().acts.decided == Some(reason) && M().acts.installed.None? && M().sight.look.Finished? && M().sight.look.inPhase
      && job.active == 0 && F.SettledEnd(flow) && (reason.Natural? ==> !flow.failed && !flow.terminated)
    }

    /** Writes the receipt, unless the canonical records have changed. */
    method WriteReceipt(proof: Proof, reason: Reason) returns (receipt: Option<Receipt>)
      requires Valid() && Installable(reason) && proof == ProofFor(wasResumed)
      modifies this`script, this`job, this`flow, this`trace
      ensures Valid() && WentOn() && (receipt.None? ==> M() == old(M()))
      ensures receipt.Some? ==> receipt.value.proof == proof && receipt.value.reason == reason
      ensures receipt.Some? ==> M() == old(M()).(acts := old(M()).acts.(installed := receipt))
    {
      var answer := Ask();
      if answer.None? || !answer.value.succeeds { return None; }
      receipt := Some(Receipt(proof, reason, answer.value.text));
      LogReceipt(receipt.value);
    }

    ghost method LogReceipt(receipt: Receipt)
      requires Valid() && Installable(receipt.reason) && receipt.proof == ProofFor(wasResumed)
      modifies this`trace
      ensures Valid() && M() == old(M()).(acts := old(M()).acts.(installed := Some(receipt)))
    {
      if flow.connected && receipt.reason.Natural? { F.EndedIsComplete(flow); }
      Log(Install(receipt, job.active, flow));
    }

    /** Over an empty job and a settled end; success means that the receipt was read back, and its digest is kept. */
    method InstallReceipt(proof: Proof, reason: Reason) returns (ok: bool)
      requires Valid() && Installable(reason) && proof == ProofFor(wasResumed)
      modifies this`script, this`job, this`flow, this`trace, this`receiptDigest
      ensures Valid() && WentOn() && M() == old(M()).(acts := old(M()).acts.(installed := M().acts.installed))
      ensures ok ==> Issued(M(), proof, reason) && receiptDigest == Some(digestOf(M().acts.installed.value))
    {
      var receipt := WriteReceipt(proof, reason);
      if receipt.None? { return false; }
      ok := ReadBack(receipt.value);
    }

    method ReadBack(receipt: Receipt) returns (ok: bool)
      requires Valid() && M().acts.installed == Some(receipt)
      modifies this`script, this`job, this`flow, this`receiptDigest
      ensures Valid() && WentOn() && (ok ==> receiptDigest == Some(digestOf(receipt)))
    {
      var answer := Ask();
      if answer.None? || !answer.value.succeeds { return false; }
      receiptDigest := Some(digestOf(receipt));
      return true;
    }

    // -------------------------------------------------------------- the run of the target

    /** Until the target's own process ends, the parent may acknowledge output or ask for termination. */
    method WaitForRoot() returns (ok: bool, requested: Option<Reason>, parentConnected: bool)
      requires Valid() && Tracked() && Running(M())
      modifies this`script, this`job, this`flow, this`terminationReason, this`trace
      ensures Valid() && M() == old(M()).(frames := M().frames) && SameOpening(old(M()).frames, M().frames)
      ensures ok ==> Tracked() && requested == terminationReason && Told(requested, parentConnected) && (requested.None? ==> job.rootExited)
    {
      requested, parentConnected := None, true;
      var exited := false;
      while !exited && requested.None?
        invariant Valid() && Tracked() && requested == terminationReason && Told(requested, parentConnected) && (exited ==> job.rootExited)
        invariant M() == old(M()).(frames := M().frames) && SameOpening(old(M()).frames, M().frames)
        decreases |script|
      {
        var answer := Ask();
        if answer.None? { return false, None, true; }
        exited := job.rootExited;
        if !exited {
          ok, requested, parentConnected := PollControl();
          if !ok { return; }
        }
      }
      return true, requested, parentConnected;
    }

    /** Whether both deadlines are open; `ok` is false for an exception. */
    method InTime() returns (ok: bool, open: bool)
      requires Valid()
      modifies this`script, this`job, this`flow, this`trace
      ensures Valid() && WentOn() && ScriptShrinks(ok) && M() == old(M()).(sight := M().sight) && M().sight.seen == old(M()).sight.seen
      ensures open ==> ok && (old(M()).sight.look.Finished? ==> M().sight.look == old(M()).sight.look.(inTime := true, inPhase := true))
    {
      var passed := Passed(NaturalDrain);
      if passed.None? { return false, false; }
      if passed.value { return true, false; }
      passed := Passed(Phase);
      return passed.Some?, passed == Some(false);
    }

    /** The end was just seen, in time: it counts as natural. */
    ghost method CountEnd()
      requires Valid() && Running(M()) && CountsNow(M().sight)
      modifies this`trace
      ensures Valid() && M() == Step(old(M()), Count)
    {
      Log(Count);
    }

    /** What is seen counts only if neither deadline has passed before or after. */
    method DrainedInTime() returns (ok: bool, drained: bool)
      requires Valid() && Tracked() && Running(M())
      modifies this`script, this`job, this`flow, this`trace
      ensures Valid() && Tracked() && ScriptShrinks(ok) && Counted(old(M()), M(), drained) && (drained ==> ok && F.PipesEnded(flow))
    {
      var open;
      ok, open := InTime();
      if !open { return ok, false; }
      var observed := ObserveDrained();
      if observed.None? { return false, false; }
      ok, open := InTime();
      drained := open && observed.value;
      if drained { CountEnd(); }
    }

    /** For a while the target's descendants may finish by themselves. */
    method WaitForNaturalDrain() returns (ok: bool, requested: Option<Reason>, parentConnected: bool, drained: bool)
      requires Valid() && Tracked() && Running(M()) && !M().sight.window
      modifies this`script, this`job, this`flow, this`terminationReason, this`trace
      ensures Valid() && (ok ==> Tracked() && requested == terminationReason && Told(requested, parentConnected))
      ensures Counted(old(M()), M(), drained) && (drained ==> ok && requested.None? && F.PipesEnded(flow))
    {
      requested, parentConnected := None, true;
      ok, drained := DrainedAtOnce();
      if !ok { return; }
      var open := true;
      while open && requested.None? && !drained
        invariant Valid() && Tracked() && requested == terminationReason && Told(requested, parentConnected)
        invariant Counted(old(M()), M(), drained) && (drained ==> requested.None? && F.PipesEnded(flow))
        decreases |script|
      {
        ok, open := InTime();
        if !ok { return; }
        if open {
          ok, requested, parentConnected := PollControl();
          if !ok { return; }
          if requested.None? {
            ok, drained := DrainedInTime();
            if !ok { return; }
          }
        }
      }
      ok := true;
    }

    /** The first look needs no deadline. */
    method DrainedAtOnce() returns (ok: bool, drained: bool)
      requires Valid() && Tracked() && Running(M()) && !M().sight.window
      modifies this`script, this`job, this`flow, this`trace
      ensures Valid() && Tracked() && ScriptShrinks(ok) && Counted(old(M()), M(), drained) && (drained ==> ok && F.PipesEnded(flow))
    {
      var observed := ObserveDrained();
      if observed.None? { return false, false; }
      ok, drained := true, observed.value;
      if drained { CountEnd(); }
    }

    /** With only acknowledgements missing, the phase must be open when the job and its output are looked at. */
    method SettledInPhase() returns (ok: bool, settled: bool)
      requires Valid() && Tracked() && Running(M()) && M().sight.quiet
      modifies this`script, this`job, this`flow, this`trace
      ensures Valid() && Tracked() && ScriptShrinks(ok) && Counted(old(M()), M(), settled) && (settled ==> ok && F.PipesEnded(flow))
      ensures M().sight.quiet
    {
      var over := Passed(Phase);
      if over != Some(false) { return over.Some?, false; }
      var observed := ObserveDrained();
      if observed.None? { return false, false; }
      ok, settled := true, observed.value;
      if settled { CountEnd(); }
    }

    /** The target's processes and pipes are gone: only acknowledgements are missing, and the parent must send them. */
    method WaitForSettlement() returns (ok: bool, requested: Option<Reason>, parentConnected: bool)
      requires Valid() && Tracked() && Running(M()) && M().sight.quiet
      modifies this`script, this`job, this`flow, this`terminationReason, this`trace
      ensures Valid() && (ok ==> Tracked() && requested == terminationReason && Told(requested, parentConnected))
      ensures ok ==> Counted(old(M()), M(), requested.None?) && (requested.None? ==> F.PipesEnded(flow))
    {
      requested, parentConnected := None, true;
      var open, settled := true, false;
      while open && !settled && requested.None?
        invariant Valid() && Tracked() && requested == terminationReason && Told(requested, parentConnected) && M().sight.quiet
        invariant Counted(old(M()), M(), settled) && (settled ==> requested.None? && F.PipesEnded(flow))
        decreases |script|
      {
        var over := Passed(Phase);
        if over.None? { return false, None, true; }
        open := !over.value;
        if open {
          ok, requested, parentConnected := PollControl();
          if !ok { return; }
          if requested.None? {
            ok, settled := SettledInPhase();
            if !ok { return; }
          }
        }
      }
      ok := settled || requested.Some?;
    }

    /** When the natural deadline has passed, only missing acknowledgements are waited for any longer. */
    method SettleOrGiveUp() returns (ok: bool, requested: Option<Reason>, parentConnected: bool, drained: bool)
      requires Valid() && Tracked() && Running(M())
      modifies this`script, this`job, this`flow, this`terminationReason, this`trace
      ensures Valid() && (ok ==> Tracked() && requested == terminationReason && Told(requested, parentConnected))
      ensures ok ==> Counted(old(M()), M(), drained) && (drained ==> requested.None? && F.PipesEnded(flow))
    {
      requested, parentConnected, drained := None, true, false;
      var quiet := ObserveQuiet();
      if quiet.None? { return false, None, true, false; }
      if !quiet.value { return true, None, true, false; }
      ok, requested, parentConnected := WaitForSettlement();
      drained := ok && requested.None?;
    }

    /** How the target's end is met: a termination that was asked for, or an end that was counted as natural, or neither. */
    method AwaitEnd() returns (ok: bool, requested: Option<Reason>, parentConnected: bool, drained: bool)
      requires Valid() && Tracked() && Running(M()) && !M().sight.window
      modifies this`script, this`job, this`flow, this`terminationReason, this`trace
      ensures Valid() && (ok ==> Tracked() && requested == terminationReason && Told(requested, parentConnected))
      ensures ok ==> Counted(old(M()), M(), drained) && (drained ==> requested.None? && F.PipesEnded(flow))
    {
      ok, requested, parentConnected, drained := WaitForNaturalDrain();
      if !ok || requested.Some? || drained { return; }
      ok, requested, parentConnected, drained := SettleOrGiveUp();
    }

    /** A termination that came before the end of the root process kills the job. */
    method KillAndSend(reason: Reason, parentConnected: bool) returns (ok: bool)
      requires Valid() && Tracked() && terminationReason == Some(reason) && Closing(M(), false) && Told(Some(reason), parentConnected)
      modifies this`script, this`job, this`flow, this`terminationReason, this`trace, this`receiptDigest
      ensures Valid() && SameOpening(old(M()).frames, M().frames) && (ok ==> Over() && Issued(M(), ZeroPipesEof, reason) && Answered())
    {
      ok := TerminateJob();
      if !ok { return; }
      ok := DrainAndSend(reason, parentConnected && flow.connected, ZeroPipesEof);
    }

    /** From the resume of the target to its drain receipt. */
    method RunStarted() returns (ok: bool)
      requires Valid() && Tracked() && Running(M()) && !M().sight.window
      modifies this`script, this`job, this`flow, this`terminationReason, this`trace, this`receiptDigest
      ensures Valid()
      ensures ok ==> Over() && SameOpening(old(M()).frames, M().frames) && Proven(M(), ZeroPipesEof) && Answered()
    {
      var requested, parentConnected;
      ok, requested, parentConnected := WaitForRoot();
      if !ok { return; }
      if requested.Some? {
        ok := KillAndSend(requested.value, parentConnected);
      } else {
        ok := RootEnded();
      }
    }

    /** From the end of the target's own process to the receipt. */
    method RootEnded() returns (ok: bool)
      requires Valid() && Tracked() && Running(M()) && !M().sight.window
      modifies this`script, this`job, this`flow, this`terminationReason, this`trace, this`receiptDigest
      ensures Valid()
      ensures ok ==> Over() && SameOpening(old(M()).frames, M().frames) && Proven(M(), ZeroPipesEof) && Answered()
    {
      var sent := Ask();
      if sent.None? || !sent.value.succeeds { return false; }
      var requested, parentConnected, drained;
      ok, requested, parentConnected, drained := AwaitEnd();
      if !ok { return; }
      ok := CloseOut(requested, parentConnected, drained);
    }

    /** A termination kills the job unless it is seen drained; without one, an end that was not counted is ended by force. */
    method EndJob(requested: Option<Reason>, drained: bool) returns (ok: bool)
      requires Valid() && Tracked() && requested == terminationReason && Closing(M(), drained) && (drained ==> requested.None?)
      modifies this`script, this`job, this`flow, this`trace
      ensures Valid() && FlowKept(old(flow), flow) && M().frames == old(M()).frames
      ensures M().acts == old(M()).acts.(killed := M().acts.killed)
      ensures ok ==> MayDecide(M())
    {
      if drained { return true; }
      if requested.Some? {
        var observed := ObserveDrained();
        if observed.None? { return false; }
        if observed.value { return true; }
      }
      ok := TerminateJob();
    }

    /** Decides the reason, ends what is left of the job, and issues the receipt with this reason. */
    method CloseOut(requested: Option<Reason>, parentConnected: bool, drained: bool) returns (ok: bool)
      requires Valid() && Tracked() && requested == terminationReason && Closing(M(), drained)
      requires Told(requested, parentConnected) && (drained ==> requested.None? && F.PipesEnded(flow))
      modifies this`script, this`job, this`flow, this`terminationReason, this`trace, this`receiptDigest
      ensures Valid() && SameOpening(old(M()).frames, M().frames)
      ensures ok ==> Over() && Issued(M(), ZeroPipesEof, EndReason(requested, drained)) && Answered()
    {
      ok := EndJob(requested, drained);
      if !ok { return; }
      ok := DrainAndSend(EndReason(requested, drained), parentConnected && flow.connected, ZeroPipesEof);
    }

    // -------------------------------------------------------------- the frame that opens the session

    /** The parent vanished before START: the target never runs, and an armed record gets its receipt. */
    method CloseAfterParentEof() returns (ok: bool)
      requires Valid() && Opened(M(), EndOfFile)
      modifies this`script, this`job, this`flow, this`trace, this`binding, this`receiptDigest
      ensures Valid() && SameOpening(old(M()).frames, M().frames) && (ok ==> Over() && ClosedUnstarted(M(), EndOfFile) && !M().acts.announced)
    {
      Disconnect();
      ok := TerminateJob();
      if !ok { return; }
      ok := WaitForEmptyAndEof();
      if !ok { return; }
      ok := ReceiptForParent();
    }

    /** A record that is not yet armed needs no receipt. */
    method ReceiptForParent() returns (ok: bool)
      requires Valid() && Killed(M(), EndOfFile) && job.active == 0 && F.SettledEnd(flow)
      requires M().sight.look.Finished? && M().sight.look.inPhase
      modifies this`script, this`job, this`flow, this`trace, this`binding, this`receiptDigest
      ensures Valid() && Over() && SameOpening(old(M()).frames, M().frames) && (ok ==> ClosedUnstarted(M(), EndOfFile) && !M().acts.announced)
    {
      var authority := ReadAuthority();
      if authority.Unreadable? { return false; }
      binding := if authority.Armed? then Some(authority.digest) else None;
      if binding.None? { return true; }
      Log(Decide(ParentShutdown));
      ok := InstallReceipt(NeverStarted, ParentShutdown);
    }

    /** The parent gave up before START: the job is emptied, and there is no receipt. */
    method CloseBeforeStart(operationId: string) returns (ok: bool)
      requires Valid() && Opened(M(), Abort(operationId))
      modifies this`script, this`job, this`flow, this`trace
      ensures Valid() && SameOpening(old(M()).frames, M().frames) && (ok ==> Over() && ClosedUnstarted(M(), Abort(operationId)) && !M().acts.announced)
    {
      if operationId != target { return false; }
      var answer := Ask();
      if answer.None? || !answer.value.succeeds { return false; }
      ok := TerminateJob();
      if !ok { return; }
      ok := WaitForEmptyAndEof();
      if !ok { return; }
      answer := Ask();
      return answer.Some? && answer.value.succeeds;
    }

    /** A termination before START, which needs an armed record. */
    method TerminateBeforeStart(frame: Control) returns (ok: bool)
      requires Valid() && Pending(frame) && terminationReason.None? && Opened(M(), frame) && frame.Terminate?
      modifies this`script, this`job, this`flow, this`terminationReason, this`trace, this`binding, this`receiptDigest, this`terminationBeforeStart
      ensures Valid() && SameOpening(old(M()).frames, M().frames) && (ok ==> Over() && ClosedUnstarted(M(), frame) && Answered())
    {
      var reason := HandleTermination(frame);
      if reason.None? { return false; }
      terminationBeforeStart := true;
      ok := BindArmed();
      if ok { ok := KillUnstarted(frame, reason.value); }
    }

    /** The record must be armed. */
    method BindArmed() returns (ok: bool)
      requires Valid()
      modifies this`script, this`job, this`flow, this`trace, this`binding
      ensures Valid() && M() == old(M()).(frames := old(M()).frames.(armed := M().frames.armed))
      ensures ok ==> binding.Some? && binding == M().frames.armed
    {
      var authority := ReadAuthority();
      if !authority.Armed? { return false; }
      binding := Some(authority.digest);
      ok := true;
    }

    method KillUnstarted(frame: Control, reason: Reason) returns (ok: bool)
      requires Valid() && Opened(M(), frame) && frame.Terminate? && TerminationOf(target, frame) == Some(reason)
      modifies this`script, this`job, this`flow, this`terminationReason, this`trace, this`receiptDigest
      ensures Valid() && SameOpening(old(M()).frames, M().frames) && (ok ==> Over() && ClosedUnstarted(M(), frame) && Answered())
    {
      ok := TerminateJob();
      if !ok { return; }
      ok := DrainAndSend(reason, flow.connected, NeverStarted);
    }

    /** The target can be resumed once. */
    method Resume() returns (ok: bool)
      requires Valid() && MayResume(M())
      modifies this`script, this`job, this`flow, this`trace, this`wasResumed
      ensures Valid() && M() == (if ok then Step(old(M()), SupervisorTrace.Resume) else old(M()))
    {
      var answer := Ask();
      if wasResumed || answer.None? || !answer.value.succeeds { return false; }
      WatchOne(trace, SupervisorTrace.Resume);
      wasResumed := true;
      trace := trace + [SupervisorTrace.Resume];
      return true;
    }

    /** Resumes the target only for a START that names it and the digest of the armed record. */
    method Start(operationId: string, digest: string) returns (ok: bool)
      requires Valid() && Opened(M(), Control.Start(operationId, digest)) && !wasResumed
      modifies this`script, this`job, this`flow, this`trace, this`binding, this`wasResumed
      ensures Valid() && SameOpening(old(M()).frames, M().frames) && wasResumed == ok
      ensures ok ==> operationId == target && binding == Some(digest) == M().frames.armed
      ensures ok ==> M() == old(M()).(frames := M().frames, acts := FRESH.acts.(resumed := true)) && M().frames.reason.None?
    {
      if operationId != target { return false; }
      var authority := ReadAuthority();
      if authority != Armed(digest) { return false; }
      binding := Some(digest);
      ok := Resume();
    }

    /** The initial frame: the data of a target, or the end before there was one. `None` is the exception. */
    method Prepare() returns (r: Option<bool>)
      requires Valid() && Tracked() && M() == FRESH
      modifies this`script, this`job, this`flow, this`target, this`trace
      ensures Valid() && (r == Some(true) ==> Tracked() && Waiting(M()))
      ensures r == Some(false) ==> M().acts == FRESH.acts && M().frames.operationId.None? && M().frames.last.Some? && Premature(M().frames.last.value)
    {
      var bound := Ask();
      if bound.None? || !bound.value.succeeds { return None; }
      var frame := Take();
      if frame.None? { return None; }
      match frame.value
      case EndOfFile => return Some(false);
      case Abort(_) =>
        var sent := Ask();
        return if sent.Some? && sent.value.succeeds then Some(false) else None;
      case Data(operationId) =>
        var armed := Arm(operationId);
        return if armed then Some(true) else None;
      case _ => return None;
    }

    /** Reads the prepared authority, creates the job with the suspended target, and says so. */
    method Arm(operationId: string) returns (ok: bool)
      requires Valid() && Tracked() && M() == FRESH.(frames := FRESH.frames.(last := Some(Data(operationId))))
      modifies this`script, this`job, this`flow, this`target, this`trace
      ensures Valid() && Tracked() && (ok ==> Waiting(M()) && target == operationId)
    {
      target := operationId;
      var authority := Ask();
      if authority.None? || !authority.value.succeeds { return false; }
      var created := Ask();
      if created.None? || !created.value.succeeds { return false; }
      F.StartIsInvariant();
      job, flow := Job(1, false), F.START;
      Log(Create(operationId));
      var armed := Ask();
      return armed.Some? && armed.value.succeeds;
    }

    /**
     The whole session, on any script. Its trace breaks no rule whether it succeeds or fails; when it succeeds, the frame that
     opened it tells what was done, and once a job was created, it is empty and both pipes have ended.
     */
    method Run() returns (ok: bool)
      requires Valid() && Tracked() && M() == FRESH && terminationReason.None?
      modifies this
      ensures Valid() && Accepted(trace)
      ensures ok && M().frames.operationId.Some? ==> Over() && M().frames.opening.Some? && Closed(M(), M().frames.opening.value) && Answered()
      ensures ok && M().frames.operationId.None? ==> M().acts == FRESH.acts && M().frames.last.Some? && Premature(M().frames.last.value)
    {
      var prepared := Prepare();
      if prepared != Some(true) { return prepared == Some(false); }
      var frame := Take();
      if frame.None? { return false; }
      ok := AwaitStart(frame.value);
    }

    /** What the first frame after the creation of the job leads to. */
    method AwaitStart(frame: Control) returns (ok: bool)
      requires Valid() && Pending(frame) && terminationReason.None? && Opened(M(), frame) && M().sight == FRESH.sight
      modifies this
      ensures Valid() && (ok ==> Over() && SameOpening(old(M()).frames, M().frames) && Closed(M(), frame) && Answered())
    {
      match frame
      case EndOfFile => ok := CloseAfterParentEof();
      case Abort(operationId) => ok := CloseBeforeStart(operationId);
      case Terminate(_, _) => ok := TerminateBeforeStart(frame);
      case Start(operationId, digest) =>
        ok := Start(operationId, digest);
        if !ok { return; }
        var sent := Ask();
        if sent.None? || !sent.value.succeeds { return false; }
        ok := RunStarted();
      case _ => return false;
    }
  }

  /** The first of two reasons, if there is one. */
  function FirstOf(first: Option<Reason>, second: Option<Reason>): Option<Reason> { if first.Some? then first else second }

  function ProofFor(resumed: bool): Proof { if resumed then ZeroPipesEof else NeverStarted }

  /** The receipt is installed, with this proof. */
  predicate Proven(m: Monitor, proof: Proof) { m.acts.installed.Some? && m.acts.installed.value.proof == proof }

  /** The receipt is installed, with this proof and reason. */
  predicate Issued(m: Monitor, proof: Proof, reason: Reason) { Proven(m, proof) && m.acts.installed.value.reason == reason }

  /** The target runs, and nothing has ended it. */
  predicate Running(m: Monitor) {
    m.frames.operationId.Some? && m.frames.reason.None? && m.acts == FRESH.acts.(resumed := true)
  }

  /** Frames were taken and looks were had, and the end was counted as natural or not. */
  predicate Counted(before: Monitor, after: Monitor, counted: bool) {
    && SameOpening(before.frames, after.frames) && after.acts == before.acts.(counted := counted) && (counted ==> after.sight.seen)
  }

  /** The job exists, and no frame was taken since. */
  predicate Waiting(m: Monitor) {
    m.frames.operationId.Some? && m.frames.count == 0 && m.frames.reason.None? && m.acts == FRESH.acts && m.sight == FRESH.sight
  }

  /** The job exists, the frame is the first since, and nothing was done. */
  predicate Opened(m: Monitor, frame: Control) {
    && m.frames.operationId.Some? && m.frames.count == 1 && m.frames.opening == Some(frame) && m.acts == FRESH.acts
    && m.frames.reason == TerminationOf(m.frames.operationId.value, frame)
  }

  /** The same once the job was killed. */
  predicate Killed(m: Monitor, frame: Control) {
    && m.frames.operationId.Some? && m.frames.count == 1 && m.frames.opening == Some(frame) && m.acts == FRESH.acts.(killed := true)
    && m.frames.reason == TerminationOf(m.frames.operationId.value, frame)
  }

  /** The end of the target is known, but not yet what is left of the job. */
  predicate Closing(m: Monitor, drained: bool) {
    && m.frames.operationId.Some? && m.acts == FRESH.acts.(resumed := true, counted := drained) && (drained ==> m.sight.seen)
  }

  /** The reason that was asked for, else how the target ended by itself. */
  function EndReason(requested: Option<Reason>, drained: bool): Reason {
    if requested.Some? then requested.value else if drained then Natural else ProcessTreeNotEmpty
  }

  /** There was no target yet. */
  predicate Premature(frame: Control) { frame.EndOfFile? || frame.Abort? }

  /**
   What a session that never ran its target has done: at the end of the stream a receipt if the record was armed, for an
   ABORT of this operation no receipt, and for a TERMINATE of this operation a receipt with its reason.
   */
  predicate ClosedUnstarted(m: Monitor, opening: Control) {
    && m.frames.operationId.Some? && !m.acts.resumed && m.acts.killed
    && match opening
       case EndOfFile =>
         if m.frames.armed.Some? then Issued(m, NeverStarted, ParentShutdown) else m.acts.installed.None?
       case Abort(operationId) => operationId == m.frames.operationId.value && m.acts.installed.None?
       case Terminate(operationId, reason) =>
         operationId == m.frames.operationId.value && External(reason) && Issued(m, NeverStarted, reason)
       case _ => false
  }

  /** What a successful session has done after the frame that opened it. */
  predicate Closed(m: Monitor, opening: Control) {
    if opening.Start? then
      m.frames.operationId == Some(opening.operationId) && m.acts.resumed && Proven(m, ZeroPipesEof)
    else ClosedUnstarted(m, opening)
  }

  /** Only frames are still taken. */
  predicate AfterReceipt(before: Monitor, after: Monitor) { after.acts == before.acts && SameOpening(before.frames, after.frames) }

  /** Later frames change neither the operation nor the frame that opened it. */
  predicate SameOpening(before: Frames, after: Frames) {
    after.operationId == before.operationId && (before.count > 0 ==> after.count > 0 && after.opening == before.opening)
  }

  /** What the control thread does to the output moves no pipe that ended. */
  ghost predicate FlowEndKept(before: F.System, after: F.System) {
    F.PipesEnded(before) ==> F.PipesEnded(after) && after.failed == before.failed
  }

  /** The look found everything drained; nothing has been asked since. */
  predicate SeenDrained(before: Sight, after: Sight) {
    after.look == Finished(before.quiet && before.open, false, false) && after.seen && after.window == before.window
  }
}
