/**
 What gate failures, validator verdicts and aborted rounds do to a story, and to its notes.
 Notes are lines; a line by which an agent asks for a human ruling must survive every rewrite.
 */
module StoryGate {
  import opened Wrappers
  import opened StoryTypes

  const MAX_RETRIES: real := 5.0

  const ARBITRATION_PREFIXES: seq<string> := ["[需求冲突]", "[需要人工核实]"]

  // ---------------------------------------------------------------- lines

  /** `split('\n')`: always at least one line. */
  function Lines(s: string): (r: seq<string>)
    ensures r != []
  {
    if s == [] then [""]
    else if s[0] == '\n' then [""] + Lines(s[1..])
    else var rest := Lines(s[1..]); [[s[0]] + rest[0]] + rest[1..]
  }

  /** `join('\n')`. */
  function Join(lines: seq<string>): string {
    if lines == [] then "" else if |lines| == 1 then lines[0] else lines[0] + "\n" + Join(lines[1..])
  }

  function Flatten(lines: seq<string>): seq<string> {
    if lines == [] then [] else Lines(lines[0]) + Flatten(lines[1..])
  }

  predicate IsArbitrationLine(line: string) {
    exists i :: 0 <= i < |ARBITRATION_PREFIXES| && ARBITRATION_PREFIXES[i] <= line
  }

  function Arbitration(lines: seq<string>): seq<string> {
    if lines == [] then []
    else (if IsArbitrationLine(lines[0]) then [lines[0]] else []) + Arbitration(lines[1..])
  }

  /** The arbitration lines of a note, in order. */
  function ArbitrationLines(notes: string): seq<string> { Arbitration(Lines(notes)) }

  lemma {:induction false} LinesOfConcat(a: string, b: string)
    ensures Lines(a + "\n" + b) == Lines(a) + Lines(b)
  {
    if a == [] {
      assert a + "\n" + b == "\n" + b;
      assert ("\n" + b)[1..] == b;
    } else {
      var s := a + "\n" + b;
      assert s[1..] == a[1..] + "\n" + b;
      LinesOfConcat(a[1..], b);
    }
  }

  /** Splitting what was joined gives the lines of the parts, which may hold line breaks themselves. */
  lemma {:induction false} LinesOfJoin(lines: seq<string>)
    requires lines != []
    ensures Lines(Join(lines)) == Flatten(lines)
  {
    if |lines| == 1 {
      assert Flatten(lines) == Lines(lines[0]) + [];
    } else {
      LinesOfConcat(lines[0], Join(lines[1..]));
      LinesOfJoin(lines[1..]);
    }
  }

  lemma {:induction false} LineHasNoBreak(s: string, line: string)
    requires line in Lines(s)
    ensures Lines(line) == [line]
  {
    if s == [] {
    } else if s[0] == '\n' {
      if line != "" { LineHasNoBreak(s[1..], line); }
    } else {
      var rest := Lines(s[1..]);
      if line == [s[0]] + rest[0] {
        LineHasNoBreak(s[1..], rest[0]);
        assert line[1..] == rest[0];
      } else {
        assert line in rest[1..];
        LineHasNoBreak(s[1..], line);
      }
    }
  }

  lemma {:induction false} ArbitrationOfConcat(a: seq<string>, b: seq<string>)
    ensures Arbitration(a + b) == Arbitration(a) + Arbitration(b)
  {
    if a == [] {
      assert a + b == b;
    } else {
      assert (a + b)[1..] == a[1..] + b;
      ArbitrationOfConcat(a[1..], b);
    }
  }

  lemma {:induction false} FlattenOfConcat(a: seq<string>, b: seq<string>)
    ensures Flatten(a + b) == Flatten(a) + Flatten(b)
  {
    if a == [] {
      assert a + b == b;
    } else {
      assert (a + b)[1..] == a[1..] + b;
      FlattenOfConcat(a[1..], b);
    }
  }

  /** Arbitration lines of a note are kept whole by another split, and are arbitration lines again. */
  lemma {:induction false} ArbitrationIsStable(s: string, lines: seq<string>)
    requires forall l :: l in lines ==> l in Lines(s)
    ensures Flatten(Arbitration(lines)) == Arbitration(lines)
    ensures Arbitration(Arbitration(lines)) == Arbitration(lines)
  {
    if lines != [] {
      ArbitrationIsStable(s, lines[1..]);
      LineHasNoBreak(s, lines[0]);
      var tail := Arbitration(lines[1..]);
      if IsArbitrationLine(lines[0]) {
        assert ([lines[0]] + tail)[1..] == tail;
      } else {
        assert [] + tail == tail;
      }
    }
  }

  /** Writing the old arbitration lines first keeps them, in order, in front of any new ones. */
  lemma {:induction false} KeptInFront(notes: string, added: seq<string>)
    ensures ArbitrationLines(Join(ArbitrationLines(notes) + added)) == ArbitrationLines(notes) + Arbitration(Flatten(added))
  {
    var kept := ArbitrationLines(notes);
    ArbitrationIsStable(notes, Lines(notes));
    if kept + added == [] {
      assert Lines("") == [""];
      assert !IsArbitrationLine("");
      assert Arbitration([""]) == [] + Arbitration([]);
    } else {
      LinesOfJoin(kept + added);
      FlattenOfConcat(kept, added);
      ArbitrationOfConcat(kept, Flatten(added));
    }
  }

  // ---------------------------------------------------------------- the transitions

  datatype GateFailure = GateFailure(command: string, exitCode: Option<int>, timedOut: bool, outputTail: string)

  datatype Check = Check(acIndex: int, passed: bool, evidence: string)

  datatype Claim = Claim(checks: seq<Check>, summary: string)

  datatype Side = Builder | Validator

  datatype Abort = Abort(side: Side, timedOut: bool, exitCode: Option<int>, outputFailure: bool)

  /** How numbers and the present minute are written. */
  datatype Rendering = Rendering(stamp: string, number: real -> string)

  const BLOCKED_LINE: string := "[BLOCKED: 已达到最大重试次数，跳过此 story]"

  function ExitText(code: Option<int>, rendering: Rendering): string {
    "退出码 " + if code.None? then "null" else rendering.number(code.value as real)
  }

  /** The failure lines that every rejection shares: a headline, the details, and the block notice. */
  function Rejected(prev: StoryState, headline: string, details: seq<string>, rendering: Rendering): StoryState {
    var retryCount := prev.retryCount + 1.0;
    var blocked := prev.blocked || retryCount >= MAX_RETRIES;
    var lines := ArbitrationLines(prev.notes)
      + ([headline + " - 第" + rendering.number(retryCount) + "次] " + rendering.stamp] + details
         + if blocked && !prev.blocked then [BLOCKED_LINE] else []);
    prev.(passes := false, validated := false, receipt := None, unverifiable := None,
          notes := Join(lines), retryCount := retryCount, blocked := blocked)
  }

  function ApplyGateFailure(state: RunState, id: string, failure: GateFailure, rendering: Rendering): RunState {
    var reason := if failure.timedOut then "执行超时被终止" else ExitText(failure.exitCode, rendering);
    state[id := Rejected(StateOf(state, id), "[门禁失败",
                         ["- 失败命令：" + failure.command + "（" + reason + "）", "- 输出尾部：", failure.outputTail], rendering)]
  }

  function FailedCheckLines(checks: seq<Check>, rendering: Rendering): seq<string> {
    if checks == [] then []
    else (if checks[0].passed then [] else ["- AC " + rendering.number(checks[0].acIndex as real) + "：" + checks[0].evidence])
         + FailedCheckLines(checks[1..], rendering)
  }

  function ApplyValidatorFailure(state: RunState, id: string, claim: Claim, rendering: Rendering): RunState {
    state[id := Rejected(StateOf(state, id), "[验证失败",
                         FailedCheckLines(claim.checks, rendering) + ["- Validator 总结：" + claim.summary], rendering)]
  }

  function ApplyValidatorSuccess(state: RunState, id: string): RunState {
    var prev := StateOf(state, id);
    state[id := prev.(validated := false, receipt := None, unverifiable := None,
                      notes := Join(ArbitrationLines(prev.notes)), retryCount := 0.0)]
  }

  function AbortText(abort: Abort, rendering: Rendering): string {
    if abort.timedOut then "执行超时被终止"
    else if abort.outputFailure then "输出通道失败后被终止"
    else if abort.exitCode.None? then "被信号终止"
    else ExitText(abort.exitCode, rendering)
  }

  function ApplyAbortRollback(state: RunState, id: string, abort: Abort, rendering: Rendering): RunState {
    var prev := StateOf(state, id);
    if prev.blocked then state
    else
      var line := "[中断轮待复核] " + rendering.stamp + " " + (if abort.side.Builder? then "builder" else "validator") + " "
                  + AbortText(abort, rendering) + "：本轮 passes 置位未经完整验收，已回写；请确认实现后重新走完门禁与验收";
      state[id := prev.(passes := false, validated := false, receipt := None, unverifiable := None,
                        notes := Join(ArbitrationLines(prev.notes) + [line]))]
  }

  // ---------------------------------------------------------------- whole runs of them

  datatype NoteStep =
    | GateFailed(failure: GateFailure)
    | ValidatorFailed(claim: Claim)
    | ValidatorPassed
    | Aborted(abort: Abort)

  function ApplyNoteStep(state: RunState, id: string, step: NoteStep, rendering: Rendering): RunState {
    match step
    case GateFailed(failure) => ApplyGateFailure(state, id, failure, rendering)
    case ValidatorFailed(claim) => ApplyValidatorFailure(state, id, claim, rendering)
    case ValidatorPassed => ApplyValidatorSuccess(state, id)
    case Aborted(abort) => ApplyAbortRollback(state, id, abort, rendering)
  }

  function ApplyNoteSteps(state: RunState, steps: seq<(string, NoteStep, Rendering)>): RunState
    decreases |steps|
  {
    if steps == [] then state
    else ApplyNoteSteps(ApplyNoteStep(state, steps[0].0, steps[0].1, steps[0].2), steps[1..])
  }

  lemma RejectedKeepsArbitration(prev: StoryState, headline: string, details: seq<string>, rendering: Rendering)
    ensures ArbitrationLines(prev.notes) <= ArbitrationLines(Rejected(prev, headline, details, rendering).notes)
  {
    var next := Rejected(prev, headline, details, rendering);
    var added := [headline + " - 第" + rendering.number(next.retryCount) + "次] " + rendering.stamp] + details
                 + if next.blocked && !prev.blocked then [BLOCKED_LINE] else [];
    KeptInFront(prev.notes, added);
  }

  lemma NoteStepKeepsArbitration(state: RunState, id: string, step: NoteStep, rendering: Rendering, other: string)
    ensures ArbitrationLines(StateOf(state, other).notes)
         <= ArbitrationLines(StateOf(ApplyNoteStep(state, id, step, rendering), other).notes)
    ensures step.ValidatorPassed? ==>
      ArbitrationLines(StateOf(state, other).notes) == ArbitrationLines(StateOf(ApplyNoteStep(state, id, step, rendering), other).notes)
  {
    var prev := StateOf(state, id);
    if other == id {
      match step
      case GateFailed(failure) =>
        var reason := if failure.timedOut then "执行超时被终止" else ExitText(failure.exitCode, rendering);
        RejectedKeepsArbitration(prev, "[门禁失败",
          ["- 失败命令：" + failure.command + "（" + reason + "）", "- 输出尾部：", failure.outputTail], rendering);
      case ValidatorFailed(claim) =>
        RejectedKeepsArbitration(prev, "[验证失败", FailedCheckLines(claim.checks, rendering) + ["- Validator 总结：" + claim.summary], rendering);
      case ValidatorPassed =>
        KeptInFront(prev.notes, []);
        assert ArbitrationLines(prev.notes) + [] == ArbitrationLines(prev.notes);
        assert Flatten([]) == [] && Arbitration([]) == [];
      case Aborted(abort) =>
        if !prev.blocked {
          var line := "[中断轮待复核] " + rendering.stamp + " " + (if abort.side.Builder? then "builder" else "validator") + " "
                      + AbortText(abort, rendering) + "：本轮 passes 置位未经完整验收，已回写；请确认实现后重新走完门禁与验收";
          KeptInFront(prev.notes, [line]);
        }
    }
  }

  /** No run of rejections, verdicts and aborts loses or reorders an arbitration line of any story. */
  lemma {:induction false} ArbitrationNeverLost(state: RunState, steps: seq<(string, NoteStep, Rendering)>, id: string)
    ensures ArbitrationLines(StateOf(state, id).notes) <= ArbitrationLines(StateOf(ApplyNoteSteps(state, steps), id).notes)
    decreases |steps|
  {
    if steps != [] {
      NoteStepKeepsArbitration(state, steps[0].0, steps[0].1, steps[0].2, id);
      ArbitrationNeverLost(ApplyNoteStep(state, steps[0].0, steps[0].1, steps[0].2), steps[1..], id);
    }
  }

  /** Blocked, or still with retries left. */
  predicate WithinRetries(s: StoryState) { s.blocked || s.retryCount < MAX_RETRIES }

  /** Blocked is sticky, and a story that is not blocked has fewer than five retries, throughout any run. */
  lemma {:induction false} RetriesBounded(state: RunState, steps: seq<(string, NoteStep, Rendering)>, id: string)
    requires WithinRetries(StateOf(state, id))
    ensures WithinRetries(StateOf(ApplyNoteSteps(state, steps), id))
    ensures StateOf(state, id).blocked ==> StateOf(ApplyNoteSteps(state, steps), id).blocked
    decreases |steps|
  {
    if steps != [] {
      RetriesBounded(ApplyNoteStep(state, steps[0].0, steps[0].1, steps[0].2), steps[1..], id);
    }
  }

  /** A story fails its fifth rejection in a row exactly by becoming blocked, never earlier or later. */
  lemma {:induction false} BlockedAfterFiveRejections(state: RunState, id: string, steps: seq<(string, NoteStep, Rendering)>)
    requires !StateOf(state, id).blocked && StateOf(state, id).retryCount == 0.0
    requires |steps| <= 5
    requires forall i :: 0 <= i < |steps| ==> steps[i].0 == id && (steps[i].1.GateFailed? || steps[i].1.ValidatorFailed?)
    ensures StateOf(ApplyNoteSteps(state, steps), id).retryCount == |steps| as real
    ensures StateOf(ApplyNoteSteps(state, steps), id).blocked <==> |steps| == 5
  {
    RejectionsCount(state, id, steps, 0);
  }

  lemma {:induction false} RejectionsCount(state: RunState, id: string, steps: seq<(string, NoteStep, Rendering)>, before: nat)
    requires StateOf(state, id).blocked == (before == 5) && StateOf(state, id).retryCount == before as real
    requires before + |steps| <= 5
    requires forall i :: 0 <= i < |steps| ==> steps[i].0 == id && (steps[i].1.GateFailed? || steps[i].1.ValidatorFailed?)
    ensures StateOf(ApplyNoteSteps(state, steps), id).retryCount == (before + |steps|) as real
    ensures StateOf(ApplyNoteSteps(state, steps), id).blocked <==> before + |steps| == 5
    decreases |steps|
  {
    if steps != [] {
      RejectionsCount(ApplyNoteStep(state, steps[0].0, steps[0].1, steps[0].2), id, steps[1..], before + 1);
    }
  }
}
