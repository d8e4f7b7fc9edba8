/** What goes on beside a supervisor session: its target's processes, and the threads that pump and write the output. */
module SupervisorBackground {
  import F = OutputFlow

  /** Happens without the session: the pump and writer threads, and the processes of the job. */
  datatype Background = Output(event: F.Event) | RootExits | ProcessExits | ProcessStarts

  datatype Job = Job(active: nat, rootExited: bool)

  /** A job without processes stays without. */
  function AfterOne(job: Job, b: Background): Job {
    match b
    case RootExits => if job.active > 0 && !job.rootExited then Job(job.active - 1, true) else job
    case ProcessExits => if job.active > 0 then job.(active := job.active - 1) else job
    case ProcessStarts => if job.active > 0 then job.(active := job.active + 1) else job
    case Output(_) => job
  }

  function FlowAfterOne(flow: F.System, b: Background): F.System {
    if b.Output? && F.InBackground(b.event) then F.Next(flow, b.event) else flow
  }

  function JobAfter(job: Job, bs: seq<Background>): Job {
    if bs == [] then job else AfterOne(JobAfter(job, bs[..|bs| - 1]), bs[|bs| - 1])
  }

  function FlowAfter(flow: F.System, bs: seq<Background>): F.System {
    if bs == [] then flow else FlowAfterOne(FlowAfter(flow, bs[..|bs| - 1]), bs[|bs| - 1])
  }

  /** What has ended stays ended. */
  ghost predicate JobKept(before: Job, after: Job) {
    (before.active == 0 ==> after.active == 0) && (before.rootExited ==> after.rootExited)
  }

  /** What the background keeps: a pipe that has ended neither fails nor moves, and what is settled then stays settled. */
  ghost predicate FlowKept(before: F.System, after: F.System) {
    && after.terminated == before.terminated && (after.connected ==> before.connected)
    && (F.PipesEnded(before) ==> F.PipesEnded(after) && after.failed == before.failed)
    && (F.SettledEnd(before) ==> F.SettledEnd(after))
  }

  lemma {:induction false} FlowGoesOn(flow: F.System, bs: seq<Background>)
    requires F.Invariant(flow)
    ensures F.Invariant(FlowAfter(flow, bs)) && FlowKept(flow, FlowAfter(flow, bs))
  {
    if bs != [] {
      var shorter := bs[..|bs| - 1];
      FlowGoesOn(flow, shorter);
      FlowGoesOnce(FlowAfter(flow, shorter), bs[|bs| - 1]);
    }
  }

  lemma FlowGoesOnce(flow: F.System, b: Background)
    requires F.Invariant(flow)
    ensures F.Invariant(FlowAfterOne(flow, b)) && FlowKept(flow, FlowAfterOne(flow, b))
  {
    if b.Output? && F.InBackground(b.event) {
      F.NextKeeps(flow, b.event);
      F.BackgroundKeeps(flow, b.event);
    }
  }

  lemma {:induction false} JobGoesOn(job: Job, bs: seq<Background>)
    ensures JobKept(job, JobAfter(job, bs))
  {
    if bs != [] { JobGoesOn(job, bs[..|bs| - 1]); }
  }
}
