/** The orchestrator of the older copy of the tool: every discovered job goes
    through drain, maintenance, health and finalize, with no whitelist and no
    cap; a job's failure is logged and stays with that job. */
module LegacyOrchestrator {
  import opened Wrappers
  import opened Utils
  import opened World
  import opened Polling
  import opened Models
  import opened Slurm
  import opened LegacySlurm
  import opened LegacyModels
  import opened Discovery
  import opened LegacyDiscovery
  import opened Orchestrator
  import LegacyDrainPhase
  import LegacyMaintenancePhase
  import LegacyFinalizePhase

  /** The older copy's health phase is not part of this model: `health` gives,
      per host, the exception it raises or the `health_ok` value it leaves. */
  datatype LegacySettings = LegacySettings(maxWorkers: int, timing: Timing, health: string -> Result<Option<bool>>)

  /** An older job as `_process` sees it; the fault string is the drain reason. */
  function LegacyViewOf(job: LegacyJob): JobView
    reads job
  {
    JobView(job.event, job.hostname, job.faultStr, job.workRequest, job.done, job.healthOk)
  }

  function LegacyViews(jobs: seq<LegacyJob>): (vs: seq<JobView>)
    reads set j | j in jobs
    ensures |vs| == |jobs| && forall k :: 0 <= k < |jobs| ==> vs[k] == LegacyViewOf(jobs[k])
  {
    seq(|jobs|, k reads set j | j in jobs requires 0 <= k < |jobs| => LegacyViewOf(jobs[k]))
  }

  /** `health.execute(job)` on the host: the exception it raises or the
      `health_ok` value it leaves. */
  function HealthOf(health: string -> Result<Option<bool>>, host: string): Result<Option<bool>> {
    health(host)
  }

  /** The end of the older `_process(job)` once maintenance returned, from
      trace position `pos`: the health phase, whose outcome is `checked`, then,
      unless it raised, the finalize command chosen by the `health_ok` it
      left. */
  function LegacyTailRun(c: Cluster, host: string, pos: nat, checked: Result<Option<bool>>,
                         health0: Option<bool>): (seq<Effect>, PhaseEnd, Option<bool>)
  {
    match checked
    case Err(e) => ([], Threw(e), health0)
    case Ok(h) =>
      var argv := LegacyFinalizePhase.FinalizeArgv(host, h);
      var r := RunOutcome(c.run(pos, argv), true);
      ([Exec(argv)], if r.Ok? then Returned else Threw(r.error), h)
  }

  /** A phase's outcome `m` followed, if it returned, by health and finalize
      with outcome `f`. */
  function ThenTail(m: MaintenancePhase.MaintOutcome, f: (seq<Effect>, PhaseEnd, Option<bool>), health0: Option<bool>)
    : JobOutcome
  {
    if m.end != Returned then JobOutcome(m.effects, m.end, m.workRequest, m.done, health0)
    else JobOutcome(m.effects + f.0, f.1, m.workRequest, m.done, f.2)
  }

  /** A drain with outcome `d` followed, if it returned, by the rest of the
      chain with outcome `a`. */
  function ThenAfterDrain(d: (seq<Effect>, PhaseEnd), a: JobOutcome,
                          wr0: Option<string>, done0: bool, health0: Option<bool>): JobOutcome
  {
    if d.1 != Returned then JobOutcome(d.0, d.1, wr0, done0, health0)
    else JobOutcome(d.0 + a.effects, a.end, a.workRequest, a.done, a.healthOk)
  }

  /** The older maintenance phase as a function of the event, the trace
      position, and the job's work request and done flag before it. */
  type MaintStep = (Event, nat, Option<string>, bool) -> MaintenancePhase.MaintOutcome

  /** `maint` is the older maintenance phase on this cluster. */
  ghost predicate IsLegacyMaint(maint: MaintStep, c: Cluster, t: Timing) {
    forall ev, p, wr, d {:trigger LegacyMaintenancePhase.LegacyMaintenanceRun(c, ev, p, t.maintPollSec, t.maxPolls, wr, d)} ::
      maint(ev, p, wr, d) == LegacyMaintenancePhase.LegacyMaintenanceRun(c, ev, p, t.maintPollSec, t.maxPolls, wr, d)
  }

  /** The older drain phase as a function of the host, the drain reason and the
      trace position. */
  type DrainStep = (string, string, nat) -> (seq<Effect>, PhaseEnd)

  /** `drain` is the older drain phase on this cluster. */
  ghost predicate IsLegacyDrain(drain: DrainStep, c: Cluster, t: Timing) {
    forall host, reason, p {:trigger LegacyDrainPhase.LegacyDrainRun(c, host, reason, p, t.drainPollSec, t.maxPolls)} ::
      drain(host, reason, p) == LegacyDrainPhase.LegacyDrainRun(c, host, reason, p, t.drainPollSec, t.maxPolls)
  }

  function LegacyDrain(c: Cluster, t: Timing): DrainStep {
    (host: string, reason: string, p: nat) => LegacyDrainPhase.LegacyDrainRun(c, host, reason, p, t.drainPollSec, t.maxPolls)
  }

  lemma LegacyDrainIs(c: Cluster, t: Timing)
    ensures IsLegacyDrain(LegacyDrain(c, t), c, t)
  {
  }

  function LegacyMaint(c: Cluster, t: Timing): MaintStep {
    (ev: Event, p: nat, wr: Option<string>, d: bool) => LegacyMaintenancePhase.LegacyMaintenanceRun(c, ev, p, t.maintPollSec, t.maxPolls, wr, d)
  }

  lemma LegacyMaintIs(c: Cluster, t: Timing)
    ensures IsLegacyMaint(LegacyMaint(c, t), c, t)
  {
  }

  /** The older health and finalize phases as a function of the host, the
      trace position, the health phase's outcome and `health_ok` before it. */
  type TailStep = (string, nat, Result<Option<bool>>, Option<bool>) -> (seq<Effect>, PhaseEnd, Option<bool>)

  /** `tail` is the older health and finalize phases on this cluster. */
  ghost predicate IsLegacyTail(tail: TailStep, c: Cluster) {
    forall host, p, checked, h0 {:trigger LegacyTailRun(c, host, p, checked, h0)} ::
      tail(host, p, checked, h0) == LegacyTailRun(c, host, p, checked, h0)
  }

  function LegacyTailOf(c: Cluster): TailStep {
    (host: string, p: nat, checked: Result<Option<bool>>, h0: Option<bool>) => LegacyTailRun(c, host, p, checked, h0)
  }

  lemma LegacyTailIs(c: Cluster)
    ensures IsLegacyTail(LegacyTailOf(c), c)
  {
  }

  /** The phases of the older `_process(job)` from trace position `pos`, with
      the drain phase `drain` and the maintenance phase `maint`: each runs
      only after the one before returned, and an exception ends the chain
      without leaving `_process`. */
  function LegacyProcessWith(drain: DrainStep, maint: MaintStep, tail: TailStep, ev: Event, host: string, faultStr: string, pos: nat,
                             t: Timing, health: string -> Result<Option<bool>>,
                             wr0: Option<string>, done0: bool, health0: Option<bool>): JobOutcome
  {
    var d := drain(host, faultStr, pos);
    ThenAfterDrain(d, LegacyAfterDrainWith(maint, tail, ev, host, pos + |d.0|, health, wr0, done0, health0),
                   wr0, done0, health0)
  }

  /** The older `_process(job)` after a drain that returned, from trace
      position `pos`: maintenance, then, if it returned, health and finalize. */
  function LegacyAfterDrainWith(maint: MaintStep, tail: TailStep, ev: Event, host: string, pos: nat,
                                health: string -> Result<Option<bool>>,
                                wr0: Option<string>, done0: bool, health0: Option<bool>): JobOutcome
  {
    var m := maint(ev, pos, wr0, done0);
    ThenTail(m, tail(host, pos + |m.effects|, HealthOf(health, host), health0), health0)
  }

  /** The two ways the rest of the chain can go after maintenance. */
  lemma LegacyAfterDrainCases(maint: MaintStep, tail: TailStep, ev: Event, host: string, pos: nat,
                              health: string -> Result<Option<bool>>,
                              wr0: Option<string>, done0: bool, health0: Option<bool>)
    ensures var m := maint(ev, pos, wr0, done0);
            var a := LegacyAfterDrainWith(maint, tail, ev, host, pos, health, wr0, done0, health0);
      (m.end != Returned ==> a == JobOutcome(m.effects, m.end, m.workRequest, m.done, health0)) &&
      (m.end == Returned ==>
         var f := tail(host, pos + |m.effects|, HealthOf(health, host), health0);
         a == JobOutcome(m.effects + f.0, f.1, m.workRequest, m.done, f.2))
  {
    LegacyAfterDrainStops(maint, tail, ev, host, pos, health, wr0, done0, health0);
    LegacyAfterDrainTail(maint, tail, ev, host, pos, health, wr0, done0, health0);
  }

  /** A maintenance phase that did not return ends the job there. */
  lemma LegacyAfterDrainStops(maint: MaintStep, tail: TailStep, ev: Event, host: string, pos: nat,
                              health: string -> Result<Option<bool>>,
                              wr0: Option<string>, done0: bool, health0: Option<bool>)
    ensures var m := maint(ev, pos, wr0, done0);
      m.end != Returned ==>
        LegacyAfterDrainWith(maint, tail, ev, host, pos, health, wr0, done0, health0) ==
        JobOutcome(m.effects, m.end, m.workRequest, m.done, health0)
  {
  }

  /** After a maintenance phase that returned, health and finalize follow. */
  lemma LegacyAfterDrainTail(maint: MaintStep, tail: TailStep, ev: Event, host: string, pos: nat,
                             health: string -> Result<Option<bool>>,
                             wr0: Option<string>, done0: bool, health0: Option<bool>)
    ensures var m := maint(ev, pos, wr0, done0);
      m.end == Returned ==>
        var f := tail(host, pos + |m.effects|, HealthOf(health, host), health0);
        LegacyAfterDrainWith(maint, tail, ev, host, pos, health, wr0, done0, health0) ==
        JobOutcome(m.effects + f.0, f.1, m.workRequest, m.done, f.2)
  {
  }

  /** The older `_process(job)` from trace position `pos`. */
  function LegacyProcessRun(c: Cluster, ev: Event, host: string, faultStr: string, pos: nat, t: Timing,
                            health: string -> Result<Option<bool>>,
                            wr0: Option<string>, done0: bool, health0: Option<bool>): JobOutcome
  {
    LegacyProcessWith(LegacyDrain(c, t), LegacyMaint(c, t), LegacyTailOf(c), ev, host, faultStr, pos, t, health, wr0, done0, health0)
  }

  /** The older `_process` on a job seen as `v`. */
  function LegacyProcessView(c: Cluster, v: JobView, pos: nat, t: Timing, health: string -> Result<Option<bool>>)
    : JobOutcome
  {
    LegacyProcessRun(c, v.event, v.host, v.reason, pos, t, health, v.workRequest, v.done, v.healthOk)
  }

  /** The provider is asked for maintenance only after the node was seen
      draining. */
  lemma LegacyDrainsFirst(c: Cluster, ev: Event, host: string, faultStr: string, pos: nat, t: Timing,
                          health: string -> Result<Option<bool>>,
                          wr0: Option<string>, done0: bool, health0: Option<bool>)
    ensures forall e :: e in LegacyProcessRun(c, ev, host, faultStr, pos, t, health, wr0, done0, health0).effects &&
                        e.UpdateCalled? ==>
      LegacyDrainPhase.LegacyDrainRun(c, host, faultStr, pos, t.drainPollSec, t.maxPolls).1 == Returned
  {
    var query := SinfoQuery(c.run, host, "drain");
    PollEffects(query, pos + 1, Exec(SinfoArgv()), IsTrue, t.drainPollSec, t.maxPolls);
  }

  /** The finalize command runs only after health returned, and a job that
      gets through ends with the resume command exactly when the health phase
      left `health_ok` true, and with the NTR drain otherwise. */
  lemma LegacyFinalizesLast(c: Cluster, host: string, pos: nat, checked: Result<Option<bool>>,
                            health0: Option<bool>)
    ensures var f := LegacyTailRun(c, host, pos, checked, health0);
      (f.0 != [] <==> checked.Ok?) &&
      (f.1 == Returned ==>
         checked.Ok? && f.2 == checked.value && |f.0| == 1 &&
         (f.0[0] == Exec(ResumeArgv(host)) <==> f.2 == Some(true)) &&
         (f.0[0] == Exec(MarkNtrArgv(host)) <==> f.2 != Some(true)))
  {
    if checked.Ok? {
      LegacyFinalizePhase.FinalizeAgrees(host, checked.value);
      assert ResumeArgv(host) != MarkNtrArgv(host) by {
        assert ResumeArgv(host)[4][6] == 'R' && MarkNtrArgv(host)[4][6] == 'D';
      }
    }
  }

  /** Health and finalize of the older `_process(job)`. */
  method LegacyTail(c: Cluster, job: LegacyJob, checked: Result<Option<bool>>) returns (end: PhaseEnd)
    modifies c, job
    ensures var f := LegacyTailRun(c, job.hostname, |old(c.trace)|, checked, old(job.healthOk));
      c.trace == old(c.trace) + f.0 && end == f.1 && job.healthOk == f.2
    ensures job.workRequest == old(job.workRequest) && job.done == old(job.done)
  {
    if checked.Err? {
      return Threw(checked.error);
    }
    job.healthOk := checked.value;
    end := LegacyFinalizePhase.Execute(c, job);
  }

  /** Health and finalize of the older `_process(job)`, seen through `tail`. */
  method LegacyTailStep(c: Cluster, job: LegacyJob, checked: Result<Option<bool>>, ghost tail: TailStep)
    returns (end: PhaseEnd)
    requires IsLegacyTail(tail, c)
    modifies c, job
    ensures var f := tail(job.hostname, |old(c.trace)|, checked, old(job.healthOk));
      c.trace == old(c.trace) + f.0 && end == f.1 && job.healthOk == f.2
    ensures job.workRequest == old(job.workRequest) && job.done == old(job.done)
  {
    end := LegacyTail(c, job, checked);
  }

  /** The older drain phase, seen through `drain`. */
  method LegacyDrainStep(c: Cluster, job: LegacyJob, t: Timing, ghost drain: DrainStep) returns (end: PhaseEnd)
    requires IsLegacyDrain(drain, c, t)
    modifies c
    ensures var d := drain(job.hostname, job.faultStr, |old(c.trace)|);
      c.trace == old(c.trace) + d.0 && end == d.1
  {
    end := LegacyDrainPhase.Execute(c, job, t.drainPollSec, t.maxPolls);
  }

  /** The older maintenance phase, seen through `maint`. */
  method LegacyMaintStep(c: Cluster, job: LegacyJob, t: Timing, ghost maint: MaintStep) returns (end: PhaseEnd)
    requires IsLegacyMaint(maint, c, t)
    modifies c, job
    ensures var m := maint(job.event, |old(c.trace)|, old(job.workRequest), old(job.done));
      c.trace == old(c.trace) + m.effects && end == m.end && job.workRequest == m.workRequest && job.done == m.done
    ensures job.healthOk == old(job.healthOk)
  {
    end := LegacyMaintenancePhase.Execute(c, job, t.maintPollSec, t.maxPolls);
  }

  /** The older `_process(job)` after a drain that returned. */
  method LegacyAfterDrain(c: Cluster, job: LegacyJob, t: Timing, health: string -> Result<Option<bool>>,
                          ghost maint: MaintStep, ghost tail: TailStep)
    returns (end: PhaseEnd)
    requires IsLegacyMaint(maint, c, t) && IsLegacyTail(tail, c)
    modifies c, job
    ensures var a := LegacyAfterDrainWith(maint, tail, job.event, job.hostname, |old(c.trace)|, health,
                                          old(job.workRequest), old(job.done), old(job.healthOk));
      c.trace == old(c.trace) + a.effects && end == a.end &&
      job.workRequest == a.workRequest && job.done == a.done && job.healthOk == a.healthOk
  {
    ghost var t0, wr0, done0, health0 := c.trace, job.workRequest, job.done, job.healthOk;
    ghost var m := maint(job.event, |t0|, wr0, done0);
    end := LegacyMaintStep(c, job, t, maint);
    if end != Returned {
      LegacyAfterDrainStops(maint, tail, job.event, job.hostname, |t0|, health, wr0, done0, health0);
      return;
    }
    ghost var t1 := c.trace;
    var checked := HealthOf(health, job.hostname);
    end := LegacyTailStep(c, job, checked, tail);
    LegacyAfterDrainTail(maint, tail, job.event, job.hostname, |t0|, health, wr0, done0, health0);
    ConcatAssoc(t0, m.effects, tail(job.hostname, |t1|, checked, health0).0);
  }

  /** The older `_process(job)`, with the drain, maintenance, and health and
      finalize phases seen through `drain`, `maint` and `tail`. */
  method LegacyProcess(c: Cluster, job: LegacyJob, t: Timing, health: string -> Result<Option<bool>>,
                       ghost drain: DrainStep, ghost maint: MaintStep, ghost tail: TailStep)
    returns (end: PhaseEnd)
    requires IsLegacyDrain(drain, c, t) && IsLegacyMaint(maint, c, t) && IsLegacyTail(tail, c)
    modifies c, job
    ensures var o := LegacyProcessWith(drain, maint, tail, job.event, job.hostname, job.faultStr, |old(c.trace)|, t, health,
                                       old(job.workRequest), old(job.done), old(job.healthOk));
      c.trace == old(c.trace) + o.effects && end == o.end &&
      job.workRequest == o.workRequest && job.done == o.done && job.healthOk == o.healthOk
  {
    ghost var t0 := c.trace;
    end := LegacyDrainStep(c, job, t, drain);
    if end != Returned {
      return;
    }
    ghost var t1 := c.trace;
    end := LegacyAfterDrain(c, job, t, health, maint, tail);
    ConcatAssoc(t0, drain(job.hostname, job.faultStr, |t0|).0,
                LegacyAfterDrainWith(maint, tail, job.event, job.hostname, |t1|, health,
                                     old(job.workRequest), old(job.done), old(job.healthOk)).effects);
  }

  /** `step` is the older `_process` on this cluster. */
  ghost predicate IsLegacyProcess(step: (JobView, nat) -> JobOutcome, c: Cluster, t: Timing,
                                  health: string -> Result<Option<bool>>)
  {
    forall v, p {:trigger LegacyProcessView(c, v, p, t, health)} :: step(v, p) == LegacyProcessView(c, v, p, t, health)
  }

  /** The older `_process` on the view of the job taken before it starts. */
  method LegacyProcessJob(c: Cluster, job: LegacyJob, t: Timing, health: string -> Result<Option<bool>>,
                          ghost v: JobView, ghost step: (JobView, nat) -> JobOutcome) returns (end: PhaseEnd)
    requires v == LegacyViewOf(job)
    requires IsLegacyProcess(step, c, t, health)
    modifies c, job
    ensures var o := step(v, |old(c.trace)|);
      c.trace == old(c.trace) + o.effects && end == o.end &&
      job.workRequest == o.workRequest && job.done == o.done && job.healthOk == o.healthOk
  {
    assert step(v, |c.trace|) == LegacyProcessView(c, v, |c.trace|, t, health);
    LegacyDrainIs(c, t);
    LegacyMaintIs(c, t);
    LegacyTailIs(c);
    end := LegacyProcess(c, job, t, health, LegacyDrain(c, t), LegacyMaint(c, t), LegacyTailOf(c));
  }

  /** The older dispatch once the jobs of `outs` are processed (as for the
      newer copy). */
  ghost predicate LegacyDispatched(c: Cluster, jobs: seq<LegacyJob>, views: seq<JobView>,
                                   step: (JobView, nat) -> JobOutcome, t0: seq<Effect>, outs: seq<JobOutcome>,
                                   running: bool)
    reads c, set j | j in jobs
  {
    |outs| <= |jobs| == |views| &&
    c.trace == t0 + Effects(outs) && StepsFrom(step, views, |t0|, outs) &&
    (forall k :: 0 <= k < |outs| - 1 ==> outs[k].end != Hung) &&
    (running <==> outs == [] || outs[|outs| - 1].end != Hung) &&
    (forall k :: 0 <= k < |outs| ==>
       jobs[k].workRequest == outs[k].workRequest && jobs[k].done == outs[k].done &&
       jobs[k].healthOk == outs[k].healthOk) &&
    (forall k :: |outs| <= k < |jobs| ==> LegacyViewOf(jobs[k]) == views[k])
  }

  method LegacyProcessNext(c: Cluster, jobs: seq<LegacyJob>, i: nat, t: Timing,
                           health: string -> Result<Option<bool>>, ghost views: seq<JobView>,
                           ghost step: (JobView, nat) -> JobOutcome, ghost t0: seq<Effect>,
                           ghost outs: seq<JobOutcome>)
    returns (end: PhaseEnd, ghost outs': seq<JobOutcome>)
    requires forall i, j :: 0 <= i < j < |jobs| ==> jobs[i] != jobs[j]
    requires IsLegacyProcess(step, c, t, health)
    requires i == |outs| < |jobs| && LegacyDispatched(c, jobs, views, step, t0, outs, true)
    modifies c, jobs[i]
    ensures |outs'| == i + 1 && LegacyDispatched(c, jobs, views, step, t0, outs', end != Hung)
  {
    var job := jobs[i];
    ghost var o := step(views[i], |c.trace|);
    DispatchSnoc(step, views, t0, outs, o);
    end := LegacyProcessJob(c, job, t, health, views[i], step);
    outs' := outs + [o];
    assert c.trace == t0 + Effects(outs') && StepsFrom(step, views, |t0|, outs');
    assert (end != Hung <==> outs' == [] || outs'[|outs'| - 1].end != Hung) &&
           forall k :: 0 <= k < |outs'| - 1 ==> outs'[k].end != Hung;
    forall k | 0 <= k < |outs'|
      ensures jobs[k].workRequest == outs'[k].workRequest && jobs[k].done == outs'[k].done &&
              jobs[k].healthOk == outs'[k].healthOk
    {
      if k < i {
        assert jobs[k] != job;
      }
    }
    forall k | |outs'| <= k < |jobs|
      ensures LegacyViewOf(jobs[k]) == views[k]
    {
      assert jobs[k] != job;
    }
  }

  /** `pool.map(_process, jobs)` of the older copy, one job after the other. */
  method LegacyProcessEach(c: Cluster, jobs: seq<LegacyJob>, t: Timing, health: string -> Result<Option<bool>>,
                           ghost views: seq<JobView>, ghost step: (JobView, nat) -> JobOutcome)
    returns (finished: bool)
    requires forall i, j :: 0 <= i < j < |jobs| ==> jobs[i] != jobs[j]
    requires views == LegacyViews(jobs)
    requires IsLegacyProcess(step, c, t, health)
    modifies c, set j | j in jobs
    ensures var r := ProcessAll(step, views, |old(c.trace)|);
      c.trace == old(c.trace) + r.0 &&
      (finished <==> forall k :: 0 <= k < |r.1| ==> r.1[k].end != Hung) &&
      (forall k :: 0 <= k < |r.1| ==>
         jobs[k].workRequest == r.1[k].workRequest && jobs[k].done == r.1[k].done &&
         jobs[k].healthOk == r.1[k].healthOk) &&
      (forall k :: |r.1| <= k < |jobs| ==> LegacyViewOf(jobs[k]) == views[k])
  {
    ghost var t0 := c.trace;
    ghost var outs: seq<JobOutcome> := [];
    finished := true;
    var i := 0;
    while i < |jobs| && finished
      invariant 0 <= i <= |jobs| && |outs| == i
      invariant LegacyDispatched(c, jobs, views, step, t0, outs, finished)
    {
      var end;
      end, outs := LegacyProcessNext(c, jobs, i, t, health, views, step, t0, outs);
      finished := end != Hung;
      i := i + 1;
    }
    ProcessAllUnique(step, views, |t0|, outs);
    RunningIffNoneHung(outs, finished);
  }

  /** Every discovered job as `_process` first sees it. */
  function FreshViews(found: seq<Found>): (vs: seq<JobView>)
    ensures |vs| == |found|
  {
    seq(|found|, k requires 0 <= k < |found| =>
      JobView(found[k].event, found[k].hostname, found[k].faultStr, None, false, None))
  }

  /** What the older `run_once` decides from the discovered jobs. */
  function LegacyRunPlan(found: seq<Found>, s: LegacySettings): Plan {
    if found == [] then NothingToDo
    else
      match PoolSize(|found|, s.maxWorkers)
      case Err(e) => PlanRaised(e)
      case Ok(_) => Dispatch(FreshViews(found))
  }

  /** The older copy stops only when nothing was found, raises only for a
      worker limit below one, and otherwise hands every discovered job, in
      discovery order, to the pool. */
  lemma LegacyPlanOutcome(found: seq<Found>, s: LegacySettings)
    ensures LegacyRunPlan(found, s) == NothingToDo <==> found == []
    ensures LegacyRunPlan(found, s).PlanRaised? <==> found != [] && s.maxWorkers <= 0
    ensures LegacyRunPlan(found, s).PlanRaised? ==> LegacyRunPlan(found, s).error == "ValueError"
    ensures LegacyRunPlan(found, s).Dispatch? ==>
      var vs := LegacyRunPlan(found, s).views;
      |vs| == |found| &&
      forall k :: 0 <= k < |found| ==>
        vs[k].event == found[k].event && vs[k].host == found[k].hostname && vs[k].reason == found[k].faultStr &&
        vs[k].workRequest.None? && !vs[k].done && vs[k].healthOk.None?
  {
  }

  /** The older `run_once` once discovery has had the outcome `d`. */
  function LegacyRunOnceOf(d: (seq<Effect>, Result<seq<Found>>), s: LegacySettings,
                           step: (JobView, nat) -> JobOutcome, pos: nat)
    : (seq<Effect>, RunEnd)
  {
    match d.1
    case Err(e) => (d.0, RunRaised(e))
    case Ok(found) =>
      var r := PlanRun(step, LegacyRunPlan(found, s), pos + |d.0|);
      (d.0 + r.0, r.1)
  }

  lemma LegacyRunOnceOfFound(d: (seq<Effect>, Result<seq<Found>>), s: LegacySettings,
                             step: (JobView, nat) -> JobOutcome, pos: nat, at: nat)
    requires d.1.Ok? && at == pos + |d.0|
    ensures var r := PlanRun(step, LegacyRunPlan(d.1.value, s), at);
      LegacyRunOnceOf(d, s, step, pos) == (d.0 + r.0, r.1)
  {
  }

  /** The older `run_once` from trace position `pos`, `step` being its
      `_process`. */
  function LegacyRunOnceRun(c: Cluster, src: Sources, s: LegacySettings, step: (JobView, nat) -> JobOutcome, pos: nat)
    : (seq<Effect>, RunEnd)
  {
    LegacyRunOnceOf(LegacyDiscoverOutcome(c.run, c.fetch, pos, src.tag, src.parse, src.tenancy, src.listedComps,
                                          src.listedEvents, src.maxCalls), s, step, pos)
  }

  /** The older `run_once` once discovery returned `jobs`. */
  method LegacyRunFound(c: Cluster, jobs: seq<LegacyJob>, ghost found: seq<Found>, s: LegacySettings,
                        ghost step: (JobView, nat) -> JobOutcome) returns (end: RunEnd)
    requires LegacyJobsHold(jobs, found)
    requires forall i, j :: 0 <= i < j < |jobs| ==> jobs[i] != jobs[j]
    requires IsLegacyProcess(step, c, s.timing, s.health)
    modifies c, set j | j in jobs
    ensures var r := PlanRun(step, LegacyRunPlan(found, s), |old(c.trace)|);
      c.trace == old(c.trace) + r.0 && end == r.1
  {
    if |jobs| == 0 {
      return Completed;
    }
    var pool := PoolSize(|jobs|, s.maxWorkers);
    if pool.Err? {
      return RunRaised(pool.error);
    }
    assert LegacyViews(jobs) == FreshViews(found);
    var finished := LegacyProcessEach(c, jobs, s.timing, s.health, LegacyViews(jobs), step);
    end := if finished then Completed else RunHung;
  }

  /** The older `run_once()`. */
  method LegacyRunOnce(c: Cluster, src: Sources, s: LegacySettings, ghost step: (JobView, nat) -> JobOutcome)
    returns (end: RunEnd)
    requires IsLegacyProcess(step, c, s.timing, s.health)
    modifies c
    ensures var r := LegacyRunOnceRun(c, src, s, step, |old(c.trace)|);
      c.trace == old(c.trace) + r.0 && end == r.1
  {
    ghost var t0 := c.trace;
    ghost var dd := LegacyDiscoverOutcome(c.run, c.fetch, |t0|, src.tag, src.parse, src.tenancy, src.listedComps,
                                          src.listedEvents, src.maxCalls);
    var d := LegacyDiscover(c, src.tag, src.parse, src.tenancy, src.listedComps, src.listedEvents, src.maxCalls);
    assert LegacyRunOnceRun(c, src, s, step, |t0|) == LegacyRunOnceOf(dd, s, step, |t0|);
    if d.Err? {
      assert LegacyRunOnceOf(dd, s, step, |t0|) == (dd.0, RunRaised(d.error));
      return RunRaised(d.error);
    }
    ghost var t1 := c.trace;
    assert t1 == t0 + dd.0 && |t1| == |t0| + |dd.0|;
    LegacyRunOnceOfFound(dd, s, step, |t0|, |t1|);
    end := LegacyRunFound(c, d.value, dd.1.value, s, step);
    ConcatAssoc(t0, dd.0, PlanRun(step, LegacyRunPlan(dd.1.value, s), |t1|).0);
  }
}
