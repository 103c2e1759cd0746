/** The orchestrator: discover the jobs, keep those whose faults are
    whitelisted, cap how many run, and take each through drain, maintenance,
    health and finalize, isolating a job's failure from the others; the loop
    repeats this at a fixed interval. */
module Orchestrator {
  import opened Wrappers
  import opened PyJson
  import opened Utils
  import opened World
  import opened Polling
  import opened Models
  import opened Config
  import opened Discovery
  import opened DrainPhase
  import opened MaintenancePhase
  import HealthPhase
  import FinalizePhase

  /** The poll intervals in force and the number of probes the model follows in
      each wait. */
  datatype Timing = Timing(drainPollSec: int, maintPollSec: int, maxPolls: nat)

  /** What processing did and what it leaves in the job. */
  datatype JobOutcome = JobOutcome(effects: seq<Effect>, end: PhaseEnd, workRequest: Option<string>,
                                   done: bool, healthOk: Option<bool>)

  /** `_process` once the node is drained, from trace position `pos`: the
      maintenance phase, then, if it returned, health and finalize. Health
      always passes, so finalize always decides for a healthy node. */
  function AfterDrainRun(c: Cluster, ev: Event, host: string, reason: string, pos: nat, t: Timing,
                         wr0: Option<string>, done0: bool, health0: Option<bool>): JobOutcome
  {
    var m := MaintenanceRun(c, ev, host, reason, pos, t.maintPollSec, t.maxPolls, wr0, done0);
    if m.end != Returned then JobOutcome(m.effects, m.end, m.workRequest, m.done, health0)
    else
      var closing := [Audited(HealthPhase.HealthRecord(host)),
                      Audited(FinalizePhase.FinalizeRecord(host, FinalizePhase.Decision(Some(true))))];
      JobOutcome(m.effects + closing, Returned, m.workRequest, m.done, Some(true))
  }

  /** `_process(job)` from trace position `pos`: each phase runs only after the
      one before returned. An exception ends the chain and is logged, so
      `_process` itself returns; a wait that never ends keeps it there. */
  function ProcessRun(c: Cluster, ev: Event, host: string, reason: string, pos: nat, t: Timing,
                      wr0: Option<string>, done0: bool, health0: Option<bool>): JobOutcome
  {
    var d := DrainRun(c, host, reason, pos, t.drainPollSec, t.maxPolls);
    if d.1 != Returned then JobOutcome(d.0, d.1, wr0, done0, health0)
    else
      var a := AfterDrainRun(c, ev, host, reason, pos + |d.0|, t, wr0, done0, health0);
      JobOutcome(d.0 + a.effects, a.end, a.workRequest, a.done, a.healthOk)
  }

  /** The provider is asked to start maintenance only after the node was seen
      drained and idle; a job that gets through every phase is found healthy and
      its finalize record says "resume". */
  lemma ProcessDrainsFirst(c: Cluster, ev: Event, host: string, reason: string, pos: nat, t: Timing,
                           wr0: Option<string>, done0: bool, health0: Option<bool>)
    ensures var o := ProcessRun(c, ev, host, reason, pos, t, wr0, done0, health0);
      (forall e :: e in o.effects && e.UpdateCalled? ==>
         DrainRun(c, host, reason, pos, t.drainPollSec, t.maxPolls).1 == Returned) &&
      (o.end == Returned ==>
         o.healthOk == Some(true) &&
         o.effects[|o.effects| - 1] == Audited(FinalizePhase.FinalizeRecord(host, "resume")))
  {
    var d := DrainRun(c, host, reason, pos, t.drainPollSec, t.maxPolls);
    DrainRunQuiet(c, host, reason, pos, t.drainPollSec, t.maxPolls);
    FinalizePhase.DecisionIff(Some(true));
    if d.1 != Returned {
      assert forall e :: e in d.0 ==> !e.UpdateCalled?;
    }
  }

  /** The part of `_process(job)` after a drain that returned. */
  method AfterDrain(c: Cluster, job: MaintenanceJob, t: Timing) returns (end: PhaseEnd)
    modifies c, job
    ensures var a := AfterDrainRun(c, job.event, job.hostname, old(job.Reason()), |old(c.trace)|, t,
                                   old(job.workRequest), old(job.done), old(job.healthOk));
      c.trace == old(c.trace) + a.effects && end == a.end &&
      job.workRequest == a.workRequest && job.done == a.done && job.healthOk == a.healthOk
    ensures job.approvedFault == old(job.approvedFault)
  {
    end := MaintenancePhase.Execute(c, job, t.maintPollSec, t.maxPolls);
    if end != Returned {
      return;
    }
    ghost var t2 := c.trace;
    HealthPhase.Execute(c, job);
    FinalizePhase.Execute(c, job);
    assert c.trace == t2 + [Audited(HealthPhase.HealthRecord(job.hostname)),
                            Audited(FinalizePhase.FinalizeRecord(job.hostname, FinalizePhase.Decision(Some(true))))];
  }

  /** `_process(job)`. */
  method Process(c: Cluster, job: MaintenanceJob, t: Timing) returns (end: PhaseEnd)
    modifies c, job
    ensures var o := ProcessRun(c, job.event, job.hostname, old(job.Reason()), |old(c.trace)|, t,
                                old(job.workRequest), old(job.done), old(job.healthOk));
      c.trace == old(c.trace) + o.effects && end == o.end &&
      job.workRequest == o.workRequest && job.done == o.done && job.healthOk == o.healthOk
    ensures job.approvedFault == old(job.approvedFault)
  {
    ghost var t0, reason := c.trace, job.Reason();
    ghost var o := ProcessRun(c, job.event, job.hostname, reason, |t0|, t, job.workRequest, job.done, job.healthOk);
    end := DrainPhase.Execute(c, job, t.drainPollSec, t.maxPolls);
    ghost var d := DrainRun(c, job.hostname, reason, |t0|, t.drainPollSec, t.maxPolls);
    assert c.trace == t0 + d.0 && end == d.1;
    if end != Returned {
      assert o == JobOutcome(d.0, d.1, job.workRequest, job.done, job.healthOk);
      return;
    }
    ghost var t1 := c.trace;
    end := AfterDrain(c, job, t);
    ghost var a := AfterDrainRun(c, job.event, job.hostname, reason, |t1|, t,
                                 old(job.workRequest), old(job.done), old(job.healthOk));
    assert c.trace == t1 + a.effects;
    assert o == JobOutcome(d.0 + a.effects, a.end, a.workRequest, a.done, a.healthOk);
    ConcatAssoc(t0, d.0, a.effects);
  }

  // ---------------------------------------------------------------------------
  // The whitelist gate

  /** `if approved_fault:`: a matching code lets the job through only when it is
      non-empty. */
  predicate Admits(a: Approval) {
    a.Approved? && a.code != []
  }

  /** No lookup before position `i` raised. */
  predicate ClearBefore(ids: seq<seq<Json>>, approved: set<string>, i: nat)
    requires i <= |ids|
  {
    forall j :: 0 <= j < i ==> !FirstApproved(ids[j], approved).RaisedUnhashable?
  }

  /** What the gate of `run_once` concludes over the jobs' fault ids: the
      positions it lets through, in order, with the code of each, and whether a
      lookup raised (which ends `run_once`). */
  datatype GateResult = GateResult(picked: seq<nat>, codes: seq<string>, raised: bool)

  function GateRun(ids: seq<seq<Json>>, approved: set<string>): (r: GateResult)
    ensures |r.picked| == |r.codes|
    ensures forall k :: 0 <= k < |r.picked| ==>
      r.picked[k] < |ids| && FirstApproved(ids[r.picked[k]], approved) == Approved(r.codes[k]) && r.codes[k] != []
    ensures forall k, l :: 0 <= k < l < |r.picked| ==> r.picked[k] < r.picked[l]
    decreases |ids|
  {
    if ids == [] then GateResult([], [], false)
    else
      var g := GateRun(ids[..|ids| - 1], approved);
      if g.raised then g
      else
        match FirstApproved(ids[|ids| - 1], approved)
        case RaisedUnhashable => GateResult(g.picked, g.codes, true)
        case Approved(code) =>
          if code != [] then GateResult(g.picked + [|ids| - 1], g.codes + [code], false) else g
        case NotApproved => g
  }

  /** The gate raises iff some lookup raises; a job is let through iff its ids
      match a non-empty approved code and no lookup before it raised. */
  lemma {:induction false} GateExact(ids: seq<seq<Json>>, approved: set<string>)
    ensures GateRun(ids, approved).raised <==>
      exists k :: 0 <= k < |ids| && FirstApproved(ids[k], approved).RaisedUnhashable?
    ensures forall i :: 0 <= i < |ids| ==>
      (i in GateRun(ids, approved).picked <==> Admits(FirstApproved(ids[i], approved)) && ClearBefore(ids, approved, i))
    decreases |ids|
  {
    if ids != [] {
      var init := ids[..|ids| - 1];
      GateExact(init, approved);
      assert forall j :: 0 <= j < |init| ==> init[j] == ids[j];
      var g := GateRun(init, approved);
      if g.raised {
        var k :| 0 <= k < |init| && FirstApproved(init[k], approved).RaisedUnhashable?;
        assert !ClearBefore(ids, approved, |ids| - 1) by {
          assert FirstApproved(ids[k], approved).RaisedUnhashable?;
        }
      }
      forall i | 0 <= i < |init|
        ensures ClearBefore(ids, approved, i) == ClearBefore(init, approved, i)
      {
      }
    }
  }

  /** Once a lookup has raised, the later jobs are not looked at. */
  lemma {:induction false} GateStops(ids: seq<seq<Json>>, approved: set<string>, n: nat)
    requires n <= |ids| && GateRun(ids[..n], approved).raised
    ensures GateRun(ids, approved) == GateRun(ids[..n], approved)
    decreases |ids| - n
  {
    if n < |ids| {
      assert ids[..n + 1][..n] == ids[..n];
      GateStops(ids, approved, n + 1);
    } else {
      assert ids[..n] == ids;
    }
  }

  /** One more job at the gate. */
  lemma GateSnoc(ids: seq<seq<Json>>, approved: set<string>, i: nat)
    requires i < |ids| && !GateRun(ids[..i], approved).raised
    ensures var g := GateRun(ids[..i], approved);
      var a := FirstApproved(ids[i], approved);
      GateRun(ids[..i + 1], approved)
        == if a.RaisedUnhashable? then GateResult(g.picked, g.codes, true)
           else if Admits(a) then GateResult(g.picked + [i], g.codes + [a.code], false)
           else g
  {
    assert ids[..i + 1][..i] == ids[..i];
  }

  /** Until a lookup raises, the gate lets through exactly the admitted jobs. */
  lemma GatePickedBefore(ids: seq<seq<Json>>, approved: set<string>, i: nat)
    requires i <= |ids| && !GateRun(ids[..i], approved).raised
    ensures forall k :: k in GateRun(ids[..i], approved).picked <==>
      0 <= k < i && Admits(FirstApproved(ids[k], approved))
  {
    var init := ids[..i];
    GateExact(init, approved);
    forall k | 0 <= k < i
      ensures ClearBefore(init, approved, k)
    {
      assert forall j :: 0 <= j < k ==> !FirstApproved(init[j], approved).RaisedUnhashable?;
    }
  }

  /** The code a lookup matched; empty when it matched none. */
  function MatchedCode(a: Approval): string {
    if a.Approved? then a.code else ""
  }

  /** The fault ids of each job, in order. */
  function IdsOf(jobs: seq<MaintenanceJob>): (ids: seq<seq<Json>>)
    ensures |ids| == |jobs| && forall i :: 0 <= i < |jobs| ==> ids[i] == jobs[i].faultIds
  {
    seq(|jobs|, i requires 0 <= i < |jobs| => jobs[i].faultIds)
  }

  /** The jobs at the given positions, in that order. */
  function Pick(jobs: seq<MaintenanceJob>, picked: seq<nat>): (r: seq<MaintenanceJob>)
    requires forall k :: 0 <= k < |picked| ==> picked[k] < |jobs|
    ensures |r| == |picked| && forall k :: 0 <= k < |picked| ==> r[k] == jobs[picked[k]]
  {
    seq(|picked|, k requires 0 <= k < |picked| => jobs[picked[k]])
  }

  lemma PickSnoc(jobs: seq<MaintenanceJob>, picked: seq<nat>, i: nat)
    requires i < |jobs| && forall k :: 0 <= k < |picked| ==> picked[k] < |jobs|
    ensures Pick(jobs, picked + [i]) == Pick(jobs, picked) + [jobs[i]]
  {
  }

  /** One job at the gate: its ids are looked up, and a code that lets it
      through is written to `approved_fault`. */
  method ApproveJob(job: MaintenanceJob, approved: set<string>) returns (a: Approval)
    modifies job
    ensures a == FirstApproved(job.faultIds, approved)
    ensures job.approvedFault == if Admits(a) then Some(MatchedCode(a)) else old(job.approvedFault)
    ensures job.workRequest == old(job.workRequest) && job.done == old(job.done) && job.healthOk == old(job.healthOk)
  {
    a := IsFaultApproved(Some(job.faultIds), approved);
    if a.Approved? && a.code != [] {
      job.approvedFault := Some(a.code);
    }
  }

  /** One job of the list at the gate; the other jobs are left as they were. */
  method ApproveAt(jobs: seq<MaintenanceJob>, approved: set<string>, i: nat) returns (a: Approval)
    requires i < |jobs| && forall k, l :: 0 <= k < l < |jobs| ==> jobs[k] != jobs[l]
    modifies jobs[i]
    ensures a == FirstApproved(jobs[i].faultIds, approved)
    ensures forall k :: 0 <= k < |jobs| ==>
      jobs[k].approvedFault == (if k == i && Admits(a) then Some(MatchedCode(a)) else old(jobs[k].approvedFault))
    ensures forall k :: 0 <= k < |jobs| ==>
      jobs[k].workRequest == old(jobs[k].workRequest) && jobs[k].done == old(jobs[k].done) &&
      jobs[k].healthOk == old(jobs[k].healthOk)
  {
    var job := jobs[i];
    a := ApproveJob(job, approved);
    forall k | 0 <= k < |jobs| && k != i ensures jobs[k] != job {
      if k < i { assert jobs[k] != jobs[i]; } else { assert jobs[i] != jobs[k]; }
    }
  }

  /** The gate loop of `run_once`: each job's fault ids are looked up in
      discovery order; a job let through has its code written to
      `approved_fault` and joins the approved list. A lookup that raises ends
      `run_once` with a TypeError, the codes already written staying written. */
  method ApproveJobs(jobs: seq<MaintenanceJob>, approved: set<string>) returns (r: Result<seq<MaintenanceJob>>)
    requires forall i, j :: 0 <= i < j < |jobs| ==> jobs[i] != jobs[j]
    modifies set j | j in jobs
    ensures var g := GateRun(IdsOf(jobs), approved);
      (r.Err? <==> g.raised) && (r.Err? ==> r.error == "TypeError") &&
      (r.Ok? ==> r.value == Pick(jobs, g.picked))
    ensures var g := GateRun(IdsOf(jobs), approved);
      forall i :: 0 <= i < |jobs| ==>
        jobs[i].approvedFault == (if i in g.picked then Some(MatchedCode(FirstApproved(jobs[i].faultIds, approved)))
                                  else old(jobs[i].approvedFault))
    ensures forall i :: 0 <= i < |jobs| ==>
      jobs[i].workRequest == old(jobs[i].workRequest) && jobs[i].done == old(jobs[i].done) &&
      jobs[i].healthOk == old(jobs[i].healthOk)
  {
    ghost var ids := IdsOf(jobs);
    var out: seq<MaintenanceJob> := [];
    var raised := false;
    var i := 0;
    while i < |jobs|
      invariant 0 <= i <= |jobs|
      invariant !GateRun(ids[..i], approved).raised && !raised
      invariant out == Pick(jobs, GateRun(ids[..i], approved).picked)
      invariant forall k :: 0 <= k < |jobs| ==>
        jobs[k].approvedFault == (if k < i && Admits(FirstApproved(ids[k], approved))
                                  then Some(MatchedCode(FirstApproved(ids[k], approved)))
                                  else old(jobs[k].approvedFault))
      invariant forall k :: 0 <= k < |jobs| ==>
        jobs[k].workRequest == old(jobs[k].workRequest) && jobs[k].done == old(jobs[k].done) &&
        jobs[k].healthOk == old(jobs[k].healthOk)
    {
      GateSnoc(ids, approved, i);
      ghost var g := GateRun(ids[..i], approved);
      var a := ApproveAt(jobs, approved, i);
      forall k | 0 <= k < |jobs|
        ensures jobs[k].approvedFault == (if k <= i && Admits(FirstApproved(ids[k], approved))
                                          then Some(MatchedCode(FirstApproved(ids[k], approved)))
                                          else old(jobs[k].approvedFault))
      {
      }
      if a.RaisedUnhashable? {
        raised := true;
        i := i + 1;
        break;
      }
      if Admits(a) {
        PickSnoc(jobs, g.picked, i);
        out := out + [jobs[i]];
      }
      i := i + 1;
    }
    if raised {
      GatePickedBefore(ids, approved, i - 1);
      GateStops(ids, approved, i);
      r := Err("TypeError");
    } else {
      assert ids[..|jobs|] == ids;
      GatePickedBefore(ids, approved, |jobs|);
      r := Ok(out);
    }
  }

  // ---------------------------------------------------------------------------
  // The cap and the pool

  /** `approved[:cap]`: Python slicing, where a negative cap counts from the end. */
  function Capped<T>(s: seq<T>, cap: int): (r: seq<T>)
    ensures |r| <= |s| && r == s[..|r|]
  {
    if cap >= 0 then (if cap < |s| then s[..cap] else s)
    else if |s| + cap > 0 then s[..|s| + cap] else []
  }

  /** The guardrail keeps `min(A, cap)` jobs for a non-negative cap, and warns iff
      it dropped any: iff more jobs were approved than the cap allows (with a
      negative cap, whenever any job was approved). */
  lemma CappedLength<T>(s: seq<T>, cap: int)
    ensures cap >= 0 ==> |Capped(s, cap)| == if cap < |s| then cap else |s|
    ensures |s| > |Capped(s, cap)| <==> (cap >= 0 && |s| > cap) || (cap < 0 && s != [])
  {
  }

  /** `ThreadPoolExecutor(max_workers=min(len(capped), MAX_WORKERS))`, which
      raises ValueError unless the size is positive. */
  function PoolSize(n: nat, maxWorkers: int): (r: Result<nat>)
    ensures r.Ok? <==> n > 0 && maxWorkers > 0
    ensures r.Err? ==> r.error == "ValueError"
    ensures r.Ok? ==> r.value <= n && r.value <= maxWorkers && (r.value == n || r.value == maxWorkers)
  {
    if n <= 0 || maxWorkers <= 0 then Err("ValueError")
    else if n <= maxWorkers then Ok(n) else Ok(maxWorkers)
  }

  /** With a positive cap and a positive worker limit (the defaults are 10 and
      8), a run with approved jobs always gets a pool. */
  lemma PoolForApproved<T>(s: seq<T>, cap: int, maxWorkers: int)
    requires s != [] && cap > 0 && maxWorkers > 0
    ensures PoolSize(|Capped(s, cap)|, maxWorkers).Ok?
  {
  }

  // ---------------------------------------------------------------------------
  // Dispatch

  /** What processing reads from a job before it starts. */
  datatype JobView = JobView(event: Event, host: string, reason: string, workRequest: Option<string>,
                             done: bool, healthOk: Option<bool>)

  function ViewOf(job: MaintenanceJob): JobView
    reads job
  {
    JobView(job.event, job.hostname, job.Reason(), job.workRequest, job.done, job.healthOk)
  }

  function Views(jobs: seq<MaintenanceJob>): (vs: seq<JobView>)
    reads set j | j in jobs
    ensures |vs| == |jobs| && forall k :: 0 <= k < |jobs| ==> vs[k] == ViewOf(jobs[k])
  {
    seq(|jobs|, k requires 0 <= k < |jobs| reads set j | j in jobs => ViewOf(jobs[k]))
  }

  /** `_process` on one job seen through its view. */
  function ProcessView(c: Cluster, v: JobView, pos: nat, t: Timing): JobOutcome {
    ProcessRun(c, v.event, v.host, v.reason, pos, t, v.workRequest, v.done, v.healthOk)
  }

  /** Every effect of the outcomes, in order. */
  function Effects(os: seq<JobOutcome>): seq<Effect>
    decreases |os|
  {
    if os == [] then [] else os[0].effects + Effects(os[1..])
  }

  lemma {:induction false} EffectsSnoc(os: seq<JobOutcome>, o: JobOutcome)
    ensures Effects(os + [o]) == Effects(os) + o.effects
    decreases |os|
  {
    if os == [] {
      assert [o][1..] == [];
    } else {
      assert (os + [o])[1..] == os[1..] + [o];
      EffectsSnoc(os[1..], o);
    }
  }

  lemma EffectsCons(o: JobOutcome, os: seq<JobOutcome>)
    ensures Effects([o] + os) == o.effects + Effects(os)
  {
    assert ([o] + os)[1..] == os;
  }

  /** `pool.map` over jobs taken one after the other from trace position `pos`,
      `step` processing one of them: a job that threw has been logged by
      `_process` and the next one starts; a job whose wait never ends holds
      its worker and the map never returns, so the model stops there. */
  function ProcessAll(step: (JobView, nat) -> JobOutcome, views: seq<JobView>, pos: nat): (r: (seq<Effect>, seq<JobOutcome>))
    ensures |r.1| <= |views|
    decreases |views|
  {
    if views == [] then ([], [])
    else
      var o := step(views[0], pos);
      if o.end == Hung then (o.effects, [o])
      else
        var rest := ProcessAll(step, views[1..], pos + |o.effects|);
        (o.effects + rest.0, [o] + rest.1)
  }

  /** `_process` as the step of `pool.map(_process, capped)`. */
  function JobStep(c: Cluster, t: Timing): (JobView, nat) -> JobOutcome {
    (v: JobView, p: nat) => ProcessView(c, v, p, t)
  }

  /** The trace of the dispatch is the jobs' effects one after the other. */
  lemma {:induction false} ProcessAllEffects(step: (JobView, nat) -> JobOutcome, views: seq<JobView>, pos: nat)
    ensures ProcessAll(step, views, pos).0 == Effects(ProcessAll(step, views, pos).1)
    decreases |views|
  {
    if views != [] {
      var o := step(views[0], pos);
      if o.end == Hung {
        assert [o][1..] == [];
      } else {
        var rest := ProcessAll(step, views[1..], pos + |o.effects|);
        ProcessAllEffects(step, views[1..], pos + |o.effects|);
        assert ([o] + rest.1)[1..] == rest.1;
      }
    }
  }

  /** Failure is isolated to its job: only a job that hangs keeps the ones
      after it from running, and every job runs when none hangs. */
  lemma {:induction false} ProcessAllStops(step: (JobView, nat) -> JobOutcome, views: seq<JobView>, pos: nat)
    ensures var os := ProcessAll(step, views, pos).1;
      |os| <= |views| &&
      (forall k :: 0 <= k < |os| - 1 ==> os[k].end != Hung) &&
      (|os| < |views| ==> os != [] && os[|os| - 1].end == Hung)
    decreases |views|
  {
    if views != [] {
      var o := step(views[0], pos);
      if o.end != Hung {
        var rest := ProcessAll(step, views[1..], pos + |o.effects|);
        ProcessAllStops(step, views[1..], pos + |o.effects|);
        assert forall k :: 1 <= k < |rest.1| + 1 ==> ([o] + rest.1)[k] == rest.1[k - 1];
      }
    }
  }

  /** The outcomes `os` are those of the first jobs of `views` processed in
      order from position `pos`, each from the position where the one before
      left off. */
  predicate StepsFrom(step: (JobView, nat) -> JobOutcome, views: seq<JobView>, pos: nat, os: seq<JobOutcome>)
    decreases |os|
  {
    os == [] ||
    (views != [] && os[0] == step(views[0], pos) &&
     StepsFrom(step, views[1..], pos + |os[0].effects|, os[1..]))
  }

  /** The jobs are processed in order, each from the trace position where the
      one before left off. */
  lemma {:induction false} ProcessAllSteps(step: (JobView, nat) -> JobOutcome, views: seq<JobView>, pos: nat)
    ensures StepsFrom(step, views, pos, ProcessAll(step, views, pos).1)
    decreases |views|
  {
    if views != [] {
      var o := step(views[0], pos);
      ProcessAllCons(step, views, pos);
      if o.end == Hung {
        assert [o][1..] == [];
      } else {
        var rest := ProcessAll(step, views[1..], pos + |o.effects|);
        ProcessAllSteps(step, views[1..], pos + |o.effects|);
        assert ([o] + rest.1)[1..] == rest.1;
      }
    }
  }

  /** One step of the dispatch. */
  lemma ProcessAllCons(step: (JobView, nat) -> JobOutcome, views: seq<JobView>, pos: nat)
    requires views != []
    ensures var o := step(views[0], pos);
      var rest := ProcessAll(step, views[1..], pos + |o.effects|);
      ProcessAll(step, views, pos) == if o.end == Hung then (o.effects, [o]) else (o.effects + rest.0, [o] + rest.1)
  {
  }

  /** One more job processed, from where the others left off. */
  lemma {:induction false} StepsSnoc(step: (JobView, nat) -> JobOutcome, views: seq<JobView>, pos: nat,
                                     os: seq<JobOutcome>, o: JobOutcome)
    requires StepsFrom(step, views, pos, os) && |os| < |views|
    requires o == step(views[|os|], pos + |Effects(os)|)
    ensures StepsFrom(step, views, pos, os + [o])
    decreases |os|
  {
    if os == [] {
      assert [o][1..] == [];
    } else {
      assert (os + [o])[0] == os[0] && (os + [o])[1..] == os[1..] + [o];
      assert views[1..][|os| - 1] == views[|os|];
      StepsSnoc(step, views[1..], pos + |os[0].effects|, os[1..], o);
    }
  }

  /** One more job of a dispatch run from trace `t0`: its outcome extends the
      steps, the trace and the outcomes already there. */
  lemma {:induction false} DispatchSnoc(step: (JobView, nat) -> JobOutcome, views: seq<JobView>, t0: seq<Effect>,
                                          os: seq<JobOutcome>, o: JobOutcome)
    requires StepsFrom(step, views, |t0|, os) && |os| < |views|
    requires o == step(views[|os|], |t0| + |Effects(os)|)
    ensures StepsFrom(step, views, |t0|, os + [o])
    ensures t0 + Effects(os + [o]) == (t0 + Effects(os)) + o.effects
    ensures forall k :: 0 <= k < |os| ==> (os + [o])[k] == os[k]
  {
    StepsSnoc(step, views, |t0|, os, o);
    EffectsSnoc(os, o);
    ConcatAssoc(t0, Effects(os), o.effects);
  }

  /** The dispatch is determined by the outcomes it is made of: outcomes that
      follow one another from `pos`, none of them a hang but possibly the last,
      and stopping only at a hang or after every job, are the dispatch. */
  lemma {:induction false} ProcessAllUnique(step: (JobView, nat) -> JobOutcome, views: seq<JobView>, pos: nat,
                                            os: seq<JobOutcome>)
    requires StepsFrom(step, views, pos, os) && |os| <= |views|
    requires forall k :: 0 <= k < |os| - 1 ==> os[k].end != Hung
    requires |os| == |views| || (os != [] && os[|os| - 1].end == Hung)
    ensures ProcessAll(step, views, pos) == (Effects(os), os)
    decreases |views|
  {
    if views != [] {
      assert os != [];
      var o := os[0];
      assert o == step(views[0], pos);
      ProcessAllCons(step, views, pos);
      if o.end == Hung {
        assert |os| == 1;
        assert os == [o] && [o][1..] == [];
        assert Effects(os) == o.effects + [] == o.effects;
      } else {
        var tail := os[1..];
        assert os == [o] + tail;
        assert forall k :: 0 <= k < |tail| - 1 ==> tail[k] == os[k + 1];
        ProcessAllUnique(step, views[1..], pos + |o.effects|, tail);
      }
    }
  }

  /** `step` is `_process` on the cluster `c` with the timing `t`. */
  ghost predicate IsProcess(step: (JobView, nat) -> JobOutcome, c: Cluster, t: Timing) {
    forall v, p {:trigger ProcessView(c, v, p, t)} :: step(v, p) == ProcessView(c, v, p, t)
  }

  lemma JobStepIsProcess(c: Cluster, t: Timing)
    ensures IsProcess(JobStep(c, t), c, t)
  {
  }

  /** `_process(job)` stated on the view of the job taken before it starts. */
  method ProcessJob(c: Cluster, job: MaintenanceJob, t: Timing, ghost v: JobView,
                    ghost step: (JobView, nat) -> JobOutcome) returns (end: PhaseEnd)
    requires v == ViewOf(job)
    requires IsProcess(step, c, t)
    modifies c, job
    ensures var o := step(v, |old(c.trace)|);
      c.trace == old(c.trace) + o.effects && end == o.end &&
      job.workRequest == o.workRequest && job.done == o.done && job.healthOk == o.healthOk
    ensures job.approvedFault == old(job.approvedFault)
  {
    assert step(v, |c.trace|) == ProcessView(c, v, |c.trace|, t);
    end := Process(c, job, t);
  }

  /** With only the last outcome possibly a hang, the dispatch ran through
      exactly when none hung. */
  lemma RunningIffNoneHung(outs: seq<JobOutcome>, running: bool)
    requires forall k :: 0 <= k < |outs| - 1 ==> outs[k].end != Hung
    requires running <==> outs == [] || outs[|outs| - 1].end != Hung
    ensures running <==> forall k :: 0 <= k < |outs| ==> outs[k].end != Hung
  {
  }

  /** The state of the dispatch once the jobs of `outs` are processed: the trace
      holds their effects, they follow one another from `t0`, only the last
      may have hung (and `running` says it did not), each processed job holds
      its outcome and the others are as they were. */
  ghost predicate Dispatched(c: Cluster, jobs: seq<MaintenanceJob>, views: seq<JobView>,
                             step: (JobView, nat) -> JobOutcome, t0: seq<Effect>, outs: seq<JobOutcome>, running: bool)
    reads c, set j | j in jobs
  {
    |outs| <= |jobs| == |views| &&
    c.trace == t0 + Effects(outs) && StepsFrom(step, views, |t0|, outs) &&
    (forall k :: 0 <= k < |outs| - 1 ==> outs[k].end != Hung) &&
    (running <==> outs == [] || outs[|outs| - 1].end != Hung) &&
    (forall k :: 0 <= k < |outs| ==>
       jobs[k].workRequest == outs[k].workRequest && jobs[k].done == outs[k].done &&
       jobs[k].healthOk == outs[k].healthOk) &&
    (forall k :: |outs| <= k < |jobs| ==> ViewOf(jobs[k]) == views[k])
  }

  /** The next job of the dispatch: its outcome is `step` from where the ones
      before it left off. */
  method ProcessNext(c: Cluster, jobs: seq<MaintenanceJob>, i: nat, t: Timing, ghost views: seq<JobView>,
                     ghost step: (JobView, nat) -> JobOutcome, ghost t0: seq<Effect>, ghost outs: seq<JobOutcome>)
    returns (end: PhaseEnd, ghost outs': seq<JobOutcome>)
    requires forall i, j :: 0 <= i < j < |jobs| ==> jobs[i] != jobs[j]
    requires IsProcess(step, c, t)
    requires i == |outs| < |jobs| && Dispatched(c, jobs, views, step, t0, outs, true)
    modifies c, jobs[i]
    ensures |outs'| == i + 1 && Dispatched(c, jobs, views, step, t0, outs', end != Hung)
    ensures jobs[i].approvedFault == old(jobs[i].approvedFault)
  {
    var job := jobs[i];
    ghost var o := step(views[i], |c.trace|);
    DispatchSnoc(step, views, t0, outs, o);
    end := ProcessJob(c, job, t, views[i], step);
    outs' := outs + [o];
    assert c.trace == t0 + Effects(outs') && StepsFrom(step, views, |t0|, outs');
    assert (end != Hung <==> outs' == [] || outs'[|outs'| - 1].end != Hung) &&
           forall k :: 0 <= k < |outs'| - 1 ==> outs'[k].end != Hung;
    forall k | 0 <= k < |outs'|
      ensures jobs[k].workRequest == outs'[k].workRequest && jobs[k].done == outs'[k].done &&
              jobs[k].healthOk == outs'[k].healthOk
    {
      if k < i {
        assert jobs[k] != job;
      }
    }
    forall k | |outs'| <= k < |jobs|
      ensures ViewOf(jobs[k]) == views[k]
    {
      assert jobs[k] != job;
    }
  }

  /** Dispatch of the capped jobs, one after the other, `step` being `_process`. */
  method ProcessEach(c: Cluster, jobs: seq<MaintenanceJob>, t: Timing, ghost views: seq<JobView>,
                     ghost step: (JobView, nat) -> JobOutcome) returns (finished: bool)
    requires forall i, j :: 0 <= i < j < |jobs| ==> jobs[i] != jobs[j]
    requires views == Views(jobs)
    requires IsProcess(step, c, t)
    modifies c, set j | j in jobs
    ensures var r := ProcessAll(step, views, |old(c.trace)|);
      c.trace == old(c.trace) + r.0 &&
      (finished <==> forall k :: 0 <= k < |r.1| ==> r.1[k].end != Hung) &&
      (forall k :: 0 <= k < |r.1| ==>
         jobs[k].workRequest == r.1[k].workRequest && jobs[k].done == r.1[k].done &&
         jobs[k].healthOk == r.1[k].healthOk) &&
      (forall k :: |r.1| <= k < |jobs| ==> ViewOf(jobs[k]) == views[k])
    ensures forall k :: 0 <= k < |jobs| ==> jobs[k].approvedFault == old(jobs[k].approvedFault)
  {
    ghost var t0 := c.trace;
    ghost var outs: seq<JobOutcome> := [];
    finished := true;
    var i := 0;
    while i < |jobs| && finished
      invariant 0 <= i <= |jobs| && |outs| == i
      invariant Dispatched(c, jobs, views, step, t0, outs, finished)
      invariant forall k :: 0 <= k < |jobs| ==> jobs[k].approvedFault == old(jobs[k].approvedFault)
    {
      var end;
      end, outs := ProcessNext(c, jobs, i, t, views, step, t0, outs);
      finished := end != Hung;
      i := i + 1;
    }
    ProcessAllUnique(step, views, |t0|, outs);
    RunningIffNoneHung(outs, finished);
  }

  // ---------------------------------------------------------------------------
  // One run

  /** Where discovery looks: the processed tag, the JSON parser used on the
      host map, the tenancy, the listing replies and the number of listing
      calls the model follows. */
  datatype Sources = Sources(tag: string, parse: string -> Option<Json>, tenancy: string,
                             listedComps: Option<string> -> Page<string>,
                             listedEvents: string -> Option<string> -> Page<Event>, maxCalls: nat)

  /** The approved fault codes, `DAILY_SCHEDULE_CAP`, `MAX_WORKERS`,
      `LOOP_INTERVAL_SEC` and the poll timing. */
  datatype Settings = Settings(approved: set<string>, cap: int, maxWorkers: int, loopIntervalSec: int, timing: Timing)

  /** How a run of `run_once` ends: it returned, it raised, or a job's wait
      never ended and the pool still waits for it. */
  datatype RunEnd = Completed | RunRaised(error: string) | RunHung

  /** What `run_once` decides from the discovered jobs: to stop without work,
      to raise, or to hand these jobs (as seen by `_process`) to the pool. */
  datatype Plan = NothingToDo | PlanRaised(error: string) | Dispatch(views: seq<JobView>)

  function FoundIds(found: seq<Found>): (ids: seq<seq<Json>>)
    ensures |ids| == |found| && forall i :: 0 <= i < |found| ==> ids[i] == found[i].faultIds
  {
    seq(|found|, i requires 0 <= i < |found| => found[i].faultIds)
  }

  /** The jobs the gate let through, fresh from discovery but for the approved
      code, which becomes the reason the node is drained with. */
  function GateViews(found: seq<Found>, picked: seq<nat>, codes: seq<string>): (vs: seq<JobView>)
    requires |picked| == |codes| && forall k :: 0 <= k < |picked| ==> picked[k] < |found|
    ensures |vs| == |picked|
  {
    seq(|picked|, k requires 0 <= k < |picked| =>
      JobView(found[picked[k]].event, found[picked[k]].hostname, codes[k], None, false, None))
  }

  function RunPlan(found: seq<Found>, s: Settings): Plan {
    if found == [] then NothingToDo
    else
      var g := GateRun(FoundIds(found), s.approved);
      if g.raised then PlanRaised("TypeError")
      else if g.picked == [] then NothingToDo
      else
        var picked := Capped(g.picked, s.cap);
        match PoolSize(|picked|, s.maxWorkers)
        case Err(e) => PlanRaised(e)
        case Ok(_) => Dispatch(GateViews(found, picked, Capped(g.codes, s.cap)))
  }

  /** With no lookup raising, the gate lets through exactly the admitted jobs. */
  lemma GateAll(ids: seq<seq<Json>>, approved: set<string>)
    requires forall k :: 0 <= k < |ids| ==> !FirstApproved(ids[k], approved).RaisedUnhashable?
    ensures !GateRun(ids, approved).raised
    ensures forall p :: p in GateRun(ids, approved).picked <==> 0 <= p < |ids| && Admits(FirstApproved(ids[p], approved))
  {
    GateExact(ids, approved);
    assert ids[..|ids|] == ids;
    GatePickedBefore(ids, approved, |ids|);
  }

  /** What a run decides: it raises TypeError iff some job's fault ids cannot
      be looked up; it does nothing iff no job is admitted (and none raised);
      with a non-negative cap, the pool raises ValueError iff jobs were admitted
      but the cap is zero or `MAX_WORKERS` is not positive. */
  lemma PlanOutcome(found: seq<Found>, s: Settings)
    ensures var raises := exists p :: 0 <= p < |found| && FirstApproved(found[p].faultIds, s.approved).RaisedUnhashable?;
      var admits := exists p :: 0 <= p < |found| && Admits(FirstApproved(found[p].faultIds, s.approved));
      (RunPlan(found, s) == PlanRaised("TypeError") <==> raises) &&
      (RunPlan(found, s) == NothingToDo <==> !raises && !admits) &&
      (s.cap >= 0 ==> (RunPlan(found, s) == PlanRaised("ValueError") <==>
                       !raises && admits && (s.cap == 0 || s.maxWorkers <= 0)))
  {
    var ids := FoundIds(found);
    GateExact(ids, s.approved);
    var g := GateRun(ids, s.approved);
    if !g.raised {
      GateAll(ids, s.approved);
      CappedLength(g.picked, s.cap);
      if g.picked != [] {
        assert g.picked[0] in g.picked;
      }
      if exists p :: 0 <= p < |found| && Admits(FirstApproved(found[p].faultIds, s.approved)) {
        var p :| 0 <= p < |found| && Admits(FirstApproved(found[p].faultIds, s.approved));
        assert p in g.picked;
      }
    }
  }

  /** The guardrail and the gate: the jobs handed to the pool are admitted jobs
      in discovery order, at most `cap` of them (all of them when fewer than
      `cap` were admitted), each to be drained with its approved code as the
      reason and nothing else of it set yet. */
  lemma PlanDispatch(found: seq<Found>, s: Settings)
    requires RunPlan(found, s).Dispatch?
    ensures var vs := RunPlan(found, s).views;
      var ps := Capped(GateRun(FoundIds(found), s.approved).picked, s.cap);
      |vs| == |ps| && vs != [] &&
      (s.cap >= 0 ==> |vs| <= s.cap) &&
      (forall k, l :: 0 <= k < l < |ps| ==> ps[k] < ps[l]) &&
      (forall k :: 0 <= k < |ps| ==>
         ps[k] < |found| && Admits(FirstApproved(found[ps[k]].faultIds, s.approved)) &&
         vs[k] == JobView(found[ps[k]].event, found[ps[k]].hostname,
                          FirstApproved(found[ps[k]].faultIds, s.approved).code, None, false, None)) &&
      (0 <= |vs| < s.cap ==>
         forall p :: 0 <= p < |found| && Admits(FirstApproved(found[p].faultIds, s.approved)) ==> p in ps)
  {
    var ids := FoundIds(found);
    var g := GateRun(ids, s.approved);
    GateExact(ids, s.approved);
    GateAll(ids, s.approved);
    CappedLength(g.picked, s.cap);
    var ps := Capped(g.picked, s.cap);
    assert forall k :: 0 <= k < |ps| ==> ps[k] == g.picked[k];
    assert forall k :: 0 <= k < |ps| ==> Capped(g.codes, s.cap)[k] == g.codes[k];
  }

  /** Carrying out a plan from trace position `pos`: only a dispatch does
      anything, and the run hangs iff one of the dispatched jobs does. */
  function PlanRun(step: (JobView, nat) -> JobOutcome, plan: Plan, pos: nat): (seq<Effect>, RunEnd) {
    match plan
    case NothingToDo => ([], Completed)
    case PlanRaised(e) => ([], RunRaised(e))
    case Dispatch(views) =>
      var p := ProcessAll(step, views, pos);
      (p.0, if forall k :: 0 <= k < |p.1| ==> p.1[k].end != Hung then Completed else RunHung)
  }

  /** `run_once` once discovery has had the outcome `d`, from trace position
      `pos`: discovery's effects, then, if it returned jobs, the plan's. */
  function RunOnceOf(d: (seq<Effect>, Result<seq<Found>>), s: Settings, step: (JobView, nat) -> JobOutcome, pos: nat)
    : (seq<Effect>, RunEnd)
  {
    match d.1
    case Err(e) => (d.0, RunRaised(e))
    case Ok(found) =>
      var r := PlanRun(step, RunPlan(found, s), pos + |d.0|);
      (d.0 + r.0, r.1)
  }

  /** A run whose discovery returned jobs: discovery's effects, then the
      plan's, and the plan's end. */
  lemma RunOnceOfFound(d: (seq<Effect>, Result<seq<Found>>), s: Settings, step: (JobView, nat) -> JobOutcome, pos: nat, at: nat)
    requires d.1.Ok? && at == pos + |d.0|
    ensures var r := PlanRun(step, RunPlan(d.1.value, s), at);
      RunOnceOf(d, s, step, pos) == (d.0 + r.0, r.1)
  {
  }

  /** `run_once` from trace position `pos`, `step` being `_process`. */
  function RunOnceRun(c: Cluster, src: Sources, s: Settings, step: (JobView, nat) -> JobOutcome, pos: nat)
    : (seq<Effect>, RunEnd)
  {
    RunOnceOf(DiscoverOutcome(c.run, c.fetch, pos, src.tag, src.parse, src.tenancy, src.listedComps,
                              src.listedEvents, src.maxCalls), s, step, pos)
  }

  /** After the gate, the capped jobs are seen by `_process` as `RunPlan` says:
      fresh from discovery, with their approved code as the reason. */
  lemma GatedViews(jobs: seq<MaintenanceJob>, found: seq<Found>, approved: set<string>, cap: int,
                   capped: seq<MaintenanceJob>)
    requires |jobs| == |found|
    requires forall i :: 0 <= i < |jobs| ==>
      jobs[i].event == found[i].event && jobs[i].hostname == found[i].hostname &&
      jobs[i].faultIds == found[i].faultIds &&
      jobs[i].workRequest.None? && !jobs[i].done && jobs[i].healthOk.None?
    requires !GateRun(FoundIds(found), approved).raised
    requires forall i :: 0 <= i < |jobs| && i in GateRun(FoundIds(found), approved).picked ==>
      jobs[i].approvedFault == Some(MatchedCode(FirstApproved(jobs[i].faultIds, approved)))
    requires capped == Capped(Pick(jobs, GateRun(FoundIds(found), approved).picked), cap)
    ensures var g := GateRun(FoundIds(found), approved);
      Views(capped) == GateViews(found, Capped(g.picked, cap), Capped(g.codes, cap))
  {
    var g := GateRun(FoundIds(found), approved);
    var ps := Capped(g.picked, cap);
    var cs := Capped(g.codes, cap);
    var vs := GateViews(found, ps, cs);
    CappedLength(g.picked, cap);
    CappedLength(g.codes, cap);
    CappedLength(Pick(jobs, g.picked), cap);
    forall k | 0 <= k < |capped|
      ensures ViewOf(capped[k]) == vs[k]
    {
      assert ps[k] == g.picked[k] && cs[k] == g.codes[k];
      assert capped[k] == jobs[g.picked[k]];
      assert g.picked[k] in g.picked;
    }
  }

  /** Jobs at strictly increasing positions of distinct jobs are distinct. */
  lemma PickDistinct(jobs: seq<MaintenanceJob>, picked: seq<nat>, cap: int)
    requires forall i, j :: 0 <= i < j < |jobs| ==> jobs[i] != jobs[j]
    requires forall k :: 0 <= k < |picked| ==> picked[k] < |jobs|
    requires forall k, l :: 0 <= k < l < |picked| ==> picked[k] < picked[l]
    ensures var capped := Capped(Pick(jobs, picked), cap);
      forall i, j :: 0 <= i < j < |capped| ==> capped[i] != capped[j]
  {
    var capped := Capped(Pick(jobs, picked), cap);
    forall i, j | 0 <= i < j < |capped|
      ensures capped[i] != capped[j]
    {
      assert capped[i] == jobs[picked[i]] && capped[j] == jobs[picked[j]];
    }
  }

  /** `run_once` after the gate let the jobs of `approvedJobs` through: the
      cap, the pool and the dispatch. */
  method DispatchApproved(c: Cluster, jobs: seq<MaintenanceJob>, ghost found: seq<Found>,
                          approvedJobs: seq<MaintenanceJob>, s: Settings, ghost step: (JobView, nat) -> JobOutcome)
    returns (end: RunEnd)
    requires |jobs| == |found| > 0
    requires forall i :: 0 <= i < |jobs| ==>
      jobs[i].event == found[i].event && jobs[i].hostname == found[i].hostname &&
      jobs[i].faultIds == found[i].faultIds &&
      jobs[i].workRequest.None? && !jobs[i].done && jobs[i].healthOk.None?
    requires forall i, j :: 0 <= i < j < |jobs| ==> jobs[i] != jobs[j]
    requires IsProcess(step, c, s.timing)
    requires var g := GateRun(FoundIds(found), s.approved);
      !g.raised && g.picked != [] && approvedJobs == Pick(jobs, g.picked) &&
      forall i :: 0 <= i < |jobs| && i in g.picked ==>
        jobs[i].approvedFault == Some(MatchedCode(FirstApproved(jobs[i].faultIds, s.approved)))
    modifies c, set j | j in jobs
    ensures var r := PlanRun(step, RunPlan(found, s), |old(c.trace)|);
      c.trace == old(c.trace) + r.0 && end == r.1
  {
    var capped := Capped(approvedJobs, s.cap);
    var size := PoolSize(|capped|, s.maxWorkers);
    if size.Err? {
      return RunRaised(size.error);
    }
    ghost var g := GateRun(FoundIds(found), s.approved);
    GatedViews(jobs, found, s.approved, s.cap, capped);
    PickDistinct(jobs, g.picked, s.cap);
    var finished := ProcessEach(c, capped, s.timing, Views(capped), step);
    end := if finished then Completed else RunHung;
  }

  /** `run_once` after discovery returned the jobs of `found`. */
  method RunFound(c: Cluster, jobs: seq<MaintenanceJob>, ghost found: seq<Found>, s: Settings,
                  ghost step: (JobView, nat) -> JobOutcome) returns (end: RunEnd)
    requires JobsHold(jobs, found)
    requires forall i, j :: 0 <= i < j < |jobs| ==> jobs[i] != jobs[j]
    requires IsProcess(step, c, s.timing)
    modifies c, set j | j in jobs
    ensures var r := PlanRun(step, RunPlan(found, s), |old(c.trace)|);
      c.trace == old(c.trace) + r.0 && end == r.1
  {
    if |jobs| == 0 {
      return Completed;
    }
    ghost var ids := IdsOf(jobs);
    assert ids == FoundIds(found);
    var a := ApproveJobs(jobs, s.approved);
    if a.Err? {
      return RunRaised("TypeError");
    }
    if |a.value| == 0 {
      return Completed;
    }
    end := DispatchApproved(c, jobs, found, a.value, s, step);
  }

  /** `run_once()`, `step` being `_process`. */
  method RunOnce(c: Cluster, src: Sources, s: Settings, ghost step: (JobView, nat) -> JobOutcome)
    returns (end: RunEnd)
    requires IsProcess(step, c, s.timing)
    modifies c
    ensures var r := RunOnceRun(c, src, s, step, |old(c.trace)|);
      c.trace == old(c.trace) + r.0 && end == r.1
  {
    ghost var t0 := c.trace;
    ghost var dd := DiscoverOutcome(c.run, c.fetch, |t0|, src.tag, src.parse, src.tenancy, src.listedComps,
                                    src.listedEvents, src.maxCalls);
    var d := Discover(c, src.tag, src.parse, src.tenancy, src.listedComps, src.listedEvents, src.maxCalls);
    assert RunOnceRun(c, src, s, step, |t0|) == RunOnceOf(dd, s, step, |t0|);
    if d.Err? {
      assert RunOnceOf(dd, s, step, |t0|) == (dd.0, RunRaised(d.error));
      return RunRaised(d.error);
    }
    ghost var t1 := c.trace;
    assert t1 == t0 + dd.0 && |t1| == |t0| + |dd.0|;
    RunOnceOfFound(dd, s, step, |t0|, |t1|);
    end := RunFound(c, d.value, dd.1.value, s, step);
    ConcatAssoc(t0, dd.0, PlanRun(step, RunPlan(dd.1.value, s), |t1|).0);
  }

  // ---------------------------------------------------------------------------
  // run_loop: run_once forever, sleeping after every round that returns
  // ---------------------------------------------------------------------------

  /**
   * `rounds` iterations of `run_loop`, `round(pos)` being one `run_once`
   * starting at trace position `pos`. A round that raised is logged and still
   * followed by the sleep; a round that hangs never returns, so the loop stops
   * there (the flag of the result says so).
   */
  function LoopRun(round: nat -> (seq<Effect>, RunEnd), interval: int, pos: nat, rounds: nat): (r: (seq<Effect>, bool))
    decreases rounds
  {
    if rounds == 0 then ([], false)
    else
      var o := round(pos);
      if o.1 == RunHung then (o.0, true)
      else
        var rest := LoopRun(round, interval, pos + |o.0| + 1, rounds - 1);
        (o.0 + [Slept(interval)] + rest.0, rest.1)
  }

  /** `round` is `run_once` on this cluster, source and settings. */
  ghost predicate IsRound(round: nat -> (seq<Effect>, RunEnd), c: Cluster, src: Sources, s: Settings,
                          step: (JobView, nat) -> JobOutcome)
  {
    forall p {:trigger RunOnceRun(c, src, s, step, p)} :: round(p) == RunOnceRun(c, src, s, step, p)
  }

  /** Running one more round only extends the trace; once hung, nothing more happens. */
  lemma {:induction false} LoopRunExtends(round: nat -> (seq<Effect>, RunEnd), interval: int, pos: nat, rounds: nat)
    ensures var a := LoopRun(round, interval, pos, rounds);
      var b := LoopRun(round, interval, pos, rounds + 1);
      a.0 <= b.0 && (a.1 ==> b == a)
    ensures LoopRun(round, interval, pos, rounds).1 ==> LoopRun(round, interval, pos, rounds + 1).1
    decreases rounds
  {
    if rounds > 0 {
      var o := round(pos);
      if o.1 != RunHung {
        LoopRunExtends(round, interval, pos + |o.0| + 1, rounds - 1);
        var a := LoopRun(round, interval, pos + |o.0| + 1, rounds - 1);
        var b := LoopRun(round, interval, pos + |o.0| + 1, rounds);
        assert a.0 <= b.0;
        assert b.0 == a.0 + b.0[|a.0|..];
        assert o.0 + [Slept(interval)] + b.0 == (o.0 + [Slept(interval)] + a.0) + b.0[|a.0|..];
      }
    }
  }

  /**
   * While no round hangs, the loop never stops: an exception inside a round
   * does not end it, and every one of the rounds is followed by its sleep.
   */
  lemma {:induction false} LoopSurvivesRaise(round: nat -> (seq<Effect>, RunEnd), interval: int, pos: nat, rounds: nat)
    requires forall p: nat :: round(p).1 != RunHung
    ensures !LoopRun(round, interval, pos, rounds).1
    ensures multiset(LoopRun(round, interval, pos, rounds).0)[Slept(interval)] >= rounds
    decreases rounds
  {
    if rounds > 0 {
      var o := round(pos);
      LoopSurvivesRaise(round, interval, pos + |o.0| + 1, rounds - 1);
      var rest := LoopRun(round, interval, pos + |o.0| + 1, rounds - 1);
      assert multiset(o.0 + [Slept(interval)] + rest.0)
          == multiset(o.0) + multiset{Slept(interval)} + multiset(rest.0);
    }
  }

  /** One round of the loop, seen from the total the loop is to produce. */
  lemma LoopAdvance(round: nat -> (seq<Effect>, RunEnd), interval: int, pos: nat, rounds: nat,
                    done: seq<Effect>, total: (seq<Effect>, bool))
    requires rounds > 0
    requires total == (done + LoopRun(round, interval, pos, rounds).0, LoopRun(round, interval, pos, rounds).1)
    ensures var o := round(pos);
      if o.1 == RunHung then total == (done + o.0, true)
      else
        var rest := LoopRun(round, interval, pos + |o.0| + 1, rounds - 1);
        total == ((done + o.0 + [Slept(interval)]) + rest.0, rest.1)
  {
    var o := round(pos);
    if o.1 != RunHung {
      var rest := LoopRun(round, interval, pos + |o.0| + 1, rounds - 1);
      assert done + (o.0 + [Slept(interval)] + rest.0) == (done + o.0 + [Slept(interval)]) + rest.0;
    }
  }

  /** One `run_once()` of the loop, stated through `round`. */
  method LoopRound(c: Cluster, src: Sources, s: Settings, ghost step: (JobView, nat) -> JobOutcome,
                   ghost round: nat -> (seq<Effect>, RunEnd))
    returns (end: RunEnd)
    requires IsProcess(step, c, s.timing) && IsRound(round, c, src, s, step)
    modifies c
    ensures c.trace == old(c.trace) + round(|old(c.trace)|).0 && end == round(|old(c.trace)|).1
  {
    end := RunOnce(c, src, s, step);
  }

  /** `run_loop()` for `rounds` iterations; `hung` when a round never returned. */
  method RunLoop(c: Cluster, src: Sources, s: Settings, ghost step: (JobView, nat) -> JobOutcome,
                 ghost round: nat -> (seq<Effect>, RunEnd), rounds: nat)
    returns (hung: bool)
    requires IsProcess(step, c, s.timing) && IsRound(round, c, src, s, step)
    modifies c
    ensures var r := LoopRun(round, s.loopIntervalSec, |old(c.trace)|, rounds);
      c.trace == old(c.trace) + r.0 && hung == r.1
  {
    ghost var t0 := c.trace;
    ghost var total := LoopRun(round, s.loopIntervalSec, |t0|, rounds);
    ghost var done: seq<Effect> := [];
    hung := false;
    var i := 0;
    assert [] + total.0 == total.0;
    while i < rounds && !hung
      invariant i <= rounds
      invariant c.trace == t0 + done
      invariant hung ==> total == (done, true)
      invariant !hung ==> total == (done + LoopRun(round, s.loopIntervalSec, |c.trace|, rounds - i).0,
                                    LoopRun(round, s.loopIntervalSec, |c.trace|, rounds - i).1)
      decreases rounds - i
    {
      ghost var o := round(|c.trace|);
      LoopAdvance(round, s.loopIntervalSec, |c.trace|, rounds - i, done, total);
      var end := LoopRound(c, src, s, step, round);
      ConcatAssoc(t0, done, o.0);
      if end == RunHung {
        done := done + o.0;
        hung := true;
      } else {
        c.Sleep(s.loopIntervalSec);
        ConcatAssoc(t0, done + o.0, [Slept(s.loopIntervalSec)]);
        done := done + o.0 + [Slept(s.loopIntervalSec)];
        assert |c.trace| == |t0| + |done|;
      }
      i := i + 1;
    }
    assert done + [] == done;
  }
}
