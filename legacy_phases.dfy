/** The drain phase of the older copy: drain with the fault string, then wait
    for the `sinfo` listing to show the node draining. */
module LegacyDrainPhase {
  import opened Wrappers
  import opened Utils
  import opened World
  import opened Polling
  import opened Slurm
  import opened LegacySlurm
  import opened LegacyModels

  function LegacyDrainRun(c: Cluster, host: string, faultStr: string, pos: nat, pollSec: int, fuel: nat)
    : (seq<Effect>, PhaseEnd)
  {
    match RunOutcome(c.run(pos, DrainArgv(host, faultStr)), true)
    case Err(e) => ([Exec(DrainArgv(host, faultStr))], Threw(e))
    case Ok(_) =>
      var w := SinfoWait(c, host, "drain", pos + 1, pollSec, fuel);
      ([Exec(DrainArgv(host, faultStr))] + w.0, Ended(w.1))
  }

  /** The older drain returns exactly when the drain command succeeded and a
      listing, after listings without it, showed the node's line in a state
      starting with `drain`. */
  lemma LegacyDrainReturned(c: Cluster, host: string, faultStr: string, pos: nat, pollSec: int, fuel: nat)
    ensures LegacyDrainRun(c, host, faultStr, pos, pollSec, fuel).1 == Returned <==>
      RunOutcome(c.run(pos, DrainArgv(host, faultStr)), true).Ok? &&
      Reaches(SinfoQuery(c.run, host, "drain"), pos + 1, IsTrue, fuel)
  {
    var query := SinfoQuery(c.run, host, "drain");
    PollReachedSome(query, pos + 1, Exec(SinfoArgv()), IsTrue, pollSec, fuel);
  }

  /** `execute(job)`. */
  method Execute(c: Cluster, job: LegacyJob, pollSec: int, maxPolls: nat) returns (end: PhaseEnd)
    modifies c
    ensures var run := LegacyDrainRun(c, job.hostname, job.faultStr, |old(c.trace)|, pollSec, maxPolls);
            c.trace == old(c.trace) + run.0 && end == run.1
    ensures c.audit == old(c.audit)
  {
    ghost var t0 := c.trace;
    ghost var drain := Exec(DrainArgv(job.hostname, job.faultStr));
    var r := Drain(c, job.hostname, job.faultStr);
    if r.Err? {
      assert LegacyDrainRun(c, job.hostname, job.faultStr, |t0|, pollSec, maxPolls) == ([drain], Threw(r.error));
      return Threw(r.error);
    }
    ghost var p1 := |c.trace|;
    assert p1 == |t0| + 1;
    var w := LegacySlurm.WaitState(c, job.hostname, "drain", pollSec, maxPolls);
    ghost var sw := SinfoWait(c, job.hostname, "drain", p1, pollSec, maxPolls);
    assert LegacyDrainRun(c, job.hostname, job.faultStr, |t0|, pollSec, maxPolls) == ([drain] + sw.0, Ended(sw.1));
    ConcatAssoc(t0, [drain], sw.0);
    end := Ended(w);
  }
}

/** The maintenance phase of the older copy: the same update and wait, without
    the reason and MGMT notifications, and the job is marked done for every
    scheduled event it returns from, accepted or not. */
module LegacyMaintenancePhase {
  import opened Wrappers
  import opened World
  import opened Polling
  import opened Models
  import opened Oci
  import opened LegacyModels
  import opened MaintenancePhase

  function LegacyMaintenanceRun(c: Cluster, ev: Event, pos: nat, pollSec: int, fuel: nat,
                                wr0: Option<string>, done0: bool): MaintOutcome
  {
    if ev.id.None? || ev.lifecycleState != Some("SCHEDULED") then MaintOutcome([], Returned, wr0, done0)
    else
      var id := ev.id.value;
      var details := WindowDetails(c.clock(pos));
      var wr := WorkRequestOf(c.update(pos, id, details));
      var trig := TriggerEffects(id, details, wr);
      if !Accepted(wr) then MaintOutcome(trig, Returned, wr, true)
      else
        var w := CompletionWait(c, id, pos + |trig|, pollSec, fuel);
        MaintOutcome(trig + w.0, Ended(w.1), wr, w.1.Reached? || done0)
  }

  /** Where the two copies part: for a scheduled event whose update the provider
      did not accept, both make the same single update call and keep the same
      work request, but the older copy marks the job done while the newer one
      leaves the flag as it was. */
  lemma LegacyMaintenanceDiffers(c: Cluster, ev: Event, host: string, reason: string, pos: nat,
                                 pollSec: int, fuel: nat, wr0: Option<string>)
    requires ev.id.Some? && ev.lifecycleState == Some("SCHEDULED")
    ensures var older := LegacyMaintenanceRun(c, ev, pos, pollSec, fuel, wr0, false);
            var newer := MaintenanceRun(c, ev, host, reason, pos, pollSec, fuel, wr0, false);
      older.workRequest == newer.workRequest &&
      (!Accepted(newer.workRequest) ==> older.done && !newer.done && older.effects == newer.effects)
  {
  }

  /** `execute(job)` of the older copy. */
  method Execute(c: Cluster, job: LegacyJob, pollSec: int, maxPolls: nat) returns (end: PhaseEnd)
    modifies c, job
    ensures var r := LegacyMaintenanceRun(c, job.event, |old(c.trace)|, pollSec, maxPolls,
                                          old(job.workRequest), old(job.done));
      c.trace == old(c.trace) + r.effects && end == r.end && job.workRequest == r.workRequest && job.done == r.done
    ensures c.audit == old(c.audit) && job.healthOk == old(job.healthOk)
  {
    if job.event.id.None? || job.event.lifecycleState != Some("SCHEDULED") {
      return Returned;
    }
    var id := job.event.id.value;
    var now := c.UtcNow();
    ghost var details := WindowDetails(now);
    var wr := TriggerUpdate(c, id, None, None, Some(UtcSecondsZ(now + 5 * 60)));
    assert c.trace == old(c.trace) + TriggerEffects(id, details, wr);
    job.workRequest := wr;
    if Accepted(wr) {
      ghost var t1 := c.trace;
      var w := WaitComplete(c, id, pollSec, maxPolls);
      if w.Reached? {
        job.done := true;
      }
      end := Ended(w);
      return;
    }
    job.done := true;
    end := Returned;
  }
}

/** The finalize phase of the older copy: resume a healthy node, otherwise drain
    it again with the post-maintenance failure reason and the NTR feature. */
module LegacyFinalizePhase {
  import opened Wrappers
  import opened Utils
  import opened World
  import opened Polling
  import opened Slurm
  import opened LegacyModels
  import FinalizePhase

  /** `(resume if job.health_ok else mark_ntr)(job.hostname)`. */
  function FinalizeArgv(host: string, healthOk: Option<bool>): seq<string> {
    if healthOk == Some(true) then ResumeArgv(host) else MarkNtrArgv(host)
  }

  /** The older copy runs the command the newer copy only records: it resumes
      the node exactly when the newer decision is "resume", and marks it NTR
      exactly when that decision is "ntr". */
  lemma FinalizeAgrees(host: string, healthOk: Option<bool>)
    ensures FinalizeArgv(host, healthOk) == ResumeArgv(host) <==> FinalizePhase.Decision(healthOk) == "resume"
    ensures FinalizeArgv(host, healthOk) == MarkNtrArgv(host) <==> FinalizePhase.Decision(healthOk) == "ntr"
  {
    FinalizePhase.DecisionIff(healthOk);
    assert ResumeArgv(host)[4] != MarkNtrArgv(host)[4] by {
      assert ResumeArgv(host)[4][6] == 'R' && MarkNtrArgv(host)[4][6] == 'D';
    }
  }

  /** `execute(job)`: one command, whose failure propagates. */
  method Execute(c: Cluster, job: LegacyJob) returns (end: PhaseEnd)
    modifies c
    ensures c.trace == old(c.trace) + [Exec(FinalizeArgv(job.hostname, job.healthOk))] && c.audit == old(c.audit)
    ensures var r := RunOutcome(c.run(|old(c.trace)|, FinalizeArgv(job.hostname, job.healthOk)), true);
            end == if r.Ok? then Returned else Threw(r.error)
  {
    var r;
    if job.healthOk == Some(true) {
      r := Resume(c, job.hostname);
    } else {
      r := MarkNtr(c, job.hostname);
    }
    end := if r.Ok? then Returned else Threw(r.error);
  }
}
