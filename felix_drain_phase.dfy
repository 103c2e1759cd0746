/** The guarded drain phase: only a downtime host-maintenance event whose action
    is not TERMINATE drains its node, and every decision is written to the audit
    log. */
module FelixDrainPhase {
  import opened Wrappers
  import opened Utils
  import opened World
  import opened Polling
  import opened Models
  import opened Slurm
  import opened DrainPhase

  /** `getattr(ev, "display_name", "") or ""`. */
  function EventType(ev: Event): string {
    ev.displayName.GetOr("")
  }

  /** `getattr(ev, "instance_action", "") or ""`. */
  function InstanceAction(ev: Event): string {
    ev.instanceAction.GetOr("")
  }

  /** The guard: a downtime host-maintenance event, and not a termination. */
  predicate Eligible(ev: Event) {
    InstanceAction(ev) != "TERMINATE" && EventType(ev) == "DOWNTIME_HOST_MAINTENANCE"
  }

  function SkippedRecord(host: string, ev: Event): AuditRecord {
    AuditRecord([("phase", "drain"), ("action", "skipped"), ("host", host),
                 ("reason", "not_eligible_for_drain"), ("maintenance_event_type", EventType(ev)),
                 ("instance_action", InstanceAction(ev))])
  }

  function RequestedRecord(host: string, reason: string): AuditRecord {
    AuditRecord([("phase", "drain"), ("action", "requested"), ("host", host), ("reason", reason)])
  }

  function DrainedRecord(host: string): AuditRecord {
    AuditRecord([("phase", "drain"), ("action", "drained_empty"), ("host", host)])
  }

  /** What the guarded phase does from trace position `pos`: a skip record for an
      ineligible event; otherwise a request record, the plain drain phase, and a
      drained record once that returned. */
  function FelixDrainRun(c: Cluster, ev: Event, host: string, reason: string, pos: nat, pollSec: int, fuel: nat)
    : (seq<Effect>, PhaseEnd)
  {
    if !Eligible(ev) then ([Audited(SkippedRecord(host, ev))], Returned)
    else
      var d := DrainRun(c, host, reason, pos + 1, pollSec, fuel);
      ([Audited(RequestedRecord(host, reason))] + d.0 +
       (if d.1 == Returned then [Audited(DrainedRecord(host))] else []), d.1)
  }

  /** The audit records the guarded phase writes, given how it ended. */
  function FelixDrainAudits(ev: Event, host: string, reason: string, end: PhaseEnd): seq<AuditRecord> {
    if !Eligible(ev) then [SkippedRecord(host, ev)]
    else [RequestedRecord(host, reason)] + (if end == Returned then [DrainedRecord(host)] else [])
  }

  /** The guard decides everything: the node is drained exactly when the event is
      eligible, so never for a TERMINATE action, which leaves only the skip
      record; the drained record is written exactly when an eligible drain
      returned. */
  lemma FelixDrainGuard(c: Cluster, ev: Event, host: string, reason: string, pos: nat, pollSec: int, fuel: nat)
    ensures Exec(DrainArgv(host, reason)) in FelixDrainRun(c, ev, host, reason, pos, pollSec, fuel).0 <==> Eligible(ev)
    ensures InstanceAction(ev) == "TERMINATE" ==>
      FelixDrainRun(c, ev, host, reason, pos, pollSec, fuel).0 == [Audited(SkippedRecord(host, ev))]
    ensures Audited(DrainedRecord(host)) in FelixDrainRun(c, ev, host, reason, pos, pollSec, fuel).0 <==>
      Eligible(ev) && DrainRun(c, host, reason, pos + 1, pollSec, fuel).1 == Returned
  {
    if Eligible(ev) {
      var d := DrainRun(c, host, reason, pos + 1, pollSec, fuel);
      var run := FelixDrainRun(c, ev, host, reason, pos, pollSec, fuel).0;
      assert run[1] == Exec(DrainArgv(host, reason));
      DrainRunQuiet(c, host, reason, pos + 1, pollSec, fuel);
      if d.1 == Returned {
        assert run[|run| - 1] == Audited(DrainedRecord(host));
      } else {
        assert Audited(DrainedRecord(host)) !in d.0;
        assert run == [Audited(RequestedRecord(host, reason))] + d.0;
      }
    }
  }

  /** `execute(job)` of the guarded drain. */
  method Execute(c: Cluster, job: MaintenanceJob, pollSec: int, maxPolls: nat) returns (end: PhaseEnd)
    modifies c
    ensures var run := FelixDrainRun(c, job.event, job.hostname, job.Reason(), |old(c.trace)|, pollSec, maxPolls);
            c.trace == old(c.trace) + run.0 && end == run.1
    ensures c.audit == old(c.audit) + FelixDrainAudits(job.event, job.hostname, job.Reason(), end)
  {
    if !Eligible(job.event) {
      c.LogEvent(SkippedRecord(job.hostname, job.event));
      return Returned;
    }
    end := RequestedDrain(c, job, pollSec, maxPolls);
  }

  /** The eligible path: the request record, the plain drain phase, and the
      drained record once that returned. */
  method RequestedDrain(c: Cluster, job: MaintenanceJob, pollSec: int, maxPolls: nat) returns (end: PhaseEnd)
    modifies c
    ensures var d := DrainRun(c, job.hostname, job.Reason(), |old(c.trace)| + 1, pollSec, maxPolls);
      c.trace == old(c.trace) + ([Audited(RequestedRecord(job.hostname, job.Reason()))] + d.0 +
                                 (if d.1 == Returned then [Audited(DrainedRecord(job.hostname))] else [])) &&
      end == d.1
    ensures c.audit == old(c.audit) + [RequestedRecord(job.hostname, job.Reason())] +
                                      (if end == Returned then [DrainedRecord(job.hostname)] else [])
  {
    ghost var t0 := c.trace;
    var reason := job.Reason();
    ghost var req := Audited(RequestedRecord(job.hostname, reason));
    c.LogEvent(RequestedRecord(job.hostname, reason));
    ghost var t1 := c.trace;
    assert |t1| == |t0| + 1;
    end := DrainPhase.Execute(c, job, pollSec, maxPolls);
    ghost var d := DrainRun(c, job.hostname, reason, |t1|, pollSec, maxPolls);
    ConcatAssoc(t0, [req], d.0);
    if end == Returned {
      c.LogEvent(DrainedRecord(job.hostname));
    }
  }
}
