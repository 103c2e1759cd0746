/** The health phase: a placeholder that records a pass for the node. */
module HealthPhase {
  import opened Wrappers
  import opened World
  import opened Models

  function HealthRecord(host: string): AuditRecord {
    AuditRecord([("phase", "health"), ("action", "pass"), ("host", host)])
  }

  /** `execute(job)`: the node is taken as healthy, and the pass is audited (the
      audit append swallows its own errors). */
  method Execute(c: Cluster, job: MaintenanceJob)
    modifies c, job
    ensures job.healthOk == Some(true)
    ensures job.approvedFault == old(job.approvedFault) && job.workRequest == old(job.workRequest)
    ensures job.done == old(job.done)
    ensures c.audit == old(c.audit) + [HealthRecord(job.hostname)]
    ensures c.trace == old(c.trace) + [Audited(HealthRecord(job.hostname))]
  {
    job.healthOk := Some(true);
    c.LogEvent(HealthRecord(job.hostname));
  }
}
