/** The finalize phase: a placeholder that records what it would do with the
    node, resume it or mark it not-to-run. */
module FinalizePhase {
  import opened Wrappers
  import opened World
  import opened Models

  /** `"resume" if getattr(job, "health_ok", True) else "ntr"`. The attribute
      always exists, so the default never applies: a health result still unknown
      (None) is falsy and leads to "ntr". */
  function Decision(healthOk: Option<bool>): (d: string)
    ensures d == "resume" || d == "ntr"
  {
    if healthOk == Some(true) then "resume" else "ntr"
  }

  /** The node is resumed exactly when it was found healthy. */
  lemma DecisionIff(healthOk: Option<bool>)
    ensures Decision(healthOk) == "resume" <==> healthOk == Some(true)
    ensures Decision(healthOk) == "ntr" <==> healthOk != Some(true)
  {
    if healthOk != Some(true) {
      assert Decision(healthOk) == "ntr";
      assert "ntr"[0] != "resume"[0];
    } else {
      assert "resume"[0] != "ntr"[0];
    }
  }

  function FinalizeRecord(host: string, decision: string): AuditRecord {
    AuditRecord([("phase", "finalize"), ("action", "placeholder"), ("host", host), ("decision", decision)])
  }

  /** `execute(job)`: only the audit record; the node is left as it is. */
  method Execute(c: Cluster, job: MaintenanceJob)
    modifies c
    ensures c.audit == old(c.audit) + [FinalizeRecord(job.hostname, Decision(job.healthOk))]
    ensures c.trace == old(c.trace) + [Audited(FinalizeRecord(job.hostname, Decision(job.healthOk)))]
  {
    var decision := if job.healthOk == Some(true) then "resume" else "ntr";
    c.LogEvent(FinalizeRecord(job.hostname, decision));
  }
}
