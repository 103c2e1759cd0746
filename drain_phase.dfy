/** The drain phase: take the node out of scheduling with the job's reason and
    wait until it is drained and idle. */
module DrainPhase {
  import opened Wrappers
  import opened Utils
  import opened World
  import opened Polling
  import opened Models
  import opened Slurm

  /** What the phase does for a node and a reason from trace position `pos`: the
      drain command, then, unless it raised, the wait for the node to be drained
      and idle, whose end is the phase's. */
  function DrainRun(c: Cluster, host: string, reason: string, pos: nat, pollSec: int, fuel: nat)
    : (seq<Effect>, PhaseEnd)
  {
    match RunOutcome(c.run(pos, DrainArgv(host, reason)), true)
    case Err(e) => ([Exec(DrainArgv(host, reason))], Threw(e))
    case Ok(_) =>
      var w := NodeWait(c, host, pos + 1, DrainedIdle, pollSec, fuel);
      ([Exec(DrainArgv(host, reason))] + w.0, Ended(w.1))
  }

  /** The phase returns exactly when the drain command succeeded and a later
      probe, after only probes that were not, saw the node drained and idle. */
  lemma DrainReturned(c: Cluster, host: string, reason: string, pos: nat, pollSec: int, fuel: nat)
    ensures DrainRun(c, host, reason, pos, pollSec, fuel).1 == Returned <==>
      RunOutcome(c.run(pos, DrainArgv(host, reason)), true).Ok? && Reaches(StateQuery(c.run, host), pos + 1, DrainedIdle, fuel)
  {
    var query := StateQuery(c.run, host);
    var poll := Poll(query, pos + 1, Exec(ShowNodeArgv(host)), DrainedIdle, pollSec, fuel);
    PollReachedSome(query, pos + 1, Exec(ShowNodeArgv(host)), DrainedIdle, pollSec, fuel);
    if RunOutcome(c.run(pos, DrainArgv(host, reason)), true).Ok? {
      assert DrainRun(c, host, reason, pos, pollSec, fuel).1 == Ended(poll.1);
      assert Ended(poll.1) == Returned <==> poll.1.Reached?;
    }
  }

  /** The drain phase never writes an audit record: it only runs commands and
      sleeps. */
  lemma DrainRunQuiet(c: Cluster, host: string, reason: string, pos: nat, pollSec: int, fuel: nat)
    ensures forall e :: e in DrainRun(c, host, reason, pos, pollSec, fuel).0 ==> e.Exec? || e.Slept?
  {
    PollEffects(StateQuery(c.run, host), pos + 1, Exec(ShowNodeArgv(host)), DrainedIdle, pollSec, fuel);
  }

  /** `execute(job)`: the reason is the approved fault when there is one, else
      the fault string. */
  method Execute(c: Cluster, job: MaintenanceJob, pollSec: int, maxPolls: nat) returns (end: PhaseEnd)
    modifies c
    ensures var run := DrainRun(c, job.hostname, job.Reason(), |old(c.trace)|, pollSec, maxPolls);
            c.trace == old(c.trace) + run.0 && end == run.1
    ensures c.audit == old(c.audit)
  {
    ghost var t0 := c.trace;
    var reason := job.Reason();
    ghost var drain := Exec(DrainArgv(job.hostname, reason));
    var r := Drain(c, job.hostname, reason);
    if r.Err? {
      assert DrainRun(c, job.hostname, reason, |t0|, pollSec, maxPolls) == ([drain], Threw(r.error));
      return Threw(r.error);
    }
    ghost var p1 := |c.trace|;
    assert p1 == |t0| + 1;
    var w := WaitDrainedEmpty(c, job.hostname, pollSec, maxPolls);
    ghost var nw := NodeWait(c, job.hostname, p1, DrainedIdle, pollSec, maxPolls);
    assert DrainRun(c, job.hostname, reason, |t0|, pollSec, maxPolls) == ([drain] + nw.0, Ended(nw.1));
    ConcatAssoc(t0, [drain], nw.0);
    end := Ended(w);
  }
}
