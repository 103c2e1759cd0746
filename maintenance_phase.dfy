/** The maintenance phase: for a scheduled event, ask the provider to start the
    maintenance five minutes from now; when it accepts, record the reason on the
    node, notify MGMT, and wait until the event is finished. */
module MaintenancePhase {
  import opened Wrappers
  import opened PyJson
  import opened Utils
  import opened World
  import opened Polling
  import opened Models
  import opened Slurm
  import opened Oci

  /** The update the phase sends: no tags, a window opening `now + 300` seconds,
      written in UTC to the second with a `Z`. */
  function WindowDetails(now: int): (d: UpdateDetails)
    ensures d.freeformTags.None? && d.definedTags.None?
    ensures d.timeWindowStart == Some(UtcSecondsZ(now + 300))
  {
    DetailsOf(None, None, Some(UtcSecondsZ(now + 5 * 60)))
  }

  /** `if job.work_request:`: a work-request id that is present and non-empty. */
  predicate Accepted(wr: Option<string>) {
    wr.Some? && wr.value != []
  }

  /** The completion probe at trace position `p`: `is_event_complete`, which
      reports a failed call as not complete and so never raises. */
  function CompleteQuery(fetch: (nat, Option<string>) -> EventReply, id: string): nat -> Result<bool> {
    (p: nat) => Ok(EventComplete(fetch(p, Some(id))))
  }

  /** `while not is_event_complete(id): time.sleep(MAINT_POLL_SEC)`. */
  function CompletionWait(c: Cluster, id: string, pos: nat, pollSec: int, fuel: nat): (seq<Effect>, PollEnd<bool>) {
    Poll(CompleteQuery(c.fetch, id), pos, EventFetched(Some(id)), IsTrue, pollSec, fuel)
  }

  /** The effects of the update call: the call, then the work-request wait when
      the reply named one. */
  function TriggerEffects(id: string, details: UpdateDetails, wr: Option<string>): seq<Effect> {
    [UpdateCalled(id, details)] + (if wr.Some? then [WorkRequestWaited(wr.value)] else [])
  }

  /** After an accepted update: the Slurm reason (only for a non-empty reason; its
      failure is swallowed) and the MGMT status, which carries the reason even
      when it is empty. */
  function NotifyEffects(host: string, reason: string, id: string): seq<Effect> {
    (if reason != [] then [Exec(SetReasonArgv(host, "NTR scheduled: " + reason))] else [])
    + [MgmtNotified(host, "NTR scheduled", reason, Some(id))]
  }

  /** Everything after an accepted update, from trace position `pos`: the
      notifications, then the completion wait. */
  function FollowUpRun(c: Cluster, host: string, reason: string, id: string, pos: nat, pollSec: int, fuel: nat)
    : (seq<Effect>, PollEnd<bool>)
  {
    var notify := NotifyEffects(host, reason, id);
    var w := CompletionWait(c, id, pos + |notify|, pollSec, fuel);
    (notify + w.0, w.1)
  }

  /** What the phase did and what it leaves in the job. */
  datatype MaintOutcome = MaintOutcome(effects: seq<Effect>, end: PhaseEnd, workRequest: Option<string>, done: bool)

  /** The phase for an event, a node and a reason from trace position `pos`,
      given the job's work request and done flag before it. */
  function MaintenanceRun(c: Cluster, ev: Event, host: string, reason: string, pos: nat,
                          pollSec: int, fuel: nat, wr0: Option<string>, done0: bool): MaintOutcome
  {
    if ev.id.None? || ev.lifecycleState != Some("SCHEDULED") then MaintOutcome([], Returned, wr0, done0)
    else
      var id := ev.id.value;
      var details := WindowDetails(c.clock(pos));
      var wr := WorkRequestOf(c.update(pos, id, details));
      var trig := TriggerEffects(id, details, wr);
      if !Accepted(wr) then MaintOutcome(trig, Returned, wr, done0)
      else
        var f := FollowUpRun(c, host, reason, id, pos + |trig|, pollSec, fuel);
        MaintOutcome(trig + f.0, Ended(f.1), wr, f.1.Reached? || done0)
  }

  /** Only a scheduled event with an id is acted on; then the first effect is the
      update with the five-minute window read from the clock when the phase
      started. The phase never raises: every failure it can meet is caught or
      reported as a value. */
  lemma MaintenanceActsOnScheduled(c: Cluster, ev: Event, host: string, reason: string, pos: nat,
                                   pollSec: int, fuel: nat, wr0: Option<string>, done0: bool)
    ensures var r := MaintenanceRun(c, ev, host, reason, pos, pollSec, fuel, wr0, done0);
      !r.end.Threw? &&
      (r.effects != [] <==> ev.id.Some? && ev.lifecycleState == Some("SCHEDULED")) &&
      (r.effects != [] ==> r.effects[0] == UpdateCalled(ev.id.value, WindowDetails(c.clock(pos))))
  {
    if ev.id.Some? && ev.lifecycleState == Some("SCHEDULED") {
      var id := ev.id.value;
      var details := WindowDetails(c.clock(pos));
      var trig := TriggerEffects(id, details, WorkRequestOf(c.update(pos, id, details)));
      var notify := NotifyEffects(host, reason, id);
      CompletionNeverRaises(c, id, pos + |trig| + |notify|, pollSec, fuel);
    }
  }

  /** The completion wait ends by reaching completion or by running out of
      budget, never by raising. */
  lemma CompletionNeverRaises(c: Cluster, id: string, pos: nat, pollSec: int, fuel: nat)
    ensures !CompletionWait(c, id, pos, pollSec, fuel).1.Raised?
  {
    var n := PollShape(CompleteQuery(c.fetch, id), pos, EventFetched(Some(id)), IsTrue, pollSec, fuel);
  }

  /** The job is marked done only by this phase for a scheduled event the
      provider accepted, and only when the wait that followed the notifications
      reached completion. */
  lemma MaintenanceDoneMeansFinished(c: Cluster, ev: Event, host: string, reason: string, pos: nat,
                                     pollSec: int, fuel: nat, wr0: Option<string>)
    requires MaintenanceRun(c, ev, host, reason, pos, pollSec, fuel, wr0, false).done
    ensures ev.id.Some? && ev.lifecycleState == Some("SCHEDULED")
    ensures var r := MaintenanceRun(c, ev, host, reason, pos, pollSec, fuel, wr0, false);
      Accepted(r.workRequest) && r.end == Returned &&
      FollowUpRun(c, host, reason, ev.id.value,
                  pos + |TriggerEffects(ev.id.value, WindowDetails(c.clock(pos)), r.workRequest)|, pollSec, fuel).1.Reached?
  {
  }

  /** A wait after the notifications reaches completion only once a completion
      probe, after probes that saw the event unfinished, found it in a final
      state. */
  lemma FollowUpReached(c: Cluster, host: string, reason: string, id: string, pos: nat, pollSec: int, fuel: nat)
    requires FollowUpRun(c, host, reason, id, pos, pollSec, fuel).1.Reached?
    ensures var start := pos + |NotifyEffects(host, reason, id)|;
      exists n: nat :: n < fuel && RejectedFrom(CompleteQuery(c.fetch, id), start, IsTrue, n) &&
        EventComplete(c.fetch(start + 2 * n, Some(id)))
  {
    var start := pos + |NotifyEffects(host, reason, id)|;
    var query := CompleteQuery(c.fetch, id);
    PollReachedSome(query, start, EventFetched(Some(id)), IsTrue, pollSec, fuel);
    var n: nat :| ReachesAt(query, start, IsTrue, fuel, n);
    assert EventComplete(c.fetch(start + 2 * n, Some(id)));
  }

  /** One completion probe. */
  method CompleteProbe(c: Cluster, id: string) returns (r: bool)
    modifies c
    ensures c.trace == old(c.trace) + [EventFetched(Some(id))] && c.audit == old(c.audit)
    ensures CompleteQuery(c.fetch, id)(|old(c.trace)|) == Ok(r)
  {
    r := IsEventComplete(c, id);
  }

  /** `execute(job)`: waits on the provider with `is_event_complete` until it
      reports the event finished. */
  method WaitComplete(c: Cluster, id: string, pollSec: int, maxPolls: nat) returns (end: PollEnd<bool>)
    modifies c
    ensures c.trace == old(c.trace) + CompletionWait(c, id, |old(c.trace)|, pollSec, maxPolls).0
    ensures end == CompletionWait(c, id, |old(c.trace)|, pollSec, maxPolls).1
    ensures c.audit == old(c.audit)
  {
    ghost var query := CompleteQuery(c.fetch, id);
    ghost var probe := EventFetched(Some(id));
    ghost var t0 := c.trace;
    ghost var eff := Poll(query, |t0|, probe, IsTrue, pollSec, maxPolls).0;
    ghost var last := Poll(query, |t0|, probe, IsTrue, pollSec, maxPolls).1;
    var fuel := maxPolls;
    var done := false;
    end := StillPolling;
    ghost var pos := |c.trace|;
    while !done && fuel > 0
      invariant c.audit == old(c.audit)
      invariant !done ==> pos == |c.trace|
      invariant !done ==> t0 + eff == c.trace + Poll(query, pos, probe, IsTrue, pollSec, fuel).0
      invariant !done ==> last == Poll(query, pos, probe, IsTrue, pollSec, fuel).1
      invariant done ==> t0 + eff == c.trace && last == end
      invariant !done ==> end == StillPolling
      decreases fuel, if done then 0 else 1
    {
      ghost var before, posBefore, fuelBefore := c.trace, pos, fuel;
      var complete := CompleteProbe(c, id);
      assert query(posBefore) == Ok(complete);
      if complete {
        end := Reached(true);
        done := true;
      } else {
        c.Sleep(pollSec);
        fuel := fuel - 1;
        pos := pos + 2;
        PollAdvance(query, before, posBefore, probe, IsTrue, pollSec, fuelBefore, pos, fuel);
      }
    }
  }

  /** The notifications after an accepted update: a failure to set the reason is
      logged and ignored, and the MGMT update is a stub that only logs. */
  method Notify(c: Cluster, host: string, reason: string, id: string)
    modifies c
    ensures c.trace == old(c.trace) + NotifyEffects(host, reason, id) && c.audit == old(c.audit)
  {
    if reason != [] {
      var ignored := SetReason(c, host, "NTR scheduled: " + reason);
    }
    c.MgmtNotify(host, "NTR scheduled", reason, Some(id));
  }

  /** The notifications after an accepted update, then the completion wait. */
  method FollowUp(c: Cluster, host: string, reason: string, id: string, pollSec: int, maxPolls: nat)
    returns (w: PollEnd<bool>)
    modifies c
    ensures c.trace == old(c.trace) + FollowUpRun(c, host, reason, id, |old(c.trace)|, pollSec, maxPolls).0
    ensures w == FollowUpRun(c, host, reason, id, |old(c.trace)|, pollSec, maxPolls).1
    ensures c.audit == old(c.audit)
  {
    Notify(c, host, reason, id);
    ghost var t1 := c.trace;
    w := WaitComplete(c, id, pollSec, maxPolls);
    ConcatAssoc(old(c.trace), NotifyEffects(host, reason, id), CompletionWait(c, id, |t1|, pollSec, maxPolls).0);
  }

  /** `execute(job)`. */
  method Execute(c: Cluster, job: MaintenanceJob, pollSec: int, maxPolls: nat) returns (end: PhaseEnd)
    modifies c, job
    ensures var r := MaintenanceRun(c, job.event, job.hostname, old(job.Reason()), |old(c.trace)|, pollSec, maxPolls,
                                    old(job.workRequest), old(job.done));
      c.trace == old(c.trace) + r.effects && end == r.end && job.workRequest == r.workRequest && job.done == r.done
    ensures c.audit == old(c.audit)
    ensures job.approvedFault == old(job.approvedFault) && job.healthOk == old(job.healthOk)
  {
    if job.event.id.None? || job.event.lifecycleState != Some("SCHEDULED") {
      return Returned;
    }
    ghost var t0 := c.trace;
    ghost var wr0, done0 := job.workRequest, job.done;
    var id := job.event.id.value;
    var reason := job.Reason();
    var now := c.UtcNow();
    ghost var details := WindowDetails(now);
    var wr := TriggerUpdate(c, id, None, None, Some(UtcSecondsZ(now + 5 * 60)));
    ghost var trig := TriggerEffects(id, details, wr);
    assert c.trace == t0 + trig;
    job.workRequest := wr;
    if !Accepted(wr) {
      assert MaintenanceRun(c, job.event, job.hostname, reason, |t0|, pollSec, maxPolls, wr0, done0)
        == MaintOutcome(trig, Returned, wr, done0);
      return Returned;
    }
    ghost var t1 := c.trace;
    var w := FollowUp(c, job.hostname, reason, id, pollSec, maxPolls);
    ghost var f := FollowUpRun(c, job.hostname, reason, id, |t1|, pollSec, maxPolls);
    assert |t1| == |t0| + |trig|;
    assert MaintenanceRun(c, job.event, job.hostname, reason, |t0|, pollSec, maxPolls, wr0, done0)
      == MaintOutcome(trig + f.0, Ended(f.1), wr, f.1.Reached? || done0);
    ConcatAssoc(t0, trig, f.0);
    if w.Reached? {
      job.done := true;
    }
    end := Ended(w);
  }
}
