/** The systems the orchestrator acts on, reduced to what it observes of them:
    every command, provider call, notification and sleep is appended to an effect
    trace, every audit record to an audit log, and each reply is looked up in a
    fixed oracle by the position of the call in the trace (so successive polls of
    the same node or event may see different answers). */
module World {
  import opened Wrappers
  import opened PyJson
  import opened Utils
  import opened Models

  /** The `time_window_start` text the update carries: `isoformat()` of a UTC time
      truncated to seconds with a `Z` appended, or of the local time. */
  datatype WindowStart = UtcSecondsZ(epochSecond: int) | LocalIso(epochMicros: int)

  /** `UpdateInstanceMaintenanceEventDetails`: the attributes left out are None. */
  datatype UpdateDetails = UpdateDetails(
    freeformTags: Option<map<string, Json>>,
    definedTags: Option<map<string, Json>>,
    timeWindowStart: Option<WindowStart>)

  /** The outcome of `update_instance_maintenance_event`. */
  datatype UpdateReply = UpdateRaised | UpdateNone | UpdateResponse(headers: map<string, string>)

  /** The outcome of `get_instance_maintenance_event`: it raised, returned None, or
      returned a response whose `data` may itself be None. */
  datatype EventReply = EventRaised | EventNone | EventResponse(data: Option<Event>)

  datatype Effect =
    | Exec(argv: seq<string>)                          // one subprocess run
    | Slept(seconds: int)                              // `time.sleep`
    | UpdateCalled(updatedEvent: string, details: UpdateDetails)
    | WorkRequestWaited(workRequestId: string)         // `_wait_work_request`
    | EventFetched(fetchedEvent: Option<string>)
    | MgmtNotified(host: string, status: string, faultCode: string, eventId: Option<string>)
    | Audited(record: AuditRecord)                     // one `log_event` append

  /** One line of the audit log (`log_event`), its keys in insertion order. The
      timestamp the logger adds is not modelled. */
  datatype AuditRecord = AuditRecord(fields: seq<(string, string)>)

  class Cluster {
    var trace: seq<Effect>
    var audit: seq<AuditRecord>
    /** The result of the subprocess run at a given trace position. */
    const run: (nat, seq<string>) -> Proc
    const update: (nat, string, UpdateDetails) -> UpdateReply
    const fetch: (nat, Option<string>) -> EventReply
    /** The UTC clock, in epoch seconds, read at a given trace position. */
    const clock: nat -> int

    constructor (run: (nat, seq<string>) -> Proc, update: (nat, string, UpdateDetails) -> UpdateReply,
                 fetch: (nat, Option<string>) -> EventReply, clock: nat -> int)
      ensures trace == [] && audit == []
      ensures this.run == run && this.update == update && this.fetch == fetch && this.clock == clock
    {
      trace := [];
      audit := [];
      this.run := run;
      this.update := update;
      this.fetch := fetch;
      this.clock := clock;
    }

    /** `datetime.utcnow()`, truncated to whole seconds: reading the clock is not an
        effect. */
    method UtcNow() returns (t: int)
      ensures t == clock(|trace|)
    {
      t := clock(|trace|);
    }

    /** `run_cmd(argv, check=check)`. */
    method RunCmd(argv: seq<string>, check: bool) returns (r: Result<string>)
      modifies this
      ensures trace == old(trace) + [Exec(argv)] && audit == old(audit)
      ensures r == RunOutcome(run(|old(trace)|, argv), check)
    {
      r := RunOutcome(run(|trace|, argv), check);
      trace := trace + [Exec(argv)];
    }

    /** `subprocess.run(argv, capture_output=True, text=True, check=False)`: the
        completed process, whatever its return code. */
    method Run(argv: seq<string>) returns (p: Proc)
      modifies this
      ensures trace == old(trace) + [Exec(argv)] && audit == old(audit)
      ensures p == run(|old(trace)|, argv)
    {
      p := run(|trace|, argv);
      trace := trace + [Exec(argv)];
    }

    /** `subprocess.check_output(argv, text=True)`: a non-zero return code raises
        CalledProcessError; otherwise the output is returned as it is. */
    method CheckOutput(argv: seq<string>) returns (r: Result<string>)
      modifies this
      ensures trace == old(trace) + [Exec(argv)] && audit == old(audit)
      ensures r.Err? <==> run(|old(trace)|, argv).returnCode != 0
      ensures r.Err? ==> r.error == "CalledProcessError"
      ensures r.Ok? ==> r.value == run(|old(trace)|, argv).stdout
    {
      var p := run(|trace|, argv);
      r := if p.returnCode != 0 then Err("CalledProcessError") else Ok(p.stdout);
      trace := trace + [Exec(argv)];
    }

    method Sleep(seconds: int)
      modifies this
      ensures trace == old(trace) + [Slept(seconds)] && audit == old(audit)
    {
      trace := trace + [Slept(seconds)];
    }

    method UpdateMaintenanceEvent(eventId: string, details: UpdateDetails) returns (reply: UpdateReply)
      modifies this
      ensures trace == old(trace) + [UpdateCalled(eventId, details)] && audit == old(audit)
      ensures reply == update(|old(trace)|, eventId, details)
    {
      reply := update(|trace|, eventId, details);
      trace := trace + [UpdateCalled(eventId, details)];
    }

    /** `_wait_work_request`: blocks on the provider's waiter and never raises. */
    method WaitWorkRequest(workRequestId: string)
      modifies this
      ensures trace == old(trace) + [WorkRequestWaited(workRequestId)] && audit == old(audit)
    {
      trace := trace + [WorkRequestWaited(workRequestId)];
    }

    method GetMaintenanceEvent(eventId: Option<string>) returns (reply: EventReply)
      modifies this
      ensures trace == old(trace) + [EventFetched(eventId)] && audit == old(audit)
      ensures reply == fetch(|old(trace)|, eventId)
    {
      reply := fetch(|trace|, eventId);
      trace := trace + [EventFetched(eventId)];
    }

    /** The MGMT status update of the orchestrator's own package: a log-only stub,
        recorded here so the model can say when it happens. */
    method MgmtNotify(host: string, status: string, faultCode: string, eventId: Option<string>)
      modifies this
      ensures trace == old(trace) + [MgmtNotified(host, status, faultCode, eventId)] && audit == old(audit)
    {
      trace := trace + [MgmtNotified(host, status, faultCode, eventId)];
    }

    /** `log_event(record)`: an append that swallows its own errors, so the record
        counts as attempted whatever the file system does. It is also noted in
        the trace, so that its order relative to commands and calls is kept. */
    method LogEvent(record: AuditRecord)
      modifies this
      ensures audit == old(audit) + [record] && trace == old(trace) + [Audited(record)]
    {
      audit := audit + [record];
      trace := trace + [Audited(record)];
    }
  }
}
