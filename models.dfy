/** The records the orchestrator works on: the provider's maintenance event and
    the mutable per-node job every phase updates. */
module Models {
  import opened Wrappers
  import opened PyJson

  /** An instance maintenance event (or the summary a list call returns) as the
      SDK exposes it. Attributes the provider may leave unset are options; times
      are whole seconds since the epoch. */
  datatype Event = Event(
    id: Option<string>,
    lifecycleState: Option<string>,
    displayName: Option<string>,
    instanceAction: Option<string>,
    instanceId: Option<string>,
    freeformTags: map<string, Json>,
    additionalDetails: Option<map<string, Json>>,
    timeCreated: Option<int>,
    timeStarted: Option<int>,
    timeFinished: Option<int>)

  /** One maintenance job: the event, the node it affects and what the phases have
      recorded so far. The first four fields are set once, at creation; the
      orchestrator and the phases assign the other four. */
  class MaintenanceJob {
    const event: Event
    const hostname: string
    const faultStr: string
    /** The individual fault ids found at discovery, in detail order. */
    const faultIds: seq<Json>
    /** The whitelisted fault code the orchestrator matched. */
    var approvedFault: Option<string>
    /** The work-request id the update returned. */
    var workRequest: Option<string>
    var done: bool
    /** Unknown (None) until the health phase has run. */
    var healthOk: Option<bool>

    /** `MaintenanceJob(event, hostname, fault_str, fault_ids=...)`: the optional
        fields take their declared defaults. */
    constructor (event: Event, hostname: string, faultStr: string, faultIds: seq<Json>)
      ensures this.event == event && this.hostname == hostname && this.faultStr == faultStr
      ensures this.faultIds == faultIds
      ensures approvedFault.None? && workRequest.None? && !done && healthOk.None?
    {
      this.event := event;
      this.hostname := hostname;
      this.faultStr := faultStr;
      this.faultIds := faultIds;
      approvedFault := None;
      workRequest := None;
      done := false;
      healthOk := None;
    }

    /** `job.approved_fault or job.fault_str`: the reason the drain and the
        maintenance phases report. */
    function Reason(): (r: string)
      reads this
      ensures approvedFault.Some? && approvedFault.value != [] ==> r == approvedFault.value
      ensures (approvedFault.None? || approvedFault.value == []) ==> r == faultStr
    {
      if approvedFault.Some? && approvedFault.value != [] then approvedFault.value else faultStr
    }
  }
}
