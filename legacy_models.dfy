/** The job record of the older copy of the tool: no fault ids and no approved
    fault, since that copy has no whitelist. */
module LegacyModels {
  import opened Wrappers
  import opened Models

  class LegacyJob {
    const event: Event
    const hostname: string
    const faultStr: string
    var workRequest: Option<string>
    var done: bool
    /** Unknown (None) until the health phase has run. */
    var healthOk: Option<bool>

    /** `MaintenanceJob(event, hostname, fault_str)`: the other fields take their
        declared defaults. */
    constructor (event: Event, hostname: string, faultStr: string)
      ensures this.event == event && this.hostname == hostname && this.faultStr == faultStr
      ensures workRequest.None? && !done && healthOk.None?
    {
      this.event := event;
      this.hostname := hostname;
      this.faultStr := faultStr;
      workRequest := None;
      done := false;
      healthOk := None;
    }
  }
}
