/** The helpers shared by the discovery and reporting views: durations between
    event times and their short text form, the ordinal of a day, the event-type
    colouring, the choice of the timestamps each row shows, the MGMT host map
    read leniently, and the row builder over every compartment's events. Times
    are whole seconds since the epoch. */
module EventsCommon {
  import opened Wrappers
  import opened Text
  import opened PyJson
  import opened Utils
  import opened Models
  import opened World
  import opened Oci
  import opened Discovery

  /** `STATE_ORDER`: the rank of each provider state in the tables. */
  const StateOrder: map<string, nat> := map[
    "SCHEDULED" := 1, "PROCESSING" := 2, "IN_PROGRESS" := 2, "STARTED" := 2,
    "SUCCEEDED" := 3, "FAILED" := 5, "CANCELED" := 5]

  // ---------------------------------------------------------------------------
  // Durations

  /** `_seconds_between(start, end)`: None when either end is missing, else the
      whole seconds from `start` to `end`, never negative. */
  function SecondsBetween(start: Option<int>, end: Option<int>): (r: Option<nat>)
    ensures r.Some? <==> start.Some? && end.Some?
    ensures r.Some? && start.value <= end.value ==> start.value + r.value == end.value
    ensures r.Some? && end.value <= start.value ==> r.value == 0
  {
    if start.None? || end.None? then None
    else if end.value - start.value < 0 then Some(0)
    else Some(end.value - start.value)
  }

  /** Durations add up along ordered times: the time from created to finished
      is the time from created to started plus from started to finished. */
  lemma SecondsBetweenAdds(a: int, b: int, c: int)
    requires a <= b <= c
    ensures SecondsBetween(Some(a), Some(c)).value ==
            SecondsBetween(Some(a), Some(b)).value + SecondsBetween(Some(b), Some(c)).value
  {
  }

  /** What `fmt_duration` shows of a duration: days and hours from one day on,
      else hours and minutes from one hour on, else minutes and seconds from one
      minute on, else seconds alone. */
  datatype Shown =
    | DaysHours(days: nat, hours: nat)
    | HoursMinutes(hours: nat, minutes: nat)
    | MinutesSeconds(minutes: nat, seconds: nat)
    | SecondsOnly(seconds: nat)

  /** The units shown for `sec` seconds: each form is the duration cut down to
      its smaller unit, which never overflows into the larger one. */
  function ShownOf(sec: nat): (sh: Shown)
    ensures sh.DaysHours? <==> sec >= 86400
    ensures sh.DaysHours? ==> (sh.days >= 1 && sh.hours < 24 &&
                               sh.days * 86400 + sh.hours * 3600 <= sec < sh.days * 86400 + sh.hours * 3600 + 3600)
    ensures sh.HoursMinutes? <==> 3600 <= sec < 86400
    ensures sh.HoursMinutes? ==> (1 <= sh.hours < 24 && sh.minutes < 60 &&
                                  sh.hours * 3600 + sh.minutes * 60 <= sec < sh.hours * 3600 + sh.minutes * 60 + 60)
    ensures sh.MinutesSeconds? <==> 60 <= sec < 3600
    ensures sh.MinutesSeconds? ==> 1 <= sh.minutes < 60 && sh.seconds < 60 && sh.minutes * 60 + sh.seconds == sec
    ensures sh.SecondsOnly? <==> sec < 60
    ensures sh.SecondsOnly? ==> sh.seconds == sec
  {
    if sec >= 86400 then
      DivModSplit(sec, 86400);
      DivModSplit(sec % 86400, 3600);
      DaysHours(sec / 86400, (sec % 86400) / 3600)
    else
      DivModSplit(sec, 3600);
      DivModSplit(sec % 3600, 60);
      var h := sec / 3600;
      var m := (sec % 3600) / 60;
      var s := sec % 60;
      if h > 0 then HoursMinutes(h, m)
      else if m > 0 then MinutesSeconds(m, s)
      else SecondsOnly(s)
  }

  /** Quotient and remainder by a positive divisor. */
  lemma DivModSplit(n: nat, d: nat)
    requires d > 0
    ensures n == (n / d) * d + n % d && 0 <= n % d < d
  {
  }

  /** The text of a shown duration: `"{d} d {h} h"`, `"{h} h {m:02} m"`,
      `"{m} m {s:02} s"` or `"{s:02} s"`. */
  function Render(sh: Shown): string {
    match sh
    case DaysHours(d, h) => NatToString(d) + " d " + NatToString(h) + " h"
    case HoursMinutes(h, m) => NatToString(h) + " h " + Pad2(m) + " m"
    case MinutesSeconds(m, s) => NatToString(m) + " m " + Pad2(s) + " s"
    case SecondsOnly(s) => Pad2(s) + " s"
  }

  /** `fmt_duration(seconds)`: a dash when there is no duration. The last letter
      names the smallest unit shown, which tells the reader the scale: hours
      from one day on, minutes from one hour on, seconds below that. */
  function FmtDuration(seconds: Option<nat>): (r: string)
    ensures seconds.None? <==> r == "—"
    ensures seconds.Some? ==> |r| >= 3 && r[|r| - 2] == ' '
    ensures seconds.Some? ==> (r[|r| - 1] == 'h' <==> seconds.value >= 86400)
    ensures seconds.Some? ==> (r[|r| - 1] == 'm' <==> 3600 <= seconds.value < 86400)
    ensures seconds.Some? ==> (r[|r| - 1] == 's' <==> seconds.value < 3600)
  {
    if seconds.None? then "—" else Render(ShownOf(seconds.value))
  }

  /** Below a minute the text is the two-digit seconds count and reads back as
      the duration. */
  lemma FmtDurationSecondsReadBack(sec: nat)
    requires sec < 60
    ensures var r := FmtDuration(Some(sec));
      |r| == 4 && (forall i :: 0 <= i < 2 ==> IsDigit(r[i])) && DigitsValue(r[..2]) == sec && r[2..] == " s"
  {
    Pad2Value(sec);
    var p := Pad2(sec);
    assert |p| == 2 by {
      if sec < 10 { assert p == "0" + [DigitChar(sec)]; } else { assert p == NatToString(sec / 10) + [DigitChar(sec % 10)]; }
    }
    assert FmtDuration(Some(sec)) == p + " s";
    assert (p + " s")[..2] == p;
  }

  // ---------------------------------------------------------------------------
  // The day ordinal of `fmt_ts`

  /** The suffix `fmt_ts` puts after the day of the month: `th` for any day whose
      last two digits are 10 to 20, else by the last digit. */
  function OrdinalSuffix(day: nat): (r: string)
    ensures r == "st" || r == "nd" || r == "rd" || r == "th"
    ensures 10 <= day % 100 <= 20 ==> r == "th"
  {
    if 10 <= day % 100 <= 20 then "th"
    else if day % 10 == 1 then "st"
    else if day % 10 == 2 then "nd"
    else if day % 10 == 3 then "rd"
    else "th"
  }

  /** Over the days of a month: 1st, 21st, 31st; 2nd, 22nd; 3rd, 23rd; every
      other day, the teens among them, takes `th`. */
  lemma OrdinalDaysOfMonth(day: nat)
    requires 1 <= day <= 31
    ensures OrdinalSuffix(day) == "st" <==> day == 1 || day == 21 || day == 31
    ensures OrdinalSuffix(day) == "nd" <==> day == 2 || day == 22
    ensures OrdinalSuffix(day) == "rd" <==> day == 3 || day == 23
    ensures OrdinalSuffix(day) == "th" <==> !(day in {1, 2, 3, 21, 22, 23, 31})
  {
    assert day % 100 == day;
    if day < 10 {
      assert day % 10 == day;
    } else if day > 20 && day < 30 {
      assert day % 10 == day - 20;
    } else if day >= 30 {
      assert day % 10 == day - 30;
    }
  }

  // ---------------------------------------------------------------------------
  // Event type and timestamps

  const TerminateMarkup: string := "[red]TERMINATE[/red]"
  const DowntimeMarkup: string := "[magenta]DOWNTIME_HOST_MAINTENANCE[/magenta]"

  /** `color_event_type(name)`: the two disruptive event types, in any case,
      become their upper-case names wrapped in a colour; any other name is
      shown as it is, and a missing one as empty text. */
  function ColorEventType(name: Option<string>): (r: string)
    ensures Upper(name.GetOr("")) == "TERMINATE" ==> r == TerminateMarkup
    ensures Upper(name.GetOr("")) == "DOWNTIME_HOST_MAINTENANCE" ==> r == DowntimeMarkup
    ensures r == TerminateMarkup || r == DowntimeMarkup || r == name.GetOr("")
  {
    var n := Upper(name.GetOr(""));
    if n == "TERMINATE" then TerminateMarkup
    else if n == "DOWNTIME_HOST_MAINTENANCE" then DowntimeMarkup
    else name.GetOr("")
  }

  /** The match ignores case: two names that differ only in case are coloured
      alike, and a name that is neither type keeps its own spelling. */
  lemma ColorEventTypeIgnoresCase(a: string, b: string)
    requires Upper(a) == Upper(b)
    ensures Upper(a) == "TERMINATE" || Upper(a) == "DOWNTIME_HOST_MAINTENANCE" ==>
      ColorEventType(Some(a)) == ColorEventType(Some(b))
    ensures Upper(a) != "TERMINATE" && Upper(a) != "DOWNTIME_HOST_MAINTENANCE" ==>
      ColorEventType(Some(a)) == a && ColorEventType(Some(b)) == b
  {
  }

  /** `pick_created_or_started`: a SCHEDULED event shows its creation time; any
      other shows its start time, or its creation time when it has not started. */
  function PickCreatedOrStarted(stateUpper: string, ev: Event): (r: Option<int>)
    ensures stateUpper == "SCHEDULED" ==> r == ev.timeCreated
    ensures stateUpper != "SCHEDULED" && ev.timeStarted.Some? ==> r == ev.timeStarted
    ensures r.None? <==> ev.timeCreated.None? && (stateUpper == "SCHEDULED" || ev.timeStarted.None?)
  {
    if stateUpper == "SCHEDULED" then ev.timeCreated
    else if ev.timeStarted.Some? then ev.timeStarted
    else ev.timeCreated
  }

  predicate ActiveState(stateUpper: string) {
    stateUpper == "PROCESSING" || stateUpper == "IN_PROGRESS" || stateUpper == "STARTED"
  }

  predicate TerminalState(stateUpper: string) {
    stateUpper == "SUCCEEDED" || stateUpper == "FAILED" || stateUpper == "CANCELED"
  }

  /** The time in the current state: a scheduled event counts from its
      creation, an active one from its start, a finished one from start to
      finish, and any other state from creation; `now` is the time read at the
      start of the run. */
  function TimeInState(stateUpper: string, ev: Event, now: int): Option<nat> {
    if stateUpper == "SCHEDULED" then SecondsBetween(ev.timeCreated, Some(now))
    else if ActiveState(stateUpper) then SecondsBetween(ev.timeStarted, Some(now))
    else if TerminalState(stateUpper) then SecondsBetween(ev.timeStarted, ev.timeFinished)
    else SecondsBetween(ev.timeCreated, Some(now))
  }

  /** A finished event's time in state is frozen: it does not depend on when
      the report runs, and it is the event's total processing time. */
  lemma TimeInStateFrozen(stateUpper: string, ev: Event, now1: int, now2: int)
    requires TerminalState(stateUpper)
    ensures TimeInState(stateUpper, ev, now1) == TimeInState(stateUpper, ev, now2)
    ensures TimeInState(stateUpper, ev, now1) == SecondsBetween(ev.timeStarted, ev.timeFinished)
  {
  }

  /** Any other event's time in state grows with the time of the report, and
      it is known exactly when the time it counts from is. */
  lemma TimeInStateGrows(stateUpper: string, ev: Event, now1: int, now2: int)
    requires !TerminalState(stateUpper) && now1 <= now2
    ensures TimeInState(stateUpper, ev, now1).Some? ==>
      TimeInState(stateUpper, ev, now2).Some? &&
      TimeInState(stateUpper, ev, now1).value <= TimeInState(stateUpper, ev, now2).value
    ensures TimeInState(stateUpper, ev, now1).None? <==>
      (if ActiveState(stateUpper) then ev.timeStarted.None? else ev.timeCreated.None?)
  {
  }

  // ---------------------------------------------------------------------------
  // The lenient MGMT host map

  /** The entry one node contributes to `_mgmt_host_map`: its `ocid` and
      `hostname` when both are truthy. A node that is not a dict has no `.get`
      and raises. */
  function LenientEntry(n: Json): (r: Result<Option<(Json, Json)>>)
    ensures r.Err? <==> !n.JObj?
    ensures r.Ok? && r.value.Some? ==> Truthy(r.value.value.0) && Truthy(r.value.value.1)
  {
    match n
    case JObj(fs) =>
      if Truthy(Get(fs, "ocid")) && Truthy(Get(fs, "hostname")) then Ok(Some((Get(fs, "ocid"), Get(fs, "hostname"))))
      else Ok(None)
    case _ => Err("AttributeError")
  }

  /** The comprehension over the decoded nodes, in list order: a later node
      with the same OCID replaces an earlier one, and an OCID that is a list or
      an object cannot be a key and raises. */
  function LenientMap(nodes: seq<Json>): (r: Result<map<Json, Json>>)
    ensures r.Ok? ==> forall k :: k in r.value ==> Truthy(k) && Truthy(r.value[k])
    decreases |nodes|
  {
    if nodes == [] then Ok(map[])
    else
      match LenientMap(nodes[..|nodes| - 1])
      case Err(e) => Err(e)
      case Ok(m) =>
        match LenientEntry(nodes[|nodes| - 1])
        case Err(e) => Err(e)
        case Ok(None) => Ok(m)
        case Ok(Some(entry)) => if Unhashable(entry.0) then Err("TypeError") else Ok(m[entry.0 := entry.1])
  }

  /** `_mgmt_host_map()` on the output of the node-list command: an empty map
      when the output is not JSON, else the comprehension over the decoded list
      (a value that cannot be iterated raises). */
  function MgmtHostMap(out: string, parse: string -> Option<Json>): (r: Result<map<Json, Json>>)
    ensures parse(out).None? ==> r == Ok(map[])
    ensures r.Ok? ==> forall k :: k in r.value ==> Truthy(k) && Truthy(r.value[k])
  {
    match parse(out)
    case None => Ok(map[])
    case Some(doc) =>
      match Iterate(doc)
      case None => Err("TypeError")
      case Some(nodes) => LenientMap(nodes)
  }

  /** Every OCID in the map is the truthy OCID of some node that also has a
      truthy hostname; nodes without either never contribute. */
  lemma {:induction false} LenientMapKeys(nodes: seq<Json>, k: Json)
    requires LenientMap(nodes).Ok? && k in LenientMap(nodes).value
    ensures exists i :: 0 <= i < |nodes| && nodes[i].JObj? && Get(nodes[i].fields, "ocid") == k &&
                        Truthy(Get(nodes[i].fields, "hostname"))
    decreases |nodes|
  {
    var init := nodes[..|nodes| - 1];
    var last := nodes[|nodes| - 1];
    var m := LenientMap(init).value;
    if k in m && (LenientEntry(last).value.None? || LenientEntry(last).value.value.0 != k) {
      LenientMapKeys(init, k);
      var i :| 0 <= i < |init| && init[i].JObj? && Get(init[i].fields, "ocid") == k &&
               Truthy(Get(init[i].fields, "hostname"));
      assert nodes[i] == init[i];
    }
  }

  /** The last node with a given truthy OCID and a truthy hostname decides the
      hostname of that OCID. */
  lemma LenientMapLastWins(nodes: seq<Json>, n: Json)
    requires LenientMap(nodes + [n]).Ok? && LenientEntry(n) == Ok(Some((Get(n.fields, "ocid"), Get(n.fields, "hostname"))))
    ensures Get(n.fields, "ocid") in LenientMap(nodes + [n]).value
    ensures LenientMap(nodes + [n]).value[Get(n.fields, "ocid")] == Get(n.fields, "hostname")
  {
    assert (nodes + [n])[..|nodes + [n]| - 1] == nodes;
  }

  // ---------------------------------------------------------------------------
  // build_event_rows

  /** One row of the event views. `created` is the time the Created/Started
      column formats. */
  datatype Row = Row(
    state: string,
    hostname: Json,
    slurmState: string,
    instanceOcid: string,
    eventOcid: Option<string>,
    displayName: string,
    faultIds: seq<Json>,
    timeInState: string,
    created: Option<int>,
    totalProcessing: string)

  const UnknownHost: Json := JStr("(unknown)")

  /** The upper-cased filter, None when no states were asked for. */
  function Filter(filterStates: set<string>): (filt: Option<set<string>>)
    ensures filt.None? <==> filterStates == {}
    ensures filt.Some? ==> forall s :: s in filterStates ==> Upper(s) in filt.value
    ensures filt.Some? ==> forall u :: u in filt.value ==> exists s :: s in filterStates && Upper(s) == u
  {
    if filterStates == {} then None else Some(set s | s in filterStates :: Upper(s))
  }

  /** The summary screen of `build_event_rows`: with a filter, a summary whose
      upper-cased state (empty when missing) is not in it is passed over;
      nothing raises. */
  function FilterScreen(filt: Option<set<string>>): Option<string> -> Screen {
    (state: Option<string>) => if filt.Some? && Upper(state.GetOr("")) !in filt.value then Dropped else Kept
  }

  /** The row of a fetched event `ev` listed as `sum`, whose fault details
      read as `details`. */
  function MakeRow(hmap: map<Json, Json>, slurm: Json -> string, now: int, sum: Event, ev: Event,
                   details: seq<seq<(string, Json)>>): (row: Row)
    ensures row.state == sum.lifecycleState.GetOr("") && row.eventOcid == ev.id
    ensures Truthy(row.hostname)
    ensures row.hostname == UnknownHost <==>
      (var key := if ev.instanceId.Some? then JStr(ev.instanceId.value) else JNull;
       key !in hmap || !Truthy(hmap[key]) || hmap[key] == UnknownHost)
  {
    var key := if ev.instanceId.Some? then JStr(ev.instanceId.value) else JNull;
    var hostname := Or(if key in hmap then hmap[key] else JNull, UnknownHost);
    var raw := sum.lifecycleState.GetOr("");
    var stateUpper := Upper(raw);
    var total := SecondsBetween(ev.timeStarted, ev.timeFinished);
    Row(raw, hostname, slurm(hostname), ev.instanceId.GetOr(""), ev.id,
        ColorEventType(ev.displayName), FaultIds(details),
        FmtDuration(TimeInState(stateUpper, ev, now)),
        PickCreatedOrStarted(stateUpper, ev),
        if total.Some? then FmtDuration(total) else "—")
  }

  /** The step of `build_event_rows` for a summary and the reply to its detail
      fetch: a reply that is None is passed over; a call that raised, an empty
      response and unreadable fault details raise. */
  function RowStep(hmap: map<Json, Json>, slurm: Json -> string, now: int, parse: string -> Option<Json>,
                   sum: Event, reply: EventReply): (r: Step<Row>)
    ensures reply.EventNone? ==> r == Skipped
    ensures reply.EventRaised? || reply == EventResponse(None) ==> r.StepRaised?
    ensures r.Emitted? ==> (reply.EventResponse? && reply.data.Some? &&
                            DictElements(FaultDetailsValue(reply.data.value.additionalDetails, parse)).Ok? &&
                            r.found.state == sum.lifecycleState.GetOr("") && Truthy(r.found.hostname))
  {
    match reply
    case EventRaised => StepRaised("ServiceError")
    case EventNone => Skipped
    case EventResponse(None) => StepRaised("AttributeError")
    case EventResponse(Some(ev)) =>
      match DictElements(FaultDetailsValue(ev.additionalDetails, parse))
      case Err(e) => StepRaised(e)
      case Ok(details) => Emitted(MakeRow(hmap, slurm, now, sum, ev, details))
  }

  function RowSteps(hmap: map<Json, Json>, slurm: Json -> string, now: int, parse: string -> Option<Json>)
    : (Event, EventReply) -> Step<Row>
  {
    (sum: Event, reply: EventReply) => RowStep(hmap, slurm, now, parse, sum, reply)
  }

  /** The whole of `build_event_rows`: the host-map command (a failed command
      raises), then the fold over every summary of every compartment. */
  function RowsOutcome(run: (nat, seq<string>) -> Proc, fetch: (nat, Option<string>) -> EventReply, pos: nat,
                       parse: string -> Option<Json>, tenancy: string, listedComps: Option<string> -> Page<string>,
                       listedEvents: string -> Option<string> -> Page<Event>, maxCalls: nat,
                       filterStates: set<string>, slurm: Json -> string, now: int)
    : (seq<Effect>, Result<seq<Row>>)
  {
    match RunOutcome(run(pos, HostMapArgv()), true)
    case Err(e) => ([Exec(HostMapArgv())], Err(e))
    case Ok(out) =>
      match MgmtHostMap(out, parse)
      case Err(e) => ([Exec(HostMapArgv())], Err(e))
      case Ok(hmap) =>
        var sums := SummariesOf(listedEvents, Compartments(tenancy, listedComps, maxCalls), maxCalls);
        var d := Discovered(fetch, FilterScreen(Filter(filterStates)), RowSteps(hmap, slurm, now, parse), pos + 1, sums);
        ([Exec(HostMapArgv())] + d.0, d.1)
  }

  /** With a filter, every row's upper-cased state is one of the filter's
      states; every row names a host, `(unknown)` when the map has none. */
  lemma RowsPassFilter(run: (nat, seq<string>) -> Proc, fetch: (nat, Option<string>) -> EventReply, pos: nat,
                       parse: string -> Option<Json>, tenancy: string, listedComps: Option<string> -> Page<string>,
                       listedEvents: string -> Option<string> -> Page<Event>, maxCalls: nat,
                       filterStates: set<string>, slurm: Json -> string, now: int)
    requires RowsOutcome(run, fetch, pos, parse, tenancy, listedComps, listedEvents, maxCalls, filterStates, slurm, now).1.Ok?
    ensures var rows := RowsOutcome(run, fetch, pos, parse, tenancy, listedComps, listedEvents, maxCalls,
                                    filterStates, slurm, now).1.value;
      forall row :: row in rows ==> (Truthy(row.hostname) &&
                                     (filterStates != {} ==> exists s :: s in filterStates && Upper(s) == Upper(row.state)))
  {
    var out := RunOutcome(run(pos, HostMapArgv()), true).value;
    var hmap := MgmtHostMap(out, parse).value;
    var sums := SummariesOf(listedEvents, Compartments(tenancy, listedComps, maxCalls), maxCalls);
    var screen := FilterScreen(Filter(filterStates));
    var step := RowSteps(hmap, slurm, now, parse);
    DiscoveredFromKept(fetch, screen, step, pos + 1, sums);
    var rows := Discovered(fetch, screen, step, pos + 1, sums).1.value;
    forall row | row in rows
      ensures Truthy(row.hostname) && (filterStates != {} ==> exists s :: s in filterStates && Upper(s) == Upper(row.state))
    {
      var i :| 0 <= i < |sums| && screen(sums[i].lifecycleState) == Kept && Emits(step, sums[i], row);
      var reply :| step(sums[i], reply) == Emitted(row);
      assert RowStep(hmap, slurm, now, parse, sums[i], reply) == Emitted(row);
    }
  }

  /** `build_event_rows`: reads the lenient host map, lists the compartments and
      walks every page of each, appending one row per fetched event the filter
      lets through. */
  method BuildEventRows(c: Cluster, parse: string -> Option<Json>, tenancy: string,
                        listedComps: Option<string> -> Page<string>,
                        listedEvents: string -> Option<string> -> Page<Event>, maxCalls: nat,
                        filterStates: set<string>, slurm: Json -> string, now: int)
    returns (r: Result<seq<Row>>)
    modifies c
    ensures var outcome := RowsOutcome(c.run, c.fetch, |old(c.trace)|, parse, tenancy, listedComps, listedEvents,
                                       maxCalls, filterStates, slurm, now);
            c.trace == old(c.trace) + outcome.0 && r == outcome.1
    ensures c.audit == old(c.audit)
  {
    ghost var t0 := c.trace;
    var out := c.RunCmd(HostMapArgv(), true);
    if out.Err? {
      return Err(out.error);
    }
    var hosts := MgmtHostMap(out.value, parse);
    if hosts.Err? {
      return Err(hosts.error);
    }
    var filt := Filter(filterStates);
    var comps := ListCompartments(tenancy, listedComps, maxCalls);
    ghost var t1 := c.trace;
    r := DiscoverCompartments(c, FilterScreen(filt), RowSteps(hosts.value, slurm, now, parse), comps, listedEvents, maxCalls);
    ConcatAssoc(t0, [Exec(HostMapArgv())],
                Discovered(c.fetch, FilterScreen(filt), RowSteps(hosts.value, slurm, now, parse), |t1|,
                           SummariesOf(listedEvents, comps, maxCalls)).0);
  }
}
