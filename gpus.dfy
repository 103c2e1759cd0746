/** The original stand-alone script: it lists the compartments and the active
    maintenance events in them, prints each event's faults and the node it
    affects, builds (and only logs) the SLURM drain command for a known node,
    and can schedule an event to start at once. */
module Gpus {
  import opened Wrappers
  import opened Text
  import opened PyJson
  import opened Utils
  import opened Models
  import opened World
  import opened Common
  import Oci
  import Config
  import D = Discovery

  // ---------------------------------------------------------------------------
  // `has_next_page` pagination, as a function of the API

  /** The `page` arguments of the calls the generator makes, starting from
      `page`, with at most `fuel` calls. */
  function ApiCalls<T>(api: Option<string> -> ApiPage<T>, page: Option<string>, fuel: nat): seq<Option<string>>
    decreases fuel
  {
    if fuel == 0 then []
    else [page] + (if api(page).hasNextPage then ApiCalls(api, api(page).nextPage, fuel - 1) else [])
  }

  /** Every item the generator yields, in order. */
  function ApiPaged<T>(api: Option<string> -> ApiPage<T>, maxCalls: nat): seq<T> {
    ApiItemsOf(api, ApiCalls(api, None, maxCalls))
  }

  /** Call `i + 1` passes the `next_page` of the reply to call `i`, which had a
      next page. */
  predicate LinkedAt<T>(api: Option<string> -> ApiPage<T>, calls: seq<Option<string>>, i: nat)
    requires i + 1 < |calls|
  {
    api(calls[i]).hasNextPage && calls[i + 1] == api(calls[i]).nextPage
  }

  /** Any run of calls that follows the `next_page` chain and stops at the first
      reply without a next page, or at the call bound, is the one above. */
  lemma {:induction false} ApiCallsChain<T>(api: Option<string> -> ApiPage<T>, calls: seq<Option<string>>, fuel: nat)
    requires calls != [] && |calls| <= fuel
    requires forall i: nat :: i + 1 < |calls| ==> LinkedAt(api, calls, i)
    requires !api(calls[|calls| - 1]).hasNextPage || |calls| == fuel
    ensures calls == ApiCalls(api, calls[0], fuel)
    decreases |calls|
  {
    if |calls| == 1 {
      ApiCallsOne(api, calls[0], fuel);
    } else {
      var rest := calls[1..];
      forall i: nat | i + 1 < |rest| ensures LinkedAt(api, rest, i) {
        assert LinkedAt(api, calls, i + 1);
      }
      assert rest[|rest| - 1] == calls[|calls| - 1];
      ApiCallsChain(api, rest, fuel - 1);
      assert LinkedAt(api, calls, 0);
      ApiCallsCons(api, calls[0], calls[1], fuel - 1, rest);
      assert calls == [calls[0]] + rest;
    }
  }

  /** A last call: its reply has no next page, or the bound allows no more. */
  lemma ApiCallsOne<T>(api: Option<string> -> ApiPage<T>, page: Option<string>, fuel: nat)
    requires fuel > 0 && (!api(page).hasNextPage || fuel == 1)
    ensures ApiCalls(api, page, fuel) == [page]
  {
    if api(page).hasNextPage {
      assert ApiCalls(api, api(page).nextPage, fuel - 1) == [];
    }
  }

  /** A call whose reply has a next page is followed by the calls from that page. */
  lemma ApiCallsCons<T>(api: Option<string> -> ApiPage<T>, page: Option<string>, next: Option<string>, fuel: nat,
                        rest: seq<Option<string>>)
    requires api(page).hasNextPage && api(page).nextPage == next && rest == ApiCalls(api, next, fuel)
    ensures ApiCalls(api, page, fuel + 1) == [page] + rest
  {
  }

  /** The generator's items, as a list. */
  method ApiPagedList<T>(api: Option<string> -> ApiPage<T>, maxCalls: nat) returns (items: seq<T>)
    ensures items == ApiPaged(api, maxCalls)
  {
    var calls, finished;
    items, calls, finished := PaginatedApiToGenerator(api, maxCalls);
    if calls != [] {
      ApiCallsChain(api, calls, maxCalls);
    }
  }

  // ---------------------------------------------------------------------------
  // list_compartments

  /** The compartments searched: every listed compartment id, then the tenancy. */
  function Compartments(tenancy: string, listed: Option<string> -> ApiPage<string>, maxCalls: nat): seq<string> {
    ApiPaged(listed, maxCalls) + [tenancy]
  }

  /** `list_compartments`: the id of each listed compartment, in order (the
      listing yields compartments as their ids), then the tenancy. */
  method ListCompartments(tenancy: string, listed: Option<string> -> ApiPage<string>, maxCalls: nat)
    returns (ids: seq<string>)
    ensures ids == Compartments(tenancy, listed, maxCalls)
  {
    var items := ApiPagedList(listed, maxCalls);
    ids := items + [tenancy];
  }

  /** The tenancy is always searched, and it is searched last. */
  lemma CompartmentsTenancyLast(tenancy: string, listed: Option<string> -> ApiPage<string>, maxCalls: nat)
    ensures |Compartments(tenancy, listed, maxCalls)| == |ApiPaged(listed, maxCalls)| + 1
    ensures Compartments(tenancy, listed, maxCalls)[|ApiPaged(listed, maxCalls)|] == tenancy
    ensures Compartments(tenancy, listed, maxCalls)[..|ApiPaged(listed, maxCalls)|] == ApiPaged(listed, maxCalls)
  {
  }

  // ---------------------------------------------------------------------------
  // list_all_maintenance_events

  /** The states whose events are fetched. */
  const ActiveStates: seq<string> := ["SCHEDULED", "STARTED", "PROCESSING"]

  /** The state filter: a summary is fetched only in one of the three states
      (a summary without a state is not in the list, so it is dropped). */
  function ScreenActive(state: Option<string>): (r: D.Screen)
    ensures r == D.Kept <==> state.Some? && state.value in ActiveStates
    ensures r != D.Kept ==> r == D.Dropped
  {
    if state.Some? && state.value in ActiveStates then D.Kept else D.Dropped
  }

  /** What a detail fetch contributes: the event, or a raise when the call
      raised, returned None (`.data` on None) or returned no event (the
      `isinstance` assertion). Nothing fetched is skipped. */
  function EventStep(sum: Event, reply: EventReply): (r: D.Step<Event>)
    ensures !r.Skipped?
    ensures r.Emitted? <==> reply.EventResponse? && reply.data.Some?
    ensures r.Emitted? ==> r.found == reply.data.value
  {
    match reply
    case EventRaised => D.StepRaised("ServiceError")
    case EventNone => D.StepRaised("AttributeError")
    case EventResponse(None) => D.StepRaised("AssertionError")
    case EventResponse(Some(ev)) => D.Emitted(ev)
  }

  /** The summaries listed in the given compartments, compartment by compartment
      and page by page. */
  function EventSummaries(listed: string -> Option<string> -> ApiPage<Event>, comps: seq<string>, maxCalls: nat): seq<Event>
    decreases |comps|
  {
    if comps == [] then [] else ApiPaged(listed(comps[0]), maxCalls) + EventSummaries(listed, comps[1..], maxCalls)
  }

  /** The loop of `list_all_maintenance_events` with its filter and its fetch
      rule passed in: every compartment in turn, every summary of it in page
      order, the findings appended in order. */
  method ListEventsWith<T>(c: Cluster, screen: Option<string> -> D.Screen, step: (Event, EventReply) -> D.Step<T>,
                           comps: seq<string>, listed: string -> Option<string> -> ApiPage<Event>, maxCalls: nat)
    returns (r: Result<seq<T>>)
    modifies c
    ensures var d := D.Discovered(c.fetch, screen, step, |old(c.trace)|, EventSummaries(listed, comps, maxCalls));
            c.trace == old(c.trace) + d.0 && (r.Ok? <==> d.1.Ok?) && (r.Ok? ==> r.value == d.1.value) &&
            (r.Err? ==> d.1 == Err(r.error))
    ensures c.audit == old(c.audit)
  {
    ghost var t1 := c.trace;
    ghost var all := D.Discovered(c.fetch, screen, step, |t1|, EventSummaries(listed, comps, maxCalls));
    var events: seq<T> := [];
    var ci := 0;
    assert comps[ci..] == comps;
    assert all.1 == D.Prepend(events, all.1) by {
      if all.1.Ok? { assert events + all.1.value == all.1.value; }
    }
    while ci < |comps|
      invariant 0 <= ci <= |comps|
      invariant c.audit == old(c.audit)
      invariant t1 + all.0 == c.trace + D.Discovered(c.fetch, screen, step, |c.trace|, EventSummaries(listed, comps[ci..], maxCalls)).0
      invariant all.1 == D.Prepend(events, D.Discovered(c.fetch, screen, step, |c.trace|, EventSummaries(listed, comps[ci..], maxCalls)).1)
    {
      ghost var before := c.trace;
      var items := ApiPagedList(listed(comps[ci]), maxCalls);
      ghost var later := EventSummaries(listed, comps[ci + 1..], maxCalls);
      assert EventSummaries(listed, comps[ci..], maxCalls) == items + later by {
        assert comps[ci..][1..] == comps[ci + 1..];
      }
      var pageEvents, err := D.DiscoverPage(c, screen, step, items);
      if err.Some? {
        D.DiscoveredAppendErr(c.fetch, screen, step, |before|, items, later);
        return Err(err.value);
      }
      D.DiscoveredStep(c.fetch, screen, step, before, c.trace, items, later, events, pageEvents);
      events := events + pageEvents;
      ci := ci + 1;
    }
    assert EventSummaries(listed, comps[ci..], maxCalls) == [];
    assert all.1 == D.Prepend(events, Ok([]));
    assert events + [] == events;
    r := Ok(events);
  }

  /** `list_all_maintenance_events`: every compartment in turn, every summary
      of it in page order; an active one has its detail fetched and appended. */
  method ListAllMaintenanceEvents(c: Cluster, comps: seq<string>, listed: string -> Option<string> -> ApiPage<Event>, maxCalls: nat)
    returns (r: Result<seq<Event>>)
    modifies c
    ensures var d := D.Discovered(c.fetch, ScreenActive, EventStep, |old(c.trace)|, EventSummaries(listed, comps, maxCalls));
            c.trace == old(c.trace) + d.0 && (r.Ok? <==> d.1.Ok?) && (r.Ok? ==> r.value == d.1.value) &&
            (r.Err? ==> d.1 == Err(r.error))
    ensures c.audit == old(c.audit)
  {
    r := ListEventsWith(c, ScreenActive, EventStep, comps, listed, maxCalls);
  }

  /** How many summaries are in one of the active states. */
  function ActiveCount(sums: seq<Event>): nat
    decreases |sums|
  {
    if sums == [] then 0
    else (if ScreenActive(sums[0].lifecycleState) == D.Kept then 1 else 0) + ActiveCount(sums[1..])
  }

  /** A successful listing returns exactly one event per active summary, in
      order: every active summary is fetched and none is skipped. */
  lemma {:induction false} OneEventPerActiveSummary(fetch: (nat, Option<string>) -> EventReply, pos: nat, sums: seq<Event>)
    requires D.Discovered(fetch, ScreenActive, EventStep, pos, sums).1.Ok?
    ensures |D.Discovered(fetch, ScreenActive, EventStep, pos, sums).1.value| == ActiveCount(sums)
    ensures |D.Discovered(fetch, ScreenActive, EventStep, pos, sums).0| == ActiveCount(sums)
    decreases |sums|
  {
    if sums != [] {
      if ScreenActive(sums[0].lifecycleState) == D.Kept {
        OneEventPerActiveSummary(fetch, pos + 1, sums[1..]);
      } else {
        OneEventPerActiveSummary(fetch, pos, sums[1..]);
      }
    }
  }

  /** Every listed event comes from a summary in SCHEDULED, STARTED or
      PROCESSING. */
  lemma ListedEventsActive(fetch: (nat, Option<string>) -> EventReply, pos: nat, sums: seq<Event>)
    requires D.Discovered(fetch, ScreenActive, EventStep, pos, sums).1.Ok?
    ensures forall x :: x in D.Discovered(fetch, ScreenActive, EventStep, pos, sums).1.value ==>
      exists i :: 0 <= i < |sums| && sums[i].lifecycleState.Some? && sums[i].lifecycleState.value in ActiveStates
  {
    D.DiscoveredFromKept(fetch, ScreenActive, EventStep, pos, sums);
  }

  // ---------------------------------------------------------------------------
  // main: the fault string, the hostname and the drain command of each event

  /** `(fault.fault_id, fault.component)` for each fault, in order. */
  function FaultPairs(faults: seq<Fault>): (ps: seq<(Json, Json)>)
    ensures |ps| == |faults|
    ensures forall i :: 0 <= i < |faults| ==> ps[i] == (faults[i].faultId, faults[i].component)
  {
    seq(|faults|, i requires 0 <= i < |faults| => (faults[i].faultId, faults[i].component))
  }

  /** `[item for fault_tuple in faults for item in fault_tuple]`. */
  function Flatten(ps: seq<(Json, Json)>): (xs: seq<Json>)
    ensures |xs| == 2 * |ps|
    ensures forall i :: 0 <= i < |ps| ==> xs[2 * i] == ps[i].0 && xs[2 * i + 1] == ps[i].1
    decreases |ps|
  {
    if ps == [] then []
    else
      var rest := Flatten(ps[1..]);
      assert forall i :: 1 <= i < |ps| ==> ps[i] == ps[1..][i - 1];
      [ps[0].0, ps[0].1] + rest
  }

  /** The texts of the items when every item is a string. */
  function Texts(xs: seq<Json>): (r: Option<seq<string>>)
    ensures r.Some? <==> forall i :: 0 <= i < |xs| ==> xs[i].JStr?
    ensures r.Some? ==> |r.value| == |xs| && forall i :: 0 <= i < |xs| ==> r.value[i] == xs[i].s
    decreases |xs|
  {
    if xs == [] then Some([])
    else if !xs[0].JStr? then None
    else
      match Texts(xs[1..])
      case None => None
      case Some(rest) => Some([xs[0].s] + rest)
  }

  /** Item `i` of the flattened pairs is the id (even `i`) or the component (odd
      `i`) of pair `i / 2`, so the items are all strings exactly when every id
      and component is. */
  lemma FlattenAt(ps: seq<(Json, Json)>)
    ensures forall i :: 0 <= i < |Flatten(ps)| ==>
      Flatten(ps)[i] == (if i % 2 == 0 then ps[i / 2].0 else ps[i / 2].1)
    ensures (forall i :: 0 <= i < |Flatten(ps)| ==> Flatten(ps)[i].JStr?) <==>
      forall i :: 0 <= i < |ps| ==> ps[i].0.JStr? && ps[i].1.JStr?
  {
    var xs := Flatten(ps);
    forall i | 0 <= i < |xs|
      ensures xs[i] == (if i % 2 == 0 then ps[i / 2].0 else ps[i / 2].1)
    {
      if i % 2 == 0 {
        assert i == 2 * (i / 2);
      } else {
        assert i == 2 * (i / 2) + 1;
      }
    }
  }

  /** `"_".join(items)`: a non-string item raises TypeError. */
  function FaultString(ps: seq<(Json, Json)>): (r: Result<string>)
    ensures r.Ok? <==> forall i :: 0 <= i < |ps| ==> ps[i].0.JStr? && ps[i].1.JStr?
    ensures r.Ok? ==> Texts(Flatten(ps)).Some? && r.value == Join("_", Texts(Flatten(ps)).value)
  {
    var xs := Flatten(ps);
    FlattenAt(ps);
    match Texts(xs)
    case None => Err("TypeError")
    case Some(ss) => Ok(Join("_", ss))
  }

  /** When no id or component holds `_`, the fault string splits back into
      them, id then component for each fault in turn. */
  lemma FaultStringRoundTrip(ps: seq<(Json, Json)>)
    requires ps != []
    requires forall i :: 0 <= i < |ps| ==> ps[i].0.JStr? && ps[i].1.JStr? && '_' !in ps[i].0.s && '_' !in ps[i].1.s
    ensures var parts := SplitOn(FaultString(ps).value, '_');
            |parts| == 2 * |ps| &&
            forall i :: 0 <= i < |ps| ==> parts[2 * i] == ps[i].0.s && parts[2 * i + 1] == ps[i].1.s
  {
    var xs := Flatten(ps);
    FlattenAt(ps);
    var ss := Texts(xs).value;
    forall k | 0 <= k < |ss|
      ensures '_' !in ss[k]
    {
      assert ss[k] == xs[k].s;
    }
    assert "_" == ['_'];
    SplitOnJoin(ss, '_');
  }

  const Unknown: Json := JStr("UNKNOWN")

  /** `ocid_to_host.get(instance_id, "UNKNOWN")`. */
  function HostFor(hmap: map<Json, Json>, instanceId: Option<string>): (h: Json)
    ensures var key := if instanceId.Some? then JStr(instanceId.value) else JNull;
            (key in hmap ==> h == hmap[key]) && (key !in hmap ==> h == Unknown)
  {
    var key := if instanceId.Some? then JStr(instanceId.value) else JNull;
    if key in hmap then hmap[key] else Unknown
  }

  /** The drain command logged for a known node. */
  function DrainArgv(hostname: Json, fault: string): seq<string> {
    ["sudo", "scontrol", "update", "NODENAME=" + PyStr(hostname), "REASON=\"" + fault + "\"", "STATE=DRAIN"]
  }

  /** What `main` prints and logs for one event. */
  datatype Report = Report(instanceId: Option<string>, faults: seq<(Json, Json)>, fault: string,
                           hostname: Json, drain: Option<seq<string>>)

  /** One iteration of `main`'s loop: the faults of the event (a malformed
      detail raises), their joined string, the hostname, and the drain command
      when the hostname is not `UNKNOWN`. */
  function ReportOf(ev: Event, hmap: map<Json, Json>, parse: string -> Option<Json>): (r: Result<Report>)
    ensures r.Ok? <==> GetAdditionalDetails(ev.additionalDetails, parse).Ok? &&
                       FaultString(FaultPairs(GetAdditionalDetails(ev.additionalDetails, parse).value.faults)).Ok?
    ensures r.Ok? ==> r.value.instanceId == ev.instanceId && r.value.hostname == HostFor(hmap, ev.instanceId)
    ensures r.Ok? ==> (r.value.drain.Some? <==> r.value.hostname != Unknown)
    ensures r.Ok? && r.value.drain.Some? ==> r.value.drain.value == DrainArgv(r.value.hostname, r.value.fault)
  {
    match GetAdditionalDetails(ev.additionalDetails, parse)
    case Err(e) => Err(e)
    case Ok(details) =>
      var ps := FaultPairs(details.faults);
      match FaultString(ps)
      case Err(e) => Err(e)
      case Ok(fault) =>
        var hostname := HostFor(hmap, ev.instanceId);
        Ok(Report(ev.instanceId, ps, fault, hostname,
                  if hostname != Unknown then Some(DrainArgv(hostname, fault)) else None))
  }

  /** A node the inventory knows is drained under its own name and with the
      joined fault string as the reason; an instance it does not know is not
      drained. */
  lemma DrainNamesHost(ev: Event, hmap: map<Json, Json>, parse: string -> Option<Json>)
    requires ReportOf(ev, hmap, parse).Ok?
    ensures var rep := ReportOf(ev, hmap, parse).value;
            var key := if ev.instanceId.Some? then JStr(ev.instanceId.value) else JNull;
            (key !in hmap ==> rep.drain.None?) &&
            (key in hmap && hmap[key] != Unknown ==>
              rep.drain.Some? && rep.drain.value[3] == "NODENAME=" + PyStr(hmap[key]) &&
              rep.drain.value[4] == "REASON=\"" + rep.fault + "\"")
  {
  }

  /** `ReportOf` with the node map and the decoder fixed, as a value. */
  function ReportStep(hmap: map<Json, Json>, parse: string -> Option<Json>): Event -> Result<Report> {
    (ev: Event) => ReportOf(ev, hmap, parse)
  }

  /** `f` applied to each item in turn, the first raise ending the run. */
  function Traverse<A, B>(f: A -> Result<B>, xs: seq<A>): (r: Result<seq<B>>)
    ensures r.Ok? <==> forall i :: 0 <= i < |xs| ==> f(xs[i]).Ok?
    ensures r.Ok? ==> |r.value| == |xs| && forall i :: 0 <= i < |xs| ==> f(xs[i]) == Ok(r.value[i])
    decreases |xs|
  {
    if xs == [] then Ok([])
    else
      var init := xs[..|xs| - 1];
      assert forall i :: 0 <= i < |init| ==> init[i] == xs[i];
      match Traverse(f, init)
      case Err(e) => Err(e)
      case Ok(done) =>
        match f(xs[|xs| - 1])
        case Err(e) => Err(e)
        case Ok(y) => Ok(done + [y])
  }

  /** The run's error is that of the first item that raises. */
  lemma {:induction false} TraversePrefixErr<A, B>(f: A -> Result<B>, xs: seq<A>, n: nat)
    requires 0 < n <= |xs|
    requires Traverse(f, xs[..n - 1]).Ok? && f(xs[n - 1]).Err?
    ensures Traverse(f, xs) == Err(f(xs[n - 1]).error)
    decreases |xs|
  {
    if n < |xs| {
      var init := xs[..|xs| - 1];
      assert init[..n - 1] == xs[..n - 1];
      assert init[n - 1] == xs[n - 1];
      TraversePrefixErr(f, init, n);
    } else {
      assert xs[..n - 1] == xs[..|xs| - 1];
    }
  }

  /** `main`'s loop over the events: one report per event, in order; the first
      event whose report raises ends it. */
  method ReportEvents(events: seq<Event>, hmap: map<Json, Json>, parse: string -> Option<Json>)
    returns (r: Result<seq<Report>>)
    ensures r == Traverse(ReportStep(hmap, parse), events)
  {
    r := TraverseLoop(ReportStep(hmap, parse), events);
  }

  /** The loop itself, for any step: each element in order, until a step fails. */
  method TraverseLoop<A, B>(step: A -> Result<B>, xs: seq<A>) returns (r: Result<seq<B>>)
    ensures r == Traverse(step, xs)
  {
    var done: seq<B> := [];
    var i := 0;
    while i < |xs|
      invariant 0 <= i <= |xs|
      invariant Traverse(step, xs[..i]) == Ok(done)
    {
      assert xs[..i + 1][..i] == xs[..i];
      var y := step(xs[i]);
      if y.Err? {
        TraversePrefixErr(step, xs, i + 1);
        return Err(y.error);
      }
      done := done + [y.value];
      i := i + 1;
    }
    assert xs[..i] == xs;
    r := Ok(done);
  }

  /** What `main` ends with once the events are listed: the node-list command's
      result at its position, read as the strict host map, then the loop. */
  function MainOutcome(p: Proc, parse: string -> Option<Json>, events: seq<Event>): Result<seq<Report>> {
    if p.returnCode != 0 then Err("CalledProcessError")
    else
      match Oci.HostMapOf(p.stdout, parse, true)
      case Err(e) => Err(e)
      case Ok(hmap) => Traverse(ReportStep(hmap, parse), events)
  }

  /** The effects and the outcome of listing the active events of the
      compartments searched, the first detail fetch made at position `pos`. */
  function Listing(fetch: (nat, Option<string>) -> EventReply, pos: nat, tenancy: string,
                   listedComps: Option<string> -> ApiPage<string>,
                   listedEvents: string -> Option<string> -> ApiPage<Event>, maxCalls: nat): (seq<Effect>, Result<seq<Event>>) {
    D.Discovered(fetch, ScreenActive, EventStep, pos, EventSummaries(listedEvents, Compartments(tenancy, listedComps, maxCalls), maxCalls))
  }

  /** How `main` ends: the listing's error, or what the rest makes of the
      listed events with the node-list command's result. */
  function MainResult(listed: Result<seq<Event>>, p: Proc, parse: string -> Option<Json>): Result<seq<Report>> {
    match listed
    case Err(e) => Err(e)
    case Ok(events) => MainOutcome(p, parse, events)
  }

  /** `main`: the compartments, the active events in them, the node list read
      once, then one report per event. */
  method ReportMaintenance(c: Cluster, tenancy: string, listedComps: Option<string> -> ApiPage<string>,
                           listedEvents: string -> Option<string> -> ApiPage<Event>, maxCalls: nat,
                           parse: string -> Option<Json>)
    returns (r: Result<seq<Report>>)
    modifies c
    ensures var d := Listing(c.fetch, |old(c.trace)|, tenancy, listedComps, listedEvents, maxCalls);
            c.trace == old(c.trace) + d.0 + (if d.1.Ok? then [Exec(Oci.NodesListArgv())] else []) &&
            r == MainResult(d.1, c.run(|old(c.trace)| + |d.0|, Oci.NodesListArgv()), parse)
    ensures c.audit == old(c.audit)
  {
    var comps := ListCompartments(tenancy, listedComps, maxCalls);
    ghost var d := Listing(c.fetch, |c.trace|, tenancy, listedComps, listedEvents, maxCalls);
    var listed := ListAllMaintenanceEvents(c, comps, listedEvents, maxCalls);
    if listed.Err? {
      assert c.trace == old(c.trace) + d.0 + [];
      return Err(listed.error);
    }
    assert |c.trace| == |old(c.trace)| + |d.0|;
    ghost var nodes := c.run(|old(c.trace)| + |d.0|, Oci.NodesListArgv());
    assert c.run(|c.trace|, Oci.NodesListArgv()) == nodes;
    r := ReportOnEvents(c, listed.value, parse);
    assert r == MainOutcome(nodes, parse, listed.value);
  }

  /** The rest of `main`: the node list is read once, as the strict host map,
      then each event is reported on. */
  method ReportOnEvents(c: Cluster, events: seq<Event>, parse: string -> Option<Json>) returns (r: Result<seq<Report>>)
    modifies c
    ensures c.trace == old(c.trace) + [Exec(Oci.NodesListArgv())] && c.audit == old(c.audit)
    ensures r == MainOutcome(c.run(|old(c.trace)|, Oci.NodesListArgv()), parse, events)
  {
    var out := c.CheckOutput(Oci.NodesListArgv());
    if out.Err? {
      return Err(out.error);
    }
    var hmap := Oci.HostMapOf(out.value, parse, true);
    if hmap.Err? {
      return Err(hmap.error);
    }
    r := ReportEvents(events, hmap.value, parse);
  }

  // ---------------------------------------------------------------------------
  // schedule_maintenance_immediately

  /** Every name `maintenancetool/config.py` binds at module level, its two
      imports included. */
  const ConfigNames: set<string> := {"os", "Path", "TENANCY_OCID", "PROCESSED_TAG", "MAX_WORKERS", "LOG_LEVEL",
    "LOG_FILE", "DRAIN_POLL_SEC", "MAINT_POLL_SEC", "SLURM_DRAIN_REASON", "SLURM_DRAIN_COMMAND",
    "SLURM_RESUME_COMMAND", "tenancy_ocid", "use_instance_principal", "region"}

  /** Reading an attribute of the configuration module: AttributeError for a
      name the module does not bind; otherwise its value where the model gives
      one, and None for the imports, the log-file `Path` and the integer
      settings, whose values the script never reads. `TENANCY_OCID` is bound
      twice and keeps the literal. */
  function ConfigAttr(name: string, env: map<string, string>): (r: Result<Option<Json>>)
    ensures r.Ok? <==> name in ConfigNames
    ensures name == "PROCESSED_TAG" ==> r == Ok(Some(JStr(Config.ProcessedTag(env))))
    ensures name == "TENANCY_OCID" || name == "tenancy_ocid" ==> r == Ok(Some(JStr(TenancyLiteral)))
    ensures name == "SLURM_DRAIN_COMMAND" ==>
      r == Ok(Some(JStr("sudo scontrol update NodeName=%s Reason='" + Config.GetEnv(env, "SLURM_DRAIN_REASON", "OCiMaintenance") + "' State=DRAIN")))
  {
    if name !in ConfigNames then Err("AttributeError")
    else if name == "PROCESSED_TAG" then Ok(Some(JStr(Config.ProcessedTag(env))))
    else if name == "TENANCY_OCID" || name == "tenancy_ocid" then Ok(Some(JStr(TenancyLiteral)))
    else if name == "use_instance_principal" then Ok(Some(JBool(true)))
    else if name == "region" then Ok(Some(JStr("us-phoenix-1")))
    else if name == "LOG_LEVEL" then Ok(Some(JStr(Upper(Config.GetEnv(env, "LOG_LEVEL", "INFO")))))
    else if name == "SLURM_DRAIN_REASON" then Ok(Some(JStr(Config.GetEnv(env, "SLURM_DRAIN_REASON", "OCiMaintenance"))))
    else if name == "SLURM_DRAIN_COMMAND" then
      Ok(Some(JStr("sudo scontrol update NodeName=%s Reason='" + Config.GetEnv(env, "SLURM_DRAIN_REASON", "OCiMaintenance") + "' State=DRAIN")))
    else if name == "SLURM_RESUME_COMMAND" then Ok(Some(JStr("sudo scontrol update NodeName=%s State=RESUME")))
    else Ok(None)
  }

  const TenancyLiteral: string := "ocid1.compartment.oc1..aaaaaaaan5ouwmczcchigfas4xuzw5mh5xpqhnymull6y4g7gxc73wmgammq"

  /** The tag name is read through the lower-case attribute, which the module
      does not define, while the upper-case one is the tag. */
  lemma ProcessedTagAttribute(env: map<string, string>)
    ensures ConfigAttr("processed_tag", env) == Err("AttributeError")
    ensures ConfigAttr("PROCESSED_TAG", env) == Ok(Some(JStr(Config.ProcessedTag(env))))
  {
  }

  /** `schedule_maintenance_immediately` as written: the tag name is read before
      anything else, so every call raises before the event is touched. */
  method ScheduleMaintenanceAsWritten(c: Cluster, ev: Event, env: map<string, string>)
    returns (r: Result<()>)
    modifies c
    ensures r == Err("AttributeError") && c.trace == old(c.trace) && c.audit == old(c.audit)
  {
    var tag := ConfigAttr("processed_tag", env);
    r := Err(tag.error);
  }

  /** The response object `get_work_request` returns. */
  datatype WorkRequestResponse = WorkRequestResponse(data: Json)

  /** The status test as written: `workrequest_status != 'SUCCESSFUL'` compares
      the response object with a string, and the two are never equal. */
  function StatusRaisesAsWritten(status: WorkRequestResponse): (raises: bool)
    ensures raises
  {
    var sameType := false;
    !sameType
  }

  /** As written, even a work request that succeeded makes the call raise. */
  lemma SucceededStillRaises(status: WorkRequestResponse)
    requires status.data == JStr("SUCCESSFUL")
    ensures IsWorkRequestTerminal(status.data) && StatusRaisesAsWritten(status)
  {
  }

  /** The intended test: raise unless the work request ended SUCCESSFUL. */
  function StatusRaises(final: WorkRequestResponse): (raises: bool)
    ensures !raises ==> IsWorkRequestTerminal(final.data)
    ensures raises <==> final.data != JStr("SUCCESSFUL")
  {
    final.data != JStr("SUCCESSFUL")
  }

  /** The tags the update carries: the event's own tags with the processed tag
      set to True. */
  function MarkedTags(tags: map<string, Json>, tag: string): (t: map<string, Json>)
    ensures t.Keys == tags.Keys + {tag} && t[tag] == JBool(true)
    ensures forall k :: k in tags && k != tag ==> t[k] == tags[k]
  {
    tags[tag := JBool(true)]
  }

  /** The update details: the marked tags and a window starting at the local
      time of the call. */
  function ScheduleDetails(tags: map<string, Json>, tag: string, nowMicros: int): UpdateDetails {
    UpdateDetails(Some(MarkedTags(tags, tag)), None, Some(LocalIso(nowMicros)))
  }

  /** What the call ends with once the update replied: a raise unless the reply
      names a work request that ended SUCCESSFUL. A missing event id or work
      request id is refused by the SDK with ValueError. */
  function ScheduleOutcome(reply: UpdateReply, final: WorkRequestResponse): (r: Result<()>)
    ensures r.Ok? <==> Oci.WorkRequestOf(reply).Some? && final.data == JStr("SUCCESSFUL")
  {
    match reply
    case UpdateRaised => Err("ServiceError")
    case UpdateNone => Err("AttributeError")
    case UpdateResponse(headers) =>
      if Oci.WorkRequestHeader !in headers then Err("ValueError")
      else if StatusRaises(final) then Err("Exception")
      else Ok(())
  }

  /** `schedule_maintenance_immediately` with the tag name read from
      `PROCESSED_TAG` and the final work-request status tested: the event's
      tags gain the processed tag, the update asks for a window starting now,
      the tool waits on the work request the reply names, and the call
      succeeds only when that work request ended SUCCESSFUL. `final` is the
      response the wait ends with; `nowMicros` the local time. */
  method ScheduleMaintenanceImmediately(c: Cluster, ev: Event, env: map<string, string>, nowMicros: int,
                                        final: WorkRequestResponse)
    returns (r: Result<()>, tags: map<string, Json>)
    modifies c
    ensures tags == MarkedTags(ev.freeformTags, Config.ProcessedTag(env))
    ensures ev.id.None? ==> r == Err("ValueError") && c.trace == old(c.trace)
    ensures ev.id.Some? ==>
      var details := ScheduleDetails(ev.freeformTags, Config.ProcessedTag(env), nowMicros);
      var reply := c.update(|old(c.trace)|, ev.id.value, details);
      var wr := Oci.WorkRequestOf(reply);
      r == ScheduleOutcome(reply, final) &&
      c.trace == old(c.trace) + [UpdateCalled(ev.id.value, details)] + (if wr.Some? then [WorkRequestWaited(wr.value)] else [])
    ensures c.audit == old(c.audit)
  {
    var tag := ConfigAttr("PROCESSED_TAG", env);
    var name := tag.value.value.s;
    tags := ev.freeformTags;
    tags := tags[name := JBool(true)];
    if ev.id.None? {
      return Err("ValueError"), tags;
    }
    var details := UpdateDetails(Some(tags), None, Some(LocalIso(nowMicros)));
    var reply := c.UpdateMaintenanceEvent(ev.id.value, details);
    if reply.UpdateRaised? {
      return Err("ServiceError"), tags;
    }
    if reply.UpdateNone? {
      return Err("AttributeError"), tags;
    }
    if Oci.WorkRequestHeader !in reply.headers {
      return Err("ValueError"), tags;
    }
    c.WaitWorkRequest(reply.headers[Oci.WorkRequestHeader]);
    if StatusRaises(final) {
      return Err("Exception"), tags;
    }
    r := Ok(());
  }

  /** Scheduling marks the event processed, so the newer discovery skips it on
      its next run. */
  lemma ScheduledEventIsMarked(ev: Event, env: map<string, string>)
    ensures var tags := MarkedTags(ev.freeformTags, Config.ProcessedTag(env));
            Truthy(DictGet(tags, Config.ProcessedTag(env), JNull))
  {
  }
}
