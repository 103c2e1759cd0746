/** The OCI and inventory adapter of the maintenance tool: the compartment list,
    the maintenance-event update and its work-request id, the completion test of
    an event, and the OCID-to-hostname lookups read from the MGMT node list. */
module Oci {
  import opened Wrappers
  import opened PyJson
  import opened Utils
  import opened Models
  import opened World

  // ---------------------------------------------------------------------------
  // Compartments

  /** The compartments searched for events: the tenancy, then every compartment
      the paged listing under it returns, in page order. */
  function Compartments(tenancy: string, listed: Option<string> -> Page<string>, maxCalls: nat): seq<string> {
    [tenancy] + PagedItems(listed, maxCalls)
  }

  /** `list_compartments`: starts the list with the tenancy and appends the id of
      each listed compartment. */
  method ListCompartments(tenancy: string, listed: Option<string> -> Page<string>, maxCalls: nat)
    returns (ids: seq<string>)
    ensures ids == Compartments(tenancy, listed, maxCalls)
  {
    var items := PagedList(listed, maxCalls);
    ids := [tenancy];
    var i := 0;
    while i < |items|
      invariant 0 <= i <= |items|
      invariant ids == [tenancy] + items[..i]
    {
      ids := ids + [items[i]];
      i := i + 1;
    }
    assert items[..|items|] == items;
  }

  /** The tenancy is always searched, and it is searched first. */
  lemma CompartmentsTenancyFirst(tenancy: string, listed: Option<string> -> Page<string>, maxCalls: nat)
    ensures |Compartments(tenancy, listed, maxCalls)| == 1 + |PagedItems(listed, maxCalls)|
    ensures Compartments(tenancy, listed, maxCalls)[0] == tenancy
    ensures Compartments(tenancy, listed, maxCalls)[1..] == PagedItems(listed, maxCalls)
  {
  }

  // ---------------------------------------------------------------------------
  // Maintenance-event update

  const WorkRequestHeader: string := "opc-work-request-id"

  /** A tags argument Python treats as true: given and not empty. */
  predicate TruthyTags(tags: Option<map<string, Json>>) {
    tags.Some? && tags.value != map[]
  }

  /** The update details `trigger_update` builds: each optional argument is
      passed on when it is truthy and left unset otherwise. A window start is
      never empty text, so it is passed on whenever it is given. */
  function DetailsOf(freeformTags: Option<map<string, Json>>, definedTags: Option<map<string, Json>>,
                     timeWindowStart: Option<WindowStart>): (d: UpdateDetails)
    ensures d.freeformTags.Some? <==> TruthyTags(freeformTags)
    ensures d.definedTags.Some? <==> TruthyTags(definedTags)
    ensures d.freeformTags.Some? ==> d.freeformTags == freeformTags
    ensures d.definedTags.Some? ==> d.definedTags == definedTags
    ensures d.timeWindowStart == timeWindowStart
  {
    UpdateDetails(if TruthyTags(freeformTags) then freeformTags else None,
                  if TruthyTags(definedTags) then definedTags else None,
                  timeWindowStart)
  }

  /** What `trigger_update` returns for a reply: the work-request header when the
      call returned a response that carries it, else None (also when it raised). */
  function WorkRequestOf(reply: UpdateReply): (r: Option<string>)
    ensures r.Some? <==> reply.UpdateResponse? && WorkRequestHeader in reply.headers
    ensures r.Some? ==> r.value == reply.headers[WorkRequestHeader]
  {
    match reply
    case UpdateResponse(headers) =>
      if WorkRequestHeader in headers then Some(headers[WorkRequestHeader]) else None
    case _ => None
  }

  /** `trigger_update`: one update call with the truthy arguments; when the reply
      names a work request, the tool waits on it (a wait that never raises) and
      returns its id. */
  method TriggerUpdate(c: Cluster, eventId: string, freeformTags: Option<map<string, Json>>,
                       definedTags: Option<map<string, Json>>, timeWindowStart: Option<WindowStart>)
    returns (wr: Option<string>)
    modifies c
    ensures wr == WorkRequestOf(c.update(|old(c.trace)|, eventId, DetailsOf(freeformTags, definedTags, timeWindowStart)))
    ensures c.trace == old(c.trace) + [UpdateCalled(eventId, DetailsOf(freeformTags, definedTags, timeWindowStart))]
                       + (if wr.Some? then [WorkRequestWaited(wr.value)] else [])
    ensures c.audit == old(c.audit)
  {
    var details := UpdateDetails(None, None, None);
    if freeformTags.Some? && freeformTags.value != map[] {
      details := details.(freeformTags := freeformTags);
    }
    if definedTags.Some? && definedTags.value != map[] {
      details := details.(definedTags := definedTags);
    }
    if timeWindowStart.Some? {
      details := details.(timeWindowStart := timeWindowStart);
    }
    var reply := c.UpdateMaintenanceEvent(eventId, details);
    if reply.UpdateResponse? && WorkRequestHeader in reply.headers {
      wr := Some(reply.headers[WorkRequestHeader]);
      c.WaitWorkRequest(wr.value);
    } else {
      wr := None;
    }
  }

  /** A raised call, a None reply and a reply without the header all give None,
      so the caller cannot tell them apart; any reply with the header is accepted,
      whatever the rest of it says. */
  lemma WorkRequestRejections(headers: map<string, string>)
    ensures WorkRequestOf(UpdateRaised) == None && WorkRequestOf(UpdateNone) == None
    ensures WorkRequestOf(UpdateResponse(headers)).Some? <==> WorkRequestHeader in headers
  {
  }

  // ---------------------------------------------------------------------------
  // Event completion

  /** The lifecycle states `is_event_complete` treats as final. */
  predicate FinalEventState(state: Option<string>) {
    state.Some? && state.value in {"SUCCEEDED", "FAILED", "CANCELED", "COMPLETED"}
  }

  /** `is_event_complete` on the reply of the event fetch: false when the call
      raised, returned None or returned no data. */
  function EventComplete(reply: EventReply): (r: bool)
    ensures r ==> reply.EventResponse? && reply.data.Some?
    ensures reply.EventResponse? && reply.data.Some? ==> (r <==> FinalEventState(reply.data.value.lifecycleState))
  {
    match reply
    case EventResponse(Some(ev)) => FinalEventState(ev.lifecycleState)
    case _ => false
  }

  /** An event still scheduled, started or in progress is not complete, and a
      missing reply never counts as completion. */
  lemma EventCompleteStates(ev: Event)
    ensures ev.lifecycleState in {Some("SCHEDULED"), Some("STARTED"), Some("PROCESSING"), None} ==>
      !EventComplete(EventResponse(Some(ev)))
    ensures ev.lifecycleState in {Some("SUCCEEDED"), Some("FAILED"), Some("CANCELED"), Some("COMPLETED")} ==>
      EventComplete(EventResponse(Some(ev)))
    ensures !EventComplete(EventRaised) && !EventComplete(EventNone) && !EventComplete(EventResponse(None))
  {
  }

  method IsEventComplete(c: Cluster, eventId: string) returns (r: bool)
    modifies c
    ensures c.trace == old(c.trace) + [EventFetched(Some(eventId))] && c.audit == old(c.audit)
    ensures r == EventComplete(c.fetch(|old(c.trace)|, Some(eventId)))
  {
    var reply := c.GetMaintenanceEvent(Some(eventId));
    r := match reply
      case EventResponse(Some(ev)) => ev.lifecycleState.Some? && ev.lifecycleState.value in {"SUCCEEDED", "FAILED", "CANCELED", "COMPLETED"}
      case _ => false;
  }

  // ---------------------------------------------------------------------------
  // Hostnames from the MGMT node list

  /** One node of the MGMT list read as a host-map entry: `n["ocid"]`, then the
      hostname, `n["hostname"]` when `strict`, else `n.get("hostname", "")`.
      A node that is not an object cannot be indexed by a string key. */
  function NodeEntry(n: Json, strict: bool): (r: Result<(Json, Json)>)
    ensures r.Ok? <==> n.JObj? && HasKey(n.fields, "ocid") && (strict ==> HasKey(n.fields, "hostname"))
    ensures r.Ok? ==> Index(n.fields, "ocid") == Ok(r.value.0)
  {
    match n
    case JObj(fs) =>
      (match Index(fs, "ocid")
       case Err(e) => Err(e)
       case Ok(k) =>
         if strict then
           (match Index(fs, "hostname")
            case Err(e) => Err(e)
            case Ok(h) => Ok((k, h)))
         else Ok((k, GetDefault(fs, "hostname", JStr("")))))
    case _ => Err("TypeError")
  }

  /** The dict comprehension `{n["ocid"]: <hostname> for n in nodes}`: the
      entries are inserted in list order, so a later node with the same OCID
      replaces an earlier one; the first node that cannot be read, or whose OCID
      is a list or an object (unhashable), raises. */
  function NodeMap(nodes: seq<Json>, strict: bool): Result<map<Json, Json>>
    decreases |nodes|
  {
    if nodes == [] then Ok(map[])
    else
      match NodeMap(nodes[..|nodes| - 1], strict)
      case Err(e) => Err(e)
      case Ok(m) =>
        match NodeEntry(nodes[|nodes| - 1], strict)
        case Err(e) => Err(e)
        case Ok(entry) =>
          if Unhashable(entry.0) then Err("TypeError") else Ok(m[entry.0 := entry.1])
  }

  /** Every node of a map that was built could be read and has a hashable OCID. */
  predicate EntriesReadable(nodes: seq<Json>, strict: bool) {
    forall i :: 0 <= i < |nodes| ==> Readable(nodes[i], strict)
  }

  /** The node can be read and its OCID can be a dictionary key. */
  predicate Readable(n: Json, strict: bool) {
    NodeEntry(n, strict).Ok? && !Unhashable(NodeEntry(n, strict).value.0)
  }

  /** The map is built exactly when every node is readable. */
  lemma {:induction false} NodeMapOk(nodes: seq<Json>, strict: bool)
    ensures NodeMap(nodes, strict).Ok? <==> EntriesReadable(nodes, strict)
    decreases |nodes|
  {
    if nodes != [] {
      var init := nodes[..|nodes| - 1];
      NodeMapOk(init, strict);
      assert NodeMap(nodes, strict).Ok? <==> NodeMap(init, strict).Ok? && Readable(nodes[|nodes| - 1], strict);
      if EntriesReadable(nodes, strict) {
        forall i | 0 <= i < |init|
          ensures Readable(init[i], strict)
        {
          assert init[i] == nodes[i];
        }
      }
      if EntriesReadable(init, strict) && Readable(nodes[|nodes| - 1], strict) {
        forall i | 0 <= i < |nodes|
          ensures Readable(nodes[i], strict)
        {
          if i < |init| {
            assert init[i] == nodes[i];
          }
        }
      }
    }
  }

  /** A built map sends each OCID to the hostname of the last node carrying it. */
  lemma {:induction false} NodeMapLast(nodes: seq<Json>, strict: bool, i: nat)
    requires NodeMap(nodes, strict).Ok? && i < |nodes|
    requires EntriesReadable(nodes, strict)
    requires forall j :: i < j < |nodes| ==> NodeEntry(nodes[j], strict).value.0 != NodeEntry(nodes[i], strict).value.0
    ensures NodeEntry(nodes[i], strict).value.0 in NodeMap(nodes, strict).value
    ensures NodeMap(nodes, strict).value[NodeEntry(nodes[i], strict).value.0] == NodeEntry(nodes[i], strict).value.1
    decreases |nodes|
  {
    var init := nodes[..|nodes| - 1];
    var entry := NodeEntry(nodes[|nodes| - 1], strict).value;
    assert NodeMap(nodes, strict).value == NodeMap(init, strict).value[entry.0 := entry.1];
    if i < |nodes| - 1 {
      assert init[i] == nodes[i];
      assert EntriesReadable(init, strict) by {
        assert forall k :: 0 <= k < |init| ==> init[k] == nodes[k];
      }
      forall j | i < j < |init|
        ensures NodeEntry(init[j], strict).value.0 != NodeEntry(init[i], strict).value.0
      {
        assert init[j] == nodes[j];
      }
      NodeMapLast(init, strict, i);
    }
  }

  /** A built map holds no OCID that no node carries. */
  lemma {:induction false} NodeMapKeys(nodes: seq<Json>, strict: bool, k: Json)
    requires NodeMap(nodes, strict).Ok? && k in NodeMap(nodes, strict).value
    ensures exists i :: 0 <= i < |nodes| && NodeEntry(nodes[i], strict).Ok? && NodeEntry(nodes[i], strict).value.0 == k
    decreases |nodes|
  {
    var init := nodes[..|nodes| - 1];
    var entry := NodeEntry(nodes[|nodes| - 1], strict).value;
    assert NodeMap(nodes, strict).value == NodeMap(init, strict).value[entry.0 := entry.1];
    if k != entry.0 {
      NodeMapKeys(init, strict, k);
      var i :| 0 <= i < |init| && NodeEntry(init[i], strict).Ok? && NodeEntry(init[i], strict).value.0 == k;
      assert nodes[i] == init[i];
    }
  }

  /** Duplicates: when two nodes carry the same OCID, the later one's hostname is
      the one kept. */
  lemma NodeMapLaterWins(earlier: Json, later: Json, strict: bool)
    requires NodeEntry(earlier, strict).Ok? && NodeEntry(later, strict).Ok?
    requires NodeEntry(earlier, strict).value.0 == NodeEntry(later, strict).value.0
    requires !Unhashable(NodeEntry(later, strict).value.0)
    ensures NodeMap([earlier, later], strict) ==
      Ok(map[NodeEntry(later, strict).value.0 := NodeEntry(later, strict).value.1])
  {
    assert [earlier, later][..1] == [earlier];
    assert [earlier][..0] == [];
    var e := NodeEntry(earlier, strict).value;
    var l := NodeEntry(later, strict).value;
    assert NodeMap([earlier], strict) == Ok(map[][e.0 := e.1]);
    assert NodeMap([earlier, later], strict) == Ok(map[][e.0 := e.1][l.0 := l.1]);
    assert map[][e.0 := e.1][l.0 := l.1] == map[l.0 := l.1];
  }

  /** The host map read from the output of the node-list command (`parse`
      stands for `json.loads`, None when the text is not JSON). */
  function HostMapOf(out: string, parse: string -> Option<Json>, strict: bool): (r: Result<map<Json, Json>>)
    ensures parse(out).None? ==> r.Err?
  {
    match parse(out)
    case None => Err("JSONDecodeError")
    case Some(doc) =>
      match Iterate(doc)
      case None => Err("TypeError")
      case Some(nodes) => NodeMap(nodes, strict)
  }

  /** The inventory command `get_gpus_for_ocid` runs. */
  function NodesListArgv(): seq<string> {
    ["/config/venv/Ubuntu_22.04_x86_64/bin/python3", "/config/mgmt/manage.py", "nodes", "list", "json"]
  }

  /** `get_gpus_for_ocid` on the result of the command: a one-element list holding
      the hostname of the OCID, or `""` when the inventory does not know it. A
      failed command, unreadable output or an unreadable node raises. */
  function GpusFor(p: Proc, ocid: string, parse: string -> Option<Json>): (r: Result<seq<Json>>)
    ensures r.Ok? <==> p.returnCode == 0 && HostMapOf(p.stdout, parse, false).Ok?
    ensures r.Ok? ==> |r.value| == 1
    ensures r.Ok? ==> r.value[0] == (var m := HostMapOf(p.stdout, parse, false).value;
                                    if JStr(ocid) in m then m[JStr(ocid)] else JStr(""))
  {
    if p.returnCode != 0 then Err("CalledProcessError")
    else
      match HostMapOf(p.stdout, parse, false)
      case Err(e) => Err(e)
      case Ok(m) => Ok([if JStr(ocid) in m then m[JStr(ocid)] else JStr("")])
  }

  method GetGpusForOcid(c: Cluster, ocid: string, parse: string -> Option<Json>) returns (r: Result<seq<Json>>)
    modifies c
    ensures c.trace == old(c.trace) + [Exec(NodesListArgv())] && c.audit == old(c.audit)
    ensures r == GpusFor(c.run(|old(c.trace)|, NodesListArgv()), ocid, parse)
  {
    var out := c.CheckOutput(NodesListArgv());
    if out.Err? {
      return Err(out.error);
    }
    var hosts := HostMapOf(out.value, parse, false);
    if hosts.Err? {
      return Err(hosts.error);
    }
    r := Ok([if JStr(ocid) in hosts.value then hosts.value[JStr(ocid)] else JStr("")]);
  }

  /** The lookup `get_gpus_for_ocid` makes for an OCID at a trace position. */
  function GpusQuery(run: (nat, seq<string>) -> Proc, parse: string -> Option<Json>): (nat, string) -> Result<seq<Json>> {
    (p: nat, ocid: string) => GpusFor(run(p, NodesListArgv()), ocid, parse)
  }

  /** The dict `get_gpu_ocid_dict` builds from the OCIDs still to look up, the
      first lookup made at trace position `pos`, onto the entries `acc` already
      made; and how many lookups that takes (each runs the command once). */
  function GpuDictFrom(lookup: (nat, string) -> Result<seq<Json>>, pos: nat,
                       ocids: seq<string>, acc: map<string, seq<Json>>): (Result<map<string, seq<Json>>>, nat)
    decreases |ocids|
  {
    if ocids == [] then (Ok(acc), 0)
    else
      match lookup(pos, ocids[0])
      case Err(e) => (Err(e), 1)
      case Ok(g) =>
        var rest := GpuDictFrom(lookup, pos + 1, ocids[1..], acc[ocids[0] := g]);
        (rest.0, rest.1 + 1)
  }

  /** `get_gpu_ocid_dict`: one lookup per OCID, in order; the first failing
      lookup raises out of the loop. */
  method GetGpuOcidDict(c: Cluster, ocids: seq<string>, parse: string -> Option<Json>)
    returns (r: Result<map<string, seq<Json>>>)
    modifies c
    ensures r == GpuDictFrom(GpusQuery(c.run, parse), |old(c.trace)|, ocids, map[]).0
    ensures c.trace == old(c.trace) + seq(GpuDictFrom(GpusQuery(c.run, parse), |old(c.trace)|, ocids, map[]).1, _ => Exec(NodesListArgv()))
    ensures c.audit == old(c.audit)
  {
    GpusQueryIs(c.run, parse);
    r := GpuDictLoop(c, ocids, parse, GpusQuery(c.run, parse));
  }

  /** `lookup` answers what the node-list command run at each position says of
      each OCID. */
  ghost predicate IsGpusQuery(lookup: (nat, string) -> Result<seq<Json>>, run: (nat, seq<string>) -> Proc,
                              parse: string -> Option<Json>) {
    forall p: nat, ocid: string {:trigger GpusFor(run(p, NodesListArgv()), ocid, parse)} ::
      lookup(p, ocid) == GpusFor(run(p, NodesListArgv()), ocid, parse)
  }

  lemma GpusQueryIs(run: (nat, seq<string>) -> Proc, parse: string -> Option<Json>)
    ensures IsGpusQuery(GpusQuery(run, parse), run, parse)
  {
  }

  /** The loop of `get_gpu_ocid_dict`, stated for any `lookup` that answers as
      the command does. */
  method GpuDictLoop(c: Cluster, ocids: seq<string>, parse: string -> Option<Json>,
                     ghost lookup: (nat, string) -> Result<seq<Json>>)
    returns (r: Result<map<string, seq<Json>>>)
    requires IsGpusQuery(lookup, c.run, parse)
    modifies c
    ensures r == GpuDictFrom(lookup, |old(c.trace)|, ocids, map[]).0
    ensures c.trace == old(c.trace) + seq(GpuDictFrom(lookup, |old(c.trace)|, ocids, map[]).1, _ => Exec(NodesListArgv()))
    ensures c.audit == old(c.audit)
  {
    ghost var t0 := c.trace;
    ghost var total := GpuDictFrom(lookup, |t0|, ocids, map[]);
    var dict: map<string, seq<Json>> := map[];
    var i := 0;
    while i < |ocids|
      invariant 0 <= i <= |ocids|
      invariant c.trace == t0 + seq(i, _ => Exec(NodesListArgv())) && c.audit == old(c.audit)
      invariant total.0 == GpuDictFrom(lookup, |c.trace|, ocids[i..], dict).0
      invariant total.1 == i + GpuDictFrom(lookup, |c.trace|, ocids[i..], dict).1
    {
      ghost var pos := |c.trace|;
      var gpus := GetGpusForOcid(c, ocids[i], parse);
      assert gpus == lookup(pos, ocids[i]);
      GpuDictNext(lookup, pos, ocids, i, dict, gpus);
      assert seq(i, _ => Exec(NodesListArgv())) + [Exec(NodesListArgv())] == seq(i + 1, _ => Exec(NodesListArgv()));
      if gpus.Err? {
        return Err(gpus.error);
      }
      dict := dict[ocids[i] := gpus.value];
      assert |c.trace| == pos + 1;
      i := i + 1;
    }
    r := Ok(dict);
  }

  /** One more lookup: a failure ends the dict there, an answer is entered and
      the rest follow from the next position. */
  lemma GpuDictNext(lookup: (nat, string) -> Result<seq<Json>>, pos: nat, ocids: seq<string>, i: nat,
                    dict: map<string, seq<Json>>, gpus: Result<seq<Json>>)
    requires i < |ocids| && gpus == lookup(pos, ocids[i])
    ensures var d := GpuDictFrom(lookup, pos, ocids[i..], dict);
      if gpus.Err? then d == (Err(gpus.error), 1)
      else
        var rest := GpuDictFrom(lookup, pos + 1, ocids[i + 1..], dict[ocids[i] := gpus.value]);
        d == (rest.0, rest.1 + 1)
  {
    assert ocids[i..][0] == ocids[i];
    assert ocids[i..][1..] == ocids[i + 1..];
  }

  /** When the dict is built, every OCID asked for is a key, each holds a
      one-element list, nothing else is added, and the command ran once per OCID. */
  lemma {:induction false} GpuDictKeys(run: (nat, seq<string>) -> Proc, parse: string -> Option<Json>, pos: nat,
                                       ocids: seq<string>, acc: map<string, seq<Json>>)
    requires forall k :: k in acc ==> |acc[k]| == 1
    requires GpuDictFrom(GpusQuery(run, parse), pos, ocids, acc).0.Ok?
    ensures GpuDictFrom(GpusQuery(run, parse), pos, ocids, acc).0.value.Keys == acc.Keys + set x | x in ocids
    ensures forall k :: k in GpuDictFrom(GpusQuery(run, parse), pos, ocids, acc).0.value ==>
      |GpuDictFrom(GpusQuery(run, parse), pos, ocids, acc).0.value[k]| == 1
    ensures GpuDictFrom(GpusQuery(run, parse), pos, ocids, acc).1 == |ocids|
    decreases |ocids|
  {
    if ocids != [] {
      var g := GpusFor(run(pos, NodesListArgv()), ocids[0], parse).value;
      GpuDictKeys(run, parse, pos + 1, ocids[1..], acc[ocids[0] := g]);
      assert ocids == [ocids[0]] + ocids[1..];
      assert (set x | x in ocids) == {ocids[0]} + set x | x in ocids[1..];
    }
  }
}
