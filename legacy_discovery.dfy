/** Discovery in the older copy of the tool: the same walk over compartments and
    pages, with a real three-state screen, a fault string read only from
    `fault_details` with its keys indexed directly, and no fault ids. */
module LegacyDiscovery {
  import opened Wrappers
  import opened Text
  import opened PyJson
  import opened Utils
  import opened Models
  import opened LegacyModels
  import opened World
  import opened Common
  import opened Oci
  import opened Discovery

  /** `if ev_sum.lifecycle_state not in ("SCHEDULED", "STARTED", "PROCESSING"):
      continue`: a tuple test, so a missing state is simply dropped. */
  function LegacyScreen(state: Option<string>): (r: Screen)
    ensures !r.ScreenRaised?
    ensures r == Kept <==> state.Some? && state.value in ["SCHEDULED", "STARTED", "PROCESSING"]
  {
    if state.Some? && state.value in ["SCHEDULED", "STARTED", "PROCESSING"] then Kept else Dropped
  }

  /** The older screen keeps every state the newer one keeps among the
      provider's states, and also the two in-progress ones the newer one drops. */
  lemma LegacyScreenWider(state: string)
    requires state in ["SCHEDULED", "STARTED", "PROCESSING", "SUCCEEDED", "FAILED", "CANCELED", "COMPLETED"]
    ensures ScreenScheduled(Some(state)) == Kept ==> LegacyScreen(Some(state)) == Kept
    ensures LegacyScreen(Some(state)) == Kept && ScreenScheduled(Some(state)) != Kept <==>
            state == "STARTED" || state == "PROCESSING"
  {
    ScreenScheduledProviderStates(state);
  }

  /** One detail as `f"{d['fault_id']}_{d['component']}"`: a detail that is not a
      dict cannot be indexed by a string (TypeError); a missing key raises
      KeyError, the id looked up first. */
  function LegacyFaultPiece(d: Json): (r: Result<string>)
    ensures r.Ok? <==> d.JObj? && HasKey(d.fields, "fault_id") && HasKey(d.fields, "component")
    ensures r.Ok? ==> r.value == PyStr(Get(d.fields, "fault_id")) + "_" + PyStr(Get(d.fields, "component"))
  {
    match d
    case JObj(fs) =>
      (match Index(fs, "fault_id")
       case Err(e) => Err(e)
       case Ok(id) =>
         match Index(fs, "component")
         case Err(e) => Err(e)
         case Ok(comp) => Ok(PyStr(id) + "_" + PyStr(comp)))
    case _ => Err("TypeError")
  }

  /** The pieces of the details in order; the first detail that raises ends the
      generator, and with it the `join`. */
  function LegacyFaultPieces(details: seq<Json>): Result<seq<string>>
    decreases |details|
  {
    if details == [] then Ok([])
    else
      match LegacyFaultPiece(details[0])
      case Err(e) => Err(e)
      case Ok(p) =>
        match LegacyFaultPieces(details[1..])
        case Err(e) => Err(e)
        case Ok(ps) => Ok([p] + ps)
  }

  /** The pieces exist exactly when every detail is a dict holding both keys, and
      then there is one piece per detail, in order. */
  lemma {:induction false} LegacyFaultPiecesOk(details: seq<Json>)
    ensures LegacyFaultPieces(details).Ok? <==>
      forall i :: 0 <= i < |details| ==> LegacyFaultPiece(details[i]).Ok?
    ensures LegacyFaultPieces(details).Ok? ==>
      |LegacyFaultPieces(details).value| == |details| &&
      forall i :: 0 <= i < |details| ==> LegacyFaultPieces(details).value[i] == LegacyFaultPiece(details[i]).value
    decreases |details|
  {
    PiecesAreEach(details);
    EachOkAll(LegacyFaultPiece, details);
  }

  /** Applies `f` to each element in order, stopping at the first error. */
  function Each<A, B>(f: A -> Result<B>, xs: seq<A>): Result<seq<B>>
    decreases |xs|
  {
    if xs == [] then Ok([])
    else
      match f(xs[0])
      case Err(e) => Err(e)
      case Ok(y) =>
        match Each(f, xs[1..])
        case Err(e) => Err(e)
        case Ok(ys) => Ok([y] + ys)
  }

  lemma {:induction false} PiecesAreEach(details: seq<Json>)
    ensures LegacyFaultPieces(details) == Each(LegacyFaultPiece, details)
    decreases |details|
  {
    if details != [] {
      PiecesAreEach(details[1..]);
    }
  }

  lemma {:induction false} EachOkAll<A, B>(f: A -> Result<B>, xs: seq<A>)
    ensures Each(f, xs).Ok? <==> forall i :: 0 <= i < |xs| ==> f(xs[i]).Ok?
    ensures Each(f, xs).Ok? ==>
      |Each(f, xs).value| == |xs| && forall i :: 0 <= i < |xs| ==> Each(f, xs).value[i] == f(xs[i]).value
    decreases |xs|
  {
    if xs != [] {
      var tail := xs[1..];
      EachOkAll(f, tail);
      forall i | 0 < i < |xs| ensures xs[i] == tail[i - 1] { }
      match f(xs[0])
      case Err(_) => { }
      case Ok(y) =>
        match Each(f, tail)
        case Err(_) => {
          var j :| 0 <= j < |tail| && !f(tail[j]).Ok?;
          assert !f(xs[j + 1]).Ok?;
        }
        case Ok(ys) => {
          assert Each(f, xs) == Ok([y] + ys);
        }
    }
  }

  /** `"_".join(... for d in (ev.additional_details or {}).get('fault_details', []))`.
      A value that is not iterable raises TypeError. */
  function LegacyFaultStr(additional: Option<map<string, Json>>): (r: Result<string>)
    ensures DictGet(additional.GetOr(map[]), "fault_details", JArr([])) == JArr([]) ==> r == Ok("")
  {
    match Iterate(DictGet(additional.GetOr(map[]), "fault_details", JArr([])))
    case None => Err("TypeError")
    case Some(details) =>
      match LegacyFaultPieces(details)
      case Err(e) => Err(e)
      case Ok(ps) => Ok(Join("_", ps))
  }

  /** When every detail carries a truthy `fault_id` and `component`, both copies
      build the same fault string. */
  lemma LegacyFaultStrAgrees(details: seq<seq<(string, Json)>>)
    requires forall i :: 0 <= i < |details| ==>
      Truthy(Get(details[i], "fault_id")) && Truthy(Get(details[i], "component"))
    ensures var objs := seq(|details|, i requires 0 <= i < |details| => JObj(details[i]));
            LegacyFaultStr(Some(map["fault_details" := JArr(objs)])) == Ok(FaultStr(details))
  {
    var objs := seq(|details|, i requires 0 <= i < |details| => JObj(details[i]));
    assert DictGet(map["fault_details" := JArr(objs)], "fault_details", JArr([])) == JArr(objs);
    LegacyFaultPiecesOk(objs);
    forall i | 0 <= i < |objs| ensures LegacyFaultPiece(objs[i]).Ok? {
      assert Get(details[i], "fault_id") != JNull && Get(details[i], "component") != JNull;
    }
    var ps := LegacyFaultPieces(objs).value;
    var newer := seq(|details|, i requires 0 <= i < |details| => FaultPiece(details[i]));
    assert ps == newer by {
      forall i | 0 <= i < |details| ensures ps[i] == newer[i] {
        assert FaultIdOf(details[i]) == Get(details[i], "fault_id");
        assert ComponentOf(details[i]) == Get(details[i], "component");
      }
    }
  }

  /** What the older discovery does with the reply to a detail fetch. */
  function LegacyReplyStep(hmap: map<Json, Json>, tag: string, reply: EventReply): (r: Step<Found>)
    ensures reply.EventNone? ==> r == Skipped
    ensures reply.EventResponse? && reply.data.Some? && Truthy(DictGet(reply.data.value.freeformTags, tag, JNull)) ==> r == Skipped
    ensures r.Emitted? ==> reply.EventResponse? && reply.data.Some? && r.found.event == reply.data.value
    ensures r.Emitted? ==> r.found.faultIds == [] && LegacyFaultStr(r.found.event.additionalDetails) == Ok(r.found.faultStr)
    ensures r.Emitted? ==> (var key := if r.found.event.instanceId.Some? then JStr(r.found.event.instanceId.value) else JNull;
                            key in hmap && Truthy(hmap[key]) && r.found.hostname == PyStr(hmap[key]))
  {
    match reply
    case EventRaised => StepRaised("ServiceError")
    case EventNone => Skipped
    case EventResponse(None) => StepRaised("AttributeError")
    case EventResponse(Some(ev)) =>
      if Truthy(DictGet(ev.freeformTags, tag, JNull)) then Skipped
      else
        match LegacyFaultStr(ev.additionalDetails)
        case Err(e) => StepRaised(e)
        case Ok(faults) =>
          var key := if ev.instanceId.Some? then JStr(ev.instanceId.value) else JNull;
          var host := if key in hmap then hmap[key] else JNull;
          if Truthy(host) then Emitted(Found(ev, PyStr(host), faults, []))
          else Skipped
  }

  /** The converse: a fetched event that is not tagged, whose fault string
      builds and whose instance has a truthy hostname in the host map always
      makes a job. */
  lemma LegacyReplyStepEmits(hmap: map<Json, Json>, tag: string, ev: Event)
    ensures LegacyReplyStep(hmap, tag, EventResponse(Some(ev))).Emitted? <==>
      !Truthy(DictGet(ev.freeformTags, tag, JNull)) &&
      LegacyFaultStr(ev.additionalDetails).Ok? &&
      (var key := if ev.instanceId.Some? then JStr(ev.instanceId.value) else JNull;
       key in hmap && Truthy(hmap[key]))
  {
  }

  /** The older discovery's step, as a value the fold can take. */
  function LegacyStep(hmap: map<Json, Json>, tag: string): (Event, EventReply) -> Step<Found> {
    (sum: Event, reply: EventReply) => LegacyReplyStep(hmap, tag, reply)
  }

  /** The whole of the older `discover` before jobs are built. */
  function LegacyDiscoverOutcome(run: (nat, seq<string>) -> Proc, fetch: (nat, Option<string>) -> EventReply,
                                 pos: nat, tag: string, parse: string -> Option<Json>, tenancy: string,
                                 listedComps: Option<string> -> Page<string>,
                                 listedEvents: string -> Option<string> -> Page<Event>, maxCalls: nat)
    : (seq<Effect>, Result<seq<Found>>)
  {
    match RunOutcome(run(pos, NodesListArgv()), true)
    case Err(e) => ([Exec(NodesListArgv())], Err(e))
    case Ok(out) =>
      match HostMapOf(out, parse, true)
      case Err(e) => ([Exec(NodesListArgv())], Err(e))
      case Ok(hmap) =>
        var sums := SummariesOf(listedEvents, Compartments(tenancy, listedComps, maxCalls), maxCalls);
        var d := Discovered(fetch, LegacyScreen, LegacyStep(hmap, tag), pos + 1, sums);
        ([Exec(NodesListArgv())] + d.0, d.1)
  }

  /** The older jobs are new records holding the discovered data, every field the
      phases fill still at its default. */
  predicate LegacyJobsHold(jobs: seq<LegacyJob>, found: seq<Found>)
    reads jobs
  {
    |jobs| == |found| &&
    forall i :: 0 <= i < |jobs| ==>
      jobs[i].event == found[i].event && jobs[i].hostname == found[i].hostname &&
      jobs[i].faultStr == found[i].faultStr &&
      jobs[i].workRequest.None? && !jobs[i].done && jobs[i].healthOk.None?
  }

  /** One new older-style job per finding, in order. */
  method MakeLegacyJobs(found: seq<Found>) returns (jobs: seq<LegacyJob>)
    ensures LegacyJobsHold(jobs, found)
    ensures forall i :: 0 <= i < |jobs| ==> fresh(jobs[i])
    ensures forall i, j :: 0 <= i < j < |jobs| ==> jobs[i] != jobs[j]
  {
    jobs := [];
    var i := 0;
    while i < |found|
      invariant 0 <= i <= |found|
      invariant LegacyJobsHold(jobs, found[..i])
      invariant forall k :: 0 <= k < |jobs| ==> fresh(jobs[k])
      invariant forall k, l :: 0 <= k < l < |jobs| ==> jobs[k] != jobs[l]
    {
      var f := found[i];
      var job := new LegacyJob(f.event, f.hostname, f.faultStr);
      jobs := jobs + [job];
      i := i + 1;
    }
    assert found[..i] == found;
  }

  /** The older `discover`. */
  method LegacyDiscover(c: Cluster, tag: string, parse: string -> Option<Json>, tenancy: string,
                        listedComps: Option<string> -> Page<string>,
                        listedEvents: string -> Option<string> -> Page<Event>, maxCalls: nat)
    returns (r: Result<seq<LegacyJob>>)
    modifies c
    ensures var outcome := LegacyDiscoverOutcome(c.run, c.fetch, |old(c.trace)|, tag, parse, tenancy, listedComps, listedEvents, maxCalls);
            c.trace == old(c.trace) + outcome.0 && (r.Ok? <==> outcome.1.Ok?) &&
            (r.Err? ==> outcome.1 == Err(r.error)) &&
            (r.Ok? ==> LegacyJobsHold(r.value, outcome.1.value))
    ensures r.Ok? ==> forall i :: 0 <= i < |r.value| ==> fresh(r.value[i])
    ensures r.Ok? ==> forall i, j :: 0 <= i < j < |r.value| ==> r.value[i] != r.value[j]
    ensures c.audit == old(c.audit)
  {
    ghost var t0 := c.trace;
    var out := c.RunCmd(NodesListArgv(), true);
    if out.Err? {
      return Err(out.error);
    }
    var hosts := HostMapOf(out.value, parse, true);
    if hosts.Err? {
      return Err(hosts.error);
    }
    var comps := ListCompartments(tenancy, listedComps, maxCalls);
    ghost var t1 := c.trace;
    var found := DiscoverCompartments(c, LegacyScreen, LegacyStep(hosts.value, tag), comps, listedEvents, maxCalls);
    ghost var d := Discovered(c.fetch, LegacyScreen, LegacyStep(hosts.value, tag), |t1|,
                              SummariesOf(listedEvents, comps, maxCalls));
    assert |t1| == |t0| + 1;
    assert LegacyDiscoverOutcome(c.run, c.fetch, |t0|, tag, parse, tenancy, listedComps, listedEvents, maxCalls)
      == ([Exec(NodesListArgv())] + d.0, d.1);
    ConcatAssoc(t0, [Exec(NodesListArgv())], d.0);
    if found.Err? {
      return Err(found.error);
    }
    var jobs := MakeLegacyJobs(found.value);
    r := Ok(jobs);
  }
}
