/** Discovery: from the host map, the compartments and the pages of event
    summaries listed in each, to the ordered list of maintenance jobs. The fold
    over the summaries is shared with the older copy of the tool, which differs
    in its state screen and in how it reads the fault details. */
module Discovery {
  import opened Wrappers
  import opened Text
  import opened PyJson
  import opened Utils
  import opened Models
  import opened World
  import opened Common
  import opened Oci

  // ---------------------------------------------------------------------------
  // The fold over the listed summaries

  /** What the state filter does with a summary: keeps it, drops it (`continue`)
      or raises. */
  datatype Screen = Kept | Dropped | ScreenRaised(error: string)

  /** The data of a job discovery creates. */
  datatype Found = Found(event: Event, hostname: string, faultStr: string, faultIds: seq<Json>)

  /** What the fold does with one summary and the reply to its detail fetch:
      nothing, one finding of type `T`, or a raise. */
  datatype Step<T> = Skipped | Emitted(found: T) | StepRaised(error: string)

  /** `jobs + rest` when the rest of the run succeeds; its error otherwise. */
  function Prepend<T>(done: seq<T>, rest: Result<seq<T>>): (r: Result<seq<T>>)
    ensures r.Ok? <==> rest.Ok?
    ensures r.Ok? ==> r.value == done + rest.value
  {
    match rest
    case Ok(fs) => Ok(done + fs)
    case Err(e) => Err(e)
  }

  /** The effects and the outcome of discovery over the summaries `sums`, in
      listing order, the first detail fetch made at trace position `pos`: a
      summary the screen keeps has its detail fetched, and `step` decides what
      the reply contributes. The first error ends the run. */
  function Discovered<T>(fetch: (nat, Option<string>) -> EventReply, screen: Option<string> -> Screen,
                         step: (Event, EventReply) -> Step<T>, pos: nat, sums: seq<Event>): (seq<Effect>, Result<seq<T>>)
    decreases |sums|
  {
    if sums == [] then ([], Ok([]))
    else
      match screen(sums[0].lifecycleState)
      case ScreenRaised(e) => ([], Err(e))
      case Dropped => Discovered(fetch, screen, step, pos, sums[1..])
      case Kept =>
        var fetched := EventFetched(sums[0].id);
        match step(sums[0], fetch(pos, sums[0].id))
        case StepRaised(e) => ([fetched], Err(e))
        case Skipped =>
          var rest := Discovered(fetch, screen, step, pos + 1, sums[1..]);
          ([fetched] + rest.0, rest.1)
        case Emitted(f) =>
          var rest := Discovered(fetch, screen, step, pos + 1, sums[1..]);
          ([fetched] + rest.0, Prepend([f], rest.1))
  }

  /** Prepending twice is prepending the two lists joined. */
  lemma PrependTwice<T>(a: seq<T>, b: seq<T>, rest: Result<seq<T>>)
    ensures Prepend(a, Prepend(b, rest)) == Prepend(a + b, rest)
  {
    if rest.Ok? {
      assert a + (b + rest.value) == (a + b) + rest.value;
    }
  }

  /** Discovery over a non-empty run, one summary at a time; `pos'` is the
      position after a fetch. */
  lemma DiscoveredHead<T>(fetch: (nat, Option<string>) -> EventReply, screen: Option<string> -> Screen,
                       step: (Event, EventReply) -> Step<T>, pos: nat, pos': nat, sums: seq<Event>)
    requires sums != [] && pos' == pos + 1
    ensures screen(sums[0].lifecycleState) == Dropped ==>
      Discovered(fetch, screen, step, pos, sums) == Discovered(fetch, screen, step, pos, sums[1..])
    ensures screen(sums[0].lifecycleState) == Kept && step(sums[0], fetch(pos, sums[0].id)) == Skipped ==>
      var rest := Discovered(fetch, screen, step, pos', sums[1..]);
      Discovered(fetch, screen, step, pos, sums) == ([EventFetched(sums[0].id)] + rest.0, rest.1)
    ensures screen(sums[0].lifecycleState) == Kept && step(sums[0], fetch(pos, sums[0].id)).Emitted? ==>
      var rest := Discovered(fetch, screen, step, pos', sums[1..]);
      Discovered(fetch, screen, step, pos, sums)
        == ([EventFetched(sums[0].id)] + rest.0, Prepend([step(sums[0], fetch(pos, sums[0].id)).found], rest.1))
    ensures screen(sums[0].lifecycleState).ScreenRaised? ==>
      Discovered(fetch, screen, step, pos, sums).1.Err?
    ensures screen(sums[0].lifecycleState) == Kept && step(sums[0], fetch(pos, sums[0].id)).StepRaised? ==>
      Discovered(fetch, screen, step, pos, sums).1.Err?
  {
  }

  /** Discovery over two runs of summaries is discovery over the first followed
      by discovery over the second, the second's fetches made after the first's:
      jobs come out in listing order. */
  lemma {:induction false} DiscoveredAppend<T>(fetch: (nat, Option<string>) -> EventReply, screen: Option<string> -> Screen,
                                            step: (Event, EventReply) -> Step<T>, pos: nat, s1: seq<Event>, s2: seq<Event>)
    requires Discovered(fetch, screen, step, pos, s1).1.Ok?
    ensures var d1 := Discovered(fetch, screen, step, pos, s1);
            var d2 := Discovered(fetch, screen, step, pos + |d1.0|, s2);
            Discovered(fetch, screen, step, pos, s1 + s2) == (d1.0 + d2.0, Prepend(d1.1.value, d2.1))
    decreases |s1|
  {
    if s1 == [] {
      assert s1 + s2 == s2;
      var d2 := Discovered(fetch, screen, step, pos, s2);
      assert Discovered(fetch, screen, step, pos, s1) == ([], Ok([]));
      assert [] + d2.0 == d2.0;
      assert Prepend([], d2.1) == d2.1 by {
        if d2.1.Ok? { assert [] + d2.1.value == d2.1.value; }
      }
    } else {
      assert (s1 + s2)[0] == s1[0];
      assert (s1 + s2)[1..] == s1[1..] + s2;
      match screen(s1[0].lifecycleState)
      case ScreenRaised(e) =>
      case Dropped => DiscoveredAppend(fetch, screen, step, pos, s1[1..], s2);
      case Kept =>
        match step(s1[0], fetch(pos, s1[0].id))
        case StepRaised(e) =>
        case Skipped =>
          var rest := Discovered(fetch, screen, step, pos + 1, s1[1..]);
          var both := Discovered(fetch, screen, step, pos + 1, s1[1..] + s2);
          assert Discovered(fetch, screen, step, pos, s1) == ([EventFetched(s1[0].id)] + rest.0, rest.1);
          assert Discovered(fetch, screen, step, pos, s1 + s2) == ([EventFetched(s1[0].id)] + both.0, both.1);
          DiscoveredAppend(fetch, screen, step, pos + 1, s1[1..], s2);
          assert pos + |Discovered(fetch, screen, step, pos, s1).0| == pos + 1 + |rest.0|;
          var d2 := Discovered(fetch, screen, step, pos + 1 + |rest.0|, s2);
          assert both == (rest.0 + d2.0, Prepend(rest.1.value, d2.1));
          assert [EventFetched(s1[0].id)] + both.0 == ([EventFetched(s1[0].id)] + rest.0) + d2.0;
        case Emitted(f) =>
          var rest := Discovered(fetch, screen, step, pos + 1, s1[1..]);
          var both := Discovered(fetch, screen, step, pos + 1, s1[1..] + s2);
          assert Discovered(fetch, screen, step, pos, s1) == ([EventFetched(s1[0].id)] + rest.0, Prepend([f], rest.1));
          assert Discovered(fetch, screen, step, pos, s1 + s2) == ([EventFetched(s1[0].id)] + both.0, Prepend([f], both.1));
          DiscoveredAppend(fetch, screen, step, pos + 1, s1[1..], s2);
          assert pos + |Discovered(fetch, screen, step, pos, s1).0| == pos + 1 + |rest.0|;
          var d2 := Discovered(fetch, screen, step, pos + 1 + |rest.0|, s2);
          assert both == (rest.0 + d2.0, Prepend(rest.1.value, d2.1));
          assert [EventFetched(s1[0].id)] + both.0 == ([EventFetched(s1[0].id)] + rest.0) + d2.0;
          assert Prepend([f], both.1) == Prepend([f] + rest.1.value, d2.1) by {
            if d2.1.Ok? { assert [f] + (rest.1.value + d2.1.value) == ([f] + rest.1.value) + d2.1.value; }
          }
    }
  }

  /** One run of summaries handled without an exception, with the trace going
      from `before` to `after`: what is left of discovery over that run and the
      ones after it is discovery over the ones after it, from `after`. */
  lemma {:induction false} DiscoveredStep<T>(fetch: (nat, Option<string>) -> EventReply, screen: Option<string> -> Screen,
                                          step: (Event, EventReply) -> Step<T>, before: seq<Effect>, after: seq<Effect>,
                                          items: seq<Event>, later: seq<Event>, found: seq<T>, pageFound: seq<T>)
    requires var d1 := Discovered(fetch, screen, step, |before|, items);
      d1.1.Ok? && pageFound == d1.1.value && after == before + d1.0
    ensures var d := Discovered(fetch, screen, step, |before|, items + later);
            var rest := Discovered(fetch, screen, step, |after|, later);
      before + d.0 == after + rest.0 && Prepend(found, d.1) == Prepend(found + pageFound, rest.1)
  {
    var d1 := Discovered(fetch, screen, step, |before|, items);
    DiscoveredAppend(fetch, screen, step, |before|, items, later);
    assert |after| == |before| + |d1.0|;
    var rest := Discovered(fetch, screen, step, |after|, later);
    ConcatAssoc(before, d1.0, rest.0);
    PrependTwice(found, pageFound, rest.1);
  }

  /** A run that raises ends discovery there: summaries after it are never
      looked at. */
  lemma {:induction false} DiscoveredAppendErr<T>(fetch: (nat, Option<string>) -> EventReply, screen: Option<string> -> Screen,
                                               step: (Event, EventReply) -> Step<T>, pos: nat, s1: seq<Event>, s2: seq<Event>)
    requires Discovered(fetch, screen, step, pos, s1).1.Err?
    ensures Discovered(fetch, screen, step, pos, s1 + s2) == Discovered(fetch, screen, step, pos, s1)
    decreases |s1|
  {
    assert s1 != [];
    assert (s1 + s2)[0] == s1[0];
    assert (s1 + s2)[1..] == s1[1..] + s2;
    match screen(s1[0].lifecycleState)
    case ScreenRaised(e) =>
    case Dropped => DiscoveredAppendErr(fetch, screen, step, pos, s1[1..], s2);
    case Kept =>
      match step(s1[0], fetch(pos, s1[0].id))
      case StepRaised(e) =>
      case Skipped => DiscoveredAppendErr(fetch, screen, step, pos + 1, s1[1..], s2);
      case Emitted(f) => DiscoveredAppendErr(fetch, screen, step, pos + 1, s1[1..], s2);
  }

  /** Only summaries the screen keeps are fetched, each at most once and in
      listing order: the effects are the fetches of a subsequence of the kept
      summaries. */
  lemma {:induction false} DiscoveredFetchesKept<T>(fetch: (nat, Option<string>) -> EventReply, screen: Option<string> -> Screen,
                                                 step: (Event, EventReply) -> Step<T>, pos: nat, sums: seq<Event>)
    ensures |Discovered(fetch, screen, step, pos, sums).0| <= |sums|
    ensures forall e :: e in Discovered(fetch, screen, step, pos, sums).0 ==>
      exists i :: 0 <= i < |sums| && screen(sums[i].lifecycleState) == Kept && e == EventFetched(sums[i].id)
    decreases |sums|
  {
    if sums != [] {
      DiscoveredFetchesKept(fetch, screen, step, pos, sums[1..]);
      DiscoveredFetchesKept(fetch, screen, step, pos + 1, sums[1..]);
      forall e | e in Discovered(fetch, screen, step, pos, sums).0
        ensures exists i :: 0 <= i < |sums| && screen(sums[i].lifecycleState) == Kept && e == EventFetched(sums[i].id)
      {
        if e != EventFetched(sums[0].id) || screen(sums[0].lifecycleState) != Kept {
          var rest := if screen(sums[0].lifecycleState) == Kept then Discovered(fetch, screen, step, pos + 1, sums[1..])
                      else Discovered(fetch, screen, step, pos, sums[1..]);
          assert e in rest.0;
          var i :| 0 <= i < |sums[1..]| && screen(sums[1..][i].lifecycleState) == Kept && e == EventFetched(sums[1..][i].id);
          assert sums[i + 1] == sums[1..][i];
        }
      }
    }
  }

  /** Every finding comes from a summary the screen kept: the step emitted it
      for that summary and some reply. */
  lemma {:induction false} DiscoveredFromKept<T>(fetch: (nat, Option<string>) -> EventReply, screen: Option<string> -> Screen,
                                                 step: (Event, EventReply) -> Step<T>, pos: nat, sums: seq<Event>)
    requires Discovered(fetch, screen, step, pos, sums).1.Ok?
    ensures forall x :: x in Discovered(fetch, screen, step, pos, sums).1.value ==>
      exists i :: 0 <= i < |sums| && screen(sums[i].lifecycleState) == Kept && Emits(step, sums[i], x)
    decreases |sums|
  {
    if sums != [] {
      var d := Discovered(fetch, screen, step, pos, sums);
      var p := if screen(sums[0].lifecycleState) == Kept then pos + 1 else pos;
      var rest := Discovered(fetch, screen, step, p, sums[1..]);
      DiscoveredFromKept(fetch, screen, step, p, sums[1..]);
      forall x | x in d.1.value
        ensures exists i :: 0 <= i < |sums| && screen(sums[i].lifecycleState) == Kept && Emits(step, sums[i], x)
      {
        if x in rest.1.value {
          var i :| 0 <= i < |sums[1..]| && screen(sums[1..][i].lifecycleState) == Kept && Emits(step, sums[1..][i], x);
          assert sums[i + 1] == sums[1..][i];
        } else {
          assert step(sums[0], fetch(pos, sums[0].id)) == Emitted(x);
        }
      }
    }
  }

  /** The step can emit `x` for the summary `sum`. */
  ghost predicate Emits<T>(step: (Event, EventReply) -> Step<T>, sum: Event, x: T) {
    exists reply :: step(sum, reply) == Emitted(x)
  }

  /** The summaries listed in the given compartments, compartment by compartment
      and page by page. */
  function SummariesOf(listed: string -> Option<string> -> Page<Event>, comps: seq<string>, maxCalls: nat): seq<Event>
    decreases |comps|
  {
    if comps == [] then [] else PagedItems(listed(comps[0]), maxCalls) + SummariesOf(listed, comps[1..], maxCalls)
  }

  // ---------------------------------------------------------------------------
  // The newer tool's rules

  /** The command `_host_map` runs (through `run_cmd`, which checks). */
  function HostMapArgv(): seq<string> {
    [".venv/bin/python3", "/config/mgmt/manage.py", "nodes", "list", "--format", "json"]
  }

  /** `if ev_sum.lifecycle_state not in ("SCHEDULED"): continue`. The parentheses
      make a string, not a tuple, so this is a substring test: a state passes when
      it is a piece of the word `SCHEDULED`, and a missing state raises
      TypeError. */
  function ScreenScheduled(state: Option<string>): (r: Screen)
    ensures r.ScreenRaised? <==> state.None?
    ensures state.Some? ==> (r == Kept <==> Contains("SCHEDULED", state.value))
  {
    match state
    case None => ScreenRaised("TypeError")
    case Some(s) => if Contains("SCHEDULED", s) then Kept else Dropped
  }

  /** Among the states the provider reports, the substring test keeps exactly
      `SCHEDULED`, as an equality test would. */
  lemma ScreenScheduledProviderStates(state: string)
    requires state in ["SCHEDULED", "STARTED", "PROCESSING", "SUCCEEDED", "FAILED", "CANCELED", "COMPLETED"]
    ensures ScreenScheduled(Some(state)) == Kept <==> state == "SCHEDULED"
  {
    if state == "SCHEDULED" {
      ContainsSelf(state);
    } else if state == "STARTED" || state == "COMPLETED" {
      NotContains("SCHEDULED", state, 'T');
    } else if state == "PROCESSING" {
      NotContains("SCHEDULED", state, 'R');
    } else if state == "FAILED" || state == "CANCELED" {
      NotContains("SCHEDULED", state, 'A');
    } else {
      NotContains("SCHEDULED", state, 'U');
    }
  }

  /** The `fault_details` value of the event: `fault_details`, else
      `faultDetails`, else `[]` (each tried when the previous is falsy), with a
      string decoded as JSON and an undecodable one read as `[]`. */
  function FaultDetailsValue(additional: Option<map<string, Json>>, parse: string -> Option<Json>): (v: Json)
    ensures (!Truthy(DictGet(additional.GetOr(map[]), "fault_details", JNull))
             && !Truthy(DictGet(additional.GetOr(map[]), "faultDetails", JNull))) ==> v == JArr([])
  {
    var d := additional.GetOr(map[]);
    var raw := Or(Or(DictGet(d, "fault_details", JNull), DictGet(d, "faultDetails", JNull)), JArr([]));
    if raw.JStr? then parse(raw.s).GetOr(JArr([])) else raw
  }

  /** `d.get('fault_id') or d.get('faultId')`. */
  function FaultIdOf(d: seq<(string, Json)>): Json {
    Or(Get(d, "fault_id"), Get(d, "faultId"))
  }

  /** `d.get('component') or d.get('faultComponent')`. */
  function ComponentOf(d: seq<(string, Json)>): Json {
    Or(Get(d, "component"), Get(d, "faultComponent"))
  }

  /** The fault ids of the details, in order, the falsy ones left out. */
  function FaultIds(details: seq<seq<(string, Json)>>): (ids: seq<Json>)
    decreases |details|
  {
    if details == [] then []
    else
      var init := FaultIds(details[..|details| - 1]);
      var fid := FaultIdOf(details[|details| - 1]);
      if Truthy(fid) then init + [fid] else init
  }

  /** The id list keeps only truthy ids and keeps them all: when every detail
      has one, it is exactly the list of ids in detail order. */
  lemma {:induction false} FaultIdsContents(details: seq<seq<(string, Json)>>)
    ensures |FaultIds(details)| <= |details|
    ensures forall k :: 0 <= k < |FaultIds(details)| ==> Truthy(FaultIds(details)[k])
    ensures forall k :: 0 <= k < |FaultIds(details)| ==>
      exists i :: 0 <= i < |details| && FaultIds(details)[k] == FaultIdOf(details[i])
    ensures (forall i :: 0 <= i < |details| ==> Truthy(FaultIdOf(details[i]))) ==>
      FaultIds(details) == seq(|details|, i requires 0 <= i < |details| => FaultIdOf(details[i]))
    decreases |details|
  {
    if details != [] {
      var init := details[..|details| - 1];
      FaultIdsContents(init);
      forall k | 0 <= k < |FaultIds(details)|
        ensures exists i :: 0 <= i < |details| && FaultIds(details)[k] == FaultIdOf(details[i])
      {
        if k < |FaultIds(init)| {
          var i :| 0 <= i < |init| && FaultIds(init)[k] == FaultIdOf(init[i]);
          assert init[i] == details[i];
        } else {
          assert FaultIds(details)[k] == FaultIdOf(details[|details| - 1]);
        }
      }
      if forall i :: 0 <= i < |details| ==> Truthy(FaultIdOf(details[i])) {
        assert forall i :: 0 <= i < |init| ==> init[i] == details[i];
      }
    }
  }

  /** The loop that builds `fault_ids`. */
  method CollectFaultIds(details: seq<seq<(string, Json)>>) returns (ids: seq<Json>)
    ensures ids == FaultIds(details)
  {
    ids := [];
    var i := 0;
    while i < |details|
      invariant 0 <= i <= |details|
      invariant ids == FaultIds(details[..i])
    {
      assert details[..i + 1][..i] == details[..i];
      var fid := FaultIdOf(details[i]);
      if Truthy(fid) {
        ids := ids + [fid];
      }
      i := i + 1;
    }
    assert details[..|details|] == details;
  }

  /** One detail as `"{fault_id}_{component}"`, a missing value printed as None. */
  function FaultPiece(d: seq<(string, Json)>): string {
    PyStr(FaultIdOf(d)) + "_" + PyStr(ComponentOf(d))
  }

  /** `fault_str`: the pieces of all details, joined with `_`. */
  function FaultStr(details: seq<seq<(string, Json)>>): string {
    Join("_", seq(|details|, i requires 0 <= i < |details| => FaultPiece(details[i])))
  }

  /** A detail with neither id nor component still contributes a piece, and
      every detail contributes exactly one. */
  lemma FaultStrPieces(details: seq<seq<(string, Json)>>, d: seq<(string, Json)>)
    ensures FaultStr([]) == ""
    ensures FaultStr([d]) == FaultPiece(d)
    ensures details != [] ==> FaultStr(details + [d]) == FaultStr(details) + "_" + FaultPiece(d)
    ensures Get(d, "fault_id") == JNull && Get(d, "faultId") == JNull ==> FaultIdOf(d) == JNull
  {
    var pieces := seq(|details|, i requires 0 <= i < |details| => FaultPiece(details[i]));
    var all := seq(|details + [d]|, i requires 0 <= i < |details + [d]| => FaultPiece((details + [d])[i]));
    assert all == pieces + [FaultPiece(d)];
    if details != [] { JoinSnoc("_", pieces, FaultPiece(d)); }
  }

  /** What the newer discovery does with the reply to a detail fetch. */
  function ReplyStep(hmap: map<Json, Json>, tag: string, parse: string -> Option<Json>, reply: EventReply): (r: Step<Found>)
    ensures reply.EventNone? ==> r == Skipped
    ensures reply.EventResponse? && reply.data.Some? && Truthy(DictGet(reply.data.value.freeformTags, tag, JNull)) ==> r == Skipped
    ensures r.Emitted? ==> reply.EventResponse? && reply.data.Some? && r.found.event == reply.data.value
    ensures r.Emitted? ==> (var key := if r.found.event.instanceId.Some? then JStr(r.found.event.instanceId.value) else JNull;
                            key in hmap && Truthy(hmap[key]) && r.found.hostname == PyStr(hmap[key]))
    ensures r.Emitted? ==> (var details := DictElements(FaultDetailsValue(r.found.event.additionalDetails, parse));
                            details.Ok? && r.found.faultStr == FaultStr(details.value) && r.found.faultIds == FaultIds(details.value))
  {
    match reply
    case EventRaised => StepRaised("ServiceError")
    case EventNone => Skipped
    case EventResponse(None) => StepRaised("AttributeError")
    case EventResponse(Some(ev)) =>
      if Truthy(DictGet(ev.freeformTags, tag, JNull)) then Skipped
      else
        match DictElements(FaultDetailsValue(ev.additionalDetails, parse))
        case Err(e) => StepRaised(e)
        case Ok(details) =>
          var key := if ev.instanceId.Some? then JStr(ev.instanceId.value) else JNull;
          var host := if key in hmap then hmap[key] else JNull;
          if Truthy(host) then Emitted(Found(ev, PyStr(host), FaultStr(details), FaultIds(details)))
          else Skipped
  }

  /** The converse: a fetched event that is not tagged, whose fault details
      read as a list of dicts and whose instance has a truthy hostname in the
      host map always makes a job. */
  lemma ReplyStepEmits(hmap: map<Json, Json>, tag: string, parse: string -> Option<Json>, ev: Event)
    ensures ReplyStep(hmap, tag, parse, EventResponse(Some(ev))).Emitted? <==>
      !Truthy(DictGet(ev.freeformTags, tag, JNull)) &&
      DictElements(FaultDetailsValue(ev.additionalDetails, parse)).Ok? &&
      (var key := if ev.instanceId.Some? then JStr(ev.instanceId.value) else JNull;
       key in hmap && Truthy(hmap[key]))
  {
  }

  /** The newer discovery's step, as a value the fold can take. */
  function NewerStep(hmap: map<Json, Json>, tag: string, parse: string -> Option<Json>): (Event, EventReply) -> Step<Found> {
    (sum: Event, reply: EventReply) => ReplyStep(hmap, tag, parse, reply)
  }

  /** The same rules, statement by statement, with the `fault_ids` loop. */
  method ProcessReply(hmap: map<Json, Json>, tag: string, parse: string -> Option<Json>, reply: EventReply)
    returns (r: Step<Found>)
    ensures r == ReplyStep(hmap, tag, parse, reply)
  {
    if reply.EventRaised? {
      return StepRaised("ServiceError");
    }
    if reply.EventNone? {
      return Skipped;
    }
    if reply.data.None? {
      return StepRaised("AttributeError");
    }
    var ev := reply.data.value;
    if Truthy(DictGet(ev.freeformTags, tag, JNull)) {
      return Skipped;
    }
    var entries := DictElements(FaultDetailsValue(ev.additionalDetails, parse));
    if entries.Err? {
      return StepRaised(entries.error);
    }
    var faultIds := CollectFaultIds(entries.value);
    var faults := FaultStr(entries.value);
    var key := if ev.instanceId.Some? then JStr(ev.instanceId.value) else JNull;
    var host := if key in hmap then hmap[key] else JNull;
    if Truthy(host) {
      r := Emitted(Found(ev, PyStr(host), faults, faultIds));
    } else {
      r := Skipped;
    }
  }

  /** The whole of `discover` before jobs are built: the host-map command, then
      the fold over every summary of every compartment. */
  function DiscoverOutcome(run: (nat, seq<string>) -> Proc, fetch: (nat, Option<string>) -> EventReply,
                           pos: nat, tag: string, parse: string -> Option<Json>, tenancy: string,
                           listedComps: Option<string> -> Page<string>,
                           listedEvents: string -> Option<string> -> Page<Event>, maxCalls: nat)
    : (seq<Effect>, Result<seq<Found>>)
  {
    match RunOutcome(run(pos, HostMapArgv()), true)
    case Err(e) => ([Exec(HostMapArgv())], Err(e))
    case Ok(out) =>
      match HostMapOf(out, parse, true)
      case Err(e) => ([Exec(HostMapArgv())], Err(e))
      case Ok(hmap) =>
        var sums := SummariesOf(listedEvents, Compartments(tenancy, listedComps, maxCalls), maxCalls);
        var d := Discovered(fetch, ScreenScheduled, NewerStep(hmap, tag, parse), pos + 1, sums);
        ([Exec(HostMapArgv())] + d.0, d.1)
  }

  /** The jobs are new records holding the discovered data, with every field the
      phases fill still at its default. */
  predicate JobsHold(jobs: seq<MaintenanceJob>, found: seq<Found>)
    reads jobs
  {
    |jobs| == |found| &&
    forall i :: 0 <= i < |jobs| ==>
      jobs[i].event == found[i].event && jobs[i].hostname == found[i].hostname &&
      jobs[i].faultStr == found[i].faultStr && jobs[i].faultIds == found[i].faultIds &&
      jobs[i].approvedFault.None? && jobs[i].workRequest.None? && !jobs[i].done && jobs[i].healthOk.None?
  }

  /** Fetch the full event of a kept summary and decide what it contributes. */
  method FetchStep<T>(c: Cluster, step: (Event, EventReply) -> Step<T>, sum: Event) returns (st: Step<T>)
    modifies c
    ensures c.trace == old(c.trace) + [EventFetched(sum.id)] && c.audit == old(c.audit)
    ensures st == step(sum, c.fetch(|old(c.trace)|, sum.id))
  {
    var reply := c.GetMaintenanceEvent(sum.id);
    st := step(sum, reply);
  }

  /** The summaries of one page run, in order: the inner loop of `discover`.
      The state screen and the rules for a fetched event are passed in, so that
      the older tool's loop is the same loop with its own rules. */
  method DiscoverPage<T>(c: Cluster, screen: Option<string> -> Screen, step: (Event, EventReply) -> Step<T>, items: seq<Event>)
    returns (found: seq<T>, err: Option<string>)
    modifies c
    ensures var d := Discovered(c.fetch, screen, step, |old(c.trace)|, items);
            c.trace == old(c.trace) + d.0 && (err.None? <==> d.1.Ok?) && (err.None? ==> found == d.1.value) &&
            (err.Some? ==> d.1 == Err(err.value))
    ensures c.audit == old(c.audit)
  {
    ghost var t0 := c.trace;
    ghost var all := Discovered(c.fetch, screen, step, |t0|, items);
    found, err := [], None;
    var k := 0;
    assert items[k..] == items;
    assert all.1 == Prepend(found, all.1) by {
      if all.1.Ok? { assert found + all.1.value == all.1.value; }
    }
    while k < |items|
      invariant 0 <= k <= |items|
      invariant c.audit == old(c.audit)
      invariant t0 + all.0 == c.trace + Discovered(c.fetch, screen, step, |c.trace|, items[k..]).0
      invariant all.1 == Prepend(found, Discovered(c.fetch, screen, step, |c.trace|, items[k..]).1)
    {
      ghost var before := c.trace;
      ghost var pos := |before|;
      assert items[k..][1..] == items[k + 1..];
      ghost var next := items[k + 1..];
      DiscoveredHead(c.fetch, screen, step, pos, pos + 1, items[k..]);
      var sum := items[k];
      var screened := screen(sum.lifecycleState);
      if screened.ScreenRaised? {
        return found, Some(screened.error);
      }
      if screened == Kept {
        var st := FetchStep(c, step, sum);
        if st.StepRaised? {
          return found, Some(st.error);
        }
        ghost var rest := Discovered(c.fetch, screen, step, |c.trace|, next);
        ConcatAssoc(before, [EventFetched(sum.id)], rest.0);
        if st.Emitted? {
          PrependTwice(found, [st.found], rest.1);
          found := found + [st.found];
        }
      }
      k := k + 1;
    }
  }

  /** The outer loop of `discover`: every compartment in turn, every page of its
      summaries, the findings of each page appended in order. */
  method DiscoverCompartments<T>(c: Cluster, screen: Option<string> -> Screen, step: (Event, EventReply) -> Step<T>, comps: seq<string>,
                              listedEvents: string -> Option<string> -> Page<Event>, maxCalls: nat)
    returns (r: Result<seq<T>>)
    modifies c
    ensures var d := Discovered(c.fetch, screen, step, |old(c.trace)|, SummariesOf(listedEvents, comps, maxCalls));
            c.trace == old(c.trace) + d.0 && (r.Ok? <==> d.1.Ok?) && (r.Ok? ==> r.value == d.1.value) &&
            (r.Err? ==> d.1 == Err(r.error))
    ensures c.audit == old(c.audit)
  {
    ghost var t1 := c.trace;
    ghost var all := Discovered(c.fetch, screen, step, |t1|, SummariesOf(listedEvents, comps, maxCalls));
    var found: seq<T> := [];
    var ci := 0;
    assert comps[ci..] == comps;
    assert all.1 == Prepend(found, all.1) by {
      if all.1.Ok? { assert found + all.1.value == all.1.value; }
    }
    while ci < |comps|
      invariant 0 <= ci <= |comps|
      invariant c.audit == old(c.audit)
      invariant t1 + all.0 == c.trace + Discovered(c.fetch, screen, step, |c.trace|, SummariesOf(listedEvents, comps[ci..], maxCalls)).0
      invariant all.1 == Prepend(found, Discovered(c.fetch, screen, step, |c.trace|, SummariesOf(listedEvents, comps[ci..], maxCalls)).1)
    {
      ghost var before := c.trace;
      var items := PagedList(listedEvents(comps[ci]), maxCalls);
      ghost var later := SummariesOf(listedEvents, comps[ci + 1..], maxCalls);
      assert SummariesOf(listedEvents, comps[ci..], maxCalls) == items + later by {
        assert comps[ci..][1..] == comps[ci + 1..];
      }
      var pageFound, err := DiscoverPage(c, screen, step, items);
      if err.Some? {
        DiscoveredAppendErr(c.fetch, screen, step, |before|, items, later);
        return Err(err.value);
      }
      DiscoveredStep(c.fetch, screen, step, before, c.trace, items, later, found, pageFound);
      found := found + pageFound;
      ci := ci + 1;
    }
    assert SummariesOf(listedEvents, comps[ci..], maxCalls) == [];
    assert all.1 == Prepend(found, Ok([]));
    assert found + [] == found;
    r := Ok(found);
  }

  /** One new job per finding, in order, every phase field at its default. */
  method MakeJobs(found: seq<Found>) returns (jobs: seq<MaintenanceJob>)
    ensures JobsHold(jobs, found)
    ensures forall i :: 0 <= i < |jobs| ==> fresh(jobs[i])
    ensures forall i, j :: 0 <= i < j < |jobs| ==> jobs[i] != jobs[j]
  {
    jobs := [];
    var i := 0;
    while i < |found|
      invariant 0 <= i <= |found|
      invariant JobsHold(jobs, found[..i])
      invariant forall k :: 0 <= k < |jobs| ==> fresh(jobs[k])
      invariant forall k, l :: 0 <= k < l < |jobs| ==> jobs[k] != jobs[l]
    {
      var f := found[i];
      var job := new MaintenanceJob(f.event, f.hostname, f.faultStr, f.faultIds);
      jobs := jobs + [job];
      i := i + 1;
    }
    assert found[..i] == found;
  }

  /** `discover`: loads the strict host map, lists the compartments, walks them,
      and returns one new job per finding; any error raises out of the whole
      run. */
  method Discover(c: Cluster, tag: string, parse: string -> Option<Json>, tenancy: string,
                  listedComps: Option<string> -> Page<string>,
                  listedEvents: string -> Option<string> -> Page<Event>, maxCalls: nat)
    returns (r: Result<seq<MaintenanceJob>>)
    modifies c
    ensures var outcome := DiscoverOutcome(c.run, c.fetch, |old(c.trace)|, tag, parse, tenancy, listedComps, listedEvents, maxCalls);
            c.trace == old(c.trace) + outcome.0 && (r.Ok? <==> outcome.1.Ok?) &&
            (r.Err? ==> outcome.1 == Err(r.error)) &&
            (r.Ok? ==> JobsHold(r.value, outcome.1.value))
    ensures r.Ok? ==> forall i :: 0 <= i < |r.value| ==> fresh(r.value[i])
    ensures r.Ok? ==> forall i, j :: 0 <= i < j < |r.value| ==> r.value[i] != r.value[j]
    ensures c.audit == old(c.audit)
  {
    ghost var t0 := c.trace;
    var out := c.RunCmd(HostMapArgv(), true);
    if out.Err? {
      return Err(out.error);
    }
    var hosts := HostMapOf(out.value, parse, true);
    if hosts.Err? {
      return Err(hosts.error);
    }
    var comps := ListCompartments(tenancy, listedComps, maxCalls);
    ghost var t1 := c.trace;
    var found := DiscoverCompartments(c, ScreenScheduled, NewerStep(hosts.value, tag, parse), comps, listedEvents, maxCalls);
    ghost var d := Discovered(c.fetch, ScreenScheduled, NewerStep(hosts.value, tag, parse), |t1|,
                              SummariesOf(listedEvents, comps, maxCalls));
    assert |t1| == |t0| + 1;
    assert DiscoverOutcome(c.run, c.fetch, |t0|, tag, parse, tenancy, listedComps, listedEvents, maxCalls)
      == ([Exec(HostMapArgv())] + d.0, d.1);
    ConcatAssoc(t0, [Exec(HostMapArgv())], d.0);
    if found.Err? {
      return Err(found.error);
    }
    var jobs := MakeJobs(found.value);
    r := Ok(jobs);
  }
}
