/** The OCI helpers shared by the tools: the work-request terminal test, the
    `has_next_page` pagination generator and the decoding of an event's
    `additionalDetails` into repair and fault records. */
module Common {
  import opened Wrappers
  import opened PyJson

  const RepairKey: string := "repairDetails"
  const FaultKey: string := "faultDetails"
  const IpAddressKey: string := "primaryVnicAddress"

  /** `is_workrequest_terminal`: the response data is one of the three terminal
      work-request statuses, compared exactly. */
  predicate IsWorkRequestTerminal(data: Json) {
    data in [JStr("SUCCESSFUL"), JStr("FAILED"), JStr("CANCELED")]
  }

  lemma WorkRequestTerminalStatuses(data: Json)
    ensures IsWorkRequestTerminal(data) <==>
      data.JStr? && (data.s == "SUCCESSFUL" || data.s == "FAILED" || data.s == "CANCELED")
  {
  }

  /** One reply of an OCI list call: its items, `has_next_page` and `next_page`. */
  datatype ApiPage<T> = ApiPage(data: seq<T>, hasNextPage: bool, nextPage: Option<string>)

  function ApiItemsOf<T>(api: Option<string> -> ApiPage<T>, calls: seq<Option<string>>): seq<T>
    decreases |calls|
  {
    if calls == [] then []
    else ApiItemsOf(api, calls[..|calls| - 1]) + api(calls[|calls| - 1]).data
  }

  /** `paginated_api_to_generator`: the first call passes `page=None`, each later
      one the previous reply's `next_page` (which the loop does not check for None),
      and the loop ends after a reply whose `has_next_page` is false. The source
      loop is unbounded; here at most `maxCalls` calls are made. */
  method PaginatedApiToGenerator<T>(api: Option<string> -> ApiPage<T>, maxCalls: nat)
    returns (items: seq<T>, calls: seq<Option<string>>, finished: bool)
    ensures |calls| <= maxCalls && (maxCalls > 0 ==> calls != [] && calls[0] == None)
    ensures forall i :: 0 <= i < |calls| - 1 ==> api(calls[i]).hasNextPage && calls[i + 1] == api(calls[i]).nextPage
    ensures items == ApiItemsOf(api, calls)
    ensures finished <==> calls != [] && !api(calls[|calls| - 1]).hasNextPage
    ensures !finished ==> |calls| == maxCalls
  {
    items, calls, finished := [], [], false;
    var nextPage: Option<string> := None;
    while !finished && |calls| < maxCalls
      invariant |calls| <= maxCalls
      invariant calls == [] ==> nextPage.None? && !finished
      invariant calls != [] ==> calls[0] == None
      invariant forall i :: 0 <= i < |calls| - 1 ==> api(calls[i]).hasNextPage && calls[i + 1] == api(calls[i]).nextPage
      invariant calls != [] && !finished ==> api(calls[|calls| - 1]).hasNextPage && nextPage == api(calls[|calls| - 1]).nextPage
      invariant finished <==> calls != [] && !api(calls[|calls| - 1]).hasNextPage
      invariant items == ApiItemsOf(api, calls)
      decreases maxCalls - |calls|
    {
      var response := api(nextPage);
      ghost var before := calls;
      calls := calls + [nextPage];
      assert calls[..|calls| - 1] == before;
      forall i | 0 <= i < |calls| - 1 ensures api(calls[i]).hasNextPage && calls[i + 1] == api(calls[i]).nextPage {
        assert calls[i] == before[i];
        if i + 1 < |before| {
          assert calls[i + 1] == before[i + 1];
        }
      }
      items := items + response.data;
      if response.hasNextPage {
        nextPage := response.nextPage;
      } else {
        finished := true;
      }
    }
  }

  /** `_json_string_to_object`: a string is decoded (`parse` stands for
      `json.loads`, None when it raises); any other value passes through. */
  function JsonStringToObject(v: Json, parse: string -> Option<Json>): (r: Result<Json>)
    ensures !v.JStr? ==> r == Ok(v)
    ensures v.JStr? ==> (r.Ok? <==> parse(v.s).Some?) && (r.Ok? ==> r.value == parse(v.s).value)
  {
    match v
    case JStr(s) =>
      (match parse(s)
       case Some(j) => Ok(j)
       case None => Err("JSONDecodeError"))
    case _ => Ok(v)
  }

  /** A fault record built from the six keys of one `faultDetails` entry. */
  datatype Fault = Fault(customerDescription: Json, component: Json, faultId: Json,
                         impactDescription: Json, impactType: Json, recommendedAction: Json)

  /** A repair record built from the three keys of one `repairDetails` entry. */
  datatype Repair = Repair(componentIdentifier: Json, componentType: Json, repairType: Json)

  const FaultKeys: seq<string> := ["customerDescription", "faultComponent", "faultId",
                                   "impactDescription", "impactType", "recommendedAction"]
  const RepairKeys: seq<string> := ["componentIdentifier", "componentType", "repairType"]

  /** `Fault(fault_dict)`: subscripting a non-dict raises TypeError, a missing key
      KeyError. */
  function MakeFault(d: Json): (r: Result<Fault>)
    ensures r.Ok? <==> d.JObj? && forall k :: 0 <= k < |FaultKeys| ==> HasKey(d.fields, FaultKeys[k])
    ensures r.Ok? ==> (Index(d.fields, "faultId") == Ok(r.value.faultId)
                       && Index(d.fields, "faultComponent") == Ok(r.value.component))
  {
    if !d.JObj? then Err("TypeError")
    else
      var fs := d.fields;
      var cd := Index(fs, "customerDescription");
      var fc := Index(fs, "faultComponent");
      var fi := Index(fs, "faultId");
      var id := Index(fs, "impactDescription");
      var it := Index(fs, "impactType");
      var ra := Index(fs, "recommendedAction");
      if cd.Ok? && fc.Ok? && fi.Ok? && id.Ok? && it.Ok? && ra.Ok? then
        Ok(Fault(cd.value, fc.value, fi.value, id.value, it.value, ra.value))
      else
        assert exists k :: 0 <= k < |FaultKeys| && !HasKey(fs, FaultKeys[k]) by {
          if !cd.Ok? { assert !HasKey(fs, FaultKeys[0]); }
          else if !fc.Ok? { assert !HasKey(fs, FaultKeys[1]); }
          else if !fi.Ok? { assert !HasKey(fs, FaultKeys[2]); }
          else if !id.Ok? { assert !HasKey(fs, FaultKeys[3]); }
          else if !it.Ok? { assert !HasKey(fs, FaultKeys[4]); }
          else { assert !HasKey(fs, FaultKeys[5]); }
        }
        Err("KeyError")
  }

  /** `Repair(repair_dict)`, with the same failure rule. */
  function MakeRepair(d: Json): (r: Result<Repair>)
    ensures r.Ok? <==> d.JObj? && forall k :: 0 <= k < |RepairKeys| ==> HasKey(d.fields, RepairKeys[k])
  {
    if !d.JObj? then Err("TypeError")
    else
      var ci := Index(d.fields, "componentIdentifier");
      var ct := Index(d.fields, "componentType");
      var rt := Index(d.fields, "repairType");
      if ci.Ok? && ct.Ok? && rt.Ok? then Ok(Repair(ci.value, ct.value, rt.value))
      else
        assert exists k :: 0 <= k < |RepairKeys| && !HasKey(d.fields, RepairKeys[k]) by {
          if !ci.Ok? { assert !HasKey(d.fields, RepairKeys[0]); }
          else if !ct.Ok? { assert !HasKey(d.fields, RepairKeys[1]); }
          else { assert !HasKey(d.fields, RepairKeys[2]); }
        }
        Err("KeyError")
  }

  /** `[make(x) for x in xs]` with a constructor that may raise: the first
      failing element's error, else one result per element, in order. */
  function MakeAll<A, B>(make: A -> Result<B>, xs: seq<A>): (r: Result<seq<B>>)
    ensures r.Ok? <==> forall i :: 0 <= i < |xs| ==> make(xs[i]).Ok?
    ensures r.Ok? ==> |r.value| == |xs| && forall i :: 0 <= i < |xs| ==> make(xs[i]) == Ok(r.value[i])
    decreases |xs|
  {
    if xs == [] then Ok([])
    else
      match make(xs[0])
      case Err(e) => Err(e)
      case Ok(y) =>
        match MakeAll(make, xs[1..])
        case Err(e) => Err(e)
        case Ok(ys) =>
          assert forall i :: 1 <= i < |xs| ==> xs[i] == xs[1..][i - 1];
          Ok([y] + ys)
  }

  /** `[Fault(f) for f in v]`: the first failing element's error, else every record. */
  function MakeFaults(xs: seq<Json>): (r: Result<seq<Fault>>)
    ensures r.Ok? <==> forall i :: 0 <= i < |xs| ==> MakeFault(xs[i]).Ok?
    ensures r.Ok? ==> |r.value| == |xs| && forall i :: 0 <= i < |xs| ==> MakeFault(xs[i]) == Ok(r.value[i])
  {
    MakeAll(MakeFault, xs)
  }

  /** `[Repair(r) for r in v]`: the first failing element's error, else every record. */
  function MakeRepairs(xs: seq<Json>): (r: Result<seq<Repair>>)
    ensures r.Ok? <==> forall i :: 0 <= i < |xs| ==> MakeRepair(xs[i]).Ok?
    ensures r.Ok? ==> |r.value| == |xs| && forall i :: 0 <= i < |xs| ==> MakeRepair(xs[i]) == Ok(r.value[i])
  {
    MakeAll(MakeRepair, xs)
  }

  /** The decoded `additionalDetails`: the primary VNIC address (None when absent),
      the repairs and the faults. */
  datatype AdditionalDetails = AdditionalDetails(primaryVnicAddress: Json, repairs: seq<Repair>, faults: seq<Fault>)

  /** `d.get(key, default)` on the details dict. */
  function DictGet(d: map<string, Json>, key: string, default: Json): Json {
    if key in d then d[key] else default
  }

  /** The entries one details key holds once decoded and iterated. */
  function DetailEntries(d: map<string, Json>, key: string, parse: string -> Option<Json>): Result<seq<Json>> {
    match JsonStringToObject(DictGet(d, key, JArr([])), parse)
    case Err(e) => Err(e)
    case Ok(v) =>
      match Iterate(v)
      case None => Err("TypeError")
      case Some(xs) => Ok(xs)
  }

  /** `get_additional_details`: None is read as `{}`; a missing list defaults to
      empty; string values are JSON-decoded first; repairs are built before faults,
      so a repair error wins. */
  function GetAdditionalDetails(ad: Option<map<string, Json>>, parse: string -> Option<Json>): (r: Result<AdditionalDetails>)
    ensures ad.None? ==> r == Ok(AdditionalDetails(JNull, [], []))
    ensures var d := ad.GetOr(map[]);
      DetailEntries(d, RepairKey, parse).Err? ==> r == Err(DetailEntries(d, RepairKey, parse).error)
    ensures var d := ad.GetOr(map[]);
      r.Ok? <==> DetailEntries(d, RepairKey, parse).Ok? && MakeRepairs(DetailEntries(d, RepairKey, parse).value).Ok?
                 && DetailEntries(d, FaultKey, parse).Ok? && MakeFaults(DetailEntries(d, FaultKey, parse).value).Ok?
    ensures var d := ad.GetOr(map[]);
      r.Ok? ==> r.value.primaryVnicAddress == DictGet(d, IpAddressKey, JNull)
                && r.value.repairs == MakeRepairs(DetailEntries(d, RepairKey, parse).value).value
                && r.value.faults == MakeFaults(DetailEntries(d, FaultKey, parse).value).value
    ensures r.Ok? ==> (DetailEntries(ad.GetOr(map[]), FaultKey, parse).Ok?
                       && |r.value.faults| == |DetailEntries(ad.GetOr(map[]), FaultKey, parse).value|)
  {
    var d := ad.GetOr(map[]);
    match DetailEntries(d, RepairKey, parse)
    case Err(e) => Err(e)
    case Ok(rs) =>
      match MakeRepairs(rs)
      case Err(e) => Err(e)
      case Ok(repairs) =>
        match DetailEntries(d, FaultKey, parse)
        case Err(e) => Err(e)
        case Ok(fs) =>
          match MakeFaults(fs)
          case Err(e) => Err(e)
          case Ok(faults) => Ok(AdditionalDetails(DictGet(d, IpAddressKey, JNull), repairs, faults))
  }

  /** Details without the two list keys decode to no repairs and no faults. */
  lemma AdditionalDetailsDefaults(d: map<string, Json>, parse: string -> Option<Json>)
    requires RepairKey !in d && FaultKey !in d
    ensures GetAdditionalDetails(Some(d), parse) == Ok(AdditionalDetails(DictGet(d, IpAddressKey, JNull), [], []))
  {
  }

  /** A `faultDetails` value given as JSON text decodes exactly like the value it
      encodes. */
  lemma FaultDetailsAsText(d: map<string, Json>, text: string, parse: string -> Option<Json>)
    requires FaultKey in d && d[FaultKey] == JStr(text) && parse(text).Some? && !parse(text).value.JStr?
    ensures GetAdditionalDetails(Some(d), parse) == GetAdditionalDetails(Some(d[FaultKey := parse(text).value]), parse)
  {
    var d2 := d[FaultKey := parse(text).value];
    assert DictGet(d2, RepairKey, JArr([])) == DictGet(d, RepairKey, JArr([]));
    assert DictGet(d2, IpAddressKey, JNull) == DictGet(d, IpAddressKey, JNull);
    assert DetailEntries(d2, FaultKey, parse) == DetailEntries(d, FaultKey, parse);
  }
}
