/** The MGMT command-line adapter of the newer package: where `manage.py` is
    looked for, the node-status update tried under several names in turn, and
    the compute reconfigure. The file system is a `present` oracle (for
    `Path.exists`), the environment's `MGMT_MANAGE_PATH` and `sys.executable` are parameters, and
    every `manage.py` run is an `Exec` effect whose completed process the
    cluster's `run` oracle gives. */
module Mgmt {
  import opened Wrappers
  import opened Text
  import opened PyJson
  import opened Utils
  import opened World

  // ---------------------------------------------------------------------------
  // Locating manage.py

  /** The bind-mounted path tried right after the environment's. */
  const BindPath: string := "/config/mgmt/manage.py"

  /** The relative locations tried last, nearest first. */
  const RelativePaths: seq<string> := ["config/mgmt/manage.py", "../config/mgmt/manage.py",
                                       "../../config/mgmt/manage.py", "../../../config/mgmt/manage.py",
                                       "../../../../config/mgmt/manage.py"]

  /** Every path `_find_manage_py` looks at, in order: `MGMT_MANAGE_PATH` when it
      is set and non-empty, then the bind mount, then the relative locations. */
  function Preferences(envPath: Option<string>): seq<string> {
    (if envPath.Some? && envPath.value != "" then [envPath.value] else []) + [BindPath] + RelativePaths
  }

  /** The first of `paths` that exists. */
  function FirstExisting(paths: seq<string>, present: string -> bool): Option<string>
    decreases |paths|
  {
    if paths == [] then None
    else if present(paths[0]) then Some(paths[0])
    else FirstExisting(paths[1..], present)
  }

  /** The path found is the earliest existing one, and nothing is found only
      when none of the paths exists. */
  lemma {:induction false} FirstExistingIsFirst(paths: seq<string>, present: string -> bool)
    ensures FirstExisting(paths, present).None? <==> forall i :: 0 <= i < |paths| ==> !present(paths[i])
    ensures FirstExisting(paths, present).Some? ==>
      exists i :: 0 <= i < |paths| && paths[i] == FirstExisting(paths, present).value && present(paths[i]) &&
        forall j :: 0 <= j < i ==> !present(paths[j])
    decreases |paths|
  {
    if paths != [] && !present(paths[0]) {
      FirstExistingIsFirst(paths[1..], present);
      if FirstExisting(paths, present).Some? {
        var i :| 0 <= i < |paths[1..]| && paths[1..][i] == FirstExisting(paths, present).value && present(paths[1..][i]) &&
          forall j :: 0 <= j < i ==> !present(paths[1..][j]);
        assert paths[i + 1] == paths[1..][i];
        forall j | 0 <= j < i + 1
          ensures !present(paths[j])
        {
          if j > 0 {
            assert paths[j] == paths[1..][j - 1];
          }
        }
      } else {
        forall i | 0 <= i < |paths|
          ensures !present(paths[i])
        {
          if i > 0 {
            assert paths[i] == paths[1..][i - 1];
          }
        }
      }
    }
  }

  /** `_find_manage_py()`, with `resolve()` left out: the path is returned as it
      was tried. */
  method FindManagePy(envPath: Option<string>, present: string -> bool) returns (r: Option<string>)
    ensures r == FirstExisting(Preferences(envPath), present)
  {
    ghost var prefs := Preferences(envPath);
    if envPath.Some? && envPath.value != "" {
      if present(envPath.value) {
        return Some(envPath.value);
      }
      assert prefs[1..] == [BindPath] + RelativePaths;
    } else {
      assert prefs == [BindPath] + RelativePaths;
    }
    if present(BindPath) {
      return Some(BindPath);
    }
    assert FirstExisting(prefs, present) == FirstExisting(RelativePaths, present) by {
      assert ([BindPath] + RelativePaths)[1..] == RelativePaths;
    }
    var i := 0;
    while i < |RelativePaths|
      invariant 0 <= i <= |RelativePaths|
      invariant FirstExisting(prefs, present) == FirstExisting(RelativePaths[i..], present)
    {
      if present(RelativePaths[i]) {
        return Some(RelativePaths[i]);
      }
      assert RelativePaths[i..][1..] == RelativePaths[i + 1..];
      i := i + 1;
    }
    r := None;
  }

  /** `_venv_python()`: the project's virtualenv interpreter when it exists,
      else the running interpreter. */
  function VenvPython(present: string -> bool, executable: string): string {
    if present(".venv/bin/python3") then ".venv/bin/python3" else executable
  }

  // ---------------------------------------------------------------------------
  // The hostname MGMT knows for an OCID

  function NodesListArgv(py: string, manage: string): seq<string> {
    [py, manage, "nodes", "list", "--format", "json"]
  }

  /** `_mgmt_nodes_list_json` once the command ran: its output when it succeeded
      and printed something. */
  function NodesListText(p: Proc): (r: Option<string>)
    ensures r.Some? <==> p.returnCode == 0 && p.stdout != []
    ensures r.Some? ==> r.value == p.stdout
  {
    if p.returnCode == 0 && p.stdout != [] then Some(p.stdout) else None
  }

  /** The loop of `_hostname_for_ocid` over the decoded nodes: the `hostname` of
      the first node whose `ocid` equals the OCID (None when that node has no
      hostname). None when no node matches, and None as well when a node before
      the match is not a dict, since the AttributeError is swallowed. */
  function MatchHost(nodes: seq<Json>, ocid: Json): Json
    decreases |nodes|
  {
    if nodes == [] then JNull
    else
      match nodes[0]
      case JObj(fs) => if Get(fs, "ocid") == ocid then Get(fs, "hostname") else MatchHost(nodes[1..], ocid)
      case _ => JNull
  }

  /** A node the loop passes over: a dict with another OCID. */
  predicate PassedOver(node: Json, ocid: Json) {
    node.JObj? && Get(node.fields, "ocid") != ocid
  }

  /** A hostname is found only on the first matching node `i`, and every node
      before it is a dict with another OCID. */
  lemma {:induction false} MatchHostFirst(nodes: seq<Json>, ocid: Json) returns (i: nat)
    requires MatchHost(nodes, ocid) != JNull
    ensures i < |nodes| && nodes[i].JObj? && Get(nodes[i].fields, "ocid") == ocid
    ensures Get(nodes[i].fields, "hostname") == MatchHost(nodes, ocid)
    ensures forall j :: 0 <= j < i ==> PassedOver(nodes[j], ocid)
    decreases |nodes|
  {
    if Get(nodes[0].fields, "ocid") == ocid {
      return 0;
    }
    var rest := nodes[1..];
    assert MatchHost(nodes, ocid) == MatchHost(rest, ocid);
    var k := MatchHostFirst(rest, ocid);
    i := k + 1;
    assert nodes[i] == rest[k];
    forall j | 0 < j < i
      ensures PassedOver(nodes[j], ocid)
    {
      assert nodes[j] == rest[j - 1];
    }
  }

  /** `_hostname_for_ocid(ocid)` once the node list was read as `text`: None
      when there is no text, when it does not decode, or when the decoded value
      cannot be iterated. A dict iterates over its keys, which have no `.get`. */
  function HostnameOf(text: Option<string>, parse: string -> Option<Json>, ocid: Json): Json {
    match text
    case None => JNull
    case Some(t) =>
      match parse(t)
      case None => JNull
      case Some(j) =>
        match Iterate(j)
        case None => JNull
        case Some(nodes) => MatchHost(nodes, ocid)
  }

  /** `_hostname_for_ocid(ocid)`: one run of the node-list command, then the
      first matching node's hostname. */
  method HostnameForOcid(c: Cluster, py: string, manage: string, parse: string -> Option<Json>, ocid: Json)
    returns (hn: Json)
    modifies c
    ensures c.trace == old(c.trace) + [Exec(NodesListArgv(py, manage))] && c.audit == old(c.audit)
    ensures hn == HostnameOf(NodesListText(c.run(|old(c.trace)|, NodesListArgv(py, manage))), parse, ocid)
  {
    var p := c.Run(NodesListArgv(py, manage));
    var text := NodesListText(p);
    if text.None? {
      return JNull;
    }
    var decoded := parse(text.value);
    if decoded.None? {
      return JNull;
    }
    var items := Iterate(decoded.value);
    if items.None? {
      return JNull;
    }
    var nodes := items.value;
    var i := 0;
    while i < |nodes|
      invariant 0 <= i <= |nodes|
      invariant MatchHost(nodes, ocid) == MatchHost(nodes[i..], ocid)
    {
      if !nodes[i].JObj? {
        return JNull;
      }
      if Get(nodes[i].fields, "ocid") == ocid {
        return Get(nodes[i].fields, "hostname");
      }
      assert nodes[i..][1..] == nodes[i + 1..];
      i := i + 1;
    }
    hn := JNull;
  }

  // ---------------------------------------------------------------------------
  // mgmt_update_node_status

  /** `compute_status`: `ntr` for any status that starts with `ntr` whatever
      its case, else the lower-cased status. */
  function ComputeStatus(status: string): string {
    if StartsWith(Lower(status), "ntr") then "ntr" else Lower(status)
  }

  /** The compute status is lower case, and it starts with `ntr` exactly when
      the status does, ignoring case. */
  lemma ComputeStatusLower(status: string)
    ensures Lower(ComputeStatus(status)) == ComputeStatus(status)
    ensures StartsWith(ComputeStatus(status), "ntr") <==> StartsWith(Lower(status), "ntr")
    ensures !StartsWith(Lower(status), "ntr") ==> ComputeStatus(status) == Lower(status)
  {
    var l := Lower(status);
    assert Lower(l) == l by {
      forall i | 0 <= i < |l|
        ensures Lower(l)[i] == l[i]
      {
        assert l[i] == LowerChar(status[i]);
      }
    }
    assert Lower("ntr") == "ntr";
  }

  /** The `--fields` value: `status="<status>",compute_status="<compute status>"`. */
  function FieldsValue(status: string): string {
    "status=\"" + status + "\",compute_status=\"" + ComputeStatus(status) + "\""
  }

  /** The names tried, in order: the instance OCID when it is truthy, followed
      by the hostname MGMT resolves for it when that is truthy, then the raw
      hostname when it is non-empty and not already in the list. Nothing is tried exactly when the update is
      skipped (neither an OCID nor a hostname); every name tried is truthy; the
      OCID comes first, the resolved hostname second, and a non-empty hostname
      is always among the names, once. */
  function AttemptNames(inst: Json, hn: Json, hostname: string): (names: seq<Json>)
    ensures names == [] <==> !Truthy(inst) && hostname == ""
    ensures forall k :: 0 <= k < |names| ==> Truthy(names[k])
    ensures Truthy(inst) ==> names[0] == inst
    ensures Truthy(inst) && Truthy(hn) ==> |names| >= 2 && names[1] == hn
    ensures hostname != "" ==> JStr(hostname) in names
    ensures |names| <= 3
  {
    var first := if Truthy(inst) then [inst] + (if Truthy(hn) then [hn] else []) else [];
    if hostname != "" && JStr(hostname) !in first then first + [JStr(hostname)] else first
  }

  /** Building the list by appends, as `mgmt_update_node_status` does; the
      lookup of the resolved hostname runs only when there is an OCID. */
  method BuildAttempts(c: Cluster, py: string, manage: string, parse: string -> Option<Json>, inst: Json,
                       hostname: string) returns (names: seq<Json>)
    modifies c
    ensures c.trace == old(c.trace) + Lookups(inst, py, manage)
    ensures names == AttemptNames(inst, LookedUp(c.run, |old(c.trace)|, py, manage, parse, inst), hostname)
    ensures c.audit == old(c.audit)
  {
    names := [];
    if Truthy(inst) {
      names := names + [inst];
      var hn := HostnameForOcid(c, py, manage, parse, inst);
      if Truthy(hn) {
        names := names + [hn];
      }
    }
    if hostname != "" && JStr(hostname) !in names {
      names := names + [JStr(hostname)];
    }
  }

  function UpdateArgv(py: string, manage: string, name: string, fields: string): seq<string> {
    [py, manage, "configurations", "update", "--name", name, "--fields", fields]
  }

  /** The names that are strings, in order: any other name makes
      `subprocess.run` raise before a command runs. */
  function Strings(names: seq<Json>): seq<string>
    decreases |names|
  {
    if names == [] then []
    else (if names[0].JStr? then [names[0].s] else []) + Strings(names[1..])
  }

  /** Every update command that could be run for `names`, in order. */
  function AllAttempts(py: string, manage: string, fields: string, names: seq<string>): (r: seq<Effect>)
    ensures |r| == |names|
    ensures forall k :: 0 <= k < |names| ==> r[k] == Exec(UpdateArgv(py, manage, names[k], fields))
  {
    seq(|names|, k requires 0 <= k < |names| => Exec(UpdateArgv(py, manage, names[k], fields)))
  }

  /** The update loop from trace position `pos`: each string name runs the
      command and the loop stops after the first return code 0; a failed run,
      or a name that makes `subprocess.run` raise, moves on to the next name. */
  function TryNames(run: (nat, seq<string>) -> Proc, pos: nat, py: string, manage: string, fields: string,
                    names: seq<Json>): seq<Effect>
    decreases |names|
  {
    if names == [] then []
    else if names[0].JStr? then
      var argv := UpdateArgv(py, manage, names[0].s, fields);
      if run(pos, argv).returnCode == 0 then [Exec(argv)]
      else [Exec(argv)] + TryNames(run, pos + 1, py, manage, fields, names[1..])
    else TryNames(run, pos, py, manage, fields, names[1..])
  }

  /** The commands run are the update commands for the string names, in
      order, none skipped and none repeated. */
  lemma {:induction false} TryNamesCommands(run: (nat, seq<string>) -> Proc, pos: nat, py: string, manage: string,
                                            fields: string, names: seq<Json>)
    ensures var e := TryNames(run, pos, py, manage, fields, names);
            var ss := Strings(names);
      |e| <= |ss| && forall k :: 0 <= k < |e| ==> e[k] == Exec(UpdateArgv(py, manage, ss[k], fields))
    decreases |names|
  {
    if names != [] {
      var rest := names[1..];
      if names[0].JStr? {
        var argv := UpdateArgv(py, manage, names[0].s, fields);
        var ss := Strings(names);
        var sr := Strings(rest);
        assert ss == [names[0].s] + sr;
        if run(pos, argv).returnCode != 0 {
          TryNamesCommands(run, pos + 1, py, manage, fields, rest);
          var e := TryNames(run, pos, py, manage, fields, names);
          var er := TryNames(run, pos + 1, py, manage, fields, rest);
          assert e == [Exec(argv)] + er;
          forall k | 0 < k < |e|
            ensures e[k] == Exec(UpdateArgv(py, manage, ss[k], fields))
          {
            assert e[k] == er[k - 1] && ss[k] == sr[k - 1];
          }
        }
      } else {
        TryNamesCommands(run, pos, py, manage, fields, rest);
        assert Strings(names) == Strings(rest);
      }
    }
  }

  /** Every command run but the last failed. */
  lemma {:induction false} TryNamesFailedBefore(run: (nat, seq<string>) -> Proc, pos: nat, py: string, manage: string,
                                                fields: string, names: seq<Json>)
    ensures var e := TryNames(run, pos, py, manage, fields, names);
            var ss := Strings(names);
      |e| <= |ss| &&
      forall k :: 0 <= k < |e| - 1 ==> run(pos + k, UpdateArgv(py, manage, ss[k], fields)).returnCode != 0
    decreases |names|
  {
    if names != [] {
      var rest := names[1..];
      if names[0].JStr? {
        var argv := UpdateArgv(py, manage, names[0].s, fields);
        var ss := Strings(names);
        var sr := Strings(rest);
        assert ss == [names[0].s] + sr;
        if run(pos, argv).returnCode != 0 {
          TryNamesFailedBefore(run, pos + 1, py, manage, fields, rest);
          var e := TryNames(run, pos, py, manage, fields, names);
          var er := TryNames(run, pos + 1, py, manage, fields, rest);
          assert e == [Exec(argv)] + er;
          forall k | 0 <= k < |e| - 1
            ensures run(pos + k, UpdateArgv(py, manage, ss[k], fields)).returnCode != 0
          {
            if k > 0 {
              assert ss[k] == sr[k - 1] && pos + k == pos + 1 + (k - 1);
            }
          }
        }
      } else {
        TryNamesFailedBefore(run, pos, py, manage, fields, rest);
        assert Strings(names) == Strings(rest);
      }
    }
  }

  /** The loop stops before the last candidate only after a success. */
  lemma {:induction false} TryNamesStopsOnSuccess(run: (nat, seq<string>) -> Proc, pos: nat, py: string, manage: string,
                                                  fields: string, names: seq<Json>)
    ensures var e := TryNames(run, pos, py, manage, fields, names);
            var ss := Strings(names);
      |e| < |ss| ==> e != [] && run(pos + |e| - 1, UpdateArgv(py, manage, ss[|e| - 1], fields)).returnCode == 0
    decreases |names|
  {
    if names != [] {
      var rest := names[1..];
      if names[0].JStr? {
        var argv := UpdateArgv(py, manage, names[0].s, fields);
        var ss := Strings(names);
        var sr := Strings(rest);
        assert ss == [names[0].s] + sr;
        var e := TryNames(run, pos, py, manage, fields, names);
        if run(pos, argv).returnCode != 0 {
          TryNamesStopsOnSuccess(run, pos + 1, py, manage, fields, rest);
          var er := TryNames(run, pos + 1, py, manage, fields, rest);
          assert e == [Exec(argv)] + er;
          if |e| < |ss| {
            assert |er| < |sr| && |e| - 1 == |er| && ss[|e| - 1] == sr[|er| - 1];
            var p := pos + |e| - 1;
            assert p == pos + 1 + |er| - 1;
            assert run(p, UpdateArgv(py, manage, ss[|e| - 1], fields)) ==
                   run(pos + 1 + |er| - 1, UpdateArgv(py, manage, sr[|er| - 1], fields));
          }
        } else {
          assert e == [Exec(argv)] && ss[|e| - 1] == names[0].s;
          assert run(pos + |e| - 1, UpdateArgv(py, manage, ss[|e| - 1], fields)) == run(pos, argv);
        }
      } else {
        TryNamesStopsOnSuccess(run, pos, py, manage, fields, rest);
        assert Strings(names) == Strings(rest);
      }
    }
  }

  /** Every command run but the last failed, and the loop stops before the
      last candidate only after a success. */
  lemma TryNamesOutcomes(run: (nat, seq<string>) -> Proc, pos: nat, py: string, manage: string,
                         fields: string, names: seq<Json>)
    ensures var e := TryNames(run, pos, py, manage, fields, names);
            var ss := Strings(names);
      |e| <= |ss| &&
      (forall k :: 0 <= k < |e| - 1 ==> run(pos + k, UpdateArgv(py, manage, ss[k], fields)).returnCode != 0) &&
      (|e| < |ss| ==> e != [] && run(pos + |e| - 1, UpdateArgv(py, manage, ss[|e| - 1], fields)).returnCode == 0)
  {
    TryNamesFailedBefore(run, pos, py, manage, fields, names);
    TryNamesStopsOnSuccess(run, pos, py, manage, fields, names);
  }

  /** When every run fails, every string name is tried, in order. */
  lemma {:induction false} TryNamesAllFail(run: (nat, seq<string>) -> Proc, pos: nat, py: string, manage: string,
                                           fields: string, names: seq<Json>)
    requires forall p: nat, argv :: run(p, argv).returnCode != 0
    ensures TryNames(run, pos, py, manage, fields, names) == AllAttempts(py, manage, fields, Strings(names))
    decreases |names|
  {
    if names != [] {
      var rest := names[1..];
      if names[0].JStr? {
        TryNamesAllFail(run, pos + 1, py, manage, fields, rest);
        assert Strings(names) == [names[0].s] + Strings(rest);
      } else {
        TryNamesAllFail(run, pos, py, manage, fields, rest);
        assert Strings(names) == Strings(rest);
      }
    }
  }

  /** The `nodes list` lookup, run only when there is an OCID. */
  function Lookups(inst: Json, py: string, manage: string): seq<Effect> {
    if Truthy(inst) then [Exec(NodesListArgv(py, manage))] else []
  }

  /** The hostname the lookup at trace position `pos` resolves, None without an
      OCID. */
  function LookedUp(run: (nat, seq<string>) -> Proc, pos: nat, py: string, manage: string,
                    parse: string -> Option<Json>, inst: Json): Json {
    if Truthy(inst) then HostnameOf(NodesListText(run(pos, NodesListArgv(py, manage))), parse, inst) else JNull
  }

  /** The lookup followed by the update attempts. */
  function UpdateAttempts(run: (nat, seq<string>) -> Proc, pos: nat, py: string, manage: string,
                          parse: string -> Option<Json>, inst: Json, hostname: string, fields: string): seq<Effect>
  {
    var look := Lookups(inst, py, manage);
    look + TryNames(run, pos + |look|, py, manage, fields,
                    AttemptNames(inst, LookedUp(run, pos, py, manage, parse, inst), hostname))
  }

  /** The OCID of `details`: `instance_id`, else `ocid`. */
  function InstanceOf(details: seq<(string, Json)>): Json {
    Or(Get(details, "instance_id"), Get(details, "ocid"))
  }

  /** `mgmt_update_node_status(hostname, status, details)` from trace position
      `pos`, `details` being the dict (an absent one is the empty dict): no
      effect without `manage.py` or without any name; otherwise the hostname
      lookup when there is an OCID, then the update attempts. */
  function UpdateRun(run: (nat, seq<string>) -> Proc, pos: nat, envPath: Option<string>, present: string -> bool,
                     executable: string, parse: string -> Option<Json>, hostname: string, status: string,
                     details: seq<(string, Json)>): seq<Effect>
  {
    var manage := FirstExisting(Preferences(envPath), present);
    var inst := InstanceOf(details);
    if manage.None? || (!Truthy(inst) && hostname == "") then []
    else UpdateAttempts(run, pos, VenvPython(present, executable), manage.value, parse, inst, hostname,
                        FieldsValue(status))
  }

  /** An update with a non-empty hostname whose every attempt fails includes
      the attempt under the raw hostname, so the hostname is always tried. */
  lemma UpdateTriesHostname(run: (nat, seq<string>) -> Proc, pos: nat, envPath: Option<string>,
                            present: string -> bool, executable: string, parse: string -> Option<Json>,
                            hostname: string, status: string, details: seq<(string, Json)>)
    requires FirstExisting(Preferences(envPath), present).Some? && hostname != ""
    requires forall p: nat, argv :: run(p, argv).returnCode != 0
    ensures Exec(UpdateArgv(VenvPython(present, executable), FirstExisting(Preferences(envPath), present).value,
                            hostname, FieldsValue(status)))
            in UpdateRun(run, pos, envPath, present, executable, parse, hostname, status, details)
  {
    var manage := FirstExisting(Preferences(envPath), present).value;
    var inst := InstanceOf(details);
    var py := VenvPython(present, executable);
    TryNamesHas(run, pos + |Lookups(inst, py, manage)|, py, manage, FieldsValue(status),
                AttemptNames(inst, LookedUp(run, pos, py, manage, parse, inst), hostname), hostname);
  }

  /** With every run failing, each string name is tried. */
  lemma {:induction false} TryNamesHas(run: (nat, seq<string>) -> Proc, pos: nat, py: string, manage: string,
                                       fields: string, names: seq<Json>, name: string)
    requires forall p: nat, argv :: run(p, argv).returnCode != 0
    requires JStr(name) in names
    ensures Exec(UpdateArgv(py, manage, name, fields)) in TryNames(run, pos, py, manage, fields, names)
    decreases |names|
  {
    if names[0] != JStr(name) {
      TryNamesHas(run, if names[0].JStr? then pos + 1 else pos, py, manage, fields, names[1..], name);
    }
  }

  /** The attempts loop of `mgmt_update_node_status`. */
  method TryUpdate(c: Cluster, py: string, manage: string, fields: string, names: seq<Json>)
    modifies c
    ensures c.trace == old(c.trace) + TryNames(c.run, |old(c.trace)|, py, manage, fields, names)
    ensures c.audit == old(c.audit)
  {
    ghost var t0 := c.trace;
    ghost var done: seq<Effect> := [];
    var i := 0;
    while i < |names|
      invariant 0 <= i <= |names|
      invariant c.audit == old(c.audit) && c.trace == t0 + done
      invariant TryNames(c.run, |t0|, py, manage, fields, names) ==
                done + TryNames(c.run, |c.trace|, py, manage, fields, names[i..])
    {
      assert names[i..][1..] == names[i + 1..];
      if names[i].JStr? {
        var argv := UpdateArgv(py, manage, names[i].s, fields);
        var p := c.Run(argv);
        ConcatAssoc(done, [Exec(argv)], TryNames(c.run, |c.trace|, py, manage, fields, names[i + 1..]));
        done := done + [Exec(argv)];
        if p.returnCode == 0 {
          assert done + [] == done;
          return;
        }
      }
      i := i + 1;
    }
    assert done + [] == done;
  }

  /** `mgmt_update_node_status(hostname, status, details)`: returns nothing and
      never raises; what it does is the commands it runs. */
  method UpdateNodeStatus(c: Cluster, envPath: Option<string>, present: string -> bool, executable: string,
                          parse: string -> Option<Json>, hostname: string, status: string,
                          details: seq<(string, Json)>)
    modifies c
    ensures c.trace == old(c.trace) +
      UpdateRun(c.run, |old(c.trace)|, envPath, present, executable, parse, hostname, status, details)
    ensures c.audit == old(c.audit)
  {
    var manage := FindManagePy(envPath, present);
    var inst := InstanceOf(details);
    if manage.None? {
      return;
    }
    if !Truthy(inst) && hostname == "" {
      return;
    }
    var fields := FieldsValue(status);
    var py := VenvPython(present, executable);
    ghost var t0 := c.trace;
    ghost var look := Lookups(inst, py, manage.value);
    var names := BuildAttempts(c, py, manage.value, parse, inst, hostname);
    ghost var t1 := c.trace;
    assert |t1| == |t0| + |look|;
    TryUpdate(c, py, manage.value, fields, names);
    ghost var tries := TryNames(c.run, |t1|, py, manage.value, fields, names);
    assert UpdateRun(c.run, |t0|, envPath, present, executable, parse, hostname, status, details) == look + tries;
    ConcatAssoc(t0, look, tries);
  }

  // ---------------------------------------------------------------------------
  // mgmt_reconfigure_compute

  /** `[n for n in nodes if n]`. */
  function NonEmpty(nodes: seq<string>): (r: seq<string>)
    ensures forall k :: 0 <= k < |r| ==> r[k] != []
    ensures forall x :: x in r <==> x in nodes && x != []
    decreases |nodes|
  {
    if nodes == [] then []
    else (if nodes[0] != [] then [nodes[0]] else []) + NonEmpty(nodes[1..])
  }

  /** The `--nodes` argument: the non-empty entries joined with commas. */
  function NodesArg(nodes: seq<string>): string {
    Join(",", NonEmpty(nodes))
  }

  /** The argument is empty exactly when every entry is, and when no entry
      holds a comma, splitting it at commas gives back the non-empty entries. */
  lemma NodesArgRoundTrip(nodes: seq<string>)
    ensures NodesArg(nodes) == [] <==> forall k :: 0 <= k < |nodes| ==> nodes[k] == []
    ensures (forall k :: 0 <= k < |nodes| ==> ',' !in nodes[k]) && NonEmpty(nodes) != [] ==>
      SplitOn(NodesArg(nodes), ',') == NonEmpty(nodes)
  {
    var ne := NonEmpty(nodes);
    if ne != [] {
      JoinNonEmpty(ne);
      assert ne[0] in nodes;
    } else {
      forall k | 0 <= k < |nodes|
        ensures nodes[k] == []
      {
        assert nodes[k] !in ne;
      }
    }
    if (forall k :: 0 <= k < |nodes| ==> ',' !in nodes[k]) && ne != [] {
      forall k | 0 <= k < |ne|
        ensures ',' !in ne[k]
      {
        assert ne[k] in nodes;
      }
      SplitOnJoin(ne, ',');
    }
  }

  /** A join of non-empty parts, at least one, is non-empty. */
  lemma {:induction false} JoinNonEmpty(parts: seq<string>)
    requires parts != [] && forall k :: 0 <= k < |parts| ==> parts[k] != []
    ensures Join(",", parts) != []
    decreases |parts|
  {
    if |parts| > 1 {
      assert |Join(",", parts)| >= |parts[0]|;
    }
  }

  function ReconfigureArgv(py: string, manage: string, nodesArg: string, fields: Option<string>): seq<string> {
    [py, manage, "nodes", "reconfigure", "compute", "--nodes", nodesArg] +
    (if fields.Some? && fields.value != "" then ["--fields", fields.value] else [])
  }

  /** `mgmt_reconfigure_compute(nodes, fields)`: False with no command when
      `manage.py` is missing or no entry is non-empty; otherwise one command,
      and True exactly when it returned 0. An exception from the run is handled
      like a non-zero return code. */
  method ReconfigureCompute(c: Cluster, envPath: Option<string>, present: string -> bool, executable: string,
                            nodes: seq<string>, fields: Option<string>) returns (ok: bool)
    modifies c
    ensures var manage := FirstExisting(Preferences(envPath), present);
      (manage.None? || NodesArg(nodes) == [] ==> c.trace == old(c.trace) && !ok) &&
      (manage.Some? && NodesArg(nodes) != [] ==>
         var argv := ReconfigureArgv(VenvPython(present, executable), manage.value, NodesArg(nodes), fields);
         c.trace == old(c.trace) + [Exec(argv)] && (ok <==> c.run(|old(c.trace)|, argv).returnCode == 0))
    ensures c.audit == old(c.audit)
  {
    var manage := FindManagePy(envPath, present);
    if manage.None? {
      return false;
    }
    var nodesArg := Join(",", NonEmpty(nodes));
    if nodesArg == [] {
      return false;
    }
    var argv := [VenvPython(present, executable), manage.value, "nodes", "reconfigure", "compute", "--nodes", nodesArg];
    if fields.Some? && fields.value != "" {
      argv := argv + ["--fields", fields.value];
    } else {
      assert argv + [] == argv;
    }
    assert argv == ReconfigureArgv(VenvPython(present, executable), manage.value, NodesArg(nodes), fields);
    var p := c.Run(argv);
    ok := p.returnCode == 0;
  }
}
