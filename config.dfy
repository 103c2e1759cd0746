/** The fault policy and configuration of the orchestrator: `.env` loading, the
    approved-fault whitelist (file first, environment as fallback), the host
    exclusion list, the skip-drain override and the first-match approval test. */
module Config {
  import opened Wrappers
  import opened Text
  import opened PyJson

  // ---------------------------------------------------------------------------
  // .env loading

  /** What one `.env` file looks like to the loader. */
  datatype EnvFile =
    | Missing                 // the file does not exist
    | Unreadable              // reading or decoding it raised; the file is skipped
    | Lines(lines: seq<string>)

  /** The text of a `.env` line that may hold an assignment: None for a blank
      line or a `#` comment; a leading `export ` is removed. */
  function EnvBody(raw: string): Option<string> {
    var line := Strip(raw);
    if line == [] || StartsWith(line, "#") then None
    else if StartsWith(line, "export ") then Some(Strip(line[7..]))
    else Some(line)
  }

  /** The value with whitespace, then double quotes, then single quotes stripped. */
  function Unquote(v: string): string {
    StripChar(StripChar(Strip(v), '"'), '\'')
  }

  /** `line.split("=", 1)` with both sides cleaned, or None without an `=`. */
  function SplitAssignment(body: string): Option<(string, string)> {
    match IndexOf(body, '=')
    case None => None
    case Some(i) => Some((Strip(body[..i]), Unquote(body[i + 1..])))
  }

  /** The assignment one `.env` line asks for, or None when the line is ignored. */
  function ParseEnvLine(raw: string): Option<(string, string)> {
    match EnvBody(raw)
    case None => None
    case Some(body) => SplitAssignment(body)
  }

  /** `os.environ[key] = val` raises ValueError on an embedded NUL character. */
  predicate Settable(key: string, val: string) {
    '\0' !in key && '\0' !in val
  }

  /** The effect of one parsed assignment on the environment, and whether it
      raised (which ends the loading of that file). Existing keys and the empty
      key are left alone. */
  function Assign(env: map<string, string>, parsed: Option<(string, string)>): (map<string, string>, bool) {
    match parsed
    case None => (env, false)
    case Some(kv) =>
      if kv.0 != [] && kv.0 !in env then
        if Settable(kv.0, kv.1) then (env[kv.0 := kv.1], false) else (env, true)
      else (env, false)
  }

  /** The assignment each line of a file asks for, in order. */
  function ParseLines(lines: seq<string>): (r: seq<Option<(string, string)>>)
    ensures |r| == |lines| && forall i :: 0 <= i < |lines| ==> r[i] == ParseEnvLine(lines[i])
  {
    seq(|lines|, i requires 0 <= i < |lines| => ParseEnvLine(lines[i]))
  }

  /** The environment after a file's assignments, and whether one raised; once
      one has raised the rest of the file is not read. */
  function ApplyAll(env: map<string, string>, ps: seq<Option<(string, string)>>): (map<string, string>, bool)
    decreases |ps|
  {
    if ps == [] then (env, false)
    else
      var before := ApplyAll(env, ps[..|ps| - 1]);
      if before.1 then before else Assign(before.0, ps[|ps| - 1])
  }

  function LoadFile(env: map<string, string>, f: EnvFile): map<string, string> {
    match f
    case Lines(ls) => ApplyAll(env, ParseLines(ls)).0
    case _ => env
  }

  /** The files read in order, each only filling in keys still unset. */
  function LoadFiles(env: map<string, string>, files: seq<EnvFile>): map<string, string>
    decreases |files|
  {
    if files == [] then env
    else LoadFile(LoadFiles(env, files[..|files| - 1]), files[|files| - 1])
  }

  /** `.env` is read before `.env.local`. */
  function LoadEnv(env: map<string, string>, dotEnv: EnvFile, dotEnvLocal: EnvFile): map<string, string> {
    LoadFiles(env, [dotEnv, dotEnvLocal])
  }

  /** The process environment (`os.environ`), which `_load_env_files` updates in place. */
  class ProcessEnv {
    var vars: map<string, string>

    constructor (initial: map<string, string>)
      ensures vars == initial
    {
      vars := initial;
    }

    /** `_load_env_files`: the two files in order. */
    method LoadEnvFiles(dotEnv: EnvFile, dotEnvLocal: EnvFile)
      modifies this
      ensures vars == LoadEnv(old(vars), dotEnv, dotEnvLocal)
    {
      var files := [dotEnv, dotEnvLocal];
      ghost var start := vars;
      for f := 0 to |files|
        invariant vars == LoadFiles(start, files[..f])
      {
        assert files[..f + 1][..f] == files[..f];
        ReadEnvFile(files[f]);
      }
      assert files[..|files|] == files;
    }

    /** One file: skipped when missing or unreadable; otherwise its lines in
        order until one of them raises. */
    method ReadEnvFile(file: EnvFile)
      modifies this
      ensures vars == LoadFile(old(vars), file)
    {
      if file.Lines? {
        var lines := file.lines;
        ghost var before := vars;
        ghost var ps := ParseLines(lines);
        var i := 0;
        var failed := false;
        while i < |lines| && !failed
          invariant 0 <= i <= |lines|
          invariant (vars, failed) == ApplyAll(before, ps[..i])
        {
          assert ps[..i + 1][..i] == ps[..i];
          assert ApplyAll(before, ps[..i + 1]) == Assign(vars, ps[i]);
          var parsed := ParseEnvLine(lines[i]);
          assert parsed == ps[i];
          if parsed.Some? {
            var (key, val) := parsed.value;
            if key != [] && key !in vars {
              if Settable(key, val) {
                vars := vars[key := val];
              } else {
                failed := true;
              }
            }
          }
          i := i + 1;
        }
        if failed {
          ApplyAllStops(before, ps, i);
        } else {
          assert ps[..i] == ps;
        }
      }
    }
  }

  /** Once an assignment has raised, the later lines change nothing. */
  lemma {:induction false} ApplyAllStops(env: map<string, string>, ps: seq<Option<(string, string)>>, n: nat)
    requires n <= |ps| && ApplyAll(env, ps[..n]).1
    ensures ApplyAll(env, ps) == ApplyAll(env, ps[..n])
    decreases |ps| - n
  {
    if n < |ps| {
      assert ps[..n + 1][..n] == ps[..n];
      ApplyAllStops(env, ps, n + 1);
    } else {
      assert ps[..n] == ps;
    }
  }

  /** One assignment keeps every key already set. */
  lemma AssignKeeps(env: map<string, string>, parsed: Option<(string, string)>)
    ensures forall k :: k in env ==> k in Assign(env, parsed).0 && Assign(env, parsed).0[k] == env[k]
  {
  }

  /** A file never changes a key already present in the environment. */
  lemma {:induction false} ApplyAllKeeps(env: map<string, string>, ps: seq<Option<(string, string)>>)
    ensures forall k :: k in env ==> k in ApplyAll(env, ps).0 && ApplyAll(env, ps).0[k] == env[k]
    decreases |ps|
  {
    if ps != [] {
      ApplyAllKeeps(env, ps[..|ps| - 1]);
      AssignKeeps(ApplyAll(env, ps[..|ps| - 1]).0, ps[|ps| - 1]);
    }
  }

  /** Every key a file adds is non-empty and was assigned, with that value, by
      one of its lines. */
  lemma {:induction false} ApplyAllSource(env: map<string, string>, ps: seq<Option<(string, string)>>, k: string)
    requires k in ApplyAll(env, ps).0 && k !in env
    ensures k != []
    ensures exists i :: 0 <= i < |ps| && ps[i] == Some((k, ApplyAll(env, ps).0[k]))
    decreases |ps|
  {
    var init := ps[..|ps| - 1];
    var mid := ApplyAll(env, init);
    if mid.1 || k in mid.0 {
      ApplyAllSource(env, init, k);
      AssignKeeps(mid.0, ps[|ps| - 1]);
      var i :| 0 <= i < |init| && init[i] == Some((k, mid.0[k]));
      assert ps[i] == init[i];
    } else {
      assert ps[|ps| - 1] == Some((k, ApplyAll(env, ps).0[k]));
    }
  }

  /** Every variable a `.env` file sets comes from one of its lines. */
  lemma LoadFileSource(env: map<string, string>, f: EnvFile, k: string)
    requires k in LoadFile(env, f) && k !in env
    ensures f.Lines? && k != []
    ensures exists i :: 0 <= i < |f.lines| && ParseEnvLine(f.lines[i]) == Some((k, LoadFile(env, f)[k]))
  {
    ApplyAllSource(env, ParseLines(f.lines), k);
  }

  /** The loader never overwrites: every variable already set, and every variable
      `.env` set, keeps its value after `.env.local` is read. */
  lemma LoadEnvPrecedence(env: map<string, string>, dotEnv: EnvFile, dotEnvLocal: EnvFile)
    ensures forall k :: k in env ==> k in LoadEnv(env, dotEnv, dotEnvLocal) && LoadEnv(env, dotEnv, dotEnvLocal)[k] == env[k]
    ensures forall k :: k in LoadFile(env, dotEnv) ==>
      k in LoadEnv(env, dotEnv, dotEnvLocal) && LoadEnv(env, dotEnv, dotEnvLocal)[k] == LoadFile(env, dotEnv)[k]
  {
    var mid := LoadFile(env, dotEnv);
    assert [dotEnv, dotEnvLocal][..1] == [dotEnv];
    assert [dotEnv][..0] == [];
    assert LoadFiles(env, [dotEnv]) == LoadFile(LoadFiles(env, []), dotEnv) == mid;
    assert LoadEnv(env, dotEnv, dotEnvLocal) == LoadFile(mid, dotEnvLocal);
    LoadFileKeeps(env, dotEnv);
    LoadFileKeeps(mid, dotEnvLocal);
  }

  /** Reading one file never changes a variable already set. */
  lemma LoadFileKeeps(env: map<string, string>, f: EnvFile)
    ensures forall k :: k in env ==> k in LoadFile(env, f) && LoadFile(env, f)[k] == env[k]
  {
    if f.Lines? { ApplyAllKeeps(env, ParseLines(f.lines)); }
  }

  /** A plain `KEY=value` line, with a key free of `=` and whitespace and a value
      without surrounding whitespace or quotes, assigns exactly that pair, with
      or without a leading `export `. */
  lemma ParseEnvLineAssignment(key: string, val: string)
    requires key != [] && NoSpace(key) && '=' !in key && key[0] != '#'
    requires val == [] || (!IsSpace(val[0]) && !IsSpace(val[|val| - 1]))
    requires val == [] || (val[0] != '"' && val[|val| - 1] != '"' && val[0] != '\'' && val[|val| - 1] != '\'')
    ensures ParseEnvLine(key + "=" + val) == Some((key, val))
    ensures ParseEnvLine("export " + key + "=" + val) == Some((key, val))
  {
    var line := key + "=" + val;
    assert line[0] == key[0];
    assert line[|line| - 1] == if val == [] then '=' else val[|val| - 1];
    NotExportPrefix(key, val);
    EnvBodyOfTrimmed(line);
    EnvBodyOfExport(line);
    ExportConcat(key, val);
    SplitAssignmentOf(key, val);
  }

  lemma ExportConcat(key: string, val: string)
    ensures "export " + key + "=" + val == "export " + (key + "=" + val)
  {
  }

  /** A trimmed line that is not a comment and has no `export ` prefix is its own body. */
  lemma EnvBodyOfTrimmed(line: string)
    requires line != [] && !IsSpace(line[0]) && !IsSpace(line[|line| - 1])
    requires line[0] != '#' && !StartsWith(line, "export ")
    ensures EnvBody(line) == Some(line)
  {
    StripOfTrimmed(line);
  }

  /** `export ` in front of a trimmed non-empty line is removed. */
  lemma EnvBodyOfExport(line: string)
    requires line != [] && !IsSpace(line[0]) && !IsSpace(line[|line| - 1])
    ensures EnvBody("export " + line) == Some(line)
  {
    var ex := "export " + line;
    ExportPrefixed(line, ex);
    StripOfTrimmed(ex);
    StripOfTrimmed(line);
  }

  /** The shape of an `export `-prefixed line: trimmed when the line is, not a
      comment, and the line itself after the prefix. */
  lemma ExportPrefixed(line: string, ex: string)
    requires line != [] && !IsSpace(line[|line| - 1]) && ex == "export " + line
    ensures !IsSpace(ex[0]) && !IsSpace(ex[|ex| - 1])
    ensures ex != [] && !StartsWith(ex, "#") && StartsWith(ex, "export ") && ex[7..] == line
  {
    assert ex[0] == 'e' && ex[|ex| - 1] == line[|line| - 1];
    assert ex[..1][0] == 'e';
    assert ex[..7] == "export ";
  }

  /** A line that starts with a space-free key and `=` does not start with `export `. */
  lemma NotExportPrefix(key: string, val: string)
    requires key != [] && NoSpace(key)
    ensures !StartsWith(key + "=" + val, "export ")
  {
    var line := key + "=" + val;
    if |key| >= 7 {
      assert line[..7][6] == key[6];
    } else if |line| >= 7 {
      assert line[..7][|key|] == '=';
    }
  }

  /** The first `=` separates a clean key from a clean value. */
  lemma SplitAssignmentOf(key: string, val: string)
    requires NoSpace(key) && '=' !in key
    requires val == [] || (!IsSpace(val[0]) && !IsSpace(val[|val| - 1]))
    requires val == [] || (val[0] != '"' && val[|val| - 1] != '"' && val[0] != '\'' && val[|val| - 1] != '\'')
    ensures SplitAssignment(key + "=" + val) == Some((key, val))
  {
    var line := key + "=" + val;
    IndexOfAfter(key, val);
    assert line[..|key|] == key;
    assert line[|key| + 1..] == val;
    StripOfTrimmed(key);
    StripOfTrimmed(val);
    StripCharNoOp(val, '"');
    StripCharNoOp(val, '\'');
  }

  lemma IndexOfAfter(key: string, val: string)
    requires '=' !in key
    ensures IndexOf(key + "=" + val, '=') == Some(|key|)
  {
    var line := key + "=" + val;
    assert line[|key|] == '=';
    assert line[..|key|] == key;
  }

  lemma StripCharNoOp(s: string, c: char)
    requires s == [] || (s[0] != c && s[|s| - 1] != c)
    ensures StripChar(s, c) == s
  {
  }

  // ---------------------------------------------------------------------------
  // JSON list files and the whitelist

  /** What `_read_json_list` finds at a path. */
  datatype JsonFile =
    | Absent        // the path does not exist
    | ReadFailed    // opening or reading raised
    | ParseFailed   // the text is not JSON
    | Parsed(doc: Json)

  /** `_read_json_list`: the elements of a JSON array converted with `str()`,
      else the empty list. */
  function ReadJsonList(f: JsonFile): (r: seq<string>)
    ensures f.Parsed? && f.doc.JArr? ==> |r| == |f.doc.items|
    ensures f.Parsed? && f.doc.JArr? ==>
      forall i :: 0 <= i < |r| ==> r[i] == PyStr(f.doc.items[i])
    ensures f.Parsed? && f.doc.JArr? ==>
      forall i :: 0 <= i < |r| ==> f.doc.items[i].JStr? ==> r[i] == f.doc.items[i].s
    ensures !(f.Parsed? && f.doc.JArr?) ==> r == []
  {
    match f
    case Parsed(JArr(xs)) => seq(|xs|, i requires 0 <= i < |xs| => PyStr(xs[i]))
    case _ => []
  }

  /** `os.getenv(key, default)`. */
  function GetEnv(env: map<string, string>, key: string, default: string): string {
    if key in env then env[key] else default
  }

  /** `TENANCY_OCID`: `OCI_TENANCY_OCID`, else `TENANCY_OCID` (an empty value
      counts as unset), else the dummy compartment. */
  function TenancyOcid(env: map<string, string>): (r: string)
    ensures r != []
    ensures r == GetEnv(env, "OCI_TENANCY_OCID", "") || r == GetEnv(env, "TENANCY_OCID", "")
            || r == DUMMY_TENANCY
    ensures GetEnv(env, "OCI_TENANCY_OCID", "") != [] ==> r == env["OCI_TENANCY_OCID"]
    ensures GetEnv(env, "OCI_TENANCY_OCID", "") == [] && GetEnv(env, "TENANCY_OCID", "") != [] ==>
              r == env["TENANCY_OCID"]
  {
    var first := GetEnv(env, "OCI_TENANCY_OCID", "");
    var second := GetEnv(env, "TENANCY_OCID", "");
    if first != [] then first else if second != [] then second else DUMMY_TENANCY
  }

  const DUMMY_TENANCY: string := "ocid1.compartment.DUMMY"

  /** `PROCESSED_TAG`: the freeform tag that marks an event as handled. */
  function ProcessedTag(env: map<string, string>): (r: string)
    ensures "PROCESSED_TAG" !in env ==> r == "maintenance_processed"
    ensures "PROCESSED_TAG" in env ==> r == env["PROCESSED_TAG"]
  {
    GetEnv(env, "PROCESSED_TAG", "maintenance_processed")
  }

  // Defaults of the integer settings; each can be overridden from the
  // environment, and the model takes the value in force as a parameter.
  const DEFAULT_MAX_WORKERS: int := 8
  const DEFAULT_DRAIN_POLL_SEC: int := 30
  const DEFAULT_MAINT_POLL_SEC: int := 86400
  const LEGACY_MAINT_POLL_SEC: int := 60
  const DEFAULT_DAILY_SCHEDULE_CAP: int := 10
  const DEFAULT_LOOP_INTERVAL_SEC: int := 900

  /** `APPROVED_FAULT_CODES`: the comma-separated pieces, stripped, empty ones dropped. */
  function EnvApprovedCodes(raw: string): set<string> {
    set c | c in SplitOn(raw, ',') && Strip(c) != [] :: Strip(c)
  }

  /** Every code in the environment set is non-empty, comma-free and already stripped. */
  lemma EnvApprovedCodesClean(raw: string)
    ensures forall c :: c in EnvApprovedCodes(raw) ==> c != [] && ',' !in c && Strip(c) == c
  {
    forall c | c in EnvApprovedCodes(raw)
      ensures c != [] && ',' !in c && Strip(c) == c
    {
      var p :| p in SplitOn(raw, ',') && Strip(p) != [] && Strip(p) == c;
      StripIdempotent(p);
      StripSubstring(p);
    }
  }

  /** Writing a list of clean codes as a comma list and parsing it gives the same set. */
  lemma EnvApprovedCodesOfList(codes: seq<string>)
    requires codes != []
    requires forall k :: 0 <= k < |codes| ==> codes[k] != [] && ',' !in codes[k] && Strip(codes[k]) == codes[k]
    ensures EnvApprovedCodes(Join(",", codes)) == set k | 0 <= k < |codes| :: codes[k]
  {
    SplitOnJoin(codes, ',');
    assert SplitOn(Join(",", codes), ',') == codes;
    forall c | c in EnvApprovedCodes(Join(",", codes))
      ensures c in set k | 0 <= k < |codes| :: codes[k]
    {
      var p :| p in codes && Strip(p) != [] && Strip(p) == c;
      var k :| 0 <= k < |codes| && codes[k] == p;
    }
    forall k | 0 <= k < |codes|
      ensures codes[k] in EnvApprovedCodes(Join(",", codes))
    {
      assert codes[k] in SplitOn(Join(",", codes), ',');
    }
  }

  /** Stripping keeps a contiguous piece of the string, so it adds no character. */
  lemma StripSubstring(s: string)
    ensures forall c :: c in Strip(s) ==> c in s
  {
    var l := LStrip(s);
    var t := RStrip(l);
    forall c | c in t ensures c in s {
      var i :| 0 <= i < |t| && t[i] == c;
      assert l[i] == c;
      assert s[|s| - |l| + i] == c;
    }
  }

  /** `get_approved_faults`: the stripped non-empty entries of the whitelist file
      whenever that file yields a non-empty list (even if nothing survives the
      filter), otherwise the set parsed from `APPROVED_FAULT_CODES`. */
  function ApprovedFaults(file: JsonFile, env: map<string, string>): set<string> {
    var arr := ReadJsonList(file);
    if arr != [] then set s | s in arr && Strip(s) != [] :: Strip(s)
    else EnvApprovedCodes(GetEnv(env, "APPROVED_FAULT_CODES", ""))
  }

  /** No approved code is empty or carries surrounding whitespace, whichever
      source it came from; a non-empty file shadows the environment completely. */
  lemma ApprovedFaultsClean(file: JsonFile, env: map<string, string>)
    ensures forall c :: c in ApprovedFaults(file, env) ==> c != [] && Strip(c) == c
    ensures ReadJsonList(file) != [] ==>
      forall c :: c in ApprovedFaults(file, env) ==> exists s :: s in ReadJsonList(file) && Strip(s) == c
  {
    if ReadJsonList(file) != [] {
      forall c | c in ApprovedFaults(file, env) ensures c != [] && Strip(c) == c {
        var s :| s in ReadJsonList(file) && Strip(s) != [] && Strip(s) == c;
        StripIdempotent(s);
      }
    } else {
      EnvApprovedCodesClean(GetEnv(env, "APPROVED_FAULT_CODES", ""));
    }
  }

  /** `get_excluded_hosts`. */
  function ExcludedHosts(file: JsonFile): set<string> {
    set h | h in ReadJsonList(file)
  }

  /** `is_host_excluded`: exact membership, no normalisation. */
  function IsHostExcluded(hostname: string, file: JsonFile): (r: bool)
    ensures r <==> exists i :: 0 <= i < |ReadJsonList(file)| && ReadJsonList(file)[i] == hostname
  {
    hostname in ExcludedHosts(file)
  }

  /** `SKIP_DRAIN_CHECK`: true iff the lower-cased value is `true`, `1` or `yes`. */
  function SkipDrainCheck(env: map<string, string>): bool {
    Lower(GetEnv(env, "SKIP_DRAIN_CHECK", "false")) in {"true", "1", "yes"}
  }

  /** Whatever the value, the override reads it without regard to case: the
      value, its upper-cased and its lower-cased form all decide alike, and the
      override is on iff the lower-cased value is `true`, `1` or `yes`. */
  lemma SkipDrainCheckIgnoresCase(env: map<string, string>, v: string)
    ensures SkipDrainCheck(env["SKIP_DRAIN_CHECK" := v]) <==> Lower(v) in {"true", "1", "yes"}
    ensures SkipDrainCheck(env["SKIP_DRAIN_CHECK" := Upper(v)]) == SkipDrainCheck(env["SKIP_DRAIN_CHECK" := v])
    ensures SkipDrainCheck(env["SKIP_DRAIN_CHECK" := Lower(v)]) == SkipDrainCheck(env["SKIP_DRAIN_CHECK" := v])
  {
    assert GetEnv(env["SKIP_DRAIN_CHECK" := v], "SKIP_DRAIN_CHECK", "false") == v;
    assert GetEnv(env["SKIP_DRAIN_CHECK" := Upper(v)], "SKIP_DRAIN_CHECK", "false") == Upper(v);
    assert GetEnv(env["SKIP_DRAIN_CHECK" := Lower(v)], "SKIP_DRAIN_CHECK", "false") == Lower(v);
    LowerOfUpper(v);
    LowerIdempotent(v);
  }

  /** The override is off unless set, and its value is read without regard to
      case: `Yes` and `TRUE` turn it on, `on` and `0` do not. */
  lemma SkipDrainCheckValues(env: map<string, string>)
    ensures "SKIP_DRAIN_CHECK" !in env ==> !SkipDrainCheck(env)
    ensures SkipDrainCheck(env["SKIP_DRAIN_CHECK" := "Yes"]) && SkipDrainCheck(env["SKIP_DRAIN_CHECK" := "TRUE"])
    ensures !SkipDrainCheck(env["SKIP_DRAIN_CHECK" := "on"]) && !SkipDrainCheck(env["SKIP_DRAIN_CHECK" := "0"])
  {
    assert Lower("false") == "false";
    assert Lower("Yes") == "yes";
    assert Lower("TRUE") == "true";
    assert Lower("on") == "on";
    assert Lower("0") == "0";
  }

  // ---------------------------------------------------------------------------
  // Whitelist test

  /** The outcome of `is_fault_approved`: the matching code, None, or the
      TypeError Python raises when an unhashable id (a list or dict) is looked up
      in the set before any match. */
  datatype Approval = Approved(code: string) | NotApproved | RaisedUnhashable

  /** A fault id the whitelist accepts: a string exactly equal to an approved code. */
  predicate IsApprovedId(id: Json, approved: set<string>) {
    id.JStr? && id.s in approved
  }

  /** First-hit exact matching over the fault ids, in order. */
  function FirstApproved(ids: seq<Json>, approved: set<string>): Approval
    decreases |ids|
  {
    if ids == [] then NotApproved
    else if Unhashable(ids[0]) then RaisedUnhashable
    else if IsApprovedId(ids[0], approved) then Approved(ids[0].s)
    else FirstApproved(ids[1..], approved)
  }

  /** Id `i` is `code`, approved, and every id before it was a plain non-matching value. */
  predicate FirstMatchAt(ids: seq<Json>, approved: set<string>, code: string, i: int) {
    0 <= i < |ids| && ids[i] == JStr(code) && code in approved &&
    forall j :: 0 <= j < i ==> !Unhashable(ids[j]) && !IsApprovedId(ids[j], approved)
  }

  /** A first match one place further on is a first match in the tail behind a plain head. */
  lemma FirstMatchShift(ids: seq<Json>, approved: set<string>, code: string, i: int)
    requires ids != [] && !Unhashable(ids[0]) && !IsApprovedId(ids[0], approved)
    ensures FirstMatchAt(ids, approved, code, i + 1) <==> FirstMatchAt(ids[1..], approved, code, i)
  {
    if FirstMatchAt(ids[1..], approved, code, i) {
      forall j | 0 <= j < i + 1 ensures !Unhashable(ids[j]) && !IsApprovedId(ids[j], approved) {
        if j > 0 { assert ids[j] == ids[1..][j - 1]; }
      }
    }
    if FirstMatchAt(ids, approved, code, i + 1) {
      forall j | 0 <= j < i ensures !Unhashable(ids[1..][j]) && !IsApprovedId(ids[1..][j], approved) {
        assert ids[1..][j] == ids[j + 1];
      }
    }
  }

  /** A code is returned iff it is the first id that matches exactly, and every id
      before it was a plain non-matching value. */
  lemma {:induction false} FirstApprovedIsFirstMatch(ids: seq<Json>, approved: set<string>, code: string)
    ensures FirstApproved(ids, approved) == Approved(code) <==> exists i :: FirstMatchAt(ids, approved, code, i)
    decreases |ids|
  {
    if ids != [] {
      if Unhashable(ids[0]) || IsApprovedId(ids[0], approved) {
        if exists i :: FirstMatchAt(ids, approved, code, i) {
          var i :| FirstMatchAt(ids, approved, code, i);
          assert i == 0;
        }
        if FirstApproved(ids, approved) == Approved(code) {
          assert FirstMatchAt(ids, approved, code, 0);
        }
      } else {
        FirstApprovedIsFirstMatch(ids[1..], approved, code);
        if FirstApproved(ids, approved) == Approved(code) {
          var i :| FirstMatchAt(ids[1..], approved, code, i);
          FirstMatchShift(ids, approved, code, i);
        }
        if exists i :: FirstMatchAt(ids, approved, code, i) {
          var i :| FirstMatchAt(ids, approved, code, i);
          assert i != 0;
          FirstMatchShift(ids, approved, code, i - 1);
        }
      }
    }
  }

  /** None is returned iff no id matches and none is unhashable: the test is exact,
      so an id that only differs in case or whitespace is never approved. */
  lemma {:induction false} FirstApprovedNone(ids: seq<Json>, approved: set<string>)
    ensures FirstApproved(ids, approved) == NotApproved <==>
      forall i :: 0 <= i < |ids| ==> !Unhashable(ids[i]) && !IsApprovedId(ids[i], approved)
    decreases |ids|
  {
    if ids != [] {
      FirstApprovedNone(ids[1..], approved);
      assert forall i :: 0 <= i < |ids[1..]| ==> ids[1..][i] == ids[i + 1];
      if forall i :: 0 <= i < |ids[1..]| ==> !Unhashable(ids[1..][i]) && !IsApprovedId(ids[1..][i], approved) {
        assert forall i :: 1 <= i < |ids| ==> !Unhashable(ids[i]) && !IsApprovedId(ids[i], approved) by {
          forall i | 1 <= i < |ids| ensures !Unhashable(ids[i]) && !IsApprovedId(ids[i], approved) {
            assert ids[i] == ids[1..][i - 1];
          }
        }
      }
    }
  }

  /** `is_fault_approved`: scans the ids in order and returns at the first exact
      member of the approved set; a missing list counts as empty. */
  method IsFaultApproved(faultIds: Option<seq<Json>>, approved: set<string>) returns (r: Approval)
    ensures r == FirstApproved(faultIds.GetOr([]), approved)
  {
    var ids := faultIds.GetOr([]);
    var i := 0;
    while i < |ids|
      invariant 0 <= i <= |ids|
      invariant FirstApproved(ids, approved) == FirstApproved(ids[i..], approved)
    {
      assert ids[i..][1..] == ids[i + 1..];
      if Unhashable(ids[i]) {
        return RaisedUnhashable;
      }
      if ids[i].JStr? && ids[i].s in approved {
        return Approved(ids[i].s);
      }
      i := i + 1;
    }
    return NotApproved;
  }
}
