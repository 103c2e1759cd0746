/** The reporting views of the newer tool: the fault-to-hosts summary built
    from the discovered jobs, and the selection and ordering of the rows of the
    events table. */
module Reporting {
  import opened Wrappers
  import opened Text
  import opened PyJson
  import opened Models
  import opened EventsCommon

  // ---------------------------------------------------------------------------
  // gather_faults

  /** The key a job without fault ids is listed under. */
  const NoneKey: Json := JStr("(none)")

  /** The `(fault id, host)` appends of a job with fault ids, in id order. */
  function IdEntries(host: string, ids: seq<Json>): (es: seq<(Json, string)>)
    ensures |es| == |ids|
    ensures forall i :: 0 <= i < |ids| ==> es[i] == (ids[i], host)
  {
    seq(|ids|, i requires 0 <= i < |ids| => (ids[i], host))
  }

  /** The appends one job makes: one per fault id, or a single one under
      `(none)` when it has none. */
  function JobEntries(host: string, ids: seq<Json>): seq<(Json, string)> {
    if ids == [] then [(NoneKey, host)] else IdEntries(host, ids)
  }

  /** Every append of `gather_faults`, job after job. */
  function Entries(jobs: seq<MaintenanceJob>): seq<(Json, string)>
    decreases |jobs|
  {
    if jobs == [] then []
    else Entries(jobs[..|jobs| - 1]) + JobEntries(jobs[|jobs| - 1].hostname, jobs[|jobs| - 1].faultIds)
  }

  /** `max(1, |fault_ids|)` summed over the jobs. */
  function EntryCount(jobs: seq<MaintenanceJob>): nat
    decreases |jobs|
  {
    if jobs == [] then 0
    else EntryCount(jobs[..|jobs| - 1]) + (if jobs[|jobs| - 1].faultIds == [] then 1 else |jobs[|jobs| - 1].faultIds|)
  }

  /** The dict `setdefault(key, []).append(host)` builds from the appends. */
  function Group(es: seq<(Json, string)>): map<Json, seq<string>>
    decreases |es|
  {
    if es == [] then map[]
    else
      var g := Group(es[..|es| - 1]);
      var e := es[|es| - 1];
      g[e.0 := (if e.0 in g then g[e.0] else []) + [e.1]]
  }

  /** The hosts appended under `key`, in append order. */
  function HostsFor(es: seq<(Json, string)>, key: Json): seq<string>
    decreases |es|
  {
    if es == [] then []
    else HostsFor(es[..|es| - 1], key) + (if es[|es| - 1].0 == key then [es[|es| - 1].1] else [])
  }

  /** Every key can be a dictionary key. */
  predicate Hashable(es: seq<(Json, string)>) {
    forall i :: 0 <= i < |es| ==> !Unhashable(es[i].0)
  }

  /** The dict holds exactly the keys appended under, and each key's list is
      the hosts appended under it, in order, duplicates kept. */
  lemma {:induction false} GroupHosts(es: seq<(Json, string)>)
    ensures forall k :: k in Group(es) <==> exists i :: 0 <= i < |es| && es[i].0 == k
    ensures forall k :: k in Group(es) ==> Group(es)[k] == HostsFor(es, k)
    decreases |es|
  {
    if es != [] {
      var init := es[..|es| - 1];
      GroupHosts(init);
      forall k
        ensures k in Group(es) <==> exists i :: 0 <= i < |es| && es[i].0 == k
      {
        if k in Group(init) {
          var i :| 0 <= i < |init| && init[i].0 == k;
          assert es[i] == init[i];
        }
        if exists i :: 0 <= i < |es| && es[i].0 == k {
          var i :| 0 <= i < |es| && es[i].0 == k;
          if i < |init| {
            assert init[i] == es[i];
          }
        }
      }
      forall k | k in Group(es)
        ensures Group(es)[k] == HostsFor(es, k)
      {
        if k != es[|es| - 1].0 {
          assert HostsFor(es, k) == HostsFor(init, k) + [];
        } else if k !in Group(init) {
          assert HostsFor(init, k) == [] by {
            HostsForAbsent(init, k);
          }
        }
      }
    }
  }

  /** No hosts are listed under a key nothing was appended under. */
  lemma {:induction false} HostsForAbsent(es: seq<(Json, string)>, key: Json)
    requires forall i :: 0 <= i < |es| ==> es[i].0 != key
    ensures HostsFor(es, key) == []
    decreases |es|
  {
    if es != [] {
      var init := es[..|es| - 1];
      assert forall i :: 0 <= i < |init| ==> init[i] == es[i];
      HostsForAbsent(init, key);
    }
  }

  /** Each job contributes `max(1, |fault_ids|)` appends. */
  lemma {:induction false} EntriesCount(jobs: seq<MaintenanceJob>)
    ensures |Entries(jobs)| == EntryCount(jobs)
    decreases |jobs|
  {
    if jobs != [] {
      EntriesCount(jobs[..|jobs| - 1]);
    }
  }

  /** The appends of two runs of jobs are those of the first then those of the
      second. */
  lemma {:induction false} EntriesAppend(a: seq<MaintenanceJob>, b: seq<MaintenanceJob>)
    ensures Entries(a + b) == Entries(a) + Entries(b)
    decreases |b|
  {
    if b == [] {
      assert a + b == a;
    } else {
      var b' := b[..|b| - 1];
      assert (a + b)[..|a + b| - 1] == a + b';
      EntriesAppend(a, b');
      ConcatAssoc3(Entries(a), Entries(b'), JobEntries(b[|b| - 1].hostname, b[|b| - 1].faultIds));
    }
  }

  lemma ConcatAssoc3<T>(x: seq<T>, y: seq<T>, z: seq<T>)
    ensures (x + y) + z == x + (y + z)
  {
  }

  /** Host lists follow the job order: the hosts listed under a key for two
      runs of jobs are those of the first run followed by those of the second. */
  lemma {:induction false} HostsForAppend(a: seq<(Json, string)>, b: seq<(Json, string)>, key: Json)
    ensures HostsFor(a + b, key) == HostsFor(a, key) + HostsFor(b, key)
    decreases |b|
  {
    if b == [] {
      assert a + b == a;
    } else {
      var b' := b[..|b| - 1];
      assert (a + b)[..|a + b| - 1] == a + b';
      HostsForAppend(a, b', key);
    }
  }

  /** One job's own contribution: its host once under each of its fault ids
      (as often as the id occurs), or once under `(none)`. */
  lemma HostsForJob(host: string, ids: seq<Json>, key: Json)
    ensures ids == [] ==> HostsFor(JobEntries(host, ids), key) == (if key == NoneKey then [host] else [])
    ensures ids != [] ==> |HostsFor(JobEntries(host, ids), key)| == Occurrences(ids, key)
  {
    if ids == [] {
      assert JobEntries(host, ids) == [(NoneKey, host)];
      assert [(NoneKey, host)][..0] == [];
    } else {
      HostsForIds(host, ids, key);
    }
  }

  /** How often `key` occurs in `ids`. */
  function Occurrences(ids: seq<Json>, key: Json): nat
    decreases |ids|
  {
    if ids == [] then 0 else Occurrences(ids[..|ids| - 1], key) + (if ids[|ids| - 1] == key then 1 else 0)
  }

  lemma {:induction false} HostsForIds(host: string, ids: seq<Json>, key: Json)
    ensures |HostsFor(IdEntries(host, ids), key)| == Occurrences(ids, key)
    ensures forall h :: h in HostsFor(IdEntries(host, ids), key) ==> h == host
    decreases |ids|
  {
    if ids != [] {
      var init := ids[..|ids| - 1];
      assert IdEntries(host, ids)[..|ids| - 1] == IdEntries(host, init);
      HostsForIds(host, init, key);
    }
  }

  /** All of one job's ids can be dictionary keys. */
  predicate IdsHashable(ids: seq<Json>) {
    forall k :: 0 <= k < |ids| ==> !Unhashable(ids[k])
  }

  /** One more append adds the host to the end of its key's list. */
  lemma GroupSnoc(es: seq<(Json, string)>, e: (Json, string))
    ensures var g := Group(es);
      Group(es + [e]) == g[e.0 := (if e.0 in g then g[e.0] else []) + [e.1]]
  {
    assert (es + [e])[..|es|] == es;
  }

  /** The appends of one more job follow those of the jobs before it. */
  lemma EntriesSnoc(jobs: seq<MaintenanceJob>, i: nat)
    requires i < |jobs|
    ensures Entries(jobs[..i + 1]) == Entries(jobs[..i]) + JobEntries(jobs[i].hostname, jobs[i].faultIds)
  {
    assert jobs[..i + 1][..i] == jobs[..i];
  }

  /** One job's appends, onto the dict built so far. */
  method AddJob(faults: map<Json, seq<string>>, ghost done: seq<(Json, string)>, host: string, ids: seq<Json>)
    returns (r: Result<map<Json, seq<string>>>)
    requires faults == Group(done)
    ensures r.Ok? <==> IdsHashable(ids)
    ensures r.Ok? ==> r.value == Group(done + JobEntries(host, ids))
  {
    if ids == [] {
      GroupSnoc(done, (NoneKey, host));
      return Ok(faults[NoneKey := (if NoneKey in faults then faults[NoneKey] else []) + [host]]);
    }
    var acc := faults;
    var k := 0;
    ghost var es := done;
    assert IdEntries(host, ids[..0]) == [];
    while k < |ids|
      invariant 0 <= k <= |ids|
      invariant es == done + IdEntries(host, ids[..k]) && acc == Group(es)
      invariant forall j :: 0 <= j < k ==> !Unhashable(ids[j])
    {
      var id := ids[k];
      if Unhashable(id) {
        assert !IdsHashable(ids);
        return Err("TypeError");
      }
      IdEntriesSnoc(host, ids, k);
      GroupSnoc(es, (id, host));
      es := es + [(id, host)];
      acc := acc[id := (if id in acc then acc[id] else []) + [host]];
      assert acc == Group(es);
      k := k + 1;
    }
    assert ids[..k] == ids;
    assert es == done + JobEntries(host, ids);
    r := Ok(acc);
  }

  /** The appends of the ids up to `k + 1` are those up to `k`, then one more. */
  lemma IdEntriesSnoc(host: string, ids: seq<Json>, k: nat)
    requires k < |ids|
    ensures IdEntries(host, ids[..k + 1]) == IdEntries(host, ids[..k]) + [(ids[k], host)]
  {
  }

  /** The appends are hashable exactly when every job's ids are. */
  lemma {:induction false} HashableEntries(jobs: seq<MaintenanceJob>)
    ensures Hashable(Entries(jobs)) <==> forall i :: 0 <= i < |jobs| ==> IdsHashable(jobs[i].faultIds)
    decreases |jobs|
  {
    if jobs != [] {
      var init := jobs[..|jobs| - 1];
      var last := jobs[|jobs| - 1];
      HashableEntries(init);
      var a := Entries(init);
      var b := JobEntries(last.hostname, last.faultIds);
      assert Entries(jobs) == a + b;
      assert Hashable(a + b) <==> Hashable(a) && Hashable(b) by {
        assert forall i :: 0 <= i < |a| ==> (a + b)[i] == a[i];
        assert forall i :: 0 <= i < |b| ==> (a + b)[|a| + i] == b[i];
      }
      assert Hashable(b) <==> IdsHashable(last.faultIds);
      assert forall i :: 0 <= i < |init| ==> init[i] == jobs[i];
    }
  }

  /** `gather_faults` over the jobs discovery returned: for each job, its host
      under `(none)` when it has no fault ids, else under each id in turn. An id
      that cannot be a dictionary key (a list or an object) raises. */
  method GatherFaults(jobs: seq<MaintenanceJob>) returns (r: Result<map<Json, seq<string>>>)
    ensures r.Ok? <==> Hashable(Entries(jobs))
    ensures r.Ok? ==> r.value == Group(Entries(jobs))
  {
    var faults: map<Json, seq<string>> := map[];
    var i := 0;
    while i < |jobs|
      invariant 0 <= i <= |jobs|
      invariant faults == Group(Entries(jobs[..i]))
      invariant forall j :: 0 <= j < i ==> IdsHashable(jobs[j].faultIds)
    {
      var job := jobs[i];
      ghost var done := Entries(jobs[..i]);
      EntriesSnoc(jobs, i);
      var step := AddJob(faults, done, job.hostname, job.faultIds);
      if step.Err? {
        HashableEntries(jobs);
        return Err("TypeError");
      }
      forall j | 0 <= j < i + 1 ensures IdsHashable(jobs[j].faultIds) {
        if j == i {
          assert IdsHashable(job.faultIds);
        }
      }
      faults := step.value;
      assert faults == Group(Entries(jobs[..i + 1]));
      i := i + 1;
    }
    HashableEntries(jobs);
    assert jobs[..i] == jobs;
    r := Ok(faults);
  }

  // ---------------------------------------------------------------------------
  // The events table: state exclusion, row filter, sort key

  /** The states left out of the table: CANCELED by default, unless canceled
      events are asked for, and then every state named in `exclude`,
      upper-cased, so that an explicit exclude always wins. */
  function Excluded(exclude: seq<string>, includeCanceled: bool): (ex: set<string>)
    ensures forall s :: s in ex <==>
      (s == "CANCELED" && !includeCanceled) || exists i :: 0 <= i < |exclude| && Upper(exclude[i]) == s
  {
    (if includeCanceled then {} else {"CANCELED"}) + set i | 0 <= i < |exclude| :: Upper(exclude[i])
  }

  /** The set as `print_events_table` builds it: the default, the `discard`,
      then one `update` per excluded name. */
  method ExcludedStates(exclude: seq<string>, includeCanceled: bool) returns (ex: set<string>)
    ensures ex == Excluded(exclude, includeCanceled)
  {
    ex := {"CANCELED"};
    if includeCanceled {
      ex := ex - {"CANCELED"};
    }
    var i := 0;
    while i < |exclude|
      invariant 0 <= i <= |exclude|
      invariant forall s :: s in ex <==>
        (s == "CANCELED" && !includeCanceled) || exists j :: 0 <= j < i && Upper(exclude[j]) == s
    {
      ex := ex + {Upper(exclude[i])};
      i := i + 1;
    }
  }

  /** `[r for r in rows if (r.get("state") or "").upper() not in excluded]`. */
  function KeepRows(rows: seq<Row>, ex: set<string>): (kept: seq<Row>)
    ensures |kept| <= |rows|
    ensures forall r :: r in kept <==> r in rows && Upper(r.state) !in ex
    decreases |rows|
  {
    if rows == [] then []
    else
      var init := KeepRows(rows[..|rows| - 1], ex);
      var last := rows[|rows| - 1];
      assert forall r :: r in rows <==> r in rows[..|rows| - 1] || r == last by {
        assert rows == rows[..|rows| - 1] + [last];
      }
      if Upper(last.state) !in ex then init + [last] else init
  }

  /** The filter keeps the order of the rows: filtering two runs of rows is
      filtering each. */
  lemma {:induction false} KeepRowsAppend(a: seq<Row>, b: seq<Row>, ex: set<string>)
    ensures KeepRows(a + b, ex) == KeepRows(a, ex) + KeepRows(b, ex)
    decreases |b|
  {
    if b == [] {
      assert a + b == a;
    } else {
      var b' := b[..|b| - 1];
      assert (a + b)[..|a + b| - 1] == a + b';
      KeepRowsAppend(a, b', ex);
    }
  }

  /** With CANCELED excluded by default, a canceled event is shown only when
      asked for and not excluded by name, whatever the case of its state. */
  lemma CanceledShown(row: Row, exclude: seq<string>, includeCanceled: bool)
    requires Upper(row.state) == "CANCELED"
    ensures row in KeepRows([row], Excluded(exclude, includeCanceled)) <==>
      includeCanceled && forall i :: 0 <= i < |exclude| ==> Upper(exclude[i]) != "CANCELED"
  {
  }

  /** The key the table is sorted by: known hosts before `(unknown)`, then by
      hostname, then by the rank of the raw state (999 when it has none), then
      by instance OCID. */
  datatype SortKey = SortKey(unknownHost: nat, hostname: string, stateWeight: nat, instanceOcid: string)

  /** The hostname a row is sorted by. */
  function HostText(h: Json): string {
    if h.JStr? then h.s else ""
  }

  /** `_sort_key(r)`. The state rank is looked up with the raw state, so its
      case matters. */
  function RowKey(r: Row): (k: SortKey)
    ensures k.unknownHost == 1 <==> HostText(r.hostname) == "(unknown)"
    ensures k.hostname == HostText(r.hostname) && k.instanceOcid == r.instanceOcid
    ensures r.state in StateOrder ==> k.stateWeight == StateOrder[r.state]
    ensures r.state !in StateOrder ==> k.stateWeight == 999
  {
    SortKey(if HostText(r.hostname) == "(unknown)" then 1 else 0, HostText(r.hostname),
            if r.state in StateOrder then StateOrder[r.state] else 999, r.instanceOcid)
  }

  /** Python's `<` on strings: by code point, a proper prefix first. */
  predicate StrLess(a: string, b: string)
    decreases |a|
  {
    if a == [] then b != []
    else if b == [] then false
    else if a[0] != b[0] then a[0] < b[0]
    else StrLess(a[1..], b[1..])
  }

  /** Python's `<` on the key tuples: field by field. */
  predicate KeyLess(x: SortKey, y: SortKey) {
    x.unknownHost < y.unknownHost ||
    (x.unknownHost == y.unknownHost &&
     (StrLess(x.hostname, y.hostname) ||
      (x.hostname == y.hostname &&
       (x.stateWeight < y.stateWeight ||
        (x.stateWeight == y.stateWeight && StrLess(x.instanceOcid, y.instanceOcid))))))
  }

  lemma {:induction false} StrLessIrreflexive(a: string)
    ensures !StrLess(a, a)
    decreases |a|
  {
    if a != [] {
      StrLessIrreflexive(a[1..]);
    }
  }

  lemma {:induction false} StrLessTransitive(a: string, b: string, c: string)
    requires StrLess(a, b) && StrLess(b, c)
    ensures StrLess(a, c)
    decreases |a|
  {
    if a != [] && b != [] && c != [] && a[0] == b[0] && b[0] == c[0] {
      StrLessTransitive(a[1..], b[1..], c[1..]);
    }
  }

  lemma {:induction false} StrLessTotal(a: string, b: string)
    requires a != b
    ensures StrLess(a, b) || StrLess(b, a)
    decreases |a|
  {
    if a != [] && b != [] && a[0] == b[0] {
      assert a == [a[0]] + a[1..] && b == [b[0]] + b[1..];
      StrLessTotal(a[1..], b[1..]);
    }
  }

  /** The key order is a strict total order: the sorted table is the same
      whatever order the rows were listed in, up to rows with equal keys. */
  lemma KeyLessOrder(x: SortKey, y: SortKey, z: SortKey)
    ensures !KeyLess(x, x)
    ensures KeyLess(x, y) && KeyLess(y, z) ==> KeyLess(x, z)
    ensures x != y ==> KeyLess(x, y) || KeyLess(y, x)
  {
    StrLessIrreflexive(x.hostname);
    StrLessIrreflexive(x.instanceOcid);
    if KeyLess(x, y) && KeyLess(y, z) {
      if StrLess(x.hostname, y.hostname) && StrLess(y.hostname, z.hostname) {
        StrLessTransitive(x.hostname, y.hostname, z.hostname);
      }
      if StrLess(x.instanceOcid, y.instanceOcid) && StrLess(y.instanceOcid, z.instanceOcid) {
        StrLessTransitive(x.instanceOcid, y.instanceOcid, z.instanceOcid);
      }
    }
    if x != y {
      if x.hostname != y.hostname {
        StrLessTotal(x.hostname, y.hostname);
      }
      if x.instanceOcid != y.instanceOcid {
        StrLessTotal(x.instanceOcid, y.instanceOcid);
      }
    }
  }

  /** Rows of known hosts come before rows whose host is `(unknown)`. */
  lemma KnownHostsFirst(a: Row, b: Row)
    requires HostText(a.hostname) != "(unknown)" && HostText(b.hostname) == "(unknown)"
    ensures KeyLess(RowKey(a), RowKey(b))
  {
  }

  /** Within one host, rows follow the state ranks: SCHEDULED, then the active
      states, then SUCCEEDED, then FAILED and CANCELED, then any other state. */
  lemma StatesInOrderWithinHost(a: Row, b: Row)
    requires HostText(a.hostname) == HostText(b.hostname)
    requires RowKey(a).stateWeight < RowKey(b).stateWeight
    ensures KeyLess(RowKey(a), RowKey(b))
  {
    StrLessIrreflexive(HostText(a.hostname));
  }

  /** Within one host, a SCHEDULED row sorts before a row in any other state. */
  lemma ScheduledFirstWithinHost(a: Row, b: Row)
    requires HostText(a.hostname) == HostText(b.hostname)
    requires a.state == "SCHEDULED" && b.state != "SCHEDULED"
    ensures KeyLess(RowKey(a), RowKey(b))
  {
    StatesInOrderWithinHost(a, b);
  }

  /** The ranks themselves, as the table promises them. */
  lemma StateRanks()
    ensures StateOrder["SCHEDULED"] < StateOrder["PROCESSING"] == StateOrder["IN_PROGRESS"] == StateOrder["STARTED"]
    ensures StateOrder["STARTED"] < StateOrder["SUCCEEDED"] < StateOrder["FAILED"] == StateOrder["CANCELED"] < 999
  {
  }
}
