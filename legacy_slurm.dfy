/** The older copy's node-state wait: instead of `scontrol show node`, it reads
    the one-line-per-node listing of `sinfo` and looks for the node's line. Its
    drain, resume and mark-NTR commands are the same as the newer copy's and are
    taken from `Slurm`. */
module LegacySlurm {
  import opened Wrappers
  import opened Text
  import opened Utils
  import opened World
  import opened Polling

  /** `sinfo -h -N -o "%N %t"`: one line per node, its name and short state. */
  function SinfoArgv(): seq<string> {
    ["sinfo", "-h", "-N", "-o", "%N %t"]
  }

  /** One line of the listing: `n, state = line.split(None, 1)` raises ValueError
      unless the line holds two pieces; the line matches when the name is the
      host and the lower-cased state starts with the target. */
  function LineMatch(line: string, host: string, target: string): (r: Result<bool>)
    ensures r.Err? <==> |Words(line)| < 2
    ensures r.Err? ==> r.error == "ValueError"
    ensures r == Ok(true) ==> Words(line)[0] == host
  {
    SplitFirstWordWords(line);
    var pieces := SplitFirstWord(line);
    if |pieces| != 2 then Err("ValueError")
    else Ok(pieces[0] == host && StartsWith(Lower(pieces[1]), target))
  }

  /** The `for line in out.splitlines()` scan: it returns at the first matching
      line, raises at the first line that does not unpack, and otherwise finds
      nothing. */
  function ScanLines(lines: seq<string>, host: string, target: string): Result<bool>
    decreases |lines|
  {
    if lines == [] then Ok(false)
    else
      match LineMatch(lines[0], host, target)
      case Err(e) => Err(e)
      case Ok(true) => Ok(true)
      case Ok(false) => ScanLines(lines[1..], host, target)
  }

  /** The same scan with the per-line test as a parameter. */
  function ScanBy(test: string -> Result<bool>, lines: seq<string>): Result<bool>
    decreases |lines|
  {
    if lines == [] then Ok(false)
    else
      match test(lines[0])
      case Err(e) => Err(e)
      case Ok(true) => Ok(true)
      case Ok(false) => ScanBy(test, lines[1..])
  }

  function LineTest(host: string, target: string): string -> Result<bool> {
    line => LineMatch(line, host, target)
  }

  lemma {:induction false} ScanLinesBy(lines: seq<string>, host: string, target: string)
    ensures ScanLines(lines, host, target) == ScanBy(LineTest(host, target), lines)
    decreases |lines|
  {
    if lines != [] {
      ScanLinesBy(lines[1..], host, target);
    }
  }

  lemma {:induction false} ScanByStops(test: string -> Result<bool>, lines: seq<string>) returns (i: nat)
    ensures i <= |lines|
    ensures forall j :: 0 <= j < i ==> test(lines[j]) == Ok(false)
    ensures i == |lines| ==> ScanBy(test, lines) == Ok(false)
    ensures i < |lines| ==> test(lines[i]) != Ok(false) && ScanBy(test, lines) == test(lines[i])
    decreases |lines|
  {
    if lines == [] {
      i := 0;
    } else if test(lines[0]) != Ok(false) {
      i := 0;
    } else {
      var rest := lines[1..];
      var k := ScanByStops(test, rest);
      i := k + 1;
      forall j | 0 <= j < i ensures test(lines[j]) == Ok(false) {
        if j > 0 { assert lines[j] == rest[j - 1]; }
      }
      if k < |rest| { assert lines[i] == rest[k]; }
    }
  }

  /** The scan stops at the first line that matches or raises: every line before
      it neither matched nor raised, and its answer is the scan's. When no line
      stops it, the scan found nothing. */
  lemma ScanLinesStops(lines: seq<string>, host: string, target: string)
    returns (i: nat)
    ensures i <= |lines|
    ensures forall j :: 0 <= j < i ==> LineMatch(lines[j], host, target) == Ok(false)
    ensures i == |lines| ==> ScanLines(lines, host, target) == Ok(false)
    ensures i < |lines| ==> LineMatch(lines[i], host, target) != Ok(false) &&
                            ScanLines(lines, host, target) == LineMatch(lines[i], host, target)
  {
    var test := LineTest(host, target);
    ScanLinesBy(lines, host, target);
    i := ScanByStops(test, lines);
    forall j | 0 <= j < i ensures LineMatch(lines[j], host, target) == Ok(false) {
      assert test(lines[j]) == Ok(false);
    }
    if i < |lines| {
      assert test(lines[i]) == LineMatch(lines[i], host, target);
    }
  }

  /** Scanning the lines one at a time, as the source's inner loop does. */
  method ScanSinfo(out: string, host: string, target: string) returns (r: Result<bool>)
    ensures r == ScanLines(SplitLines(out), host, target)
  {
    var lines := SplitLines(out);
    var k := 0;
    while k < |lines|
      invariant 0 <= k <= |lines|
      invariant ScanLines(lines, host, target) == ScanLines(lines[k..], host, target)
    {
      assert lines[k..][1..] == lines[k + 1..];
      var m := LineMatch(lines[k], host, target);
      if m != Ok(false) {
        return m;
      }
      k := k + 1;
    }
    r := Ok(false);
  }

  /** What one probe of the wait answers at trace position `p`: the listing
      command's outcome, scanned. */
  function SinfoQuery(run: (nat, seq<string>) -> Proc, host: string, target: string): nat -> Result<bool> {
    (p: nat) =>
      match RunOutcome(run(p, SinfoArgv()), true)
      case Err(e) => Err(e)
      case Ok(out) => ScanLines(SplitLines(out), host, target)
  }

  /** The older wait on `host`, starting at trace position `pos`. */
  function SinfoWait(c: Cluster, host: string, target: string, pos: nat, pollSec: int, fuel: nat)
    : (seq<Effect>, PollEnd<bool>)
  {
    Poll(SinfoQuery(c.run, host, target), pos, Exec(SinfoArgv()), IsTrue, pollSec, fuel)
  }

  /** One probe: run the listing and scan it. */
  method SinfoProbe(c: Cluster, host: string, target: string) returns (r: Result<bool>)
    modifies c
    ensures c.trace == old(c.trace) + [Exec(SinfoArgv())] && c.audit == old(c.audit)
    ensures r == SinfoQuery(c.run, host, target)(|old(c.trace)|)
  {
    var out := c.RunCmd(SinfoArgv(), true);
    match out
    case Err(e) => r := Err(e);
    case Ok(o) => r := ScanSinfo(o, host, target);
  }

  /** `wait_state(host, target)` of the older copy: list, scan, sleep, until the
      node's line shows a state starting with the target or a probe raises. */
  method WaitState(c: Cluster, host: string, target: string, pollSec: int, maxPolls: nat)
    returns (end: PollEnd<bool>)
    modifies c
    ensures c.trace == old(c.trace) + SinfoWait(c, host, target, |old(c.trace)|, pollSec, maxPolls).0
    ensures end == SinfoWait(c, host, target, |old(c.trace)|, pollSec, maxPolls).1
    ensures c.audit == old(c.audit)
  {
    ghost var query := SinfoQuery(c.run, host, target);
    ghost var probe := Exec(SinfoArgv());
    ghost var t0 := c.trace;
    ghost var eff := Poll(query, |t0|, probe, IsTrue, pollSec, maxPolls).0;
    ghost var last := Poll(query, |t0|, probe, IsTrue, pollSec, maxPolls).1;
    var fuel := maxPolls;
    var done := false;
    end := StillPolling;
    ghost var pos := |c.trace|;
    while !done && fuel > 0
      invariant c.audit == old(c.audit)
      invariant !done ==> pos == |c.trace|
      invariant !done ==> t0 + eff == c.trace + Poll(query, pos, probe, IsTrue, pollSec, fuel).0
      invariant !done ==> last == Poll(query, pos, probe, IsTrue, pollSec, fuel).1
      invariant done ==> t0 + eff == c.trace && last == end
      invariant !done ==> end == StillPolling
      decreases fuel, if done then 0 else 1
    {
      ghost var before, posBefore, fuelBefore := c.trace, pos, fuel;
      var r := SinfoProbe(c, host, target);
      assert r == query(posBefore);
      if r.Err? {
        end := Raised(r.error);
        done := true;
      } else if r.value {
        end := Reached(true);
        done := true;
      } else {
        c.Sleep(pollSec);
        fuel := fuel - 1;
        pos := pos + 2;
        PollAdvance(query, before, posBefore, probe, IsTrue, pollSec, fuelBefore, pos, fuel);
      }
    }
  }

  /** The older wait returns only once some listing held a line for the host
      whose state starts with the target, every line before it in that listing
      being a well-formed line of another node or state, and every earlier
      listing lacking such a line. */
  lemma WaitStateReached(c: Cluster, host: string, target: string, pos: nat, pollSec: int, fuel: nat)
    requires SinfoWait(c, host, target, pos, pollSec, fuel).1.Reached?
    ensures exists n: nat :: ListedAfter(c.run, host, target, pos, fuel, n)
  {
    var query := SinfoQuery(c.run, host, target);
    PollReachedSome(query, pos, Exec(SinfoArgv()), IsTrue, pollSec, fuel);
    var n: nat :| ReachesAt(query, pos, IsTrue, fuel, n);
    ListedAfterReached(c.run, host, target, pos, fuel, n);
  }

  /** A listing poll that reached its answer found the host's line there. */
  lemma ListedAfterReached(run: (nat, seq<string>) -> Proc, host: string, target: string, pos: nat, fuel: nat, n: nat)
    requires ReachesAt(SinfoQuery(run, host, target), pos, IsTrue, fuel, n)
    ensures ListedAfter(run, host, target, pos, fuel, n)
  {
    var p := pos + 2 * n;
    assert SinfoQuery(run, host, target)(p) == Ok(true);
    SinfoProbeTrue(run, host, target, p);
  }

  /** Poll `n`, within the `fuel` polls, found the host's line in the target
      state, and every poll before it was answered without that line. */
  ghost predicate ListedAfter(run: (nat, seq<string>) -> Proc, host: string, target: string, pos: nat, fuel: nat, n: nat) {
    n < fuel && RejectedFrom(SinfoQuery(run, host, target), pos, IsTrue, n) && ListsHostLine(run, pos + 2 * n, host, target)
  }

  /** Line `i` of a listing is the host's line in the target state, and every
      line before it is a well-formed line that did not match. */
  predicate HostLineAt(lines: seq<string>, host: string, target: string, i: nat) {
    i < |lines| && LineMatch(lines[i], host, target) == Ok(true) &&
    Words(lines[i])[0] == host &&
    forall j :: 0 <= j < i ==> LineMatch(lines[j], host, target) == Ok(false)
  }

  /** The listing run at trace position `p` succeeded and holds the host's line
      in the target state. */
  ghost predicate ListsHostLine(run: (nat, seq<string>) -> Proc, p: nat, host: string, target: string) {
    RunOutcome(run(p, SinfoArgv()), true).Ok? &&
    exists i: nat :: HostLineAt(SplitLines(RunOutcome(run(p, SinfoArgv()), true).value), host, target, i)
  }

  /** A scan that answered true stopped at the host's line in the target state. */
  lemma ScanLinesTrue(lines: seq<string>, host: string, target: string)
    requires ScanLines(lines, host, target) == Ok(true)
    ensures exists i: nat :: HostLineAt(lines, host, target, i)
  {
    var i := ScanLinesStops(lines, host, target);
    assert HostLineAt(lines, host, target, i);
  }

  /** A listing that answered true holds a line for the host in the target
      state, after only well-formed lines that did not match. */
  lemma SinfoProbeTrue(run: (nat, seq<string>) -> Proc, host: string, target: string, p: nat)
    requires SinfoQuery(run, host, target)(p) == Ok(true)
    ensures ListsHostLine(run, p, host, target)
  {
    var o := RunOutcome(run(p, SinfoArgv()), true);
    assert o.Ok?;
    ScanLinesTrue(SplitLines(o.value), host, target);
  }
}
