/** The Slurm adapter of the maintenance tool: the `scontrol` command lines it
    builds, the parsing of the node state out of `scontrol show node`, and the
    two polling waits built on it. */
module Slurm {
  import opened Wrappers
  import opened Text
  import opened Utils
  import opened World
  import opened Polling

  /** `drain(host, reason)`: drain the node with the given reason. */
  function DrainArgv(host: string, reason: string): seq<string> {
    ["sudo", "scontrol", "update", "NODENAME=" + host, "REASON=\"" + reason + "\"", "STATE=DRAIN"]
  }

  /** `set_reason(host, reason)`: the drain command without the state change. */
  function SetReasonArgv(host: string, reason: string): seq<string> {
    ["sudo", "scontrol", "update", "NODENAME=" + host, "REASON=\"" + reason + "\""]
  }

  /** `resume(host)`. */
  function ResumeArgv(host: string): seq<string> {
    ["sudo", "scontrol", "update", "NODENAME=" + host, "STATE=RESUME", "REASON=\"Maintenance_OK\""]
  }

  /** `mark_ntr(host)`: drain with the post-maintenance failure reason and the NTR
      feature. */
  function MarkNtrArgv(host: string): seq<string> {
    ["sudo", "scontrol", "update", "NODENAME=" + host, "STATE=DRAIN", "REASON=\"PostMaint_Failure\"", "FEATURES+=NTR"]
  }

  /** The query `get_state` runs. */
  function ShowNodeArgv(host: string): seq<string> {
    ["scontrol", "show", "node", host]
  }

  /** Setting the reason is the drain command with its state argument dropped. */
  lemma SetReasonIsDrainWithoutState(host: string, reason: string)
    ensures DrainArgv(host, reason) == SetReasonArgv(host, reason) + ["STATE=DRAIN"]
    ensures |DrainArgv(host, reason)| == 6 && |SetReasonArgv(host, reason)| == 5
  {
  }

  /** A drain command names exactly one node and one reason: different
      arguments give different command lines. */
  lemma DrainArgvInjective(h1: string, r1: string, h2: string, r2: string)
    requires DrainArgv(h1, r1) == DrainArgv(h2, r2)
    ensures h1 == h2 && r1 == r2
  {
    var n1, n2 := "NODENAME=" + h1, "NODENAME=" + h2;
    assert n1 == DrainArgv(h1, r1)[3] == DrainArgv(h2, r2)[3] == n2;
    assert h1 == n1[9..] && h2 == n2[9..];
    var q1, q2 := "REASON=\"" + r1 + "\"", "REASON=\"" + r2 + "\"";
    assert q1 == DrainArgv(h1, r1)[4] == DrainArgv(h2, r2)[4] == q2;
    assert r1 == q1[8..|q1| - 1] && r2 == q2[8..|q2| - 1];
  }

  /** The first of the words that starts with `State=`. */
  function StateToken(words: seq<string>): (r: Option<string>)
    ensures r.Some? ==> StartsWith(r.value, "State=")
    decreases |words|
  {
    if words == [] then None
    else if StartsWith(words[0], "State=") then Some(words[0])
    else StateToken(words[1..])
  }

  /** `token.split("=", 1)[1].strip().rstrip(",")`. */
  function StateValue(token: string): string
    requires StartsWith(token, "State=")
  {
    assert token[5] == "State="[5];
    var i := IndexOf(token, '=').value;
    RStripChar(Strip(token[i + 1..]), ',')
  }

  /** `get_state` on the command's output: the value of the first `State=` word,
      without surrounding whitespace or trailing commas, lower-cased; `""` when
      there is none. (`out.replace("\n", " ")` before `split()` changes nothing
      here: `split()` already treats a newline as a separator.) */
  function GetStateOf(out: string): (st: string)
    ensures forall i :: 0 <= i < |st| ==> !('A' <= st[i] <= 'Z')
  {
    StateOfToken(StateToken(Words(out)))
  }

  /** The state a `State=` word (or its absence) stands for. */
  function StateOfToken(token: Option<string>): (st: string)
    requires token.Some? ==> StartsWith(token.value, "State=")
    ensures forall i :: 0 <= i < |st| ==> !('A' <= st[i] <= 'Z')
  {
    Lower(Strip(match token case None => "" case Some(t) => StateValue(t)))
  }

  /** Without a `State=` word the state is empty. */
  lemma {:induction false} StateTokenNone(words: seq<string>)
    requires forall k :: 0 <= k < |words| ==> !StartsWith(words[k], "State=")
    ensures StateToken(words).None?
    decreases |words|
  {
    if words != [] {
      StateTokenNone(words[1..]);
    }
  }

  lemma GetStateOfNoToken(out: string)
    requires forall k :: 0 <= k < |Words(out)| ==> !StartsWith(Words(out)[k], "State=")
    ensures GetStateOf(out) == ""
  {
    StateTokenNone(Words(out));
  }

  /** The first `State=` word after words that are not is the one read. */
  lemma {:induction false} StateTokenAfter(pre: seq<string>, token: string, post: seq<string>)
    requires forall k :: 0 <= k < |pre| ==> !StartsWith(pre[k], "State=")
    requires StartsWith(token, "State=")
    ensures StateToken(pre + [token] + post) == Some(token)
    decreases |pre|
  {
    if pre != [] {
      assert (pre + [token] + post)[1..] == pre[1..] + [token] + post;
      StateTokenAfter(pre[1..], token, post);
    }
  }

  /** The value read out of `State=v` is `v` without its trailing commas. */
  lemma StateValueOf(v: string)
    requires NoSpace(v)
    ensures StateValue("State=" + v) == RStripChar(v, ',')
  {
    var token := "State=" + v;
    assert token[..5] == "State";
    IndexOfFirst(token, '=', 5);
    assert token[6..] == v;
    StripOfTrimmed(v);
    var r := RStripChar(v, ',');
    StripOfTrimmed(r);
  }

  /** The state of an output line whose first `State=` word carries `v`: `v`
      lower-cased with its trailing commas dropped, its flags (`+DRAIN`) kept. */
  lemma GetStateOfLine(pre: seq<string>, v: string, post: seq<string>)
    requires forall k :: 0 <= k < |pre| ==> IsWord(pre[k]) && !StartsWith(pre[k], "State=")
    requires NoSpace(v)
    requires forall k :: 0 <= k < |post| ==> IsWord(post[k])
    ensures GetStateOf(Join(" ", pre + ["State=" + v] + post)) == Lower(RStripChar(v, ','))
  {
    StateLineWords(pre, v, post);
    StateTokenAfter(pre, "State=" + v, post);
    StateOfTokenOf(v);
  }

  /** The words of such a line are the words it was joined from. */
  lemma StateLineWords(pre: seq<string>, v: string, post: seq<string>)
    requires forall k :: 0 <= k < |pre| ==> IsWord(pre[k])
    requires NoSpace(v)
    requires forall k :: 0 <= k < |post| ==> IsWord(post[k])
    ensures Words(Join(" ", pre + ["State=" + v] + post)) == pre + ["State=" + v] + post
  {
    assert NoSpace("State=");
    NoSpaceAppend("State=", v);
    WordsOfJoinAround(pre, "State=" + v, post);
  }

  lemma StateOfTokenOf(v: string)
    requires NoSpace(v)
    ensures StateOfToken(Some("State=" + v)) == Lower(RStripChar(v, ','))
  {
    StateValueOf(v);
    StripOfTrimmed(RStripChar(v, ','));
  }

  /** The state of a node is always free of whitespace and never ends in a comma. */
  lemma GetStateOfClean(out: string)
    ensures NoSpace(GetStateOf(out))
    ensures GetStateOf(out) == [] || GetStateOf(out)[|GetStateOf(out)| - 1] != ','
  {
    var words := Words(out);
    match StateToken(words)
    case None =>
      StripOfTrimmed("");
      assert GetStateOf(out) == Lower("");
    case Some(t) =>
      var k :| 0 <= k < |words| && words[k] == t by {
        StateTokenIn(words);
      }
      assert IsWord(words[k]);
      CleanToken(t);
  }

  /** The state a `State=` word stands for, when the word holds no whitespace:
      its value, trimmed of trailing commas and lower-cased. */
  lemma CleanToken(t: string)
    requires IsWord(t) && StartsWith(t, "State=")
    ensures var r := StateOfToken(Some(t)); NoSpace(r) && (r == [] || r[|r| - 1] != ',')
  {
    var v := t[6..];
    assert t == t[..6] + v;
    assert NoSpace(v) by {
      forall i | 0 <= i < |v| ensures !IsSpace(v[i]) { assert v[i] == t[i + 6]; }
    }
    StateOfTokenOf(v);
    CleanValue(v);
  }

  /** Dropping trailing commas and lower-casing keeps a value free of whitespace
      and leaves no comma at its end. */
  lemma CleanValue(v: string)
    requires NoSpace(v)
    ensures var r := Lower(RStripChar(v, ','));
      NoSpace(r) && (r == [] || r[|r| - 1] != ',')
  {
    var t := RStripChar(v, ',');
    var r := Lower(t);
    forall i | 0 <= i < |r| ensures !IsSpace(r[i]) {
      assert t[i] == v[i];
    }
  }

  lemma {:induction false} StateTokenIn(words: seq<string>)
    requires StateToken(words).Some?
    ensures exists k :: 0 <= k < |words| && words[k] == StateToken(words).value
    decreases |words|
  {
    if !StartsWith(words[0], "State=") {
      StateTokenIn(words[1..]);
      var k :| 0 <= k < |words[1..]| && words[1..][k] == StateToken(words).value;
      assert words[k + 1] == StateToken(words).value;
    }
  }

  /** What a state query yields: RuntimeError when `scontrol` fails (`run_cmd`
      checks), else the parsed state. */
  function StateOutcome(p: Proc): Result<string> {
    match RunOutcome(p, true)
    case Err(e) => Err(e)
    case Ok(out) => Ok(GetStateOf(out))
  }

  method Drain(c: Cluster, host: string, reason: string) returns (r: Result<string>)
    modifies c
    ensures c.trace == old(c.trace) + [Exec(DrainArgv(host, reason))] && c.audit == old(c.audit)
    ensures r == RunOutcome(c.run(|old(c.trace)|, DrainArgv(host, reason)), true)
  {
    r := c.RunCmd(DrainArgv(host, reason), true);
  }

  method SetReason(c: Cluster, host: string, reason: string) returns (r: Result<string>)
    modifies c
    ensures c.trace == old(c.trace) + [Exec(SetReasonArgv(host, reason))] && c.audit == old(c.audit)
    ensures r == RunOutcome(c.run(|old(c.trace)|, SetReasonArgv(host, reason)), true)
  {
    r := c.RunCmd(SetReasonArgv(host, reason), true);
  }

  method Resume(c: Cluster, host: string) returns (r: Result<string>)
    modifies c
    ensures c.trace == old(c.trace) + [Exec(ResumeArgv(host))] && c.audit == old(c.audit)
    ensures r == RunOutcome(c.run(|old(c.trace)|, ResumeArgv(host)), true)
  {
    r := c.RunCmd(ResumeArgv(host), true);
  }

  method MarkNtr(c: Cluster, host: string) returns (r: Result<string>)
    modifies c
    ensures c.trace == old(c.trace) + [Exec(MarkNtrArgv(host))] && c.audit == old(c.audit)
    ensures r == RunOutcome(c.run(|old(c.trace)|, MarkNtrArgv(host)), true)
  {
    r := c.RunCmd(MarkNtrArgv(host), true);
  }

  /** `get_state(host)`. */
  method GetState(c: Cluster, host: string) returns (r: Result<string>)
    modifies c
    ensures c.trace == old(c.trace) + [Exec(ShowNodeArgv(host))] && c.audit == old(c.audit)
    ensures r == StateOutcome(c.run(|old(c.trace)|, ShowNodeArgv(host)))
  {
    var out := c.RunCmd(ShowNodeArgv(host), true);
    match out
    case Err(e) => r := Err(e);
    case Ok(o) => r := Ok(GetStateOf(o));
  }

  /** `wait_state`'s test: the target is a substring of the state. */
  function Containing(target: string): string -> bool {
    st => Contains(st, target)
  }

  /** `wait_drained_empty`'s test: the state mentions both `drain` and `idle`. */
  predicate DrainedIdle(st: string) {
    Contains(st, "drain") && Contains(st, "idle")
  }

  /** The state query `scontrol show node` answers at each trace position. */
  function StateQuery(run: (nat, seq<string>) -> Proc, host: string): nat -> Result<string> {
    (p: nat) => StateOutcome(run(p, ShowNodeArgv(host)))
  }

  /** The wait on `host` that a cluster would go through, starting at trace
      position `pos`: each probe is `scontrol show node host`. */
  function NodeWait(c: Cluster, host: string, pos: nat, ready: string -> bool,
                    pollSec: int, fuel: nat): (seq<Effect>, PollEnd<string>)
  {
    Poll(StateQuery(c.run, host), pos, Exec(ShowNodeArgv(host)), ready, pollSec, fuel)
  }

  /** The polling loop shared by both waits. */
  method WaitUntil(c: Cluster, host: string, ready: string -> bool, pollSec: int, maxPolls: nat)
    returns (end: PollEnd<string>)
    modifies c
    ensures c.trace == old(c.trace) + NodeWait(c, host, |old(c.trace)|, ready, pollSec, maxPolls).0
    ensures end == NodeWait(c, host, |old(c.trace)|, ready, pollSec, maxPolls).1
    ensures c.audit == old(c.audit)
  {
    ghost var query := StateQuery(c.run, host);
    ghost var probe := Exec(ShowNodeArgv(host));
    ghost var t0 := c.trace;
    ghost var eff := Poll(query, |t0|, probe, ready, pollSec, maxPolls).0;
    ghost var last := Poll(query, |t0|, probe, ready, pollSec, maxPolls).1;
    var fuel := maxPolls;
    var done := false;
    end := StillPolling;
    ghost var pos := |c.trace|;
    while !done && fuel > 0
      invariant c.audit == old(c.audit)
      invariant !done ==> pos == |c.trace|
      invariant !done ==> t0 + eff == c.trace + Poll(query, pos, probe, ready, pollSec, fuel).0
      invariant !done ==> last == Poll(query, pos, probe, ready, pollSec, fuel).1
      invariant done ==> t0 + eff == c.trace && last == end
      invariant !done ==> end == StillPolling
      decreases fuel, if done then 0 else 1
    {
      ghost var before, posBefore, fuelBefore := c.trace, pos, fuel;
      var r := GetState(c, host);
      assert r == query(posBefore);
      if r.Err? {
        end := Raised(r.error);
        done := true;
      } else if ready(r.value) {
        end := Reached(r.value);
        done := true;
      } else {
        c.Sleep(pollSec);
        fuel := fuel - 1;
        pos := pos + 2;
        PollAdvance(query, before, posBefore, probe, ready, pollSec, fuelBefore, pos, fuel);
      }
    }
  }

  /** `wait_state(host, target)`: poll until the target is a substring of the
      state. */
  method WaitState(c: Cluster, host: string, target: string, pollSec: int, maxPolls: nat)
    returns (end: PollEnd<string>)
    modifies c
    ensures c.trace == old(c.trace) + NodeWait(c, host, |old(c.trace)|, Containing(target), pollSec, maxPolls).0
    ensures end == NodeWait(c, host, |old(c.trace)|, Containing(target), pollSec, maxPolls).1
    ensures c.audit == old(c.audit)
  {
    end := WaitUntil(c, host, Containing(target), pollSec, maxPolls);
  }

  /** `wait_drained_empty(host)`: poll until the state shows the node both
      drained and idle. */
  method WaitDrainedEmpty(c: Cluster, host: string, pollSec: int, maxPolls: nat)
    returns (end: PollEnd<string>)
    modifies c
    ensures c.trace == old(c.trace) + NodeWait(c, host, |old(c.trace)|, DrainedIdle, pollSec, maxPolls).0
    ensures end == NodeWait(c, host, |old(c.trace)|, DrainedIdle, pollSec, maxPolls).1
    ensures c.audit == old(c.audit)
  {
    end := WaitUntil(c, host, DrainedIdle, pollSec, maxPolls);
  }

  /** A drained-and-idle wait stops at a state only when that state is drained
      and idle, and only after every earlier probe saw a state that was not. */
  lemma DrainedWaitReached(c: Cluster, host: string, pos: nat, pollSec: int, fuel: nat, st: string)
    requires NodeWait(c, host, pos, DrainedIdle, pollSec, fuel).1 == Reached(st)
    ensures DrainedIdle(st)
    ensures exists n: nat :: n < fuel && RejectedFrom(StateQuery(c.run, host), pos, DrainedIdle, n)
                          && StateQuery(c.run, host)(pos + 2 * n) == Ok(st)
  {
    PollReachedIff(StateQuery(c.run, host), pos, Exec(ShowNodeArgv(host)), DrainedIdle, pollSec, fuel, st);
  }
}
