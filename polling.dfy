/** The shape shared by every `while True` poll in the tool: make one probe
    (a command or a provider call), stop when its answer is acceptable or when it
    raised, otherwise sleep and probe again. The source loops have no bound; the
    model follows at most `fuel` probes and reports when that budget ran out. */
module Polling {
  import opened Wrappers
  import opened World

  /** How a poll ended: a probe returned an accepted answer, a probe raised, or
      the budget ran out while the source would still be polling. */
  datatype PollEnd<T> = Reached(answer: T) | Raised(error: string) | StillPolling

  /** How a phase of the workflow ended: it returned, it raised, or it is still
      inside a poll when the budget ran out. */
  datatype PhaseEnd = Returned | Threw(error: string) | Hung

  /** A phase that ends with a poll ends as the poll does. */
  function Ended<T>(end: PollEnd<T>): PhaseEnd {
    match end
    case Reached(_) => Returned
    case Raised(e) => Threw(e)
    case StillPolling => Hung
  }

  /** The acceptance test of the polls whose probe answers a yes/no question. */
  predicate IsTrue(b: bool) {
    b
  }

  /** The effects and the end of at most `fuel` probes, the first made at trace
      position `pos`, each of which appends `probe` to the trace and answers
      `query(position)`; an answer `ready` rejects is followed by a sleep of
      `pollSec` seconds. */
  function Poll<T>(query: nat -> Result<T>, pos: nat, probe: Effect, ready: T -> bool,
                   pollSec: int, fuel: nat): (seq<Effect>, PollEnd<T>)
    decreases fuel
  {
    if fuel == 0 then ([], StillPolling)
    else
      match query(pos)
      case Err(e) => ([probe], Raised(e))
      case Ok(a) =>
        if ready(a) then ([probe], Reached(a))
        else
          var rest := Poll(query, pos + 2, probe, ready, pollSec, fuel - 1);
          ([probe, Slept(pollSec)] + rest.0, rest.1)
  }

  /** A poll does nothing but probe and sleep. */
  lemma {:induction false} PollEffects<T>(query: nat -> Result<T>, pos: nat, probe: Effect, ready: T -> bool,
                                          pollSec: int, fuel: nat)
    ensures forall e :: e in Poll(query, pos, probe, ready, pollSec, fuel).0 ==> e == probe || e == Slept(pollSec)
    decreases fuel
  {
    if fuel > 0 && query(pos).Ok? && !ready(query(pos).value) {
      var rest := Poll(query, pos + 2, probe, ready, pollSec, fuel - 1).0;
      PollEffects(query, pos + 2, probe, ready, pollSec, fuel - 1);
      assert Poll(query, pos, probe, ready, pollSec, fuel).0 == [probe, Slept(pollSec)] + rest;
      forall e | e in [probe, Slept(pollSec)] + rest ensures e == probe || e == Slept(pollSec) {
        if e !in [probe, Slept(pollSec)] { assert e in rest; }
      }
    }
  }

  /** The probe at trace position `p` answered, and the answer was rejected. */
  predicate Rejected<T>(query: nat -> Result<T>, p: nat, ready: T -> bool) {
    query(p).Ok? && !ready(query(p).value)
  }

  /** The `n` probes at positions `pos`, `pos + 2`, ... were all rejected. */
  predicate RejectedFrom<T>(query: nat -> Result<T>, pos: nat, ready: T -> bool, n: nat)
    decreases n
  {
    n == 0 || (Rejected(query, pos, ready) && RejectedFrom(query, pos + 2, ready, n - 1))
  }

  /** `n` rounds of a probe followed by a sleep. */
  function Rounds(probe: Effect, pollSec: int, n: nat): seq<Effect>
    decreases n
  {
    if n == 0 then [] else [probe, Slept(pollSec)] + Rounds(probe, pollSec, n - 1)
  }

  /** What a poll does, in full: some number `n` of probes are rejected and each
      is followed by a sleep; then either the budget is spent, or one more probe
      ends the poll, reporting the error it raised or the answer it gave, which
      `ready` accepts. */
  lemma {:induction false} PollShape<T>(query: nat -> Result<T>, pos: nat, probe: Effect,
                                        ready: T -> bool, pollSec: int, fuel: nat)
    returns (n: nat)
    ensures RejectedFrom(query, pos, ready, n)
    ensures var (eff, end) := Poll(query, pos, probe, ready, pollSec, fuel);
      match end
      case StillPolling => n == fuel && eff == Rounds(probe, pollSec, n)
      case Reached(a) =>
        n < fuel && eff == Rounds(probe, pollSec, n) + [probe]
        && query(pos + 2 * n) == Ok(a) && ready(a)
      case Raised(e) =>
        n < fuel && eff == Rounds(probe, pollSec, n) + [probe]
        && query(pos + 2 * n) == Err(e)
    decreases fuel
  {
    if fuel == 0 {
      n := 0;
    } else if Rejected(query, pos, ready) {
      var m := PollShape(query, pos + 2, probe, ready, pollSec, fuel - 1);
      n := m + 1;
      var rest := Poll(query, pos + 2, probe, ready, pollSec, fuel - 1).0;
      assert pos + 2 * n == pos + 2 + 2 * m;
      if !Poll(query, pos + 2, probe, ready, pollSec, fuel - 1).1.StillPolling? {
        assert rest == Rounds(probe, pollSec, m) + [probe];
        assert [probe, Slept(pollSec)] + rest == Rounds(probe, pollSec, n) + [probe];
      }
    } else {
      n := 0;
      assert Rounds(probe, pollSec, 0) + [probe] == [probe];
    }
  }

  /** A poll ends with an accepted answer exactly when some probe within the
      budget gives one after only rejected probes. */
  lemma PollReachedIff<T>(query: nat -> Result<T>, pos: nat, probe: Effect,
                          ready: T -> bool, pollSec: int, fuel: nat, a: T)
    ensures Poll(query, pos, probe, ready, pollSec, fuel).1 == Reached(a) ==>
      exists n: nat :: n < fuel && RejectedFrom(query, pos, ready, n)
                       && query(pos + 2 * n) == Ok(a) && ready(a)
    ensures (exists n: nat :: n < fuel && RejectedFrom(query, pos, ready, n)
                       && query(pos + 2 * n) == Ok(a) && ready(a)) ==>
      Poll(query, pos, probe, ready, pollSec, fuel).1 == Reached(a)
  {
    var n := PollShape(query, pos, probe, ready, pollSec, fuel);
    if Poll(query, pos, probe, ready, pollSec, fuel).1 == Reached(a) {
      assert n < fuel && RejectedFrom(query, pos, ready, n) && query(pos + 2 * n) == Ok(a) && ready(a);
    }
    forall n': nat | n' < fuel && RejectedFrom(query, pos, ready, n') && query(pos + 2 * n') == Ok(a) && ready(a)
      ensures Poll(query, pos, probe, ready, pollSec, fuel).1 == Reached(a)
    {
      PollEndsAt(query, pos, probe, ready, pollSec, fuel, n');
    }
  }

  /** Probe `n`, within the budget of `fuel` probes from `pos`, answers an
      accepted value after only rejected probes. */
  predicate ReachesAt<T>(query: nat -> Result<T>, pos: nat, ready: T -> bool, fuel: nat, n: nat) {
    n < fuel && RejectedFrom(query, pos, ready, n) && query(pos + 2 * n).Ok? && ready(query(pos + 2 * n).value)
  }

  /** Some probe within the budget answers an accepted value after only
      rejected probes. */
  ghost predicate Reaches<T>(query: nat -> Result<T>, pos: nat, ready: T -> bool, fuel: nat) {
    exists n: nat :: ReachesAt(query, pos, ready, fuel, n)
  }

  /** A poll reaches some accepted answer exactly when, within the budget, a
      probe answers one after only rejected probes. */
  lemma PollReachedSome<T>(query: nat -> Result<T>, pos: nat, probe: Effect,
                           ready: T -> bool, pollSec: int, fuel: nat)
    ensures Poll(query, pos, probe, ready, pollSec, fuel).1.Reached? <==> Reaches(query, pos, ready, fuel)
  {
    var n := PollShape(query, pos, probe, ready, pollSec, fuel);
    if Poll(query, pos, probe, ready, pollSec, fuel).1.Reached? {
      assert ReachesAt(query, pos, ready, fuel, n);
    }
    if Reaches(query, pos, ready, fuel) {
      var n': nat :| ReachesAt(query, pos, ready, fuel, n');
      PollEndsAt(query, pos, probe, ready, pollSec, fuel, n');
      assert Poll(query, pos, probe, ready, pollSec, fuel).1 == Reached(query(pos + 2 * n').value);
    }
  }

  /** After `n` rejected probes, a probe within the budget decides the end. */
  lemma {:induction false} PollEndsAt<T>(query: nat -> Result<T>, pos: nat, probe: Effect,
                                         ready: T -> bool, pollSec: int, fuel: nat, n: nat)
    requires n < fuel && RejectedFrom(query, pos, ready, n)
    ensures Poll(query, pos, probe, ready, pollSec, fuel).1 ==
      match query(pos + 2 * n)
      case Err(e) => Raised(e)
      case Ok(a) => if ready(a) then Reached(a) else Poll(query, pos + 2 * n + 2, probe, ready, pollSec, fuel - n - 1).1
    decreases n
  {
    if n > 0 {
      PollEndsAt(query, pos + 2, probe, ready, pollSec, fuel - 1, n - 1);
      assert pos + 2 + 2 * (n - 1) == pos + 2 * n;
      assert fuel - 1 - (n - 1) - 1 == fuel - n - 1;
      assert pos + 2 + 2 * (n - 1) + 2 == pos + 2 * n + 2;
    }
  }

  /** One rejected probe: the poll goes on with one probe fewer, two positions on. */
  lemma PollStep<T>(query: nat -> Result<T>, pos: nat, probe: Effect, ready: T -> bool,
                    pollSec: int, fuel: nat)
    requires fuel > 0 && Rejected(query, pos, ready)
    ensures Poll(query, pos, probe, ready, pollSec, fuel).0
            == [probe, Slept(pollSec)] + Poll(query, pos + 2, probe, ready, pollSec, fuel - 1).0
    ensures Poll(query, pos, probe, ready, pollSec, fuel).1 == Poll(query, pos + 2, probe, ready, pollSec, fuel - 1).1
  {
  }

  /** A rejected probe and its sleep move from the rest of the poll onto the
      trace. The advanced position and budget are passed in, so that a loop
      holding them in variables needs no arithmetic to match the terms. */
  lemma PollAdvance<T>(query: nat -> Result<T>, before: seq<Effect>, pos: nat, probe: Effect,
                       ready: T -> bool, pollSec: int, fuel: nat, pos': nat, fuel': nat)
    requires pos == |before| && pos' == pos + 2 && fuel == fuel' + 1
    requires Rejected(query, pos, ready)
    ensures before + Poll(query, pos, probe, ready, pollSec, fuel).0
            == ((before + [probe]) + [Slept(pollSec)]) + Poll(query, pos', probe, ready, pollSec, fuel').0
    ensures Poll(query, pos, probe, ready, pollSec, fuel).1 == Poll(query, pos', probe, ready, pollSec, fuel').1
  {
    PollStep(query, pos, probe, ready, pollSec, fuel);
    PollRegroup(before, probe, pollSec, Poll(query, pos', probe, ready, pollSec, fuel').0);
  }

  lemma PollRegroup(before: seq<Effect>, probe: Effect, pollSec: int, rest: seq<Effect>)
    ensures (before + [probe]) + [Slept(pollSec)] + rest == before + ([probe, Slept(pollSec)] + rest)
  {
  }

  /** A last probe that ends the poll leaves the trace and the answer where the
      poll says. */
  lemma PollFinish<T>(query: nat -> Result<T>, pos: nat, probe: Effect, ready: T -> bool,
                      pollSec: int, fuel: nat)
    requires fuel > 0 && !Rejected(query, pos, ready)
    ensures Poll(query, pos, probe, ready, pollSec, fuel).0 == [probe]
    ensures Poll(query, pos, probe, ready, pollSec, fuel).1 ==
      match query(pos) case Err(e) => Raised(e) case Ok(a) => Reached(a)
  {
  }
}
