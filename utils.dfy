/** The process and pagination helpers: the outcome rule of `run_cmd` and the
    generic `paginated` generator over a paged list call. */
module Utils {
  import opened Wrappers
  import opened Text

  /** What `subprocess.run(cmd, text=True, capture_output=True)` reports. */
  datatype Proc = Proc(returnCode: int, stdout: string, stderr: string)

  /** `run_cmd(cmd, check=...)`: with `check` set, a non-zero return code raises
      RuntimeError carrying the stripped stderr; otherwise the stripped stdout is
      returned, whatever the return code. */
  function RunOutcome(p: Proc, check: bool): (r: Result<string>)
    ensures r.Err? <==> check && p.returnCode != 0
    ensures r.Err? ==> r.error == "RuntimeError: " + Strip(p.stderr)
    ensures r.Ok? ==> r.value == Strip(p.stdout)
  {
    if check && p.returnCode != 0 then Err("RuntimeError: " + Strip(p.stderr))
    else Ok(Strip(p.stdout))
  }

  /** What `run_cmd` returns is already stripped: stripping it again changes
      nothing. */
  lemma RunOutcomeStripped(p: Proc, check: bool)
    requires RunOutcome(p, check).Ok?
    ensures Strip(RunOutcome(p, check).value) == RunOutcome(p, check).value
  {
    StripIdempotent(p.stdout);
  }

  /** One reply of a paged list call: its items and the `next_page` token. */
  datatype Page<T> = Page(data: seq<T>, nextPage: Option<string>)

  /** The items of the replies to the given calls, in call order. */
  function ItemsOf<T>(fetch: Option<string> -> Page<T>, calls: seq<Option<string>>): seq<T>
    decreases |calls|
  {
    if calls == [] then []
    else ItemsOf(fetch, calls[..|calls| - 1]) + fetch(calls[|calls| - 1]).data
  }

  /** The call sequence `paginated` makes: the first call without a page argument,
      every later one with the previous reply's `next_page`, which was present. */
  predicate Chained<T>(fetch: Option<string> -> Page<T>, calls: seq<Option<string>>) {
    calls != [] && calls[0] == None &&
    forall i :: 1 <= i < |calls| ==> NextCall(fetch, calls, i)
  }

  /** Call `i` passes the `next_page` of the reply to call `i - 1`, which was present. */
  predicate NextCall<T>(fetch: Option<string> -> Page<T>, calls: seq<Option<string>>, i: nat)
    requires 1 <= i < |calls|
  {
    calls[i].Some? && fetch(calls[i - 1]).nextPage == calls[i]
  }

  /** The page arguments of at most `fuel` calls made from `page` on, following
      `next_page` until it is None. */
  function CallsFrom<T>(fetch: Option<string> -> Page<T>, page: Option<string>, fuel: nat): seq<Option<string>>
    decreases fuel
  {
    if fuel == 0 then []
    else
      match fetch(page).nextPage
      case None => [page]
      case Some(p) => [page] + CallsFrom(fetch, Some(p), fuel - 1)
  }

  /** Everything a bounded `paginated` run yields. */
  function PagedItems<T>(fetch: Option<string> -> Page<T>, fuel: nat): seq<T> {
    ItemsOf(fetch, CallsFrom(fetch, None, fuel))
  }

  /** `paginated(gen_fn, **kwargs)`: calls the list function (`fetch`, indexed by
      the page argument, None for the first call) and yields every item of every
      page in order, stopping after a page whose `next_page` is None. The loop has
      no bound in the source; here it makes at most `maxCalls` calls, and
      `finished` is false when that bound cut it short. */
  method Paginated<T>(fetch: Option<string> -> Page<T>, maxCalls: nat)
    returns (items: seq<T>, calls: seq<Option<string>>, finished: bool)
    ensures |calls| <= maxCalls && (maxCalls > 0 ==> Chained(fetch, calls))
    ensures items == ItemsOf(fetch, calls) && calls == CallsFrom(fetch, None, maxCalls)
    ensures finished <==> calls != [] && fetch(calls[|calls| - 1]).nextPage.None?
    ensures !finished ==> |calls| == maxCalls
  {
    items, calls, finished := [], [], false;
    var page: Option<string> := None;
    while !finished && |calls| < maxCalls
      invariant |calls| <= maxCalls
      invariant calls == [] ==> page.None? && !finished
      invariant calls != [] ==> Chained(fetch, calls)
      invariant calls != [] && !finished ==> page.Some? && fetch(calls[|calls| - 1]).nextPage == page
      invariant finished <==> calls != [] && fetch(calls[|calls| - 1]).nextPage.None?
      invariant items == ItemsOf(fetch, calls)
      invariant CallsFrom(fetch, None, maxCalls) ==
        calls + (if finished then [] else CallsFrom(fetch, page, maxCalls - |calls|))
      decreases maxCalls - |calls|
    {
      var resp := fetch(page);
      ChainedSnoc(fetch, calls, page);
      ItemsOfSnoc(fetch, calls, page);
      ghost var before := calls;
      calls := calls + [page];
      CallsFromSnoc(fetch, maxCalls, before, page, calls);
      items := items + resp.data;
      if resp.nextPage.None? {
        finished := true;
      } else {
        page := resp.nextPage;
      }
    }
  }

  /** One more call of the `paginated` loop keeps the remaining calls in step
      with the bounded run. */
  lemma CallsFromSnoc<T>(fetch: Option<string> -> Page<T>, maxCalls: nat, calls: seq<Option<string>>,
                         page: Option<string>, after: seq<Option<string>>)
    requires |calls| < maxCalls && after == calls + [page]
    requires CallsFrom(fetch, None, maxCalls) == calls + CallsFrom(fetch, page, maxCalls - |calls|)
    ensures CallsFrom(fetch, None, maxCalls) ==
      after + (if fetch(page).nextPage.None? then [] else CallsFrom(fetch, fetch(page).nextPage, maxCalls - |after|))
  {
    var fuel := maxCalls - |calls| - 1;
    assert fuel == maxCalls - |after| && fuel + 1 == maxCalls - |calls|;
    CallsFromStep(fetch, page, fuel);
    ConcatAssoc(calls, [page], if fetch(page).nextPage.None? then [] else CallsFrom(fetch, fetch(page).nextPage, fuel));
  }

  lemma ChainedSnoc<T>(fetch: Option<string> -> Page<T>, calls: seq<Option<string>>, page: Option<string>)
    requires calls == [] ==> page.None?
    requires calls != [] ==> Chained(fetch, calls) && page.Some? && fetch(calls[|calls| - 1]).nextPage == page
    ensures Chained(fetch, calls + [page])
  {
    var cs := calls + [page];
    forall i | 1 <= i < |cs|
      ensures NextCall(fetch, cs, i)
    {
      if i < |calls| {
        assert NextCall(fetch, calls, i);
        assert cs[i] == calls[i] && cs[i - 1] == calls[i - 1];
      } else {
        assert cs[i] == page && cs[i - 1] == calls[|calls| - 1];
      }
    }
  }

  lemma ItemsOfSnoc<T>(fetch: Option<string> -> Page<T>, calls: seq<Option<string>>, page: Option<string>)
    ensures ItemsOf(fetch, calls + [page]) == ItemsOf(fetch, calls) + fetch(page).data
  {
    assert (calls + [page])[..|calls|] == calls;
  }

  lemma CallsFromStep<T>(fetch: Option<string> -> Page<T>, page: Option<string>, fuel: nat)
    ensures CallsFrom(fetch, page, fuel + 1) ==
            [page] + (if fetch(page).nextPage.None? then [] else CallsFrom(fetch, fetch(page).nextPage, fuel))
  {
    match fetch(page).nextPage
    case None =>
    case Some(p) =>
      assert CallsFrom(fetch, page, fuel + 1) == [page] + CallsFrom(fetch, Some(p), fuel);
  }

  /** A caller's view of `paginated`: everything the bounded run yields. */
  method PagedList<T>(fetch: Option<string> -> Page<T>, maxCalls: nat) returns (items: seq<T>)
    ensures items == PagedItems(fetch, maxCalls)
  {
    var calls, finished;
    items, calls, finished := Paginated(fetch, maxCalls);
  }

  /** The items of a chain of calls split at any point into the items before and
      after it: pagination concatenates page contents and loses or repeats none. */
  lemma {:induction false} ItemsOfAppend<T>(fetch: Option<string> -> Page<T>, a: seq<Option<string>>, b: seq<Option<string>>)
    ensures ItemsOf(fetch, a + b) == ItemsOf(fetch, a) + ItemsOf(fetch, b)
    decreases |b|
  {
    if b != [] {
      var b0 := b[..|b| - 1];
      assert (a + b)[..|a + b| - 1] == a + b0;
      ItemsOfAppend(fetch, a, b0);
    } else {
      assert a + b == a;
    }
  }

  /** Two chains of the same length are the same calls: the page arguments are
      determined by the replies alone. */
  lemma {:induction false} ChainedUnique<T>(fetch: Option<string> -> Page<T>, c1: seq<Option<string>>, c2: seq<Option<string>>)
    requires Chained(fetch, c1) && Chained(fetch, c2) && |c1| == |c2|
    ensures c1 == c2
  {
    var i := 0;
    while i < |c1|
      invariant 0 <= i <= |c1|
      invariant c1[..i] == c2[..i]
    {
      if i > 0 {
        assert NextCall(fetch, c1, i) && NextCall(fetch, c2, i);
        assert c1[i] == fetch(c1[i - 1]).nextPage;
        assert c1[i - 1] == c2[..i][i - 1];
      }
      assert c1[..i + 1] == c1[..i] + [c1[i]];
      assert c2[..i + 1] == c2[..i] + [c2[i]];
      i := i + 1;
    }
    assert c1 == c1[..|c1|];
    assert c2 == c2[..|c2|];
  }

  /** Regrouping a concatenation; called with its arguments where the
      surrounding terms make the solver slow to find it. */
  lemma ConcatAssoc<T>(a: seq<T>, b: seq<T>, c: seq<T>)
    ensures a + (b + c) == (a + b) + c
  {
  }
}
