/**
 * The transaction-data tool: which request errors are retried, how one page
 * is fetched with retries, how pages are followed until the last one, and
 * how a failure is classified for the tool's response.
 *
 * A JavaScript error value is a `Failure` whose absent or falsy fields are
 * `None` or the empty string. The API is a function `respond(page, attempt)`
 * giving the outcome of the `attempt`-th request for `page`; the waits the
 * tool sleeps are returned as a trace of milliseconds.
 */
module TransactionData {
  import opened Text

  /** An error value: `status`, `code`, `type` and `message`, "" when absent or falsy. */
  datatype Failure = Failure(status: Option<int>, code: string, kind: string, message: string)

  /** The tool's error categories, with their string values. */
  datatype ErrorType = AuthenticationRequired | ApiLimitReached | NetworkError | InvalidParameters | UnknownError
  {
    function Value(): string {
      match this
      case AuthenticationRequired => "authentication_required"
      case ApiLimitReached => "api_limit_reached"
      case NetworkError => "network_error"
      case InvalidParameters => "invalid_parameters"
      case UnknownError => "unknown_error"
    }
  }

  // ---------------------------------------------------------------- errors

  /** `isRetryableError`: a server error or a network failure. */
  predicate IsRetryable(e: Failure) {
    (e.status.Some? && e.status.value >= 500) || e.code == "NETWORK_ERROR"
  }

  /** The error a request throws when the response status `status` is not ok. */
  function RequestError(status: int, body: string): (e: Failure) {
    if status == 429 then Failure(Some(429), "", ApiLimitReached.Value(), "API rate limit exceeded")
    else if status == 401 then Failure(Some(401), "", AuthenticationRequired.Value(), "Authentication required")
    else Failure(Some(status), "", if status >= 500 then NetworkError.Value() else UnknownError.Value(),
                 "API request failed: " + Decimal(status) + " " + body)
  }

  /** `categorizeError`: an explicit type first, then the status, then the message. */
  function CategorizeError(e: Failure): (r: string) {
    if e.kind != "" then e.kind
    else if e.status == Some(401) then AuthenticationRequired.Value()
    else if e.status == Some(429) then ApiLimitReached.Value()
    else if e.status.Some? && e.status.value >= 500 then NetworkError.Value()
    else if Contains(e.message, "Invalid date") || Contains(e.message, "Date range") then InvalidParameters.Value()
    else UnknownError.Value()
  }

  /** The category is the error's own type, or else one of the five categories. */
  lemma CategoryGivenOrKnown(e: Failure)
    ensures e.kind != "" ==> CategorizeError(e) == e.kind
    ensures e.kind == "" ==> exists t: ErrorType :: CategorizeError(e) == t.Value()
  {
    if e.kind == "" {
      var r := CategorizeError(e);
      if r == AuthenticationRequired.Value() {
      } else if r == ApiLimitReached.Value() {
        assert r == ApiLimitReached.Value();
      } else if r == NetworkError.Value() {
        assert r == NetworkError.Value();
      } else if r == InvalidParameters.Value() {
        assert r == InvalidParameters.Value();
      } else {
        assert r == UnknownError.Value();
      }
    }
  }

  /** An untyped error is a network error exactly when its status is at least 500. */
  lemma UntypedNetworkError(e: Failure)
    requires e.kind == ""
    ensures CategorizeError(e) == NetworkError.Value() <==> e.status.Some? && e.status.value >= 500
  {
  }

  /**
   * A failed request is retried exactly when its status is at least 500, so
   * neither a rate limit (429) nor an authentication failure (401) is retried;
   * its category follows the status.
   */
  lemma RequestErrorRetryAndCategory(status: int, body: string)
    ensures IsRetryable(RequestError(status, body)) <==> status >= 500
    ensures CategorizeError(RequestError(status, body)) ==
      if status == 429 then ApiLimitReached.Value()
      else if status == 401 then AuthenticationRequired.Value()
      else if status >= 500 then NetworkError.Value()
      else UnknownError.Value()
  {
  }

  /** Decimal digits of `n`, as a template literal shows an integer. */
  function Decimal(n: int): (s: string)
    ensures s != []
    decreases if n < 0 then 1 - n else n
  {
    if n < 0 then "-" + Decimal(-n)
    else if n < 10 then [(('0' as int) + n) as char]
    else Decimal(n / 10) + [(('0' as int) + n % 10) as char]
  }

  // ---------------------------------------------------------------- one page

  datatype Outcome<P> = Ok(value: P) | Err(error: Failure)

  /** The outcome of fetching one page, and the waits slept between attempts. */
  datatype Fetched<P> = Fetched(result: Outcome<P>, waits: seq<nat>)

  const MaxRetries: nat := 3

  /** The waits between the three attempts. */
  const Schedule: seq<nat> := [1000, 2000]

  function Pow2(n: nat): (r: nat)
    ensures r >= 1
  {
    if n == 0 then 1 else 2 * Pow2(n - 1)
  }

  /** The wait after the failed attempt `attempt`: `2^(attempt-1) * 1000`. */
  function Delay(attempt: nat): nat
    requires attempt >= 1
  {
    Pow2(attempt - 1) * 1000
  }

  /** The error thrown after the last attempt failed with `last`. */
  function GaveUp(page: int, last: Failure): Failure {
    Failure(None, "", "", "Failed to fetch page " + Decimal(page) + " after " + Decimal(MaxRetries) + " retries: "
                          + (if last.message != "" then last.message else "[object Object]"))
  }

  /** Attempts `attempt` onwards for `page`. */
  function RetryFrom<P>(respond: (int, nat) -> Outcome<P>, page: int, attempt: nat): Fetched<P>
    requires 1 <= attempt <= MaxRetries
    decreases MaxRetries - attempt
  {
    match respond(page, attempt)
    case Ok(p) => Fetched(Ok(p), [])
    case Err(e) =>
      if !IsRetryable(e) then Fetched(Err(e), [])
      else if attempt == MaxRetries then Fetched(Err(GaveUp(page, e)), [])
      else
        var rest := RetryFrom(respond, page, attempt + 1);
        Fetched(rest.result, [Delay(attempt)] + rest.waits)
  }

  /** `fetchTransactionPage`. */
  function FetchPage<P>(respond: (int, nat) -> Outcome<P>, page: int): Fetched<P> {
    RetryFrom(respond, page, 1)
  }

  /** An attempt that ends the retries: a page, or an error that is not retried. */
  predicate Settles<P>(o: Outcome<P>) {
    o.Ok? || !IsRetryable(o.error)
  }

  /** A slice is its first element followed by the rest of it. */
  lemma SliceFront(s: seq<nat>, i: nat, j: nat)
    requires i < j <= |s|
    ensures s[i..j] == [s[i]] + s[i + 1..j]
  {
  }

  lemma {:induction false} RetryFromSettlesAt<P>(respond: (int, nat) -> Outcome<P>, page: int, attempt: nat, n: nat)
    requires 1 <= attempt <= n <= MaxRetries
    requires Settles(respond(page, n))
    requires forall k :: attempt <= k < n ==> !Settles(respond(page, k))
    ensures RetryFrom(respond, page, attempt) == Fetched(respond(page, n), Schedule[attempt - 1..n - 1])
    decreases n - attempt
  {
    if attempt < n {
      assert !Settles(respond(page, attempt));
      RetryFromSettlesAt(respond, page, attempt + 1, n);
      assert Delay(attempt) == Schedule[attempt - 1];
      SliceFront(Schedule, attempt - 1, n - 1);
    }
  }

  /**
   * The first attempt that returns a page or an error that is not retried
   * decides the outcome, unchanged; the waits before it are 1000 ms and then
   * 2000 ms.
   */
  lemma FetchPageSettlesAt<P>(respond: (int, nat) -> Outcome<P>, page: int, n: nat)
    requires 1 <= n <= MaxRetries
    requires Settles(respond(page, n))
    requires forall k :: 1 <= k < n ==> !Settles(respond(page, k))
    ensures FetchPage(respond, page) == Fetched(respond(page, n), Schedule[..n - 1])
  {
    RetryFromSettlesAt(respond, page, 1, n);
  }

  lemma {:induction false} RetryFromGivesUp<P>(respond: (int, nat) -> Outcome<P>, page: int, attempt: nat)
    requires 1 <= attempt <= MaxRetries
    requires forall k :: attempt <= k <= MaxRetries ==> !Settles(respond(page, k))
    ensures respond(page, MaxRetries).Err?
    ensures RetryFrom(respond, page, attempt) ==
      Fetched(Err(GaveUp(page, respond(page, MaxRetries).error)), Schedule[attempt - 1..])
    decreases MaxRetries - attempt
  {
    assert !Settles(respond(page, attempt));
    if attempt < MaxRetries {
      RetryFromGivesUp(respond, page, attempt + 1);
      assert Delay(attempt) == Schedule[attempt - 1];
      SliceFront(Schedule, attempt - 1, |Schedule|);
    }
  }

  /** Three retryable failures: the error names the page and the last failure, after waits of 1000 and 2000 ms. */
  lemma FetchPageGivesUp<P>(respond: (int, nat) -> Outcome<P>, page: int)
    requires forall k :: 1 <= k <= MaxRetries ==> !Settles(respond(page, k))
    ensures respond(page, MaxRetries).Err?
    ensures FetchPage(respond, page) == Fetched(Err(GaveUp(page, respond(page, MaxRetries).error)), Schedule)
  {
    RetryFromGivesUp(respond, page, 1);
  }

  lemma {:induction false} RetryFromLooksAhead<P>(r1: (int, nat) -> Outcome<P>, r2: (int, nat) -> Outcome<P>, page: int, attempt: nat)
    requires 1 <= attempt <= MaxRetries
    requires forall k :: attempt <= k <= MaxRetries ==> r1(page, k) == r2(page, k)
    ensures RetryFrom(r1, page, attempt) == RetryFrom(r2, page, attempt)
    decreases MaxRetries - attempt
  {
    if attempt < MaxRetries {
      RetryFromLooksAhead(r1, r2, page, attempt + 1);
    }
  }

  /** At most three requests are made: two APIs that agree on the first three attempts give the same outcome. */
  lemma AtMostThreeAttempts<P>(r1: (int, nat) -> Outcome<P>, r2: (int, nat) -> Outcome<P>, page: int)
    requires forall k :: 1 <= k <= MaxRetries ==> r1(page, k) == r2(page, k)
    ensures FetchPage(r1, page) == FetchPage(r2, page)
  {
    RetryFromLooksAhead(r1, r2, page, 1);
  }

  /** The error after three failures names the page and ends with the last failure's message. */
  lemma GaveUpNamesPageAndError(page: int, last: Failure)
    ensures StartsWith(GaveUp(page, last).message, "Failed to fetch page " + Decimal(page) + " ")
    ensures last.message != "" ==> EndsWith(GaveUp(page, last).message, last.message)
  {
    var m := GaveUp(page, last).message;
    var head := "Failed to fetch page " + Decimal(page);
    var tail := "after " + Decimal(MaxRetries) + " retries: " + (if last.message != "" then last.message else "[object Object]");
    assert m == head + " " + tail;
    assert m[..|head + " "|] == head + " ";
    if last.message != "" {
      var front := head + " after " + Decimal(MaxRetries) + " retries: ";
      assert m == front + last.message;
      assert m[|m| - |last.message|..] == last.message;
    }
  }

  /**
   * The error thrown after three server errors carries no status and no type,
   * so it is never classified as a network error.
   */
  lemma GaveUpIsNotNetworkError(page: int, last: Failure)
    ensures CategorizeError(GaveUp(page, last)) != NetworkError.Value()
  {
  }

  /** `fetchTransactionPage`'s loop over attempts; the waits it sleeps are returned. */
  method FetchTransactionPage<P>(respond: (int, nat) -> Outcome<P>, page: int) returns (r: Outcome<P>, waits: seq<nat>)
    ensures Fetched(r, waits) == FetchPage(respond, page)
  {
    waits := [];
    var lastError := Failure(None, "", "", "");
    for attempt := 1 to MaxRetries + 1
      invariant attempt <= MaxRetries
      invariant FetchPage(respond, page) == Fetched(RetryFrom(respond, page, attempt).result, waits + RetryFrom(respond, page, attempt).waits)
    {
      var o := respond(page, attempt);
      if o.Ok? {
        r := o;
        return;
      }
      lastError := o.error;
      if !IsRetryable(lastError) {
        r := o;
        return;
      }
      if attempt == MaxRetries {
        break;
      }
      ghost var rest := RetryFrom(respond, page, attempt + 1);
      assert RetryFrom(respond, page, attempt) == Fetched(rest.result, [Delay(attempt)] + rest.waits);
      assert waits + ([Delay(attempt)] + rest.waits) == (waits + [Delay(attempt)]) + rest.waits;
      waits := waits + [Delay(attempt)];
    }
    r := Err(GaveUp(page, lastError));
  }

  // ---------------------------------------------------------------- all pages

  datatype Pagination = Pagination(hasNext: Option<bool>)

  /** A page's `data`: absent or falsy, an array of rows, or some other value. */
  datatype Data<T> = Absent | Rows(rows: seq<T>) | Single(item: T)

  /** A page as the API returns it; `nextPageUrl` is "" when absent or falsy. */
  datatype Page<T> = Page(pagination: Option<Pagination>, meta: Option<string>, data: Data<T>)

  const PageSize: nat := 100

  /** `hasNextPage`. */
  function HasNextPage<T>(p: Page<T>): bool {
    if p.pagination.Some? && p.pagination.value.hasNext.Some? then p.pagination.value.hasNext.value
    else if p.meta.Some? && p.meta.value != "" then true
    else if p.data.Rows? then |p.data.rows| >= PageSize
    else false
  }

  /** The next-page checks in priority order. */
  lemma NextPagePriority<T>(p: Page<T>)
    ensures p.pagination.Some? && p.pagination.value.hasNext.Some? ==> HasNextPage(p) == p.pagination.value.hasNext.value
    ensures p.pagination.Some? && p.pagination.value.hasNext == Some(false) ==> !HasNextPage(p)
    ensures (p.pagination.None? || p.pagination.value.hasNext.None?) && p.meta.Some? && p.meta.value != "" ==> HasNextPage(p)
    ensures (p.pagination.None? || p.pagination.value.hasNext.None?) && (p.meta.None? || p.meta.value == "") ==>
              (HasNextPage(p) <==> p.data.Rows? && |p.data.rows| >= PageSize)
  {
  }

  /** The rows a page adds to the result: JavaScript's `concat` spreads an array and appends any other value. */
  function RowsOf<T>(p: Page<T>): seq<T> {
    match p.data
    case Absent => []
    case Rows(rows) => rows
    case Single(item) => [item]
  }

  function AllRows<T>(pages: seq<Page<T>>): seq<T> {
    if pages == [] then [] else AllRows(pages[..|pages| - 1]) + RowsOf(pages[|pages| - 1])
  }

  lemma {:induction false} AllRowsAppend<T>(a: seq<Page<T>>, b: seq<Page<T>>)
    ensures AllRows(a + b) == AllRows(a) + AllRows(b)
    decreases |b|
  {
    if b == [] {
      assert a + b == a;
    } else {
      var c := b[..|b| - 1];
      var last := b[|b| - 1];
      assert (a + b)[..|a + b| - 1] == a + c;
      assert (a + b)[|a + b| - 1] == last;
      assert AllRows(a + b) == AllRows(a + c) + RowsOf(last);
      AllRowsAppend(a, c);
      assert AllRows(b) == AllRows(c) + RowsOf(last);
      AppendAssoc(AllRows(a), AllRows(c), RowsOf(last));
    }
  }

  /** Why following the pages stopped. */
  datatype Stop = Complete | Failed(error: Failure) | OutOfFuel

  /** The pages fetched, in order, why it stopped, and every wait slept. */
  datatype Run<T> = Run(pages: seq<Page<T>>, stop: Stop, sleeps: seq<nat>)

  const PagePause: nat := 100

  /**
   * The page loop from `page` on, for at most `fuel` pages, over any page
   * fetch: `fetch(n)` is the outcome of fetching page `n` and the waits it slept.
   */
  function PagesOf<T>(fetch: int -> Fetched<Page<T>>, page: int, fuel: nat): Run<T>
    decreases fuel
  {
    if fuel == 0 then Run([], OutOfFuel, [])
    else
      var f := fetch(page);
      match f.result
      case Err(e) => Run([], Failed(e), f.waits)
      case Ok(p) =>
        if HasNextPage(p) then
          var rest := PagesOf(fetch, page + 1, fuel - 1);
          Run([p] + rest.pages, rest.stop, f.waits + [PagePause] + rest.sleeps)
        else Run([p], Complete, f.waits + [PagePause])
  }

  /** `fetchTransactionPage` for each page. */
  function FetchOf<T>(respond: (int, nat) -> Outcome<Page<T>>): int -> Fetched<Page<T>> {
    n => FetchPage(respond, n)
  }

  /** The page loop of `fetchAllTransactionData` from `page` on. */
  function Pages<T>(respond: (int, nat) -> Outcome<Page<T>>, page: int, fuel: nat): Run<T> {
    PagesOf(FetchOf(respond), page, fuel)
  }

  /** For any page fetch: the pages followed are what the fetches returned, and a failed run stopped at a fetch error. */
  lemma {:induction false} PagesOfFetched<T>(fetch: int -> Fetched<Page<T>>, page: int, fuel: nat)
    ensures var run := PagesOf(fetch, page, fuel);
      && |run.pages| <= fuel
      && (forall i :: 0 <= i < |run.pages| ==> fetch(page + i).result == Ok(run.pages[i]))
      && (run.stop.Failed? ==> fetch(page + |run.pages|).result == Err(run.stop.error))
    decreases fuel
  {
    if fuel > 0 {
      var f := fetch(page);
      if f.result.Ok? && HasNextPage(f.result.value) {
        PagesOfFetched(fetch, page + 1, fuel - 1);
        var rest := PagesOf(fetch, page + 1, fuel - 1);
        var run := PagesOf(fetch, page, fuel);
        assert run.pages == [f.result.value] + rest.pages;
        forall i | 1 <= i < |run.pages|
          ensures fetch(page + i).result == Ok(run.pages[i])
        {
          assert run.pages[i] == rest.pages[i - 1];
          assert page + 1 + (i - 1) == page + i;
        }
        assert rest.stop.Failed? ==> page + 1 + |rest.pages| == page + |run.pages|;
      }
    }
  }

  /** For any page fetch: each page followed but the last says there is a next, and only a complete run ends on one that says not. */
  lemma {:induction false} PagesOfLinked<T>(fetch: int -> Fetched<Page<T>>, page: int, fuel: nat)
    ensures var run := PagesOf(fetch, page, fuel);
      && (forall i :: 0 <= i < |run.pages| - 1 ==> HasNextPage(run.pages[i]))
      && (run.stop == Complete ==> run.pages != [] && !HasNextPage(run.pages[|run.pages| - 1]))
      && (run.stop != Complete ==> forall i :: 0 <= i < |run.pages| ==> HasNextPage(run.pages[i]))
    decreases fuel
  {
    if fuel > 0 {
      var f := fetch(page);
      if f.result.Ok? && HasNextPage(f.result.value) {
        PagesOfLinked(fetch, page + 1, fuel - 1);
        var rest := PagesOf(fetch, page + 1, fuel - 1);
        var run := PagesOf(fetch, page, fuel);
        assert run.pages == [f.result.value] + rest.pages;
        assert forall i :: 1 <= i < |run.pages| ==> run.pages[i] == rest.pages[i - 1];
      }
    }
  }

  /**
   * The pages followed from `page`: the `i`-th is what fetching page `page + i`
   * returned, every one but the last says there is a next page, a complete
   * run's last page says there is none, and a failed run stopped at the first
   * page whose fetch threw, with that error.
   */
  lemma PagesShape<T>(respond: (int, nat) -> Outcome<Page<T>>, page: int, fuel: nat)
    ensures var run := Pages(respond, page, fuel);
      && |run.pages| <= fuel
      && (forall i :: 0 <= i < |run.pages| ==> FetchPage(respond, page + i).result == Ok(run.pages[i]))
      && (forall i :: 0 <= i < |run.pages| - 1 ==> HasNextPage(run.pages[i]))
      && (run.stop == Complete ==> run.pages != [] && !HasNextPage(run.pages[|run.pages| - 1]))
      && (run.stop.Failed? ==> FetchPage(respond, page + |run.pages|).result == Err(run.stop.error))
      && (run.stop != Complete ==> forall i :: 0 <= i < |run.pages| ==> HasNextPage(run.pages[i]))
  {
    PagesOfFetched(FetchOf(respond), page, fuel);
    PagesOfLinked(FetchOf(respond), page, fuel);
  }

  /** What `fetchAllTransactionData` returns. */
  datatype Collected<T> = Collected(data: seq<T>, totalRecords: nat) | Thrown(error: Failure) | Unfinished

  /** The rows of a run's pages in page order and their count, or the error that stopped it. */
  function Collect<T>(run: Run<T>): Collected<T> {
    match run.stop
    case Complete => Collected(AllRows(run.pages), |AllRows(run.pages)|)
    case Failed(e) => Thrown(e)
    case OutOfFuel => Unfinished
  }

  /** One page fetched: the run from it is that page followed by the run from the next one, when there is a next. */
  lemma PagesAfter<T>(respond: (int, nat) -> Outcome<Page<T>>, page: int, fuel: nat, p: Page<T>, waits: seq<nat>)
    requires fuel > 0
    requires FetchPage(respond, page) == Fetched(Ok(p), waits)
    ensures HasNextPage(p) ==>
      var rest := Pages(respond, page + 1, fuel - 1);
      Pages(respond, page, fuel) == Run([p] + rest.pages, rest.stop, waits + [PagePause] + rest.sleeps)
    ensures !HasNextPage(p) ==> Pages(respond, page, fuel) == Run([p], Complete, waits + [PagePause])
  {
  }

  /** A page that cannot be fetched ends the run with its error. */
  lemma PagesFail<T>(respond: (int, nat) -> Outcome<Page<T>>, page: int, fuel: nat, e: Failure, waits: seq<nat>)
    requires fuel > 0
    requires FetchPage(respond, page) == Fetched(Err(e), waits)
    ensures Pages(respond, page, fuel) == Run([], Failed(e), waits)
  {
  }

  /** Moving a fetched page from the runs still to come to the pages done. */
  lemma RunStep<T>(goal: Run<T>, cache: seq<Page<T>>, sleeps: seq<nat>, rest: Run<T>, p: Page<T>, waits: seq<nat>, next: Run<T>)
    requires goal == Run(cache + rest.pages, rest.stop, sleeps + rest.sleeps)
    requires rest == Run([p] + next.pages, next.stop, waits + [PagePause] + next.sleeps)
    ensures goal == Run((cache + [p]) + next.pages, next.stop, (sleeps + waits + [PagePause]) + next.sleeps)
  {
    assert cache + ([p] + next.pages) == (cache + [p]) + next.pages;
    assert sleeps + (waits + [PagePause] + next.sleeps) == (sleeps + waits + [PagePause]) + next.sleeps;
  }

  lemma RunEnd<T>(goal: Run<T>, cache: seq<Page<T>>, sleeps: seq<nat>, rest: Run<T>, p: Page<T>, waits: seq<nat>)
    requires goal == Run(cache + rest.pages, rest.stop, sleeps + rest.sleeps)
    requires rest == Run([p], Complete, waits + [PagePause])
    ensures goal == Run(cache + [p], Complete, sleeps + waits + [PagePause])
  {
    assert sleeps + (waits + [PagePause]) == sleeps + waits + [PagePause];
  }

  /** The loop that concatenates the cached pages' rows. */
  method ConcatRows<T>(cache: seq<Page<T>>) returns (allData: seq<T>)
    ensures allData == AllRows(cache)
  {
    allData := [];
    for i := 0 to |cache|
      invariant allData == AllRows(cache[..i])
    {
      assert cache[..i + 1][..i] == cache[..i];
      allData := allData + RowsOf(cache[i]);
    }
    assert cache[..|cache|] == cache;
  }

  /**
   * `fetchAllTransactionData`: fetch page after page while the last one says
   * there is a next, keep each in the cache in page order, then concatenate
   * their rows; a page that cannot be fetched drops the cache and rethrows.
   * `fuel` bounds the number of pages.
   */
  method FetchAllTransactionData<T>(respond: (int, nat) -> Outcome<Page<T>>, fuel: nat) returns (r: Collected<T>, sleeps: seq<nat>)
    ensures r == Collect(Pages(respond, 1, fuel))
    ensures sleeps == Pages(respond, 1, fuel).sleeps
  {
    ghost var goal := Pages(respond, 1, fuel);
    var cache: seq<Page<T>> := [];
    var currentPage := 1;
    var hasMorePages := true;
    var left := fuel;
    sleeps := [];
    ghost var rest := goal;
    while hasMorePages
      invariant hasMorePages ==> rest == Pages(respond, currentPage, left)
      invariant hasMorePages ==> goal == Run(cache + rest.pages, rest.stop, sleeps + rest.sleeps)
      invariant !hasMorePages ==> goal == Run(cache, Complete, sleeps)
      decreases left, hasMorePages
    {
      if left == 0 {
        assert rest == Run([], OutOfFuel, []);
        assert sleeps + rest.sleeps == sleeps;
        r := Unfinished;
        return;
      }
      var pageData, waits := FetchTransactionPage(respond, currentPage);
      if pageData.Err? {
        PagesFail(respond, currentPage, left, pageData.error, waits);
        assert goal.stop == Failed(pageData.error) && goal.sleeps == sleeps + waits;
        sleeps := sleeps + waits;
        cache := [];
        r := Thrown(pageData.error);
        return;
      }
      PagesAfter(respond, currentPage, left, pageData.value, waits);
      ghost var next := Pages(respond, currentPage + 1, left - 1);
      hasMorePages := HasNextPage(pageData.value);
      if hasMorePages {
        RunStep(goal, cache, sleeps, rest, pageData.value, waits, next);
      } else {
        RunEnd(goal, cache, sleeps, rest, pageData.value, waits);
      }
      cache := cache + [pageData.value];
      sleeps := sleeps + waits + [PagePause];
      rest := next;
      currentPage := currentPage + 1;
      left := left - 1;
    }
    var allData := ConcatRows(cache);
    r := Collected(allData, |allData|);
  }
}
