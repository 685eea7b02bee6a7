/**
A paginated step refines one full fetch: when the responses it gets page through a list,
the step binds the whole list, in exactly as many requests as the list has pages.
*/
module PaginatedFetch {
  import opened Wrappers
  import opened Values
  import opened Recipe
  import opened Paginate
  import opened Engine
  import opened EngineInvariants

  type Query = seq<(string, string)>

  /** `o` bound `$<step>` and `$` to the list, after `n` requests. */
  ghost predicate Bound(step: HttpStep, st: State, o: Outcome, list: seq<Value>, n: nat) {
    && o.status.Fine?
    && o.st.requests == st.requests + n
    && (var frame := o.st.scope.frames[|o.st.scope.frames| - 1];
        step.name in frame && frame[step.name] == Arr(list))
    && o.st.scope.current == Some(Arr(list))
  }

  ghost predicate OverBudget(o: Outcome) {
    o.status == Failed(Generic("exceeded max_requests"))
  }

  /** A step finishes with the list exactly when `n` requests are left, and runs out of budget otherwise. */
  ghost predicate Refines(cfg: Config, step: HttpStep, st: State, o: Outcome, list: seq<Value>, n: nat) {
    if st.requests + n <= cfg.maxRequests then Bound(step, st, o, list, n) else OverBudget(o)
  }

  // --- what a step is served -----------------------------------------------------

  // A step's page loop and its requests as plain functions: the proofs over pages need no more of them.
  type PageLoop = (State, nat, Query, seq<Value>, Progress) -> Outcome
  type PageFetch = (State, nat, Query) -> Outcome

  function LoopOf(cfg: Config, step: HttpStep, token: Value): PageLoop {
    (st: State, page: nat, extra, acc, d) => RunPages(cfg, step, token, st, page, extra, acc, d)
  }

  function FetchOf(cfg: Config, step: HttpStep, token: Value): PageFetch {
    (st: State, page: nat, extra) => FetchPage(cfg, step, token, st, page, extra)
  }

  /** The state in which a step that started in `st` makes its request k + 1, adding `q(j)` to request j + 1. */
  function Before(fetch: PageFetch, st: State, q: nat -> Query, k: nat): State {
    if k == 0 then st else fetch(Before(fetch, st, q, k - 1), k, q(k - 1)).st
  }

  /** The request for this page is answered, and its response shows this value at this path. */
  ghost predicate ShownIn(cfg: Config, fetch: PageFetch, s: State, page: nat, extra: Query, path: string, v: Value) {
    fetch(s, page, extra).status.Fine? && cfg.ev.path(path, fetch(s, page, extra).st.scope) == Ok(v)
  }

  /** The response to request k + 1 of the step, if the budget allows the request, shows this value at this path. */
  ghost predicate Serves(cfg: Config, fetch: PageFetch, st: State, q: nat -> Query, k: nat, path: string, v: Value) {
    var s := Before(fetch, st, q, k);
    s.requests < cfg.maxRequests ==> ShownIn(cfg, fetch, s, k + 1, q(k), path, v)
  }

  // --- servers that answer the same throughout a step ------------------------------

  /** What a step may change between its requests: `$`, `$page`, its own name, its regex groups, and the history. */
  ghost predicate Near(step: HttpStep, a: State, b: State) {
    && SameOuter(a.scope, b.scope)
    && SameBut(Own(step), Innermost(a.scope), Innermost(b.scope))
    && a.records == b.records && a.counts == b.counts
    && a.history <= b.history && a.requests <= b.requests
  }

  function Innermost(s: Scope): Frame {
    s.frames[|s.frames| - 1]
  }

  function Own(step: HttpStep): set<string> {
    {"page", step.name} + if step.extract.Some? then set g | g in step.extract.value.groups else {}
  }

  ghost predicate SameBut(names: set<string>, a: Frame, b: Frame) {
    forall k | k !in names :: (k in a <==> k in b) && (k in a ==> a[k] == b[k])
  }

  lemma {:induction false} GroupsStayOwn(names: set<string>, scope: Scope, groups: seq<string>,
                                         caps: seq<Option<string>>, i: nat)
    requires i <= |groups| && forall g | g in groups :: g in names
    ensures SameBut(names, Innermost(scope), Innermost(BindGroups(scope, groups, caps, i)))
    decreases |groups| - i
  {
    if i < |groups| {
      GroupsStayOwn(names, Bind(scope, groups[i], GroupValue(caps, i)), groups, caps, i + 1);
    }
  }

  lemma {:induction false} ReceiveStaysOwn(ev: Evaluator, step: HttpStep, url: string, resp: Response, scope: Scope)
    ensures SameBut(Own(step), Innermost(scope), Innermost(Receive(ev, step, url, resp, scope).1))
  {
    var text := BodyText(resp.body);
    if step.extract.Some? && ev.parse(step, resp.headers, text).Ok? {
      var v := ev.parse(step, resp.headers, text).value;
      match ev.regex(step.extract.value.pattern, text) {
        case Ok(Some(caps)) =>
          var bound := WithCurrent(Bind(scope, step.name, v), Some(v));
          GroupsStayOwn(Own(step), bound, step.extract.value.groups, caps, 0);
        case _ =>
      }
    }
  }

  /** A request that succeeds keeps the state near. */
  lemma {:induction false} PageKeepsNear(cfg: Config, step: HttpStep, token: Value, a: State, st: State, page: nat,
                                         extra: Query)
    requires Near(step, a, st) && FetchPage(cfg, step, token, st, page, extra).status.Fine?
    ensures Near(step, a, FetchPage(cfg, step, token, st, page, extra).st)
  {
    PageIsFetched(cfg, step, token, st, page, extra);
    PageCounts(cfg, step, token, st, page, extra);
    var o := FetchPage(cfg, step, token, st, page, extra);
    assert a.scope.frames[..|a.scope.frames| - 1] == o.st.scope.frames[..|o.st.scope.frames| - 1];
  }

  lemma {:induction false} PageCounts(cfg: Config, step: HttpStep, token: Value, st: State, page: nat, extra: Query)
    requires FetchPage(cfg, step, token, st, page, extra).status.Fine?
    ensures var o := FetchPage(cfg, step, token, st, page, extra);
      o.st.counts == st.counts && SameBut(Own(step), Innermost(st.scope), Innermost(o.st.scope))
  {
    var o := FetchPage(cfg, step, token, st, page, extra);
    var scope := Bind(st.scope, "page", Int(BoundPage(step, page)));
    var f := o.st.history[|st.history|];
    ReceiveStaysOwn(cfg.ev, step, f.req.url, f.result.value, scope);
  }

  /** Wherever the step may be between its requests, request k + 1 shows this value at this path. */
  ghost predicate Steady(cfg: Config, step: HttpStep, fetch: PageFetch, st: State, q: nat -> Query, k: nat,
                         path: string, v: Value)
  {
    forall s: State {:trigger ShownIn(cfg, fetch, s, k + 1, q(k), path, v)}
      | Near(step, st, s) && s.requests < cfg.maxRequests ::
      ShownIn(cfg, fetch, s, k + 1, q(k), path, v)
  }

  lemma {:induction false} NearSelf(step: HttpStep, st: State)
    ensures Near(step, st, st)
  {
  }

  lemma {:induction false} SteadyShows(cfg: Config, step: HttpStep, fetch: PageFetch, st: State, q: nat -> Query,
                                       k: nat, path: string, v: Value, s: State)
    requires Steady(cfg, step, fetch, st, q, k, path, v) && Near(step, st, s) && s.requests < cfg.maxRequests
    ensures fetch(s, k + 1, q(k)).status.Fine?
  {
    assert ShownIn(cfg, fetch, s, k + 1, q(k), path, v);
  }

  lemma {:induction false} StaysNear(cfg: Config, step: HttpStep, token: Value, st: State, q: nat -> Query, k: nat,
                                     path: string, pages: nat -> Value)
    requires forall j | 0 <= j < k :: Steady(cfg, step, FetchOf(cfg, step, token), st, q, j, path, pages(j))
    ensures var s := Before(FetchOf(cfg, step, token), st, q, k); s.requests < cfg.maxRequests ==> Near(step, st, s)
  {
    hide Near, Steady, FetchPage;
    if k == 0 {
      assert Near(step, st, st) by { NearSelf(step, st); }
    } else {
      StaysNear(cfg, step, token, st, q, k - 1, path, pages);
      var fetch := FetchOf(cfg, step, token);
      var s := Before(fetch, st, q, k - 1);
      assert Steady(cfg, step, fetch, st, q, k - 1, path, pages(k - 1));
      if s.requests < cfg.maxRequests {
        SteadyShows(cfg, step, fetch, st, q, k - 1, path, pages(k - 1), s);
        PageKeepsNear(cfg, step, token, st, s, k, q(k - 1));
      } else {
        PageIsFetched(cfg, step, token, s, k, q(k - 1));
      }
    }
  }

  /** A server that is steady up to request k + 1 serves it, at any path. */
  lemma {:induction false} SteadyServes(cfg: Config, step: HttpStep, token: Value, st: State, q: nat -> Query, k: nat,
                                        items: string, pages: nat -> Value, path: string, v: Value)
    requires forall j | 0 <= j < k :: Steady(cfg, step, FetchOf(cfg, step, token), st, q, j, items, pages(j))
    requires Steady(cfg, step, FetchOf(cfg, step, token), st, q, k, path, v)
    ensures Serves(cfg, FetchOf(cfg, step, token), st, q, k, path, v)
  {
    StaysNear(cfg, step, token, st, q, k, items, pages);
  }

  // --- turns -------------------------------------------------------------------------

  function Concat<T>(parts: seq<seq<T>>): seq<T> {
    if parts == [] then [] else Concat(parts[..|parts| - 1]) + parts[|parts| - 1]
  }

  lemma {:induction false} ConcatNext<T>(parts: seq<seq<T>>, k: nat)
    requires k < |parts|
    ensures Concat(parts[..k + 1]) == Concat(parts[..k]) + parts[k]
  {
    assert parts[..k + 1][..k] == parts[..k];
  }

  // One turn of the page loop: the items it brings, and the driver's counters before it.
  datatype Turn = Turn(items: seq<Value>, d: Progress)

  function Parts(turns: seq<Turn>): seq<seq<Value>> {
    seq(|turns|, k requires 0 <= k < |turns| => turns[k].items)
  }

  /** From `s` the request brings the turn, and the driver moves on to the next one, or stops if there is none. */
  ghost predicate Brings(cfg: Config, p: Pagination, fetch: PageFetch, s: State, page: nat, extra: Query, t: Turn,
                         next: Option<(Query, Progress)>)
  {
    var o := fetch(s, page, extra);
    var a := Advanced(p, t.d, cfg.ev, o.st.scope);
    && o.status.Fine? && ItemsForPage(p, cfg.ev, o.st.scope) == Ok(t.items)
    && if next.Some? then a == Ok((next.value.1, Continue(next.value.0))) else a.Ok? && a.value.1 == Stop
  }

  function NextOf(q: nat -> Query, turns: seq<Turn>, k: nat): Option<(Query, Progress)> {
    if k + 1 < |turns| then Some((q(k + 1), turns[k + 1].d)) else None
  }

  /** Request k + 1 of the step, if the budget allows it, brings turn k. */
  ghost predicate Plays(cfg: Config, p: Pagination, fetch: PageFetch, st: State, q: nat -> Query,
                        turns: seq<Turn>, k: nat)
    requires k < |turns|
  {
    var s := Before(fetch, st, q, k);
    s.requests < cfg.maxRequests ==> Brings(cfg, p, fetch, s, k + 1, q(k), turns[k], NextOf(q, turns, k))
  }

  /** What the page loop does with one request. */
  ghost predicate TakesTurn(cfg: Config, step: HttpStep, run: PageLoop, fetch: PageFetch, s: State, page: nat,
                            extra: Query, t: Turn, next: Option<(Query, Progress)>, acc: seq<Value>)
    requires step.pagination.Some?
  {
    var o, s' := run(s, page, extra, acc, t.d), fetch(s, page, extra).st;
    if s.requests >= cfg.maxRequests then OverBudget(o)
    else Brings(cfg, step.pagination.value, fetch, s, page, extra, t, next) ==>
      if next.None? then Bound(step, s, o, acc + t.items, 1)
      else s'.requests == s.requests + 1 && o == run(s', page + 1, next.value.0, acc + t.items, next.value.1)
  }

  ghost predicate TakesTurns(cfg: Config, step: HttpStep, run: PageLoop, fetch: PageFetch)
    requires step.pagination.Some?
  {
    forall s: State, page: nat, extra, t, next, acc
      {:trigger TakesTurn(cfg, step, run, fetch, s, page, extra, t, next, acc)} ::
      TakesTurn(cfg, step, run, fetch, s, page, extra, t, next, acc)
  }

  lemma {:induction false} LoopTakesTurns(cfg: Config, step: HttpStep, token: Value)
    requires step.pagination.Some?
    ensures TakesTurns(cfg, step, LoopOf(cfg, step, token), FetchOf(cfg, step, token))
  {
    forall s: State, page: nat, extra, t, next, acc
      ensures TakesTurn(cfg, step, LoopOf(cfg, step, token), FetchOf(cfg, step, token), s, page, extra, t, next, acc)
    {
      LoopTakesTurn(cfg, step, token, s, page, extra, t, next, acc);
    }
  }

  lemma {:induction false} LoopTakesTurn(cfg: Config, step: HttpStep, token: Value, s: State, page: nat, extra: Query,
                                         t: Turn, next: Option<(Query, Progress)>, acc: seq<Value>)
    requires step.pagination.Some?
    ensures TakesTurn(cfg, step, LoopOf(cfg, step, token), FetchOf(cfg, step, token), s, page, extra, t, next, acc)
  {
  }

  /** A loop that takes its turns one by one binds what they bring, in as many requests. */
  lemma {:induction false} TurnsBind(cfg: Config, step: HttpStep, run: PageLoop, fetch: PageFetch, st: State,
                                     q: nat -> Query, turns: seq<Turn>, k: nat)
    requires step.pagination.Some? && TakesTurns(cfg, step, run, fetch) && k < |turns|
    requires forall j | 0 <= j < |turns| :: Plays(cfg, step.pagination.value, fetch, st, q, turns, j)
    ensures var s := Before(fetch, st, q, k);
      Refines(cfg, step, s, run(s, k + 1, q(k), Concat(Parts(turns)[..k]), turns[k].d), Concat(Parts(turns)),
        |turns| - k)
    decreases |turns| - k
  {
    hide Brings;
    var s := Before(fetch, st, q, k);
    assert Plays(cfg, step.pagination.value, fetch, st, q, turns, k);
    assert TakesTurn(cfg, step, run, fetch, s, k + 1, q(k), turns[k], NextOf(q, turns, k), Concat(Parts(turns)[..k]));
    ConcatNext(Parts(turns), k);
    if k + 1 == |turns| {
      assert Parts(turns)[..k + 1] == Parts(turns);
    } else if s.requests < cfg.maxRequests {
      TurnsBind(cfg, step, run, fetch, st, q, turns, k + 1);
    }
  }

  /** A step that plays its turns binds what they bring, in as many requests. */
  lemma {:induction false} TurnsRefine(cfg: Config, step: HttpStep, token: Value, st: State, q: nat -> Query,
                                       turns: seq<Turn>)
    requires step.pagination.Some?
    requires forall j | 0 <= j < |turns| ::
      Plays(cfg, step.pagination.value, FetchOf(cfg, step, token), st, q, turns, j)
    requires turns != [] && q(0) == [] && turns[0].d == START
    ensures Refines(cfg, step, st, RunStep(cfg, step, token, st), Concat(Parts(turns)), |turns|)
  {
    LoopTakesTurns(cfg, step, token);
    assert Parts(turns)[..0] == [];
    TurnsBind(cfg, step, LoopOf(cfg, step, token), FetchOf(cfg, step, token), st, q, turns, 0);
  }

  // --- numbered strategies -----------------------------------------------------------

  /** The query parameters the engine adds for the page-th request of a numbered strategy. */
  function PageQuery(p: Pagination, page: nat): Query
    requires Numbered(p)
  {
    if page <= 1 then []
    else
      var number := (p.pageParam, Decimal(WirePage(p.zeroIndexed, page)));
      if p.PageWithTotal? then [number, ("pageSize", Decimal(p.pageSize))] else [number]
  }

  function PageQueries(p: Pagination): nat -> Query
    requires Numbered(p)
  {
    (k: nat) => PageQuery(p, k + 1)
  }

  /** What a numbered driver has counted on these pages. */
  function Tally(pages: seq<Value>): nat {
    if pages == [] then 0 else Tally(pages[..|pages| - 1]) + Counted(pages[|pages| - 1])
  }

  /** A numbered driver stops after page k: it counts nothing on it, or has counted the total. */
  predicate StopsAt(p: Pagination, pages: seq<Value>, totals: seq<Value>, k: nat)
    requires Numbered(p) && k < |pages| == |totals|
  {
    Counted(pages[k]) == 0 || (p.PageWithTotal? && Tally(pages[..k + 1]) >= Total(totals[k]))
  }

  function ItemLists(pages: seq<Value>): seq<seq<Value>> {
    seq(|pages|, k requires 0 <= k < |pages| => Items(pages[k]))
  }

  /** The step's requests are answered with these pages, and with these totals if it reads any. */
  ghost predicate ServesPages(cfg: Config, p: Pagination, fetch: PageFetch, st: State, pages: seq<Value>,
                              totals: seq<Value>)
    requires Numbered(p) && |pages| == |totals|
  {
    forall k | 0 <= k < |pages| ::
      && Serves(cfg, fetch, st, PageQueries(p), k, p.itemsPath, pages[k])
      && (p.PageWithTotal? ==> Serves(cfg, fetch, st, PageQueries(p), k, p.totalPath, totals[k]))
  }

  function NumberedTurns(p: Pagination, pages: seq<Value>): seq<Turn> {
    seq(|pages|, k requires 0 <= k < |pages| =>
      Turn(Items(pages[k]), Progress(if p.PageWithTotal? then Tally(pages[..k]) else 0, k + 1)))
  }

  /** What a numbered driver makes of page k. */
  lemma {:induction false} NumberedAdvances(p: Pagination, ev: Evaluator, scope: Scope, pages: seq<Value>,
                                            totals: seq<Value>, k: nat)
    requires Numbered(p) && k < |pages| == |totals|
    requires ev.path(p.itemsPath, scope) == Ok(pages[k])
    requires p.PageWithTotal? ==> ev.path(p.totalPath, scope) == Ok(totals[k])
    ensures var turns := NumberedTurns(p, pages);
      var a := Advanced(p, turns[k].d, ev, scope);
      if StopsAt(p, pages, totals, k) then a.Ok? && a.value.1 == Stop
      else k + 1 < |pages| ==> a == Ok((turns[k + 1].d, Continue(PageQuery(p, k + 2))))
  {
    assert pages[..k + 1][..k] == pages[..k];
  }

  lemma {:induction false} NumberedPlays(cfg: Config, p: Pagination, fetch: PageFetch, pages: seq<Value>,
                                         totals: seq<Value>, st: State, k: nat)
    requires Numbered(p) && k < |pages| == |totals| && ServesPages(cfg, p, fetch, st, pages, totals)
    requires StopsAt(p, pages, totals, k) <==> k == |pages| - 1
    ensures Plays(cfg, p, fetch, st, PageQueries(p), NumberedTurns(p, pages), k)
  {
    hide Before, Tally, StopsAt, Advanced;
    var q := PageQueries(p);
    var s := Before(fetch, st, q, k);
    assert Serves(cfg, fetch, st, q, k, p.itemsPath, pages[k]);
    if s.requests < cfg.maxRequests {
      NumberedAdvances(p, cfg.ev, fetch(s, k + 1, q(k)).st.scope, pages, totals, k);
    }
  }

  // Whatever the pages hold, arrays or not: a numbered step binds the items of all pages up
  // to and including the first at which its driver stops, in as many requests.
  lemma {:induction false} NumberedBinds(cfg: Config, step: HttpStep, token: Value, pages: seq<Value>,
                                         totals: seq<Value>, st: State)
    requires step.pagination.Some? && Numbered(step.pagination.value) && pages != [] && |pages| == |totals|
    requires ServesPages(cfg, step.pagination.value, FetchOf(cfg, step, token), st, pages, totals)
    requires forall k | 0 <= k < |pages| :: StopsAt(step.pagination.value, pages, totals, k) <==> k == |pages| - 1
    ensures Refines(cfg, step, st, RunStep(cfg, step, token, st), Concat(ItemLists(pages)), |pages|)
  {
    var p, fetch := step.pagination.value, FetchOf(cfg, step, token);
    var turns := NumberedTurns(p, pages);
    forall k | 0 <= k < |turns| ensures Plays(cfg, p, fetch, st, PageQueries(p), turns, k) {
      NumberedPlays(cfg, p, fetch, pages, totals, st, k);
    }
    assert Parts(turns) == ItemLists(pages);
    assert pages[..0] == [];
    TurnsRefine(cfg, step, token, st, PageQueries(p), turns);
  }

  // --- pageWithTotal -------------------------------------------------------------------

  function Slice<T>(list: seq<T>, from: nat, size: nat): seq<T> {
    if from >= |list| then [] else if from + size >= |list| then list[from..] else list[from..from + size]
  }

  function SlicePages(list: seq<Value>, size: nat, n: nat): seq<Value> {
    seq(n, k requires 0 <= k < n => Arr(Slice(list, k * size, size)))
  }

  function Totals(list: seq<Value>, n: nat): seq<Value> {
    seq(n, _ => Int(|list|))
  }

  /** The step is answered with the slices of `list`, each with the length of the whole list. */
  ghost predicate ServesSlices(cfg: Config, step: HttpStep, token: Value, st: State, list: seq<Value>, size: nat)
    requires size > 0 && step.pagination.Some? && step.pagination.value.PageWithTotal?
  {
    var n := PagesFor(|list|, size);
    ServesPages(cfg, step.pagination.value, FetchOf(cfg, step, token), st, SlicePages(list, size, n), Totals(list, n))
  }

  /** The requests needed for `n` items: at least one, or a request a page. */
  function PagesFor(n: nat, size: nat): (r: nat)
    requires size > 0
  {
    if n <= size then 1 else 1 + PagesFor(n - size, size)
  }

  lemma {:induction false} PagesForIsCeiling(n: nat, size: nat)
    requires size > 0
    ensures PagesFor(n, size) == if n == 0 then 1 else (n + size - 1) / size
  {
    if n > size {
      PagesForIsCeiling(n - size, size);
      assert (n + size - 1) / size == (n - size + size - 1) / size + 1 by {
        DivStep(n - 1, size);
      }
    } else if n > 0 {
      assert (n + size - 1) / size == 1 by {
        DivStep(n - 1, size);
        assert (n - 1) / size == 0;
      }
    }
  }

  lemma {:induction false} DivStep(n: nat, d: nat)
    requires d > 0
    ensures (n + d) / d == n / d + 1
  {
    var q, r := n / d, n % d;
    assert n + d == (q + 1) * d + r;
    DivUnique(n + d, d, q + 1, r);
  }

  lemma {:induction false} DivUnique(x: nat, d: nat, q: nat, r: nat)
    requires d > 0 && r < d && x == q * d + r
    ensures x / d == q
  {
    var q', r' := x / d, x % d;
    assert (q - q') * d == r' - r;
    if q - q' >= 1 { MulAtLeast(q - q', d); }
    if q' - q >= 1 { MulAtLeast(q' - q, d); }
  }

  lemma {:induction false} MulAtLeast(k: int, d: nat)
    requires k >= 1
    ensures k * d >= d
  {
    assert (k - 1) * d >= 0;
  }

  /** All pages but the last are full and leave something over; the last reaches the end. */
  lemma {:induction false} PagesForCovers(n: nat, size: nat, k: nat)
    requires size > 0
    ensures k + 1 < PagesFor(n, size) ==> k * size + size < n
    ensures k + 1 == PagesFor(n, size) ==> k * size <= n <= k * size + size
  {
    if n > size && k > 0 {
      PagesForCovers(n - size, size, k - 1);
      assert k * size == (k - 1) * size + size;
    }
  }

  /** The items of the first n pages. */
  function Upto(list: seq<Value>, size: nat, n: nat): seq<Value> {
    if n * size >= |list| then list else list[..n * size]
  }

  lemma {:induction false} UptoNone(list: seq<Value>, size: nat)
    ensures Upto(list, size, 0) == []
  {
  }

  lemma {:induction false} UptoGrows(list: seq<Value>, size: nat, n: nat)
    requires size > 0
    ensures Upto(list, size, n) + Slice(list, n * size, size) == Upto(list, size, n + 1)
  {
    assert (n + 1) * size == n * size + size;
  }

  lemma {:induction false} SlicesJoin(list: seq<Value>, size: nat, n: nat)
    requires size > 0
    ensures Concat(ItemLists(SlicePages(list, size, n))) == Upto(list, size, n)
    ensures Tally(SlicePages(list, size, n)) == |Upto(list, size, n)|
  {
    hide Upto, Slice;
    if n == 0 {
      UptoNone(list, size);
    } else {
      var pages, init := SlicePages(list, size, n), SlicePages(list, size, n - 1);
      SlicesJoin(list, size, n - 1);
      assert pages[..n - 1] == init && ItemLists(pages)[..n - 1] == ItemLists(init);
      UptoGrows(list, size, n - 1);
    }
  }

  lemma {:induction false} SliceEmpty(list: seq<Value>, from: nat, size: nat)
    requires size > 0
    ensures Slice(list, from, size) == [] <==> from >= |list|
  {
  }

  /** Of the slices, exactly the last stops the driver. */
  lemma {:induction false} SliceStops(p: Pagination, list: seq<Value>, size: nat, k: nat)
    requires p.PageWithTotal? && size > 0 && k < PagesFor(|list|, size)
    ensures var n := PagesFor(|list|, size);
      StopsAt(p, SlicePages(list, size, n), Totals(list, n), k) <==> k == n - 1
  {
    hide PagesFor, Slice;
    var n := PagesFor(|list|, size);
    PagesForCovers(|list|, size, k);
    assert SlicePages(list, size, n)[..k + 1] == SlicePages(list, size, k + 1);
    SlicesJoin(list, size, k + 1);
    SliceEmpty(list, k * size, size);
    TimesNext(k, size);
  }

  lemma {:induction false} TimesNext(k: nat, size: nat)
    ensures (k + 1) * size == k * size + size
  {
  }

  // Served the slices of a list, `pageWithTotal` binds exactly the list in
  // max(1, ceil(|list| / size)) requests when the budget allows them.
  lemma {:induction false} PageWithTotalRefines(cfg: Config, step: HttpStep, token: Value, list: seq<Value>,
                                                size: nat, st: State)
    requires size > 0 && step.pagination.Some? && step.pagination.value.PageWithTotal?
    requires ServesSlices(cfg, step, token, st, list, size)
    ensures Refines(cfg, step, st, RunStep(cfg, step, token, st), list,
                    if list == [] then 1 else (|list| + size - 1) / size)
  {
    var p, n := step.pagination.value, PagesFor(|list|, size);
    forall k | 0 <= k < n
      ensures StopsAt(p, SlicePages(list, size, n), Totals(list, n), k) <==> k == n - 1
    {
      SliceStops(p, list, size, k);
    }
    SlicesCover(list, size);
    NumberedBinds(cfg, step, token, SlicePages(list, size, n), Totals(list, n), st);
  }

  /** The slices cover the list, and are as many as the ceiling says. */
  lemma {:induction false} SlicesCover(list: seq<Value>, size: nat)
    requires size > 0
    ensures var n := PagesFor(|list|, size);
      && Concat(ItemLists(SlicePages(list, size, n))) == list
      && n == (if list == [] then 1 else (|list| + size - 1) / size)
  {
    hide SlicePages, ItemLists, Slice;
    var n := PagesFor(|list|, size);
    assert n >= 1;
    hide PagesFor;
    PagesForIsCeiling(|list|, size);
    PagesForCovers(|list|, size, n - 1);
    TimesNext(n - 1, size);
    SlicesJoin(list, size, n);
  }

  // --- untilEmpty ------------------------------------------------------------------------

  /** These pages as arrays, with an empty one after them. */
  function WithEmpty(pages: seq<seq<Value>>): seq<Value> {
    seq(|pages|, k requires 0 <= k < |pages| => Arr(pages[k])) + [Arr([])]
  }

  lemma {:induction false} WithEmptyJoins(pages: seq<seq<Value>>)
    ensures Concat(ItemLists(WithEmpty(pages))) == Concat(pages)
  {
    var lists := ItemLists(WithEmpty(pages));
    assert lists == pages + [[]];
    assert (pages + [[]])[..|pages|] == pages && Concat(pages) + [] == Concat(pages);
  }

  /** Served m non-empty pages and then an empty one, `untilEmpty` binds their concatenation in m + 1 requests. */
  lemma {:induction false} UntilEmptyRefines(cfg: Config, step: HttpStep, token: Value, pages: seq<seq<Value>>,
                                             st: State)
    requires step.pagination.Some? && step.pagination.value.UntilEmpty?
    requires forall k | 0 <= k < |pages| :: pages[k] != []
    requires ServesPages(cfg, step.pagination.value, FetchOf(cfg, step, token), st, WithEmpty(pages), WithEmpty(pages))
    ensures Refines(cfg, step, st, RunStep(cfg, step, token, st), Concat(pages), |pages| + 1)
  {
    WithEmptyJoins(pages);
    NumberedBinds(cfg, step, token, WithEmpty(pages), WithEmpty(pages), st);
  }

  // --- pages that are not arrays -------------------------------------------------------

  // The engine takes a node list or a single value for items, but a numbered driver counts
  // only arrays. Wherever such a page comes, the step keeps its items and asks for no other,
  // however many pages there are.
  lemma {:induction false} NonArrayStops(cfg: Config, step: HttpStep, token: Value, pages: seq<Value>, last: Value,
                                         totals: seq<Value>, st: State)
    requires step.pagination.Some? && Numbered(step.pagination.value) && |totals| == |pages| + 1
    requires ServesPages(cfg, step.pagination.value, FetchOf(cfg, step, token), st, pages + [last], totals)
    requires forall k | 0 <= k < |pages| :: !StopsAt(step.pagination.value, pages + [last], totals, k)
    requires !last.Arr?
    ensures Refines(cfg, step, st, RunStep(cfg, step, token, st), Concat(ItemLists(pages)) + Items(last), |pages| + 1)
  {
    var lists := ItemLists(pages + [last]);
    assert lists[..|pages|] == ItemLists(pages);
    NumberedBinds(cfg, step, token, pages + [last], totals, st);
  }

  // --- cursor ----------------------------------------------------------------------------

  function CursorQueries(p: Pagination, cursors: seq<string>): nat -> Query
    requires p.Cursor?
  {
    (k: nat) => if 0 < k <= |cursors| then [(p.cursorParam, cursors[k - 1])] else []
  }

  function CursorAt(cursors: seq<string>, end: Value, k: nat): Value {
    if k < |cursors| then Str(cursors[k]) else end
  }

  /** The step is answered with a chain of pages: each but the last hands out a non-empty cursor for the next. */
  ghost predicate ServesChain(cfg: Config, p: Pagination, fetch: PageFetch, st: State, pages: seq<Value>,
                              cursors: seq<string>, end: Value)
    requires p.Cursor?
  {
    && |pages| == |cursors| + 1
    && (forall c | c in cursors :: c != "")
    && !(end.Str? && end.s != "")
    && forall k | 0 <= k < |pages| ::
         && Serves(cfg, fetch, st, CursorQueries(p, cursors), k, p.itemsPath, pages[k])
         && Serves(cfg, fetch, st, CursorQueries(p, cursors), k, p.cursorPath, CursorAt(cursors, end, k))
  }

  function ChainTurns(pages: seq<Value>): seq<Turn> {
    seq(|pages|, k requires 0 <= k < |pages| => Turn(Items(pages[k]), START))
  }

  lemma {:induction false} ChainPlays(cfg: Config, p: Pagination, fetch: PageFetch, pages: seq<Value>,
                                      cursors: seq<string>, end: Value, st: State, k: nat)
    requires p.Cursor? && k < |pages| && ServesChain(cfg, p, fetch, st, pages, cursors, end)
    ensures Plays(cfg, p, fetch, st, CursorQueries(p, cursors), ChainTurns(pages), k)
  {
    assert Serves(cfg, fetch, st, CursorQueries(p, cursors), k, p.itemsPath, pages[k]);
    assert k < |cursors| ==> cursors[k] in cursors;
  }

  /** Served a chain of m pages, `cursor` binds the items of all of them in m requests. */
  lemma {:induction false} CursorRefines(cfg: Config, step: HttpStep, token: Value, pages: seq<Value>,
                                         cursors: seq<string>, end: Value, st: State)
    requires step.pagination.Some? && step.pagination.value.Cursor?
    requires ServesChain(cfg, step.pagination.value, FetchOf(cfg, step, token), st, pages, cursors, end)
    ensures Refines(cfg, step, st, RunStep(cfg, step, token, st), Concat(ItemLists(pages)), |pages|)
  {
    var p, fetch := step.pagination.value, FetchOf(cfg, step, token);
    var turns := ChainTurns(pages);
    forall k | 0 <= k < |turns| ensures Plays(cfg, p, fetch, st, CursorQueries(p, cursors), turns, k) {
      ChainPlays(cfg, p, fetch, pages, cursors, end, st, k);
    }
    assert Parts(turns) == ItemLists(pages);
    TurnsRefine(cfg, step, token, st, CursorQueries(p, cursors), turns);
  }
}
