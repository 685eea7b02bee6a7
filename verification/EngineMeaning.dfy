/**
What the pieces of a run mean, told by what a recipe author can see: the request a page
makes, the variables a response binds, and what a loop body finds in scope.
*/
module EngineMeaning {
  import opened Wrappers
  import opened Values
  import opened Recipe
  import opened Paginate
  import opened Engine
  import opened Urls

  // --- the request -----------------------------------------------------

  /** The rendered URL with the driver's parameters behind it, as a query or as more of one. */
  ghost predicate Extended(base: string, extra: seq<(string, string)>, url: string) {
    if extra == [] then url == base
    else
      exists texts: seq<string> ::
        && |texts| == |extra| && (forall i | 0 <= i < |extra| :: texts[i] == extra[i].0 + "=" + extra[i].1)
        && url == base + (if '?' in base then "&" else "?") + Join(texts, '&')
  }

  lemma {:induction false} QueryIsJoined(q: seq<(string, string)>, texts: seq<string>)
    requires |texts| == |q| && forall i | 0 <= i < |q| :: texts[i] == q[i].0 + "=" + q[i].1
    ensures QueryString(q) == Join(texts, '&')
  {
    if |q| > 1 {
      QueryIsJoined(q[1..], texts[1..]);
    }
  }

  lemma {:induction false} WithQueryExtends(base: string, extra: seq<(string, string)>)
    ensures Extended(base, extra, WithQuery(base, extra))
  {
    if extra != [] {
      var texts := seq(|extra|, i requires 0 <= i < |extra| => extra[i].0 + "=" + extra[i].1);
      QueryIsJoined(extra, texts);
    }
  }

  // The request of a step in a scope: method, headers and body as the step renders them, the URL with the driver's
  // parameters.
  ghost predicate Renders(ev: Evaluator, step: HttpStep, scope: Scope, token: Value, extra: seq<(string, string)>,
                       req: Request) {
    && req.verb == ev.verb(step)
    && ev.headersAndBody(step, scope, token) == Ok((req.headers, req.body))
    && ev.url(step, scope).Ok? && Extended(ev.url(step, scope).value, extra, req.url)
  }

  lemma {:induction false} BuildRenders(ev: Evaluator, step: HttpStep, scope: Scope, token: Value,
                                        extra: seq<(string, string)>)
    ensures var r := BuildRequest(ev, step, scope, token, extra);
      && (r.Ok? ==> Renders(ev, step, scope, token, extra, r.value))
      && (r.Err? <==> ev.url(step, scope).Err? || ev.headersAndBody(step, scope, token).Err?)
  {
    if ev.url(step, scope).Ok? {
      WithQueryExtends(ev.url(step, scope).value, extra);
    }
  }

  // --- the response ----------------------------------------------------

  /** The name is that of the k-th group or of a later one. */
  ghost predicate NamedFrom(groups: seq<string>, k: nat, name: string)
    requires k <= |groups|
  {
    name in groups[k..]
  }

  // From the k-th on, each group name means its capture, the last one if the name comes twice; all other variables are
  // as before.
  ghost predicate GroupsFrom(groups: seq<string>, caps: seq<Option<string>>, k: nat, before: seq<Frame>,
                             after: seq<Frame>)
    requires k <= |groups|
  {
    && (forall i | k <= i < |groups| && !NamedFrom(groups, i + 1, groups[i]) ::
          Visible(after, groups[i]) == Some(if i < |caps| && caps[i].Some? then Str(caps[i].value) else Null))
    && (forall name | !NamedFrom(groups, k, name) :: Visible(after, name) == Visible(before, name))
  }

  lemma {:induction false} NamedMore(groups: seq<string>, k: nat, name: string)
    requires k < |groups|
    ensures NamedFrom(groups, k, name) <==> name == groups[k] || NamedFrom(groups, k + 1, name)
  {
    assert groups[k..] == [groups[k]] + groups[k + 1..];
  }

  lemma {:induction false} OneGroupMore(groups: seq<string>, caps: seq<Option<string>>, k: nat, before: seq<Frame>,
                                        named: seq<Frame>, after: seq<Frame>)
    requires k < |groups| && GroupsFrom(groups, caps, k + 1, named, after)
    requires Visible(named, groups[k]) == Some(if k < |caps| && caps[k].Some? then Str(caps[k].value) else Null)
    requires forall name | name != groups[k] :: Visible(named, name) == Visible(before, name)
    ensures GroupsFrom(groups, caps, k, before, after)
  {
    hide Visible, NamedFrom;
    forall name | !NamedFrom(groups, k, name) ensures Visible(after, name) == Visible(before, name) {
      NamedMore(groups, k, name);
    }
  }

  lemma {:induction false} GroupsBind(scope: Scope, groups: seq<string>, caps: seq<Option<string>>, k: nat)
    requires k <= |groups|
    ensures var t := BindGroups(scope, groups, caps, k);
      && t.inputs == scope.inputs && t.secrets == scope.secrets && t.current == scope.current
      && |t.frames| == |scope.frames| && t.frames[..|t.frames| - 1] == scope.frames[..|scope.frames| - 1]
      && GroupsFrom(groups, caps, k, scope.frames, t.frames)
    decreases |groups| - k
  {
    if k < |groups| {
      var v := GroupValue(caps, k);
      var next := Bind(scope, groups[k], v);
      BindBinds(scope, groups[k], v);
      hide Bind, Visible, GroupsFrom;
      GroupsBind(next, groups, caps, k + 1);
      OneGroupMore(groups, caps, k, scope.frames, next.frames, BindGroups(next, groups, caps, k + 1).frames);
    }
  }

  /** What a step's response means: its parsed body under `$` and under the step's name, and the regex groups. */
  ghost predicate Received(ev: Evaluator, step: HttpStep, resp: Response, before: Scope, after: Scope) {
    && 200 <= resp.status < 400
    && after.inputs == before.inputs && after.secrets == before.secrets
    && after.frames[..|after.frames| - 1] == before.frames[..|before.frames| - 1]
    && ev.parse(step, resp.headers, BodyText(resp.body)).Ok?
    && var body := ev.parse(step, resp.headers, BodyText(resp.body)).value;
       && after.current == Some(body)
       && exists named: Scope ::
            && Binds(before, step.name, body, named)
            && match step.extract
               case None => after.frames == named.frames
               case Some(ex) =>
                 match ev.regex(ex.pattern, BodyText(resp.body))
                 case Ok(None) => after.frames == named.frames
                 case Ok(Some(caps)) => GroupsFrom(ex.groups, caps, 0, named.frames, after.frames)
                 case Err(_) => false
  }

  lemma {:induction false} ReceiveReceives(ev: Evaluator, step: HttpStep, f: Fetch, scope: Scope)
    requires f.result.Ok?
    ensures var (status, after) := Receive(ev, step, f.req.url, f.result.value, scope);
      match status
      case Fine => Received(ev, step, f.result.value, scope, after)
      case Failed(e) => Rejected(ev, step, f, e)
  {
    var resp := f.result.value;
    var (status, after) := Receive(ev, step, f.req.url, resp, scope);
    if status.Fine? {
      var text := BodyText(resp.body);
      var body := ev.parse(step, resp.headers, text).value;
      var named := Bind(scope, step.name, body);
      BindBinds(scope, step.name, body);
      if step.extract.Some? {
        var ex := step.extract.value;
        match ev.regex(ex.pattern, text) {
          case Ok(Some(caps)) =>
            GroupsBind(WithCurrent(named, Some(body)), ex.groups, caps, 0);
          case _ =>
        }
      }
    }
  }

  // --- a page ----------------------------------------------------------

  // One page of a step, from request to bindings: `$page` is bound, the request rendered with it and sent, and the
  // response received.
  ghost predicate PageDone(cfg: Config, step: HttpStep, token: Value, page: nat, extra: seq<(string, string)>,
                           was: State, now: State) {
    && now.requests == was.requests + 1 <= cfg.maxRequests
    && now.records == was.records && now.counts == was.counts
    && |now.history| == |was.history| + 1 && was.history <= now.history
    && var f, bound := now.history[|was.history|], PageNumber(step, page);
       && f.purpose == PageOf(step.name, bound, extra)
       && f.result == cfg.transport(was.history, f.req) && f.result.Ok?
       && exists asking: Scope ::
            && Binds(was.scope, "page", Int(bound), asking)
            && Renders(cfg.ev, step, asking, token, extra, f.req)
            && Received(cfg.ev, step, f.result.value, asking, now.scope)
  }

  /** `$page` on the page-th request: counted from one, or from zero where the strategy says so. */
  function PageNumber(step: HttpStep, page: nat): nat {
    match step.pagination
    case Some(PageWithTotal(_, _, _, _, true)) => if page == 0 then 0 else page - 1
    case Some(UntilEmpty(_, _, true)) => if page == 0 then 0 else page - 1
    case _ => page
  }

  // A page fails for one of these reasons: the budget is spent, the request cannot be rendered, the fetch fails, the
  // status is none of success, or the body or the regex cannot be read.
  ghost predicate PageFailed(cfg: Config, step: HttpStep, token: Value, page: nat, extra: seq<(string, string)>,
                             was: State, now: State, error: HttpError) {
    if was.requests >= cfg.maxRequests then now == was && error == Generic("exceeded max_requests")
    else
      exists asking: Scope ::
        && Binds(was.scope, "page", Int(PageNumber(step, page)), asking)
        && now.requests == was.requests + 1 && was.history <= now.history
        && if now.history == was.history then
             if cfg.ev.url(step, asking).Err? then error == cfg.ev.url(step, asking).error
             else
               cfg.ev.headersAndBody(step, asking, token).Err?
                 && error == cfg.ev.headersAndBody(step, asking, token).error
           else
             var f := now.history[|was.history|];
             && Renders(cfg.ev, step, asking, token, extra, f.req) && f.result == cfg.transport(was.history, f.req)
             && Rejected(cfg.ev, step, f, error)
  }

  ghost predicate Rejected(ev: Evaluator, step: HttpStep, f: Fetch, error: HttpError) {
    match f.result
    case Err(e) => error == e
    case Ok(resp) =>
      var text := BodyText(resp.body);
      if !(200 <= resp.status < 400) then error == BadStatus(resp.status, f.req.url)
      else if ev.parse(step, resp.headers, text).Err? then error == ev.parse(step, resp.headers, text).error
      else
        step.extract.Some? && ev.regex(step.extract.value.pattern, text).Err?
          && error == ev.regex(step.extract.value.pattern, text).error
  }

  lemma {:induction false} PageMeans(cfg: Config, step: HttpStep, token: Value, st: State, page: nat,
                                     extra: seq<(string, string)>)
    ensures var o := FetchPage(cfg, step, token, st, page, extra);
      match o.status
      case Fine => PageDone(cfg, step, token, page, extra, st, o.st)
      case Failed(e) => PageFailed(cfg, step, token, page, extra, st, o.st, e)
  {
    if st.requests < cfg.maxRequests {
      var bound := BoundPage(step, page);
      assert bound == PageNumber(step, page);
      var asking := Bind(st.scope, "page", Int(bound));
      BindBinds(st.scope, "page", Int(bound));
      BuildRenders(cfg.ev, step, asking, token, extra);
      var req := BuildRequest(cfg.ev, step, asking, token, extra);
      if req.Ok? {
        var got := cfg.transport(st.history, req.value);
        var f := Fetch(PageOf(step.name, bound, extra), req.value, got);
        assert (st.history + [f])[|st.history|] == f;
        if got.Ok? {
          ReceiveReceives(cfg.ev, step, f, asking);
        }
        hide Received, Renders, Binds, Receive, BuildRequest;
        assert Binds(st.scope, "page", Int(bound), asking);
      }
    }
  }

  // --- a loop ----------------------------------------------------------

  // Inside a turn of a loop: the item is the loop variable and `$`, in a frame of its own, and every other variable is
  // as it was.
  ghost predicate Inside(was: State, variable: string, item: Value, inside: State) {
    && inside == was.(scope := inside.scope)
    && inside.scope.inputs == was.scope.inputs && inside.scope.secrets == was.scope.secrets
    && |inside.scope.frames| == |was.scope.frames| + 1
    && inside.scope.frames[..|was.scope.frames|] == was.scope.frames
    && inside.scope.current == Some(item)
    && forall k ::
         Visible(inside.scope.frames, k) == if k == variable then Some(item) else Visible(was.scope.frames, k)
  }

  /** After a turn that ended in `end`: the turn's frame is gone, and `$` is what it was before. */
  ghost predicate Left(was: State, end: State, now: State) {
    && now == end.(scope := now.scope)
    && now.scope == end.scope.(frames := now.scope.frames, current := was.scope.current)
    && now.scope.frames ==
       if |end.scope.frames| > 1 then end.scope.frames[..|end.scope.frames| - 1] else end.scope.frames
  }

  /** One turn of a loop, from `was` to `now`. */
  ghost predicate Turn(cfg: Config, variable: string, item: Value, body: seq<Statement>, token: Value, was: State,
                       limit: Option<nat>, now: State) {
    exists inside: State ::
      && Inside(was, variable, item, inside)
      && var o := RunStatements(cfg, body, token, inside, limit, false); o.status.Fine? && Left(was, o.st, now)
  }

  /** A turn that ends the loop. */
  ghost predicate TurnFails(cfg: Config, variable: string, item: Value, body: seq<Statement>, token: Value, was: State,
                            limit: Option<nat>, o: Outcome) {
    exists inside: State ::
      && Inside(was, variable, item, inside)
      && o == RunStatements(cfg, body, token, inside, limit, false) && o.status.Failed?
  }

  lemma {:induction false} EnterShows(st: State, variable: string, item: Value)
    ensures Inside(st, variable, item, Enter(st, variable, item))
  {
    var e := Enter(st, variable, item);
    assert e.scope.frames[..|e.scope.frames| - 1] == st.scope.frames;
  }

  lemma {:induction false} TurnTaken(cfg: Config, variable: string, item: Value, body: seq<Statement>, token: Value,
                                     st: State, limit: Option<nat>)
    ensures var o := RunStatements(cfg, body, token, Enter(st, variable, item), limit, false);
      if o.status.Fine? then Turn(cfg, variable, item, body, token, st, limit, Leave(o.st, st.scope.current))
      else TurnFails(cfg, variable, item, body, token, st, limit, o)
  {
    EnterShows(st, variable, item);
    hide RunStatements, Enter, Inside;
  }

  /** One turn for each item, in order. */
  ghost predicate Turns(cfg: Config, variable: string, items: seq<Value>, body: seq<Statement>, token: Value,
                        limit: Option<nat>, states: seq<State>) {
    && |states| == |items| + 1
    && forall i, j | 0 <= i < |items| && j == i + 1 ::
         Turn(cfg, variable, items[i], body, token, states[i], limit, states[j])
  }

  lemma {:induction false} OneTurnMore(cfg: Config, variable: string, item: Value, items: seq<Value>,
                                       body: seq<Statement>, token: Value, limit: Option<nat>, st: State,
                                       rest: seq<State>)
    requires Turns(cfg, variable, items, body, token, limit, rest)
    requires Turn(cfg, variable, item, body, token, st, limit, rest[0])
    ensures Turns(cfg, variable, [item] + items, body, token, limit, [st] + rest)
  {
    hide Turn;
    var all, states := [item] + items, [st] + rest;
    forall i, j | 0 <= i < |all| && j == i + 1
      ensures Turn(cfg, variable, all[i], body, token, states[i], limit, states[j])
    {
      if i > 0 {
        assert Turn(cfg, variable, items[i - 1], body, token, rest[i - 1], limit, rest[i]);
      }
    }
  }

  /** The states a loop goes through, turn by turn, and how it ends: after its last item, or with a turn that fails. */
  ghost predicate Looped(cfg: Config, items: seq<Value>, variable: string, body: seq<Statement>, token: Value,
                         limit: Option<nat>, states: seq<State>, o: Outcome) {
    && 1 <= |states| <= |items| + 1
    && var done := |states| - 1;
       && Turns(cfg, variable, items[..done], body, token, limit, states)
       && if done == |items| then o == Outcome(Fine, states[done])
          else TurnFails(cfg, variable, items[done], body, token, states[done], limit, o)
  }

  lemma {:induction false} LoopedMore(cfg: Config, item: Value, items: seq<Value>, variable: string,
                                      body: seq<Statement>, token: Value, limit: Option<nat>, st: State,
                                      rest: seq<State>, o: Outcome)
    requires Looped(cfg, items, variable, body, token, limit, rest, o)
    requires Turn(cfg, variable, item, body, token, st, limit, rest[0])
    ensures Looped(cfg, [item] + items, variable, body, token, limit, [st] + rest, o)
  {
    hide Turn, TurnFails, Turns;
    var done := |rest| - 1;
    OneTurnMore(cfg, variable, item, items[..done], body, token, limit, st, rest);
    assert ([item] + items)[..done + 1] == [item] + items[..done];
  }

  /** A loop takes one turn for each item, in order, until one fails. */
  lemma {:induction false} LoopTurns(cfg: Config, items: seq<Value>, variable: string, body: seq<Statement>,
                                     token: Value, st: State, limit: Option<nat>) returns (states: seq<State>)
    ensures Looped(cfg, items, variable, body, token, limit, states,
                   RunLoop(cfg, items, variable, body, token, st, limit))
    ensures states != [] && states[0] == st
  {
    hide Turn, TurnFails, Enter, Leave, RunStatements;
    states := [st];
    assert items[..0] == [];
    if items != [] {
      TurnTaken(cfg, variable, items[0], body, token, st, limit);
      var o := RunStatements(cfg, body, token, Enter(st, variable, items[0]), limit, false);
      if o.status.Fine? {
        hide Looped;
        var next := Leave(o.st, st.scope.current);
        var rest := LoopTurns(cfg, items[1..], variable, body, token, next, limit);
        LoopedMore(cfg, items[0], items[1..], variable, body, token, limit, st, rest,
                   RunLoop(cfg, items[1..], variable, body, token, next, limit));
        assert [items[0]] + items[1..] == items;
        states := [st] + rest;
      }
    }
  }

  // --- a body, and a run -------------------------------------------------

  /** The states a body goes through, statement by statement, and how it ends. */
  ghost predicate Ran(cfg: Config, body: seq<Statement>, token: Value, limit: Option<nat>, top: bool,
                      states: seq<State>, o: Outcome) {
    && 1 <= |states| <= |body| + 1
    && var done := |states| - 1;
       && (forall i, j | 0 <= i < done && j == i + 1 ::
             RunStatement(cfg, body[i], token, states[i], limit, top) == Outcome(Fine, states[j]))
       && if done == |body| then o == Outcome(Fine, states[done])
          else o.status.Failed? && o == RunStatement(cfg, body[done], token, states[done], limit, top)
  }

  lemma {:induction false} RanMore(cfg: Config, s: Statement, body: seq<Statement>, token: Value, limit: Option<nat>,
                                   top: bool, st: State, rest: seq<State>, o: Outcome)
    requires Ran(cfg, body, token, limit, top, rest, o)
    requires RunStatement(cfg, s, token, st, limit, top) == Outcome(Fine, rest[0])
    ensures Ran(cfg, [s] + body, token, limit, top, [st] + rest, o)
  {
    hide RunStatement;
    var all, states := [s] + body, [st] + rest;
    forall i, j | 0 <= i < |rest| && j == i + 1
      ensures RunStatement(cfg, all[i], token, states[i], limit, top) == Outcome(Fine, states[j])
    {
      if i > 0 {
        assert RunStatement(cfg, body[i - 1], token, rest[i - 1], limit, top) == Outcome(Fine, rest[i]);
      }
    }
  }

  /** A body runs its statements in order until one fails. */
  lemma {:induction false} BodyRuns(cfg: Config, body: seq<Statement>, token: Value, st: State, limit: Option<nat>,
                                    top: bool) returns (states: seq<State>)
    ensures Ran(cfg, body, token, limit, top, states, RunStatements(cfg, body, token, st, limit, top))
    ensures states != [] && states[0] == st
  {
    hide RunStatement;
    states := [st];
    if body != [] {
      var o := RunStatement(cfg, body[0], token, st, limit, top);
      if o.status.Fine? {
        hide Ran;
        var rest := BodyRuns(cfg, body[1..], token, o.st, limit, top);
        RanMore(cfg, body[0], body[1..], token, limit, top, st, rest,
                RunStatements(cfg, body[1..], token, o.st, limit, top));
        assert [body[0]] + body[1..] == body;
        states := [st] + rest;
      }
    }
  }

  // What a statement does. A loop goes over the items of its collection, at top level over no more than the sample
  // allows; a step without pagination fetches one page.
  ghost predicate Performs(cfg: Config, s: Statement, token: Value, st: State, limit: Option<nat>, top: bool,
                           o: Outcome) {
    match s
    case EmitStmt(em) =>
      (match o.status
       case Fine => EmitsRecord(cfg, em, st, o.st)
       case Failed(e) => EmitRaises(cfg, em, st, o.st, e))
    case StepStmt(step) =>
      step.pagination.None? ==>
        (match o.status
         case Fine => PageDone(cfg, step, token, 1, [], st, o.st)
         case Failed(e) => PageFailed(cfg, step, token, 1, [], st, o.st, e))
    case ForLoop(variable, collection, body) =>
      || (o.status.Failed? && o.st == st.(history := o.st.history)
          && Raises(cfg, collection, st.scope, st.history, o.st.history, o.status.error))
      || exists v, now, states: seq<State> ::
           && Evaluates(cfg, collection, st.scope, st.history, now, v)
           && Looped(cfg, if top then Cap(Items(v), limit) else Items(v), variable, body, token, limit, states, o)
           && states[0] == st.(history := now)
  }

  lemma {:induction false} StatementPerforms(cfg: Config, s: Statement, token: Value, st: State, limit: Option<nat>,
                                             top: bool)
    ensures Performs(cfg, s, token, st, limit, top, RunStatement(cfg, s, token, st, limit, top))
  {
    hide Evaluates, Raises, Looped, PageDone, PageFailed, EmitsRecord, EmitRaises;
    hide FetchPage, RunLoop, RunEmit, Cap, Items;
    match s {
      case EmitStmt(em) => EmitMeans(cfg, em, st);
      case StepStmt(step) => PageMeans(cfg, step, token, st, 1, []);
      case ForLoop(variable, collection, body) =>
        ExtractAsks(cfg, collection, st.scope, st.history);
        match Extract(cfg, collection, st.scope, st.history) {
          case (Ok(v), now) =>
            var items := if top then Cap(Items(v), limit) else Items(v);
            var states := LoopTurns(cfg, items, variable, body, token, st.(history := now), limit);
          case _ =>
        }
    }
  }

  /** The fetches of a login, at most one, after which it has the token, or has failed. */
  ghost predicate LoggedIn(cfg: Config, scope: Scope, h: seq<Fetch>, r: Result<Value, HttpError>) {
    && |h| <= 1
    && (|h| == 1 ==>
          cfg.ev.login(scope, []) == Ask.Send(h[0].req) && h[0] == Fetch(Other, h[0].req, cfg.transport([], h[0].req)))
    && match cfg.ev.login(scope, Views(h))
       case Produce(token) => r == Ok(token)
       case Raise(e) => r == Err(e)
       case Send(_) => |h| == 1 && r == Err(EvalFailed("too many fetches"))
  }

  // A run logs in with its inputs, its secrets and `$page` in scope, and then runs its body with the token, from a
  // state that has no records, no requests and no counts.
  ghost predicate Began(cfg: Config, body: seq<Statement>, inputs: Frame, secrets: map<string, string>,
                        limit: Option<nat>, start: State, r: Result<Value, HttpError>, o: Outcome) {
    && start.records == [] && start.requests == 0 && start.counts == map[]
    && start.scope == RawScope([map["page" := Int(1)]], inputs, secrets, None)
    && LoggedIn(cfg, start.scope, start.history, r)
    && match r
       case Err(e) => o == Outcome(Failed(e), start)
       case Ok(token) => o == RunStatements(cfg, body, token, start, limit, true)
  }

  lemma {:induction false} RunBegins(cfg: Config, body: seq<Statement>, inputs: Frame, secrets: map<string, string>,
                                     limit: Option<nat>) returns (start: State, r: Result<Value, HttpError>)
    ensures Began(cfg, body, inputs, secrets, limit, start, r, RunRecipe(cfg, body, inputs, secrets, limit))
  {
    var st := InitialState(inputs, secrets);
    var ask := replies => cfg.ev.login(st.scope, replies);
    DriveAsks(cfg.transport, ask, 1, [], []);
    var (token, h) := Drive(cfg.transport, ask, 1, [], []);
    start, r := st.(history := h), token;
    assert [] + Views(h) == Views(h) && h[0..] == h;
    if |h| == 1 {
      assert h[0..0] == [] && h[..0] == [] && Views([]) == [];
    }
  }
}
