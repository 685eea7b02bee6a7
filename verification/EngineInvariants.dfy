/** What every run of the engine keeps, whatever the recipe and the transport. */
module EngineInvariants {
  import opened Wrappers
  import opened Values
  import opened Recipe
  import opened Paginate
  import opened Engine

  // --- growth, budget and frames -----------------------------------------

  /** The fetches a history owes to step requests. */
  function PageFetches(h: seq<Fetch>): nat {
    if h == [] then 0
    else PageFetches(h[..|h| - 1]) + (if h[|h| - 1].purpose.PageOf? then 1 else 0)
  }

  lemma {:induction false} PageFetchesPush(h: seq<Fetch>, f: Fetch)
    ensures PageFetches(h + [f]) == PageFetches(h) + (if f.purpose.PageOf? then 1 else 0)
  {
    assert (h + [f])[..|h|] == h;
  }

  /** Every fetch of the history was answered by this transport, given the fetches before it. */
  ghost predicate Genuine(t: Transport, h: seq<Fetch>) {
    forall i | 0 <= i < |h| :: h[i].result == t(h[..i], h[i].req)
  }

  lemma {:induction false} GenuinePush(t: Transport, h: seq<Fetch>, f: Fetch)
    requires f.result == t(h, f.req)
    ensures Genuine(t, h) ==> Genuine(t, h + [f])
  {
    if Genuine(t, h) {
      var h' := h + [f];
      forall i | 0 <= i < |h'| ensures h'[i].result == t(h'[..i], h'[i].req) {
        assert h'[..i] == h[..i];
        assert h[..|h|] == h;
      }
    }
  }

  ghost predicate AllAnswered(h: seq<Fetch>) {
    forall f | f in h :: f.result.Ok?
  }

  // `h` grew into `h'`: a genuine history stays genuine, and where no failure is
  // swallowed, a piece of a run that succeeded had all its fetches answered.
  ghost predicate Logged(cfg: Config, h: seq<Fetch>, h': seq<Fetch>, ok: bool) {
    && h <= h'
    && (Genuine(cfg.transport, h) ==> Genuine(cfg.transport, h'))
    && (ok && PropagatesErrors(cfg.ev) && AllAnswered(h) ==> AllAnswered(h'))
  }

  /** Everything but the innermost frame and `$` is as before. */
  ghost predicate SameOuter(a: Scope, b: Scope) {
    && |a.frames| == |b.frames|
    && a.frames[..|a.frames| - 1] == b.frames[..|b.frames| - 1]
    && a.inputs == b.inputs
    && a.secrets == b.secrets
  }

  // From `a` a run got to `o`: the snapshot and the history only grew, the requests
  // stayed within budget and cover the step fetches, and a successful run left every
  // outer frame alone.
  ghost predicate Reaches(cfg: Config, a: State, o: Outcome) {
    && a.records <= o.st.records
    && Logged(cfg, a.history, o.st.history, o.status.Fine?)
    && a.requests <= o.st.requests
    && (a.requests <= cfg.maxRequests ==> o.st.requests <= cfg.maxRequests)
    && PageFetches(o.st.history) - PageFetches(a.history) <= o.st.requests - a.requests
    && (o.status.Fine? ==> SameOuter(a.scope, o.st.scope))
  }

  lemma {:induction false} DriveGenuine(t: Transport, ask: Replies -> Ask, fetches: nat, replies: Replies,
                                        h: seq<Fetch>)
    ensures var h' := Drive(t, ask, fetches, replies, h).1;
            PageFetches(h') == PageFetches(h) && (Genuine(t, h) ==> Genuine(t, h'))
    decreases fetches
  {
    match ask(replies) {
      case Send(req) =>
        if fetches > 0 {
          var got := t(h, req);
          PageFetchesPush(h, Fetch(Other, req, got));
          GenuinePush(t, h, Fetch(Other, req, got));
          DriveGenuine(t, ask, fetches - 1, replies + [ViewResult(got)], h + [Fetch(Other, req, got)]);
        }
      case _ =>
    }
  }

  lemma {:induction false} DriveAnswered(t: Transport, ask: Replies -> Ask, fetches: nat, replies: Replies,
                                         h: seq<Fetch>)
    requires forall rs :: HasError(rs) ==> ask(rs).Raise?
    requires AllAnswered(h)
    ensures var r := Drive(t, ask, fetches, replies, h); r.0.Ok? ==> AllAnswered(r.1)
    decreases fetches
  {
    match ask(replies) {
      case Send(req) =>
        if fetches > 0 {
          var got := t(h, req);
          if got.Ok? {
            DriveAnswered(t, ask, fetches - 1, replies + [ViewResult(got)], h + [Fetch(Other, req, got)]);
          } else {
            var replies' := replies + [ViewResult(got)];
            assert replies'[|replies|] in replies';
            assert HasError(replies');
          }
        }
      case _ =>
    }
  }

  lemma {:induction false} ExtractLogged(cfg: Config, e: Expr, scope: Scope, h: seq<Fetch>)
    ensures var r := Extract(cfg, e, scope, h);
            PageFetches(r.1) == PageFetches(h) && Logged(cfg, h, r.1, r.0.Ok?)
  {
    var ask := replies => cfg.ev.extract(e, scope, replies);
    DriveGenuine(cfg.transport, ask, e.fetches, [], h);
    if PropagatesErrors(cfg.ev) && AllAnswered(h) {
      DriveAnswered(cfg.transport, ask, e.fetches, [], h);
    }
  }

  lemma {:induction false} FieldsLogged(cfg: Config, bs: seq<Binding>, scope: Scope, fields: map<string, Value>,
                                        h: seq<Fetch>)
    ensures var r := Fields(cfg, bs, scope, fields, h);
            PageFetches(r.1) == PageFetches(h) && Logged(cfg, h, r.1, r.0.Ok?)
  {
    if bs != [] {
      ExtractLogged(cfg, bs[0].expr, scope, h);
      match Extract(cfg, bs[0].expr, scope, h) {
        case (Ok(v), h') => FieldsLogged(cfg, bs[1..], scope, fields[bs[0].fieldName := v], h');
        case _ =>
      }
    }
  }

  lemma {:induction false} BindGroupsOuter(scope: Scope, groups: seq<string>, caps: seq<Option<string>>, i: nat)
    requires i <= |groups|
    ensures SameOuter(scope, BindGroups(scope, groups, caps, i))
    ensures BindGroups(scope, groups, caps, i).current == scope.current
    decreases |groups| - i
  {
    if i < |groups| {
      BindGroupsOuter(Bind(scope, groups[i], GroupValue(caps, i)), groups, caps, i + 1);
    }
  }

  lemma {:induction false} ReceiveOuter(ev: Evaluator, step: HttpStep, url: string, resp: Response, scope: Scope)
    ensures SameOuter(scope, Receive(ev, step, url, resp, scope).1)
  {
    var text := BodyText(resp.body);
    if step.extract.Some? && ev.parse(step, resp.headers, text).Ok? {
      var v := ev.parse(step, resp.headers, text).value;
      match ev.regex(step.extract.value.pattern, text) {
        case Ok(Some(caps)) =>
          BindGroupsOuter(WithCurrent(Bind(scope, step.name, v), Some(v)), step.extract.value.groups, caps, 0);
        case _ =>
      }
    }
  }

  /** A page request failed before it was sent, or added one genuine fetch; past that it only bound names. */
  ghost predicate Fetched(cfg: Config, a: State, o: Outcome) {
    && o.st.records == a.records
    && a.requests <= o.st.requests <= a.requests + 1
    && (a.requests <= cfg.maxRequests ==> o.st.requests <= cfg.maxRequests)
    && if o.st.history == a.history then o.status.Failed?
       else
         && o.st.requests == a.requests + 1
         && |o.st.history| == |a.history| + 1 && a.history <= o.st.history
         && (var f := o.st.history[|a.history|];
             f.purpose.PageOf? && f.result == cfg.transport(a.history, f.req) && (o.status.Fine? ==> f.result.Ok?))
         && SameOuter(a.scope, o.st.scope)
  }

  lemma {:induction false} PageIsFetched(cfg: Config, step: HttpStep, token: Value, st: State, page: nat,
                                         extra: seq<(string, string)>)
    ensures Fetched(cfg, st, FetchPage(cfg, step, token, st, page, extra))
  {
    var o := FetchPage(cfg, step, token, st, page, extra);
    if o.st.history != st.history {
      var f := o.st.history[|st.history|];
      if f.result.Ok? {
        ReceiveOuter(cfg.ev, step, f.req.url, f.result.value, Bind(st.scope, "page", Int(BoundPage(step, page))));
      }
    }
  }

  lemma {:induction false} FetchedReaches(cfg: Config, a: State, o: Outcome)
    requires Fetched(cfg, a, o)
    ensures Reaches(cfg, a, o)
  {
    if o.st.history != a.history {
      var f := o.st.history[|a.history|];
      assert o.st.history == a.history + [f];
      PageFetchesPush(a.history, f);
      GenuinePush(cfg.transport, a.history, f);
    }
  }

  lemma {:induction false} PageReaches(cfg: Config, step: HttpStep, token: Value, st: State, page: nat,
                                       extra: seq<(string, string)>)
    ensures Reaches(cfg, st, FetchPage(cfg, step, token, st, page, extra))
  {
    PageIsFetched(cfg, step, token, st, page, extra);
    FetchedReaches(cfg, st, FetchPage(cfg, step, token, st, page, extra));
  }

  /** What a first piece and then a second reach, they reach together. */
  lemma {:induction false} Chains(cfg: Config, a: State, b: State, o: Outcome)
    requires Reaches(cfg, a, Outcome(Fine, b)) && Reaches(cfg, b, o)
    ensures Reaches(cfg, a, o)
  {
  }

  lemma {:induction false} Rebinds(cfg: Config, a: State, b: State, name: string, v: Value)
    requires Reaches(cfg, a, Outcome(Fine, b))
    ensures Reaches(cfg, a, Outcome(Fine, b.(scope := WithCurrent(Bind(b.scope, name, v), Some(v)))))
  {
  }

  lemma {:induction false} PagesReach(cfg: Config, step: HttpStep, token: Value, st: State,
                                      page: nat, extra: seq<(string, string)>, acc: seq<Value>, d: Progress)
    ensures Reaches(cfg, st, RunPages(cfg, step, token, st, page, extra, acc, d))
    decreases cfg.maxRequests - st.requests
  {
    PageReaches(cfg, step, token, st, page, extra);
    var o := FetchPage(cfg, step, token, st, page, extra);
    if o.status.Fine? && step.pagination.Some? {
      var p := step.pagination.value;
      match ItemsForPage(p, cfg.ev, o.st.scope) {
        case Ok(items) =>
          match Advanced(p, d, cfg.ev, o.st.scope) {
            case Ok((d', Continue(params))) =>
              PagesReach(cfg, step, token, o.st, page + 1, params, acc + items, d');
              Chains(cfg, st, o.st, RunPages(cfg, step, token, o.st, page + 1, params, acc + items, d'));
            case Ok((_, Stop)) => Rebinds(cfg, st, o.st, step.name, Arr(acc + items));
            case _ =>
          }
        case _ =>
      }
    }
  }

  /** One iteration, entered and left, is a piece that leaves the scope as it was. */
  lemma {:induction false} IterationReaches(cfg: Config, st: State, variable: string, item: Value, o: Outcome)
    requires Reaches(cfg, Enter(st, variable, item), o) && o.status.Fine?
    ensures Leave(o.st, st.scope.current).scope == st.scope
    ensures Reaches(cfg, st, Outcome(Fine, Leave(o.st, st.scope.current)))
  {
    var a, next := Enter(st, variable, item), Leave(o.st, st.scope.current);
    assert a.scope.frames[..|a.scope.frames| - 1] == st.scope.frames;
    assert next.scope.frames == st.scope.frames;
  }

  /** A loop that succeeds leaves the scope exactly as it found it: frames and `$`. */
  lemma {:induction false} LoopReaches(cfg: Config, items: seq<Value>, variable: string, body: seq<Statement>,
                                       token: Value, st: State, limit: Option<nat>)
    ensures var o := RunLoop(cfg, items, variable, body, token, st, limit);
            Reaches(cfg, st, o) && (o.status.Fine? ==> o.st.scope == st.scope)
    decreases body, |items| + 1
  {
    if items != [] {
      var a := Enter(st, variable, items[0]);
      StatementsReach(cfg, body, token, a, limit, false);
      var o := RunStatements(cfg, body, token, a, limit, false);
      if o.status.Fine? {
        var next := Leave(o.st, st.scope.current);
        IterationReaches(cfg, st, variable, items[0], o);
        LoopReaches(cfg, items[1..], variable, body, token, next, limit);
        Chains(cfg, st, next, RunLoop(cfg, items[1..], variable, body, token, next, limit));
      }
    }
  }

  lemma {:induction false} EmitReaches(cfg: Config, em: Emission, st: State)
    ensures Reaches(cfg, st, RunEmit(cfg, em, st))
  {
    FieldsLogged(cfg, em.bindings, st.scope, map[], st.history);
  }

  lemma {:induction false} ForReaches(cfg: Config, collection: Expr, st: State, o: Outcome)
    requires var (v, h) := Extract(cfg, collection, st.scope, st.history);
             if v.Ok? then Reaches(cfg, st.(history := h), o) else o.st == st.(history := h) && o.status.Failed?
    ensures Reaches(cfg, st, o)
  {
    ExtractLogged(cfg, collection, st.scope, st.history);
  }

  lemma {:induction false} StatementReaches(cfg: Config, s: Statement, token: Value, st: State,
                                            limit: Option<nat>, top: bool)
    ensures Reaches(cfg, st, RunStatement(cfg, s, token, st, limit, top))
    decreases s, 0
  {
    match s {
      case StepStmt(step) => PagesReach(cfg, step, token, st, 1, [], [], START);
      case EmitStmt(em) => EmitReaches(cfg, em, st);
      case ForLoop(variable, collection, body) =>
        match Extract(cfg, collection, st.scope, st.history) {
          case (Ok(v), h) =>
            var items := if top then Cap(Items(v), limit) else Items(v);
            LoopReaches(cfg, items, variable, body, token, st.(history := h), limit);
          case _ =>
        }
        ForReaches(cfg, collection, st, RunStatement(cfg, s, token, st, limit, top));
    }
  }

  lemma {:induction false} StatementsReach(cfg: Config, body: seq<Statement>, token: Value, st: State,
                                           limit: Option<nat>, top: bool)
    ensures Reaches(cfg, st, RunStatements(cfg, body, token, st, limit, top))
    decreases body, 0
  {
    if body != [] {
      StatementReaches(cfg, body[0], token, st, limit, top);
      var o := RunStatement(cfg, body[0], token, st, limit, top);
      if o.status.Fine? {
        StatementsReach(cfg, body[1..], token, o.st, limit, top);
        Chains(cfg, st, o.st, RunStatements(cfg, body[1..], token, o.st, limit, top));
      }
    }
  }

  // The safety net: a run, successful or not, never issues more than `max_requests` step
  // requests. Its history is the transport's answers to the requests it made.
  lemma {:induction false} BudgetHolds(cfg: Config, body: seq<Statement>, inputs: Frame,
                                       secrets: map<string, string>, limit: Option<nat>)
    ensures var o := RunRecipe(cfg, body, inputs, secrets, limit);
            && Logged(cfg, [], o.st.history, o.status.Fine?)
            && PageFetches(o.st.history) <= o.st.requests <= cfg.maxRequests
            && Genuine(cfg.transport, o.st.history)
  {
    var st := InitialState(inputs, secrets);
    var ask := replies => cfg.ev.login(st.scope, replies);
    DriveGenuine(cfg.transport, ask, 1, [], []);
    if PropagatesErrors(cfg.ev) {
      DriveAnswered(cfg.transport, ask, 1, [], []);
    }
    match Drive(cfg.transport, ask, 1, [], []) {
      case (Ok(token), h) => StatementsReach(cfg, body, token, st.(history := h), limit, true);
      case _ =>
    }
  }

  // --- records, counts and references ------------------------------------

  // Record i has id `rec-i`; the counts are those of the snapshot; a reference in
  // an emitted field names an earlier record, or came in with the inputs (`given`).
  ghost predicate RecordsSound(records: seq<Record>, counts: map<string, nat>, given: set<RefTo>) {
    && IdsInOrder(records)
    && CountsMatch(records, counts)
    && PointBack(records, given)
  }

  ghost predicate IdsInOrder(records: seq<Record>) {
    forall i | 0 <= i < |records| :: records[i].id == RecordId(i)
  }

  ghost predicate CountsMatch(records: seq<Record>, counts: map<string, nat>) {
    forall t :: (if t in counts then counts[t] else 0) == CountByType(records, t)
  }

  ghost predicate PointBack(records: seq<Record>, given: set<RefTo>) {
    forall i | 0 <= i < |records| :: MapRefs(records[i].fields) <= Known(records[..i]) + given
  }

  /** The records are sound and every reference in scope names one of them or came in with the inputs. */
  ghost predicate Sound(st: State, given: set<RefTo>) {
    RecordsSound(st.records, st.counts, given) && st.scope.AllRefs() <= Known(st.records) + given
  }

  lemma {:induction false} DriveRefs(t: Transport, ask: Replies -> Ask, fetches: nat, replies: Replies,
                                     h: seq<Fetch>, known: set<RefTo>)
    requires forall rs :: ask(rs).Produce? ==> Refs(ask(rs).v) <= known
    ensures var r := Drive(t, ask, fetches, replies, h); r.0.Ok? ==> Refs(r.0.value) <= known
    decreases fetches
  {
    match ask(replies) {
      case Send(req) =>
        if fetches > 0 {
          var got := t(h, req);
          DriveRefs(t, ask, fetches - 1, replies + [ViewResult(got)], h + [Fetch(Other, req, got)], known);
        }
      case _ =>
    }
  }

  lemma {:induction false} ExtractRefs(cfg: Config, e: Expr, scope: Scope, h: seq<Fetch>)
    requires NoInventedRefs(cfg.ev)
    ensures var r := Extract(cfg, e, scope, h); r.0.Ok? ==> Refs(r.0.value) <= scope.AllRefs()
  {
    DriveRefs(cfg.transport, replies => cfg.ev.extract(e, scope, replies), e.fetches, [], h, scope.AllRefs());
  }

  lemma {:induction false} FieldsRefs(cfg: Config, bs: seq<Binding>, scope: Scope, fields: map<string, Value>,
                                      h: seq<Fetch>)
    requires NoInventedRefs(cfg.ev) && MapRefs(fields) <= scope.AllRefs()
    ensures var r := Fields(cfg, bs, scope, fields, h); r.0.Ok? ==> MapRefs(r.0.value) <= scope.AllRefs()
  {
    if bs != [] {
      ExtractRefs(cfg, bs[0].expr, scope, h);
      match Extract(cfg, bs[0].expr, scope, h) {
        case (Ok(v), h') =>
          var fields' := fields[bs[0].fieldName := v];
          forall k, r | k in fields' && r in Refs(fields'[k]) ensures r in scope.AllRefs() {
            if k != bs[0].fieldName { assert r in MapRefs(fields); }
          }
          FieldsRefs(cfg, bs[1..], scope, fields', h');
        case _ =>
      }
    }
  }

  lemma {:induction false} CountPush(records: seq<Record>, r: Record, t: string)
    ensures CountByType(records + [r], t) == CountByType(records, t) + (if r.typeName == t then 1 else 0)
  {
    assert (records + [r])[..|records|] == records;
  }

  lemma {:induction false} KnownPush(records: seq<Record>, r: Record)
    ensures Known(records + [r]) == Known(records) + {RefTo(r.typeName, r.id)}
  {
    var all := records + [r];
    assert all[|records|] == r;
    forall x | x in Known(records) + {RefTo(r.typeName, r.id)} ensures x in Known(all) {
      if x != RefTo(r.typeName, r.id) {
        var y :| y in records && x == RefTo(y.typeName, y.id);
        assert y in all;
      }
    }
  }

  lemma {:induction false} RecordsSoundPush(records: seq<Record>, counts: map<string, nat>, typeName: string,
                                            fields: map<string, Value>, given: set<RefTo>)
    requires RecordsSound(records, counts, given)
    requires MapRefs(fields) <= Known(records) + given
    ensures RecordsSound(records + [Record(RecordId(|records|), typeName, fields)], Counted1(counts, typeName), given)
  {
    var rec := Record(RecordId(|records|), typeName, fields);
    var all := records + [rec];
    forall i | 0 <= i < |all| ensures MapRefs(all[i].fields) <= Known(all[..i]) + given {
      assert all[..i] == records[..i];
      assert records[..|records|] == records;
    }
    forall t ensures CountByType(all, t) == CountByType(records, t) + (if typeName == t then 1 else 0) {
      CountPush(records, rec, t);
    }
  }

  lemma {:induction false} EmitScopeRefs(em: Emission, id: string, scope: Scope)
    ensures EmitScope(em, id, scope).AllRefs() <= scope.AllRefs() + {RefTo(em.typeName, id)}
  {
    if em.bindName.Some? {
      BindRefs(scope, em.bindName.value, Ref(em.typeName, id));
    }
  }

  lemma {:induction false} EmittedSound(em: Emission, fields: map<string, Value>, st: State, given: set<RefTo>)
    requires Sound(st, given) && MapRefs(fields) <= Known(st.records) + given
    ensures Sound(Emitted(em, fields, st), given)
  {
    var id := RecordId(|st.records|);
    var records := st.records + [Record(id, em.typeName, fields)];
    RecordsSoundPush(st.records, st.counts, em.typeName, fields, given);
    assert EmitScope(em, id, st.scope).AllRefs() <= Known(records) + given by {
      KnownPush(st.records, Record(id, em.typeName, fields));
      EmitScopeRefs(em, id, st.scope);
    }
  }

  lemma {:induction false} EmitSound(cfg: Config, em: Emission, st: State, given: set<RefTo>)
    requires NoInventedRefs(cfg.ev) && Sound(st, given)
    ensures Sound(RunEmit(cfg, em, st).st, given)
  {
    FieldsRefs(cfg, em.bindings, st.scope, map[], st.history);
    assert MapRefs(map[]) == {};
    match Fields(cfg, em.bindings, st.scope, map[], st.history) {
      case (Ok(fields), h) => EmittedSound(em, fields, st.(history := h), given);
      case _ =>
    }
  }

  lemma {:induction false} BindGroupsRefs(scope: Scope, groups: seq<string>, caps: seq<Option<string>>, i: nat)
    requires i <= |groups|
    ensures BindGroups(scope, groups, caps, i).AllRefs() <= scope.AllRefs()
    decreases |groups| - i
  {
    if i < |groups| {
      BindRefs(scope, groups[i], GroupValue(caps, i));
      BindGroupsRefs(Bind(scope, groups[i], GroupValue(caps, i)), groups, caps, i + 1);
    }
  }

  lemma {:induction false} BindCurrentRefs(scope: Scope, name: string, v: Value)
    ensures WithCurrent(Bind(scope, name, v), Some(v)).AllRefs() <= scope.AllRefs() + Refs(v)
  {
    BindRefs(scope, name, v);
    var t := Bind(scope, name, v);
    assert WithCurrent(t, Some(v)).frames == t.frames;
  }

  lemma {:induction false} ReceiveRefs(ev: Evaluator, step: HttpStep, url: string, resp: Response, scope: Scope)
    requires NoInventedRefs(ev)
    ensures Receive(ev, step, url, resp, scope).1.AllRefs() <= scope.AllRefs()
  {
    var text := BodyText(resp.body);
    if 200 <= resp.status < 400 && ev.parse(step, resp.headers, text).Ok? {
      var v := ev.parse(step, resp.headers, text).value;
      BindCurrentRefs(scope, step.name, v);
      var bound := WithCurrent(Bind(scope, step.name, v), Some(v));
      if step.extract.Some? {
        match ev.regex(step.extract.value.pattern, text) {
          case Ok(Some(caps)) => BindGroupsRefs(bound, step.extract.value.groups, caps, 0);
          case _ =>
        }
      }
    }
  }

  /** A fetched page adds no reference, and touches neither records nor counts. */
  lemma {:induction false} PageAddsNoRef(cfg: Config, step: HttpStep, token: Value, st: State, page: nat,
                                         extra: seq<(string, string)>)
    requires NoInventedRefs(cfg.ev)
    ensures var o := FetchPage(cfg, step, token, st, page, extra);
            && o.st.records == st.records && o.st.counts == st.counts
            && o.st.scope.AllRefs() <= st.scope.AllRefs()
  {
    var n := BoundPage(step, page);
    BindRefs(st.scope, "page", Int(n));
    var o := FetchPage(cfg, step, token, st, page, extra);
    if o.st.history != st.history {
      var f := o.st.history[|st.history|];
      if f.result.Ok? {
        ReceiveRefs(cfg.ev, step, f.req.url, f.result.value, Bind(st.scope, "page", Int(n)));
      }
    }
  }

  lemma {:induction false} ItemsRefs(v: Value, known: set<RefTo>)
    requires Refs(v) <= known
    ensures forall x | x in Items(v) :: Refs(x) <= known
  {
    forall x | x in Items(v) ensures Refs(x) <= known {
      if v.Arr? { assert forall r | r in Refs(x) :: r in Refs(v); }
    }
  }

  lemma {:induction false} PagesAddNoRef(cfg: Config, step: HttpStep, token: Value, st: State, page: nat,
                                         extra: seq<(string, string)>, acc: seq<Value>, d: Progress, known: set<RefTo>)
    requires NoInventedRefs(cfg.ev) && st.scope.AllRefs() <= known
    requires forall x | x in acc :: Refs(x) <= known
    ensures var o := RunPages(cfg, step, token, st, page, extra, acc, d);
            && o.st.records == st.records && o.st.counts == st.counts
            && o.st.scope.AllRefs() <= known
    decreases cfg.maxRequests - st.requests
  {
    PageAddsNoRef(cfg, step, token, st, page, extra);
    var o := FetchPage(cfg, step, token, st, page, extra);
    if o.status.Fine? && step.pagination.Some? {
      var p := step.pagination.value;
      match ItemsForPage(p, cfg.ev, o.st.scope) {
        case Ok(items) =>
          ItemsRefs(cfg.ev.path(p.itemsPath, o.st.scope).value, known);
          match Advanced(p, d, cfg.ev, o.st.scope) {
            case Ok((d', Continue(params))) =>
              PagesAddNoRef(cfg, step, token, o.st, page + 1, params, acc + items, d', known);
            case Ok((_, Stop)) =>
              BindCurrentRefs(o.st.scope, step.name, Arr(acc + items));
            case _ =>
          }
        case _ =>
      }
    }
  }

  lemma {:induction false} EnterRefs(st: State, variable: string, item: Value)
    ensures Enter(st, variable, item).scope.AllRefs() <= st.scope.AllRefs() + Refs(item)
  {
    PushRefs(st.scope);
    BindCurrentRefs(PushFrame(st.scope), variable, item);
  }

  /** One iteration, entered and left, keeps the scope and the soundness of the state. */
  lemma {:induction false} IterationSound(st: State, a: State, o: State, given: set<RefTo>)
    requires Sound(st, given) && Sound(o, given) && st.records <= o.records
    requires a.scope.frames[..|a.scope.frames| - 1] == st.scope.frames
    requires a.scope.inputs == st.scope.inputs && a.scope.secrets == st.scope.secrets
    requires SameOuter(a.scope, o.scope)
    ensures Leave(o, st.scope.current).scope == st.scope
    ensures Sound(Leave(o, st.scope.current), given)
    ensures Known(st.records) <= Known(o.records)
  {
    var next := Leave(o, st.scope.current);
    assert next.scope.frames == st.scope.frames;
    assert next.scope == st.scope;
    forall r | r in Known(st.records) ensures r in Known(o.records) {
      var x :| x in st.records && r == RefTo(x.typeName, x.id);
      assert x in o.records;
    }
  }

  lemma {:induction false} LoopSound(cfg: Config, items: seq<Value>, variable: string, body: seq<Statement>,
                                     token: Value, st: State, limit: Option<nat>, given: set<RefTo>)
    requires NoInventedRefs(cfg.ev) && Sound(st, given)
    requires forall x | x in items :: Refs(x) <= Known(st.records) + given
    ensures Sound(RunLoop(cfg, items, variable, body, token, st, limit).st, given)
    decreases body, |items| + 1
  {
    if items != [] {
      var a := Enter(st, variable, items[0]);
      EnterRefs(st, variable, items[0]);
      StatementsSound(cfg, body, token, a, limit, false, given);
      StatementsReach(cfg, body, token, a, limit, false);
      var o := RunStatements(cfg, body, token, a, limit, false);
      if o.status.Fine? {
        IterationSound(st, a, o.st, given);
        LoopSound(cfg, items[1..], variable, body, token, Leave(o.st, st.scope.current), limit, given);
      }
    }
  }

  lemma {:induction false} StatementSound(cfg: Config, s: Statement, token: Value, st: State, limit: Option<nat>,
                                          top: bool, given: set<RefTo>)
    requires NoInventedRefs(cfg.ev) && Sound(st, given)
    ensures Sound(RunStatement(cfg, s, token, st, limit, top).st, given)
    decreases s, 0
  {
    match s {
      case StepStmt(step) => PagesAddNoRef(cfg, step, token, st, 1, [], [], START, st.scope.AllRefs());
      case EmitStmt(em) => EmitSound(cfg, em, st, given);
      case ForLoop(variable, collection, body) =>
        ExtractRefs(cfg, collection, st.scope, st.history);
        match Extract(cfg, collection, st.scope, st.history) {
          case (Ok(v), h) =>
            ItemsRefs(v, Known(st.records) + given);
            var items := if top then Cap(Items(v), limit) else Items(v);
            LoopSound(cfg, items, variable, body, token, st.(history := h), limit, given);
          case _ =>
        }
    }
  }

  lemma {:induction false} StatementsSound(cfg: Config, body: seq<Statement>, token: Value, st: State,
                                           limit: Option<nat>, top: bool, given: set<RefTo>)
    requires NoInventedRefs(cfg.ev) && Sound(st, given)
    ensures Sound(RunStatements(cfg, body, token, st, limit, top).st, given)
    decreases body, 0
  {
    if body != [] {
      StatementSound(cfg, body[0], token, st, limit, top, given);
      var o := RunStatement(cfg, body[0], token, st, limit, top);
      if o.status.Fine? {
        StatementsSound(cfg, body[1..], token, o.st, limit, top, given);
      }
    }
  }

  // Every run ends in a sound state, whose record ids are pairwise different; a reference that is not of the
  // run's own records was an input.
  lemma {:induction false} RunIsSound(cfg: Config, body: seq<Statement>, inputs: Frame,
                                      secrets: map<string, string>, limit: Option<nat>)
    requires NoInventedRefs(cfg.ev)
    ensures var o := RunRecipe(cfg, body, inputs, secrets, limit);
            && Sound(o.st, MapRefs(inputs))
            && (forall i, j | 0 <= i < j < |o.st.records| :: o.st.records[i].id != o.st.records[j].id)
  {
    var st := InitialState(inputs, secrets);
    BindRefs(RawScope([map[]], inputs, secrets, None), "page", Int(1));
    assert RawScope([map[]], inputs, secrets, None).AllRefs() <= MapRefs(inputs);
    match Drive(cfg.transport, replies => cfg.ev.login(st.scope, replies), 1, [], []) {
      case (Ok(token), h) => StatementsSound(cfg, body, token, st.(history := h), limit, true, MapRefs(inputs));
      case _ =>
    }
    var o := RunRecipe(cfg, body, inputs, secrets, limit);
    forall i, j | 0 <= i < j < |o.st.records| ensures o.st.records[i].id != o.st.records[j].id {
      if RecordId(i) == RecordId(j) { RecordIdInjective(i, j); }
    }
  }

  // --- pages ---------------------------------------------------------------

  // The k-th fetch of a step: it is made with the k-th `$page`, and from the second
  // on, a numbered strategy tells the server that same number.
  ghost predicate KthPage(step: HttpStep, k: nat, f: Fetch) {
    && f.purpose.PageOf?
    && f.purpose.step == step.name
    && f.purpose.boundPage == BoundPage(step, k)
    && (k == 1 ==> f.purpose.query == [])
    && (k >= 2 ==> step.pagination.Some?)
    && (k >= 2 && Numbered(step.pagination.value) ==> InStep(step.pagination.value, f.purpose))
  }

  ghost predicate InStep(p: Pagination, f: Purpose)
    requires Numbered(p) && f.PageOf?
  {
    |f.query| >= 1 && f.query[0] == (p.pageParam, Decimal(f.boundPage))
  }

  /** What the engine and its driver agree on before the page-th request. */
  ghost predicate Lockstep(step: HttpStep, page: nat, extra: seq<(string, string)>, d: Progress) {
    && page >= 1
    && (page == 1 ==> extra == [])
    && (page >= 2 ==> step.pagination.Some?)
    && (step.pagination.Some? && Numbered(step.pagination.value) ==>
          var p := step.pagination.value;
          && d.page == page
          && (page >= 2 ==> |extra| >= 1 && extra[0] == (p.pageParam, Decimal(WirePage(p.zeroIndexed, page)))))
  }

  lemma {:induction false} AdvanceKeepsLockstep(step: HttpStep, page: nat, extra: seq<(string, string)>,
                                                d: Progress, ev: Evaluator, scope: Scope)
    requires Lockstep(step, page, extra, d) && step.pagination.Some?
    ensures var a := Advanced(step.pagination.value, d, ev, scope);
            a.Ok? && a.value.1.Continue? ==> Lockstep(step, page + 1, a.value.1.params, a.value.0)
  {
  }

  /** `h` extends `a` by the fetches of a step from its page-th on. */
  ghost predicate PagesFrom(step: HttpStep, page: nat, a: seq<Fetch>, h: seq<Fetch>) {
    a <= h && forall i | |a| <= i < |h| :: KthPage(step, page + i - |a|, h[i])
  }

  lemma {:induction false} PagesFromCons(step: HttpStep, page: nat, a: seq<Fetch>, b: seq<Fetch>, h: seq<Fetch>)
    requires PagesFrom(step, page, a, b) && |b| == |a| + 1
    requires PagesFrom(step, page + 1, b, h)
    ensures PagesFrom(step, page, a, h)
  {
  }

  lemma {:induction false} PageInStep(cfg: Config, step: HttpStep, token: Value, st: State, page: nat,
                                      extra: seq<(string, string)>, d: Progress)
    requires Lockstep(step, page, extra, d)
    ensures var o := FetchPage(cfg, step, token, st, page, extra);
            PagesFrom(step, page, st.history, o.st.history)
            && (o.status.Fine? ==> |o.st.history| == |st.history| + 1)
  {
    var o := FetchPage(cfg, step, token, st, page, extra);
    if o.st.history != st.history {
      assert KthPage(step, page, o.st.history[|st.history|]);
    }
  }

  lemma {:induction false} PagesInStep(cfg: Config, step: HttpStep, token: Value, st: State, page: nat,
                                       extra: seq<(string, string)>, acc: seq<Value>, d: Progress)
    requires Lockstep(step, page, extra, d)
    ensures PagesFrom(step, page, st.history, RunPages(cfg, step, token, st, page, extra, acc, d).st.history)
    decreases cfg.maxRequests - st.requests
  {
    hide FetchPage, ItemsForPage, Advanced, KthPage, Lockstep;
    PageInStep(cfg, step, token, st, page, extra, d);
    var o := FetchPage(cfg, step, token, st, page, extra);
    if o.status.Fine? && step.pagination.Some? {
      var items, next := ItemsForPage(step.pagination.value, cfg.ev, o.st.scope),
        Advanced(step.pagination.value, d, cfg.ev, o.st.scope);
      if items.Ok? && next.Ok? && next.value.1.Continue? {
        AdvanceKeepsLockstep(step, page, extra, d, cfg.ev, o.st.scope);
        var rest := RunPages(cfg, step, token, o.st, page + 1, next.value.1.params, acc + items.value, next.value.0);
        PagesInStep(cfg, step, token, o.st, page + 1, next.value.1.params, acc + items.value, next.value.0);
        PagesFromCons(step, page, st.history, o.st.history, rest.st.history);
      }
    }
  }

  /** The k-th request of any step is made as page k, and says so to the server. */
  lemma {:induction false} StepPages(cfg: Config, step: HttpStep, token: Value, st: State)
    ensures PagesFrom(step, 1, st.history, RunStep(cfg, step, token, st).st.history)
  {
    PagesInStep(cfg, step, token, st, 1, [], [], START);
  }
}
