/**
The HTTP engine: a statement interpreter over a mutable scope, snapshot and request
budget. `Run...` functions give the state after a piece of a recipe; the class
`Interpreter` is the engine itself, proved to reach exactly those states.
*/
module Engine {
  import opened Wrappers
  import opened Values
  import opened Recipe
  import opened Paginate

  datatype Status = Fine | Failed(error: HttpError)

  // `history` lists every fetch the run has issued, oldest first.
  datatype State = State(
    scope: Scope,
    records: seq<Record>,
    requests: nat,
    counts: map<string, nat>,
    history: seq<Fetch>)

  /** How a piece of a run ended, and the state it left. */
  datatype Outcome = Outcome(status: Status, st: State)

  // --- expressions -----------------------------------------------------

  type Evaluation = (Result<Value, HttpError>, seq<Fetch>)

  /** Drives an evaluation that may fetch, at most `fetches` times. */
  function Drive(t: Transport, ask: Replies -> Ask, fetches: nat, replies: Replies,
                 history: seq<Fetch>): (r: Evaluation)
    ensures history <= r.1
    decreases fetches
  {
    match ask(replies)
    case Produce(v) => (Ok(v), history)
    case Raise(e) => (Err(e), history)
    case Send(req) =>
      if fetches == 0 then (Err(EvalFailed("too many fetches")), history)
      else
        var got := t(history, req);
        Drive(t, ask, fetches - 1, replies + [ViewResult(got)], history + [Fetch(Other, req, got)])
  }

  function Extract(cfg: Config, e: Expr, scope: Scope, history: seq<Fetch>): (r: Evaluation)
    ensures history <= r.1
  {
    Drive(cfg.transport, replies => cfg.ev.extract(e, scope, replies), e.fetches, [], history)
  }

  function Views(fetches: seq<Fetch>): Replies {
    seq(|fetches|, k requires 0 <= k < |fetches| => ViewResult(fetches[k].result))
  }

  // The history grew from `h` to `now` by the fetches of one expression: each is what the expression asks for next,
  // given the replies so far, and the transport's answer to it.
  ghost predicate Asks(cfg: Config, e: Expr, scope: Scope, h: seq<Fetch>, now: seq<Fetch>) {
    && h <= now && |now| - |h| <= e.fetches
    && forall k | |h| <= k < |now| ::
         && cfg.ev.extract(e, scope, Views(now[|h|..k])) == Ask.Send(now[k].req)
         && now[k] == Fetch(Other, now[k].req, cfg.transport(now[..k], now[k].req))
  }

  /** After those fetches the expression has this value. */
  ghost predicate Evaluates(cfg: Config, e: Expr, scope: Scope, h: seq<Fetch>, now: seq<Fetch>, v: Value) {
    Asks(cfg, e, scope, h, now) && cfg.ev.extract(e, scope, Views(now[|h|..])) == Produce(v)
  }

  /** After those fetches the expression has failed: it raises, or asks for more than its share. */
  ghost predicate Raises(cfg: Config, e: Expr, scope: Scope, h: seq<Fetch>, now: seq<Fetch>, error: HttpError) {
    && Asks(cfg, e, scope, h, now)
    && match cfg.ev.extract(e, scope, Views(now[|h|..]))
       case Produce(_) => false
       case Raise(x) => error == x
       case Send(_) => |now| - |h| == e.fetches && error == EvalFailed("too many fetches")
  }

  lemma {:induction false} DriveAsks(t: Transport, ask: Replies -> Ask, fetches: nat, replies: Replies, h: seq<Fetch>)
    ensures var (r, now) := Drive(t, ask, fetches, replies, h);
      var last := ask(replies + Views(now[|h|..]));
      && |now| - |h| <= fetches
      && (forall k | |h| <= k < |now| ::
            && ask(replies + Views(now[|h|..k])) == Ask.Send(now[k].req)
            && now[k] == Fetch(Other, now[k].req, t(now[..k], now[k].req)))
      && match r
         case Ok(v) => last == Produce(v)
         case Err(e) =>
           last == Raise(e) || (last.Send? && |now| - |h| == fetches && e == EvalFailed("too many fetches"))
    decreases fetches
  {
    var now := Drive(t, ask, fetches, replies, h).1;
    assert replies + Views([]) == replies;
    match ask(replies) {
      case Send(req) =>
        if fetches == 0 {
          assert now[|h|..] == [];
        } else {
          var f := Fetch(Other, req, t(h, req));
          var more := replies + [ViewResult(f.result)];
          DriveAsks(t, ask, fetches - 1, more, h + [f]);
          forall k | |h| < k <= |now| ensures replies + Views(now[|h|..k]) == more + Views(now[|h| + 1..k]) {
            assert now[|h|..k] == [f] + now[|h| + 1..k];
          }
          assert now[|h|..|h|] == [] && now[..|h|] == h;
          assert now[|h|..] == now[|h|..|now|] && now[|h| + 1..] == now[|h| + 1..|now|];
        }
      case _ => assert now[|h|..] == [];
    }
  }

  /** What evaluating an expression gives, told from the history alone. */
  lemma {:induction false} ExtractAsks(cfg: Config, e: Expr, scope: Scope, h: seq<Fetch>)
    ensures var (r, now) := Extract(cfg, e, scope, h);
      && Asks(cfg, e, scope, h, now)
      && (r.Ok? ==> Evaluates(cfg, e, scope, h, now, r.value))
      && (r.Err? ==> Raises(cfg, e, scope, h, now, r.error))
  {
    DriveAsks(cfg.transport, replies => cfg.ev.extract(e, scope, replies), e.fetches, [], h);
    var now := Extract(cfg, e, scope, h).1;
    assert forall k | |h| <= k <= |now| :: [] + Views(now[|h|..k]) == Views(now[|h|..k]);
    assert [] + Views(now[|h|..]) == Views(now[|h|..]);
  }

  // --- emit ------------------------------------------------------------

  function Fields(cfg: Config, bs: seq<Binding>, scope: Scope, fields: map<string, Value>, history: seq<Fetch>):
    (r: (Result<map<string, Value>, HttpError>, seq<Fetch>))
    ensures history <= r.1
  {
    if bs == [] then (Ok(fields), history)
    else
      match Extract(cfg, bs[0].expr, scope, history)
      case (Err(e), h) => (Err(e), h)
      case (Ok(v), h) => Fields(cfg, bs[1..], scope, fields[bs[0].fieldName := v], h)
  }

  /** The fields are the bindings' names, each with the value of its last binding. */
  ghost predicate LastValues(bs: seq<Binding>, values: seq<Value>, fields: map<string, Value>) {
    && |values| == |bs|
    && (forall name :: name in fields <==> exists i :: 0 <= i < |bs| && bs[i].fieldName == name)
    && forall i | 0 <= i < |bs| && (forall j | i < j < |bs| :: bs[j].fieldName != bs[i].fieldName) ::
         fields[bs[i].fieldName] == values[i]
  }

  // The bindings were evaluated in order, each against the history the ones before it left.
  ghost predicate InTurn(cfg: Config, bs: seq<Binding>, scope: Scope, marks: seq<seq<Fetch>>, values: seq<Value>) {
    && |values| == |bs| && |marks| == |bs| + 1
    && forall i, j | 0 <= i < |bs| && j == i + 1 :: Evaluates(cfg, bs[i].expr, scope, marks[i], marks[j], values[i])
  }

  /** A record with these fields is what the bindings give in this scope, after the history `h`. */
  ghost predicate FieldsOf(cfg: Config, bs: seq<Binding>, scope: Scope, fields: map<string, Value>, h: seq<Fetch>,
                           now: seq<Fetch>) {
    exists marks: seq<seq<Fetch>>, values: seq<Value> ::
      && InTurn(cfg, bs, scope, marks, values) && LastValues(bs, values, fields)
      && marks[0] == h && marks[|bs|] == now
  }

  function Assigned(bs: seq<Binding>, values: seq<Value>, init: map<string, Value>): map<string, Value>
    requires |values| == |bs|
  {
    if bs == [] then init else Assigned(bs[1..], values[1..], init[bs[0].fieldName := values[0]])
  }

  lemma {:induction false} AssignedNames(bs: seq<Binding>, values: seq<Value>, init: map<string, Value>, name: string)
    requires |values| == |bs|
    ensures var fields, bound := Assigned(bs, values, init), exists i :: 0 <= i < |bs| && bs[i].fieldName == name;
      && (name in fields <==> name in init || bound)
      && (name in init && !bound ==> fields[name] == init[name])
  {
    if bs != [] {
      AssignedNames(bs[1..], values[1..], init[bs[0].fieldName := values[0]], name);
      if i :| 0 <= i < |bs| && bs[i].fieldName == name && i > 0 {
        assert bs[1..][i - 1].fieldName == name;
      }
      if i :| 0 <= i < |bs| - 1 && bs[1..][i].fieldName == name {
        assert bs[i + 1].fieldName == name;
      }
    }
  }

  lemma {:induction false} LastAssigned(bs: seq<Binding>, values: seq<Value>, init: map<string, Value>, i: nat)
    requires |values| == |bs| && i < |bs| && forall j | i < j < |bs| :: bs[j].fieldName != bs[i].fieldName
    ensures var fields, name := Assigned(bs, values, init), bs[i].fieldName;
      name in fields && fields[name] == values[i]
  {
    var next := init[bs[0].fieldName := values[0]];
    if i == 0 {
      forall j | 0 <= j < |bs| - 1 ensures bs[1..][j].fieldName != bs[0].fieldName {
        assert bs[j + 1].fieldName != bs[0].fieldName;
      }
      AssignedNames(bs[1..], values[1..], next, bs[0].fieldName);
    } else {
      forall j | i - 1 < j < |bs| - 1 ensures bs[1..][j].fieldName != bs[i].fieldName {
        assert bs[j + 1].fieldName != bs[i].fieldName;
      }
      LastAssigned(bs[1..], values[1..], next, i - 1);
    }
  }

  lemma {:induction false} AssignedLast(bs: seq<Binding>, values: seq<Value>)
    requires |values| == |bs|
    ensures LastValues(bs, values, Assigned(bs, values, map[]))
  {
    var fields := Assigned(bs, values, map[]);
    forall name ensures name in fields <==> exists i :: 0 <= i < |bs| && bs[i].fieldName == name {
      AssignedNames(bs, values, map[], name);
    }
    forall i | 0 <= i < |bs| && (forall j | i < j < |bs| :: bs[j].fieldName != bs[i].fieldName)
      ensures bs[i].fieldName in fields && fields[bs[i].fieldName] == values[i]
    {
      LastAssigned(bs, values, map[], i);
    }
  }

  lemma {:induction false} FieldsEvaluate(cfg: Config, bs: seq<Binding>, scope: Scope, init: map<string, Value>,
                                          h: seq<Fetch>) returns (marks: seq<seq<Fetch>>, values: seq<Value>)
    requires Fields(cfg, bs, scope, init, h).0.Ok?
    ensures InTurn(cfg, bs, scope, marks, values) && marks[0] == h
    ensures Fields(cfg, bs, scope, init, h) == (Ok(Assigned(bs, values, init)), marks[|bs|])
  {
    if bs == [] {
      marks, values := [h], [];
    } else {
      ExtractAsks(cfg, bs[0].expr, scope, h);
      var (v, g) := Extract(cfg, bs[0].expr, scope, h);
      hide Evaluates, Extract;
      var ms, vs := FieldsEvaluate(cfg, bs[1..], scope, init[bs[0].fieldName := v.value], g);
      marks, values := [h] + ms, [v.value] + vs;
      forall i, j | 0 <= i < |bs| && j == i + 1
        ensures Evaluates(cfg, bs[i].expr, scope, marks[i], marks[j], values[i])
      {
        if i > 0 {
          assert Evaluates(cfg, bs[1..][i - 1].expr, scope, ms[i - 1], ms[i], vs[i - 1]);
        }
      }
      assert values[1..] == vs;
    }
  }

  lemma {:induction false} FieldsRaise(cfg: Config, bs: seq<Binding>, scope: Scope, init: map<string, Value>,
                                       h: seq<Fetch>) returns (marks: seq<seq<Fetch>>, values: seq<Value>)
    requires Fields(cfg, bs, scope, init, h).0.Err?
    ensures |values| < |bs| && InTurn(cfg, bs[..|values|], scope, marks, values) && marks[0] == h
    ensures var (r, now) := Fields(cfg, bs, scope, init, h);
      Raises(cfg, bs[|values|].expr, scope, marks[|values|], now, r.error)
  {
    ExtractAsks(cfg, bs[0].expr, scope, h);
    var (v, g) := Extract(cfg, bs[0].expr, scope, h);
    if v.Err? {
      marks, values := [h], [];
    } else {
      hide Evaluates, Raises, Extract;
      var ms, vs := FieldsRaise(cfg, bs[1..], scope, init[bs[0].fieldName := v.value], g);
      marks, values := [h] + ms, [v.value] + vs;
      var first := bs[..|values|];
      forall i, j | 0 <= i < |first| && j == i + 1
        ensures Evaluates(cfg, first[i].expr, scope, marks[i], marks[j], values[i])
      {
        if i > 0 {
          assert Evaluates(cfg, bs[1..][..|vs|][i - 1].expr, scope, ms[i - 1], ms[i], vs[i - 1]);
        }
      }
    }
  }

  function Counted1(counts: map<string, nat>, typeName: string): map<string, nat> {
    counts[typeName := (if typeName in counts then counts[typeName] else 0) + 1]
  }

  /** The state once a record with these fields is emitted and, if named, bound. */
  function Emitted(em: Emission, fields: map<string, Value>, st: State): State {
    var id := RecordId(|st.records|);
    st.(scope := EmitScope(em, id, st.scope),
        records := st.records + [Record(id, em.typeName, fields)],
        counts := Counted1(st.counts, em.typeName))
  }

  function EmitScope(em: Emission, id: string, scope: Scope): Scope {
    if em.bindName.Some? then Bind(scope, em.bindName.value, Ref(em.typeName, id)) else scope
  }

  function RunEmit(cfg: Config, em: Emission, st: State): Outcome {
    match Fields(cfg, em.bindings, st.scope, map[], st.history)
    case (Err(e), h) => Outcome(Failed(e), st.(history := h))
    case (Ok(fields), h) => Outcome(Fine, Emitted(em, fields, st.(history := h)))
  }

  // What an emit does: one record more, at the end, with the next id, the emission's type and the values of its
  // bindings; that type counted up; and the record bound under the name it is given, if any.
  ghost predicate EmitsRecord(cfg: Config, em: Emission, was: State, now: State) {
    && |now.records| == |was.records| + 1 && was.records <= now.records && now.requests == was.requests
    && (var record := now.records[|was.records|];
        && record.id == "rec-" + Decimal(|was.records|) && record.typeName == em.typeName
        && FieldsOf(cfg, em.bindings, was.scope, record.fields, was.history, now.history)
        && match em.bindName
           case None => now.scope == was.scope
           case Some(name) => Binds(was.scope, name, Ref(em.typeName, record.id), now.scope))
    && forall t :: (if t in now.counts then now.counts[t] else 0)
                   == (if t in was.counts then was.counts[t] else 0) + if t == em.typeName then 1 else 0
  }

  lemma {:induction false} EmitRecords(cfg: Config, em: Emission, st: State)
    requires RunEmit(cfg, em, st).status.Fine?
    ensures EmitsRecord(cfg, em, st, RunEmit(cfg, em, st).st)
  {
    var marks, values := FieldsEvaluate(cfg, em.bindings, st.scope, map[], st.history);
    AssignedLast(em.bindings, values);
    var now := RunEmit(cfg, em, st).st;
    var record := now.records[|st.records|];
    assert LastValues(em.bindings, values, record.fields);
    assert FieldsOf(cfg, em.bindings, st.scope, record.fields, st.history, now.history);
    if em.bindName.Some? {
      BindBinds(st.scope, em.bindName.value, Ref(em.typeName, record.id));
    }
  }

  // An emit that fails has evaluated the bindings before one that raises, and leaves all but the history alone.
  ghost predicate EmitRaises(cfg: Config, em: Emission, was: State, now: State, error: HttpError) {
    && now == was.(history := now.history)
    && exists marks: seq<seq<Fetch>>, values: seq<Value> ::
         && |values| < |em.bindings| && InTurn(cfg, em.bindings[..|values|], was.scope, marks, values)
         && marks[0] == was.history
         && Raises(cfg, em.bindings[|values|].expr, was.scope, marks[|values|], now.history, error)
  }

  /** An emit appends its record, or fails with the first binding that does. */
  lemma {:induction false} EmitMeans(cfg: Config, em: Emission, st: State)
    ensures var o := RunEmit(cfg, em, st);
      match o.status
      case Fine => EmitsRecord(cfg, em, st, o.st)
      case Failed(e) => EmitRaises(cfg, em, st, o.st, e)
  {
    var o := RunEmit(cfg, em, st);
    if o.status.Fine? {
      EmitRecords(cfg, em, st);
    } else {
      var marks, values := FieldsRaise(cfg, em.bindings, st.scope, map[], st.history);
    }
  }

  /** With bindings that fetch nothing, each field is plainly the value of its last binding. */
  lemma {:induction false} FetchFreeFields(cfg: Config, bs: seq<Binding>, scope: Scope, fields: map<string, Value>,
                                           h: seq<Fetch>, now: seq<Fetch>, k: nat)
    requires FieldsOf(cfg, bs, scope, fields, h, now)
    requires forall b | b in bs :: !cfg.ev.extract(b.expr, scope, []).Send?
    requires k < |bs| && forall j | k < j < |bs| :: bs[j].fieldName != bs[k].fieldName
    ensures bs[k].fieldName in fields && cfg.ev.extract(bs[k].expr, scope, []) == Produce(fields[bs[k].fieldName])
  {
    var marks: seq<seq<Fetch>>, values :| InTurn(cfg, bs, scope, marks, values) && LastValues(bs, values, fields)
      && marks[0] == h && marks[|bs|] == now;
    assert Evaluates(cfg, bs[k].expr, scope, marks[k], marks[k + 1], values[k]);
    assert bs[k] in bs;
    hide Evaluates;
    EvaluatesPlainly(cfg, bs[k].expr, scope, marks[k], marks[k + 1], values[k]);
  }

  lemma {:induction false} EvaluatesPlainly(cfg: Config, e: Expr, scope: Scope, h: seq<Fetch>, now: seq<Fetch>,
                                            v: Value)
    requires Evaluates(cfg, e, scope, h, now, v) && !cfg.ev.extract(e, scope, []).Send?
    ensures now == h && cfg.ev.extract(e, scope, []) == Produce(v)
  {
    assert now[|h|..|h|] == [] && Views([]) == [];
    assert |now| == |h| ==> now[|h|..] == [];
  }

  // --- steps -----------------------------------------------------------

  function QueryString(q: seq<(string, string)>): string {
    if q == [] then ""
    else if |q| == 1 then q[0].0 + "=" + q[0].1
    else q[0].0 + "=" + q[0].1 + "&" + QueryString(q[1..])
  }

  function WithQuery(url: string, q: seq<(string, string)>): string {
    if q == [] then url
    else url + (if '?' in url then "&" else "?") + QueryString(q)
  }

  function BuildRequest(ev: Evaluator, step: HttpStep, scope: Scope, token: Value, extra: seq<(string, string)>):
    Result<Request, HttpError>
  {
    match ev.url(step, scope)
    case Err(e) => Err(e)
    case Ok(url) =>
      match ev.headersAndBody(step, scope, token)
      case Err(e) => Err(e)
      case Ok((headers, body)) => Ok(Request(ev.verb(step), WithQuery(url, extra), headers, body))
  }

  function GroupValue(caps: seq<Option<string>>, i: nat): Value {
    if i < |caps| && caps[i].Some? then Str(caps[i].value) else Null
  }

  /** Binds the i-th capture group to the i-th group name, from the i-th on. */
  function BindGroups(scope: Scope, groups: seq<string>, caps: seq<Option<string>>, i: nat): Scope
    requires i <= |groups|
    decreases |groups| - i
  {
    if i == |groups| then scope
    else BindGroups(Bind(scope, groups[i], GroupValue(caps, i)), groups, caps, i + 1)
  }

  function ApplyExtract(ev: Evaluator, ex: RegexExtract, text: string, scope: Scope): Result<Scope, HttpError> {
    match ev.regex(ex.pattern, text)
    case Err(e) => Err(e)
    case Ok(None) => Ok(scope)
    case Ok(Some(caps)) => Ok(BindGroups(scope, ex.groups, caps, 0))
  }

  /** What a response does to the scope: the status gate, `$<step>`, `$` and the regex groups. */
  function Receive(ev: Evaluator, step: HttpStep, url: string, resp: Response, scope: Scope): (Status, Scope) {
    if !(200 <= resp.status < 400) then (Failed(BadStatus(resp.status, url)), scope)
    else
      match ev.parse(step, resp.headers, BodyText(resp.body))
      case Err(e) => (Failed(e), scope)
      case Ok(v) =>
        var bound := WithCurrent(Bind(scope, step.name, v), Some(v));
        if step.extract.None? then (Fine, bound)
        else
          match ApplyExtract(ev, step.extract.value, BodyText(resp.body), bound)
          case Err(e) => (Failed(e), bound)
          case Ok(s) => (Fine, s)
  }

  function BoundPage(step: HttpStep, page: nat): nat {
    WirePage(step.pagination.Some? && ZeroIndexed(step.pagination.value), page)
  }

  /** One request of a step, up to and including the bindings its response makes. */
  function FetchPage(cfg: Config, step: HttpStep, token: Value, st: State, page: nat,
                     extra: seq<(string, string)>): (o: Outcome)
    ensures o.status.Fine? ==> o.st.requests == st.requests + 1 <= cfg.maxRequests
  {
    if st.requests >= cfg.maxRequests then Outcome(Failed(Generic("exceeded max_requests")), st)
    else
      var bound := BoundPage(step, page);
      var st1 := st.(requests := st.requests + 1, scope := Bind(st.scope, "page", Int(bound)));
      match BuildRequest(cfg.ev, step, st1.scope, token, extra)
      case Err(e) => Outcome(Failed(e), st1)
      case Ok(req) =>
        var got := cfg.transport(st1.history, req);
        var st2 := st1.(history := st1.history + [Fetch(PageOf(step.name, bound, extra), req, got)]);
        match got
        case Err(e) => Outcome(Failed(e), st2)
        case Ok(resp) =>
          var (status, scope) := Receive(cfg.ev, step, req.url, resp, st2.scope);
          Outcome(status, st2.(scope := scope))
  }

  function Items(v: Value): (items: seq<Value>)
    ensures v.NodeList? ==> |items| == |v.nodes| && forall i | 0 <= i < |items| :: items[i] == Node(v.nodes[i])
    ensures v.Arr? ==> items == v.items
    ensures !v.NodeList? && !v.Arr? ==> items == if v == Null then [] else [v]
  {
    match v
    case Arr(xs) => xs
    case NodeList(xs) => seq(|xs|, i requires 0 <= i < |xs| => Node(xs[i]))
    case Null => []
    case other => [other]
  }

  function ItemsForPage(p: Pagination, ev: Evaluator, scope: Scope): Result<seq<Value>, HttpError> {
    match ev.path(p.itemsPath, scope)
    case Err(e) => Err(e)
    case Ok(v) => Ok(Items(v))
  }

  /** A step from its page-th request on, with the items of the earlier pages. */
  function RunPages(cfg: Config, step: HttpStep, token: Value, st: State,
                    page: nat, extra: seq<(string, string)>, acc: seq<Value>, d: Progress): Outcome
    decreases cfg.maxRequests - st.requests
  {
    var o := FetchPage(cfg, step, token, st, page, extra);
    if o.status.Failed? || step.pagination.None? then o
    else
      var p := step.pagination.value;
      match ItemsForPage(p, cfg.ev, o.st.scope)
      case Err(e) => Outcome(Failed(e), o.st)
      case Ok(items) =>
        match Advanced(p, d, cfg.ev, o.st.scope)
        case Err(e) => Outcome(Failed(e), o.st)
        case Ok((_, Stop)) =>
          var all := Arr(acc + items);
          Outcome(Fine, o.st.(scope := WithCurrent(Bind(o.st.scope, step.name, all), Some(all))))
        case Ok((d', Continue(params))) => RunPages(cfg, step, token, o.st, page + 1, params, acc + items, d')
  }

  function RunStep(cfg: Config, step: HttpStep, token: Value, st: State): Outcome {
    RunPages(cfg, step, token, st, 1, [], [], START)
  }

  // --- statements ------------------------------------------------------

  /** The sample cap on the items of a top-level loop. */
  function Cap(items: seq<Value>, limit: Option<nat>): (capped: seq<Value>)
    ensures capped <= items
    ensures |capped| == if limit.Some? && limit.value < |items| then limit.value else |items|
  {
    if limit.Some? && |items| > limit.value then items[..limit.value] else items
  }

  function RunStatements(cfg: Config, body: seq<Statement>, token: Value, st: State, limit: Option<nat>,
                         top: bool): Outcome
    decreases body, 0
  {
    if body == [] then Outcome(Fine, st)
    else
      var o := RunStatement(cfg, body[0], token, st, limit, top);
      if o.status.Failed? then o else RunStatements(cfg, body[1..], token, o.st, limit, top)
  }

  function RunStatement(cfg: Config, s: Statement, token: Value, st: State, limit: Option<nat>, top: bool): Outcome
    decreases s, 0
  {
    match s
    case StepStmt(step) => RunStep(cfg, step, token, st)
    case EmitStmt(em) => RunEmit(cfg, em, st)
    case ForLoop(variable, collection, body) =>
      match Extract(cfg, collection, st.scope, st.history)
      case (Err(e), h) => Outcome(Failed(e), st.(history := h))
      case (Ok(v), h) =>
        var items := if top then Cap(Items(v), limit) else Items(v);
        RunLoop(cfg, items, variable, body, token, st.(history := h), limit)
  }

  function Enter(st: State, variable: string, item: Value): State {
    st.(scope := WithCurrent(Bind(PushFrame(st.scope), variable, item), Some(item)))
  }

  function Leave(st: State, saved: Option<Value>): State {
    st.(scope := PopFrame(WithCurrent(st.scope, saved)))
  }

  function RunLoop(cfg: Config, items: seq<Value>, variable: string, body: seq<Statement>, token: Value,
                   st: State, limit: Option<nat>): Outcome
    decreases body, |items| + 1
  {
    if items == [] then Outcome(Fine, st)
    else
      var o := RunStatements(cfg, body, token, Enter(st, variable, items[0]), limit, false);
      if o.status.Failed? then o
      else RunLoop(cfg, items[1..], variable, body, token, Leave(o.st, st.scope.current), limit)
  }

  // --- whole runs ------------------------------------------------------

  function InitialScope(inputs: Frame, secrets: map<string, string>): Scope {
    Bind(RawScope([map[]], inputs, secrets, None), "page", Int(1))
  }

  function InitialState(inputs: Frame, secrets: map<string, string>): State {
    State(InitialScope(inputs, secrets), [], 0, map[], [])
  }

  /** A run: the session login, then the recipe body. */
  function RunRecipe(cfg: Config, body: seq<Statement>, inputs: Frame, secrets: map<string, string>,
                     limit: Option<nat>): Outcome {
    var st := InitialState(inputs, secrets);
    match Drive(cfg.transport, replies => cfg.ev.login(st.scope, replies), 1, [], [])
    case (Err(e), h) => Outcome(Failed(e), st.(history := h))
    case (Ok(token), h) => RunStatements(cfg, body, token, st.(history := h), limit, true)
  }

  // --- the engine ------------------------------------------------------

  class Interpreter {
    const cfg: Config
    const token: Value
    const limit: Option<nat>
    var scope: Scope
    var records: seq<Record>
    var requests: nat
    var counts: map<string, nat>
    var history: seq<Fetch>

    constructor (cfg: Config, token: Value, limit: Option<nat>, st: State)
      ensures this.cfg == cfg && this.token == token && this.limit == limit && Now() == st
    {
      this.cfg, this.token, this.limit := cfg, token, limit;
      scope, records, requests, counts, history :=
        st.scope, st.records, st.requests, st.counts, st.history;
    }

    function Now(): State
      reads this
    {
      State(scope, records, requests, counts, history)
    }

    method Send(purpose: Purpose, req: Request) returns (got: Result<Response, HttpError>)
      modifies this`history
      ensures got == cfg.transport(old(history), req)
      ensures history == old(history) + [Fetch(purpose, req, got)]
    {
      got := cfg.transport(history, req);
      history := history + [Fetch(purpose, req, got)];
    }

    method ExtractAsync(e: Expr) returns (r: Result<Value, HttpError>)
      modifies this`history
      ensures (r, history) == Extract(cfg, e, scope, old(history))
      ensures r.Ok? ==> Evaluates(cfg, e, scope, old(history), history, r.value)
      ensures r.Err? ==> Raises(cfg, e, scope, old(history), history, r.error)
    {
      ExtractAsks(cfg, e, scope, history);
      ghost var ask := replies => cfg.ev.extract(e, old(scope), replies);
      var replies: Replies := [];
      var left := e.fetches;
      while true
        invariant scope == old(scope)
        invariant Extract(cfg, e, scope, old(history)) == Drive(cfg.transport, ask, left, replies, history)
        decreases left
      {
        match cfg.ev.extract(e, scope, replies) {
          case Produce(v) => return Ok(v);
          case Raise(err) => return Err(err);
          case Send(req) =>
            if left == 0 { return Err(EvalFailed("too many fetches")); }
            var got := Send(Other, req);
            replies := replies + [ViewResult(got)];
            left := left - 1;
        }
      }
    }

    method Emit(em: Emission) returns (status: Status)
      modifies this
      ensures Outcome(status, Now()) == RunEmit(cfg, em, old(Now()))
      ensures status.Fine? ==> EmitsRecord(cfg, em, old(Now()), Now())
      ensures status.Failed? ==> EmitRaises(cfg, em, old(Now()), Now(), status.error)
    {
      EmitMeans(cfg, em, Now());
      hide EmitsRecord, EmitRaises, Evaluates, Raises;
      var fields: map<string, Value> := map[];
      var i := 0;
      while i < |em.bindings|
        invariant 0 <= i <= |em.bindings|
        invariant Now() == old(Now()).(history := history)
        invariant Fields(cfg, em.bindings, scope, map[], old(history))
            == Fields(cfg, em.bindings[i..], scope, fields, history)
      {
        var v := ExtractAsync(em.bindings[i].expr);
        assert em.bindings[i..][1..] == em.bindings[i + 1..];
        if v.Err? { return Failed(v.error); }
        fields := fields[em.bindings[i].fieldName := v.value];
        i := i + 1;
      }
      var id := RecordId(|records|);
      if em.bindName.Some? {
        scope := Bind(scope, em.bindName.value, Ref(em.typeName, id));
      }
      records := records + [Record(id, em.typeName, fields)];
      counts := counts[em.typeName := (if em.typeName in counts then counts[em.typeName] else 0) + 1];
      return Fine;
    }

    /** One request: budget, `$page`, the fetch, the status gate and the bindings. */
    method Request(step: HttpStep, page: nat, extra: seq<(string, string)>) returns (status: Status)
      modifies this
      ensures Outcome(status, Now()) == FetchPage(cfg, step, token, old(Now()), page, extra)
    {
      if requests >= cfg.maxRequests { return Failed(Generic("exceeded max_requests")); }
      requests := requests + 1;
      var zeroIndexed := step.pagination.Some? && ZeroIndexed(step.pagination.value);
      var boundPage := if zeroIndexed && page > 0 then page - 1 else page;
      assert boundPage == BoundPage(step, page);
      scope := Bind(scope, "page", Int(boundPage));
      var req := BuildRequest(cfg.ev, step, scope, token, extra);
      if req.Err? { return Failed(req.error); }
      var resp := Send(PageOf(step.name, boundPage, extra), req.value);
      if resp.Err? { return Failed(resp.error); }
      if !(200 <= resp.value.status < 400) { return Failed(BadStatus(resp.value.status, req.value.url)); }
      var text := BodyText(resp.value.body);
      var body := cfg.ev.parse(step, resp.value.headers, text);
      if body.Err? { return Failed(body.error); }
      scope := WithCurrent(Bind(scope, step.name, body.value), Some(body.value));
      if step.extract.Some? {
        var s := ApplyExtract(cfg.ev, step.extract.value, text, scope);
        if s.Err? { return Failed(s.error); }
        scope := s.value;
      }
      return Fine;
    }

    method Step(step: HttpStep) returns (status: Status)
      modifies this
      ensures Outcome(status, Now()) == RunStep(cfg, step, token, old(Now()))
    {
      if step.pagination.None? {
        status := Request(step, 1, []);
        return;
      }
      var driver := new PaginationDriver(step.pagination.value);
      var extra: seq<(string, string)> := [];
      var accumulated: seq<Value> := [];
      var page: nat := 1;
      while true
        invariant fresh(driver) && driver.strategy == step.pagination.value
        invariant RunStep(cfg, step, token, old(Now()))
               == RunPages(cfg, step, token, Now(), page, extra, accumulated, driver.Counters())
        decreases cfg.maxRequests - requests
      {
        status := Request(step, page, extra);
        if status.Failed? { return; }
        var items := ItemsForPage(driver.strategy, cfg.ev, scope);
        if items.Err? { return Failed(items.error); }
        accumulated := accumulated + items.value;
        var next := driver.Advance(cfg.ev, scope);
        if next.Err? { return Failed(next.error); }
        match next.value {
          case Stop =>
            scope := WithCurrent(Bind(scope, step.name, Arr(accumulated)), Some(Arr(accumulated)));
            return Fine;
          case Continue(params) =>
            extra := params;
            page := page + 1;
        }
      }
    }

    method Statements(body: seq<Statement>, top: bool) returns (status: Status)
      modifies this
      ensures Outcome(status, Now()) == RunStatements(cfg, body, token, old(Now()), limit, top)
      decreases body, 0
    {
      var i := 0;
      while i < |body|
        invariant 0 <= i <= |body|
        invariant RunStatements(cfg, body, token, old(Now()), limit, top)
               == RunStatements(cfg, body[i..], token, Now(), limit, top)
      {
        assert body[i..][1..] == body[i + 1..];
        status := One(body[i], top);
        if status.Failed? { return; }
        i := i + 1;
      }
      return Fine;
    }

    method One(s: Statement, top: bool) returns (status: Status)
      modifies this
      ensures Outcome(status, Now()) == RunStatement(cfg, s, token, old(Now()), limit, top)
      decreases s, 0
    {
      match s {
        case StepStmt(step) => status := Step(step);
        case EmitStmt(em) => status := Emit(em);
        case ForLoop(variable, collection, body) =>
          var v := ExtractAsync(collection);
          if v.Err? { return Failed(v.error); }
          var items := Items(v.value);
          if top { items := Cap(items, limit); }
          status := Loop(items, variable, body);
      }
    }

    method Loop(items: seq<Value>, variable: string, body: seq<Statement>) returns (status: Status)
      modifies this
      ensures Outcome(status, Now()) == RunLoop(cfg, items, variable, body, token, old(Now()), limit)
      decreases body, 1
    {
      var i := 0;
      while i < |items|
        invariant 0 <= i <= |items|
        invariant RunLoop(cfg, items, variable, body, token, old(Now()), limit)
               == RunLoop(cfg, items[i..], variable, body, token, Now(), limit)
      {
        assert items[i..][1..] == items[i + 1..];
        scope := Bind(PushFrame(scope), variable, items[i]);
        var saved := scope.current;
        scope := WithCurrent(scope, Some(items[i]));
        status := Statements(body, false);
        if status.Failed? { return; }
        scope := PopFrame(WithCurrent(scope, saved));
        i := i + 1;
      }
      return Fine;
    }
  }
}
