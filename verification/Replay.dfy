/**
Recording and replaying. A recorded run writes down every answered exchange; a replay
answers a request with the first recorded exchange of the same method and URL.
*/
module Replay {
  import opened Wrappers
  import opened Values
  import opened Recipe
  import opened Paginate
  import opened Engine
  import opened EngineInvariants
  import opened Urls

  datatype HttpExchange = HttpExchange(
    url: string,
    verb: string,
    requestHeaders: map<string, string>,
    requestBody: Option<string>,
    status: int,
    responseHeaders: map<string, string>,
    body: string)

  function Lower(s: string): string {
    seq(|s|, i requires 0 <= i < |s| => if 'A' <= s[i] <= 'Z' then s[i] - 'A' + 'a' else s[i])
  }

  /** The same letter, or the same character, up to ASCII case. */
  predicate SameLetter(a: char, b: char) {
    a == b || ('A' <= a <= 'Z' && b as int == a as int + 32) || ('A' <= b <= 'Z' && a as int == b as int + 32)
  }

  ghost predicate SameVerb(a: string, b: string) {
    |a| == |b| && forall i | 0 <= i < |a| :: SameLetter(a[i], b[i])
  }

  /** Methods are compared letter by letter, up to ASCII case. */
  lemma {:induction false} LowerIff(a: string, b: string)
    ensures Lower(a) == Lower(b) <==> SameVerb(a, b)
  {
    assert |Lower(a)| == |a| && |Lower(b)| == |b|;
    if Lower(a) == Lower(b) {
      forall i | 0 <= i < |a| ensures SameLetter(a[i], b[i]) {
        assert Lower(a)[i] == Lower(b)[i];
      }
    }
  }

  predicate Matches(verb: string, url: string, req: Request) {
    Lower(verb) == Lower(req.verb) && UrlMatches(url, req.url)
  }

  lemma {:induction false} MatchesIffSame(verb: string, url: string, req: Request)
    ensures Matches(verb, url, req) <==> SameVerb(verb, req.verb) && UrlMatches(url, req.url)
  {
    LowerIff(verb, req.verb);
  }

  function ToResponse(e: HttpExchange): Response {
    Response(e.status, e.responseHeaders, Utf8(e.body))
  }

  /** A fixture applies to a request of its method and of a matching URL. */
  ghost predicate Applies(fixture: HttpExchange, req: Request) {
    SameVerb(fixture.verb, req.verb) && UrlMatches(fixture.url, req.url)
  }

  function FirstMatch(fixtures: seq<HttpExchange>, req: Request): Result<Response, HttpError> {
    if fixtures == [] then Err(NoFixture(req.verb, req.url))
    else if Matches(fixtures[0].verb, fixtures[0].url, req) then Ok(ToResponse(fixtures[0]))
    else FirstMatch(fixtures[1..], req)
  }

  function ReplayOf(fixtures: seq<HttpExchange>): Transport {
    (h, req) => FirstMatch(fixtures, req)
  }

  class ReplayTransport {
    const fixtures: seq<HttpExchange>

    constructor (fixtures: seq<HttpExchange>)
      ensures this.fixtures == fixtures
    {
      this.fixtures := fixtures;
    }

    method Fetch(req: Request) returns (r: Result<Response, HttpError>)
      ensures r == FirstMatch(fixtures, req)
      ensures r.Ok? ==>
        (exists i ::
          && 0 <= i < |fixtures|
          && Applies(fixtures[i], req)
          && r.value == Response(fixtures[i].status, fixtures[i].responseHeaders, Utf8(fixtures[i].body))
          && (forall j | 0 <= j < i :: !Applies(fixtures[j], req)))
      ensures r.Err? ==>
        r.error == NoFixture(req.verb, req.url) && forall j | 0 <= j < |fixtures| :: !Applies(fixtures[j], req)
    {
      forall e: HttpExchange ensures Matches(e.verb, e.url, req) <==> Applies(e, req) {
        MatchesIffSame(e.verb, e.url, req);
      }
      hide Matches, Applies;
      var i := 0;
      while i < |fixtures|
        invariant 0 <= i <= |fixtures|
        invariant FirstMatch(fixtures, req) == FirstMatch(fixtures[i..], req)
        invariant forall j | 0 <= j < i :: !Applies(fixtures[j], req)
      {
        assert Matches(fixtures[i].verb, fixtures[i].url, req) <==> Applies(fixtures[i], req);
        assert fixtures[i..][1..] == fixtures[i + 1..];
        if Matches(fixtures[i].verb, fixtures[i].url, req) {
          return Ok(ToResponse(fixtures[i]));
        }
        i := i + 1;
      }
      return Err(NoFixture(req.verb, req.url));
    }
  }

  function Recorded(req: Request, resp: Response): HttpExchange {
    HttpExchange(req.url, req.verb, req.headers,
                 if req.body.Some? && req.body.value.Utf8? then Some(req.body.value.text) else None,
                 resp.status, resp.headers, BodyText(resp.body))
  }

  /** The captures a recorded run with this history has written. */
  function Captures(h: seq<Fetch>): seq<HttpExchange> {
    if h == [] then []
    else
      var last := h[|h| - 1];
      Captures(h[..|h| - 1]) + (if last.result.Ok? then [Recorded(last.req, last.result.value)] else [])
  }

  class RecordingTransport {
    const inner: Transport
    var captures: seq<HttpExchange>

    constructor (inner: Transport)
      ensures this.inner == inner && captures == Captures([])
    {
      this.inner, captures := inner, [];
    }

    /** Answers as the inner transport does; the captures stay those of the history. */
    method Fetch(h: seq<Fetch>, purpose: Purpose, req: Request) returns (r: Result<Response, HttpError>)
      requires captures == Captures(h)
      modifies this
      ensures r == inner(h, req)
      ensures captures == Captures(h + [Recipe.Fetch(purpose, req, r)])
      ensures r.Err? ==> captures == old(captures)
      ensures r.Ok? ==>
        && |captures| == |old(captures)| + 1 && old(captures) <= captures
        && var e := captures[|old(captures)|];
           && e.url == req.url && e.verb == req.verb && e.requestHeaders == req.headers
           && (e.requestBody.Some? <==> req.body.Some? && req.body.value.Utf8?)
           && (e.requestBody.Some? ==> e.requestBody.value == req.body.value.text)
           && e.status == r.value.status && e.responseHeaders == r.value.headers && e.body == BodyText(r.value.body)
    {
      r := inner(h, req);
      assert (h + [Recipe.Fetch(purpose, req, r)])[..|h|] == h;
      if r.Ok? {
        captures := captures + [Recorded(req, r.value)];
      }
    }
  }

  // --- two transports that agree -----------------------------------------

  /** Replaying the log answers every fetch of the history as it was answered, as far as the engine can see. */
  ghost predicate Answers(log: seq<HttpExchange>, h: seq<Fetch>) {
    forall f | f in h :: ViewResult(FirstMatch(log, f.req)) == ViewResult(f.result)
  }

  ghost predicate SameView(h: seq<Fetch>, h': seq<Fetch>) {
    && |h| == |h'|
    && forall i | 0 <= i < |h| ::
         h[i].purpose == h'[i].purpose && h[i].req == h'[i].req && ViewResult(h[i].result) == ViewResult(h'[i].result)
  }

  ghost predicate Alike(a: State, b: State) {
    a == b.(history := a.history) && SameView(a.history, b.history)
  }

  lemma {:induction false} AnswersPrefix(log: seq<HttpExchange>, h: seq<Fetch>, h': seq<Fetch>)
    requires h <= h' && Answers(log, h')
    ensures Answers(log, h)
  {
    forall f | f in h ensures f in h' {
      var i :| 0 <= i < |h| && h[i] == f;
      assert h'[i] == f;
    }
  }

  lemma {:induction false} DriveAgrees(t: Transport, log: seq<HttpExchange>, ask: Replies -> Ask, fetches: nat,
                                       replies: Replies,
                                       h: seq<Fetch>, h': seq<Fetch>)
    requires SameView(h, h')
    requires Answers(log, Drive(t, ask, fetches, replies, h).1)
    ensures var a, b := Drive(t, ask, fetches, replies, h), Drive(ReplayOf(log), ask, fetches, replies, h');
            a.0 == b.0 && SameView(a.1, b.1)
    decreases fetches
  {
    match ask(replies) {
      case Send(req) =>
        if fetches > 0 {
          var got, got' := t(h, req), FirstMatch(log, req);
          var end := Drive(t, ask, fetches - 1, replies + [ViewResult(got)], h + [Recipe.Fetch(Other, req, got)]).1;
          assert end[|h|] == Recipe.Fetch(Other, req, got);
          assert end[|h|] in end;
          DriveAgrees(t, log, ask, fetches - 1, replies + [ViewResult(got)],
                      h + [Recipe.Fetch(Other, req, got)], h' + [Recipe.Fetch(Other, req, got')]);
        }
      case _ =>
    }
  }

  function Replayed(cfg: Config, log: seq<HttpExchange>): Config {
    cfg.(transport := ReplayOf(log))
  }

  lemma {:induction false} ExtractAgrees(cfg: Config, log: seq<HttpExchange>, e: Expr, scope: Scope,
                                         h: seq<Fetch>, h': seq<Fetch>)
    requires SameView(h, h') && Answers(log, Extract(cfg, e, scope, h).1)
    ensures var a, b := Extract(cfg, e, scope, h), Extract(Replayed(cfg, log), e, scope, h');
            a.0 == b.0 && SameView(a.1, b.1)
  {
    DriveAgrees(cfg.transport, log, replies => cfg.ev.extract(e, scope, replies), e.fetches, [], h, h');
  }

  lemma {:induction false} FieldsAgree(cfg: Config, log: seq<HttpExchange>, bs: seq<Binding>, scope: Scope,
                                       fields: map<string, Value>, h: seq<Fetch>, h': seq<Fetch>)
    requires SameView(h, h') && Answers(log, Fields(cfg, bs, scope, fields, h).1)
    ensures var a, b := Fields(cfg, bs, scope, fields, h), Fields(Replayed(cfg, log), bs, scope, fields, h');
            a.0 == b.0 && SameView(a.1, b.1)
  {
    if bs != [] {
      var r := Extract(cfg, bs[0].expr, scope, h);
      AnswersPrefix(log, r.1, Fields(cfg, bs, scope, fields, h).1);
      ExtractAgrees(cfg, log, bs[0].expr, scope, h, h');
      if r.0.Ok? {
        FieldsAgree(cfg, log, bs[1..], scope, fields[bs[0].fieldName := r.0.value], r.1,
                    Extract(Replayed(cfg, log), bs[0].expr, scope, h').1);
      }
    }
  }

  lemma {:induction false} EmitAgrees(cfg: Config, log: seq<HttpExchange>, em: Emission, st: State, st': State)
    requires Alike(st, st') && Answers(log, RunEmit(cfg, em, st).st.history)
    ensures var a, b := RunEmit(cfg, em, st), RunEmit(Replayed(cfg, log), em, st');
            a.status == b.status && Alike(a.st, b.st)
  {
    FieldsAgree(cfg, log, em.bindings, st.scope, map[], st.history, st'.history);
  }

  lemma {:induction false} PageAgrees(cfg: Config, log: seq<HttpExchange>, step: HttpStep, token: Value,
                                      st: State, st': State,
                   page: nat, extra: seq<(string, string)>)
    requires Alike(st, st') && Answers(log, FetchPage(cfg, step, token, st, page, extra).st.history)
    ensures var a, b := FetchPage(cfg, step, token, st, page, extra),
        FetchPage(Replayed(cfg, log), step, token, st', page, extra);
            a.status == b.status && Alike(a.st, b.st)
  {
    var a, b := FetchPage(cfg, step, token, st, page, extra),
      FetchPage(Replayed(cfg, log), step, token, st', page, extra);
    if a.st.history != st.history {
      var f := a.st.history[|st.history|];
      assert f in a.st.history;
      assert b.st.history == st'.history + [f.(result := FirstMatch(log, f.req))];
      if f.result.Ok? {
        ReceiveReadsViewOnly(cfg.ev, step, f.req.url, f.result.value, FirstMatch(log, f.req).value,
                             Bind(st.scope, "page", Int(BoundPage(step, page))));
      }
    }
  }

  lemma {:induction false} ReceiveReadsViewOnly(ev: Evaluator, step: HttpStep, url: string, r: Response,
                                                r': Response, scope: Scope)
    requires View(r) == View(r')
    ensures Receive(ev, step, url, r, scope) == Receive(ev, step, url, r', scope)
  {
  }

  lemma {:induction false} PagesAgree(cfg: Config, log: seq<HttpExchange>, step: HttpStep, token: Value,
                                      st: State, st': State,
                                      page: nat, extra: seq<(string, string)>, acc: seq<Value>, d: Progress)
    requires Alike(st, st') && Answers(log, RunPages(cfg, step, token, st, page, extra, acc, d).st.history)
    ensures var a, b := RunPages(cfg, step, token, st, page, extra, acc, d),
        RunPages(Replayed(cfg, log), step, token, st', page, extra, acc, d);
            a.status == b.status && Alike(a.st, b.st)
    decreases cfg.maxRequests - st.requests
  {
    var o := FetchPage(cfg, step, token, st, page, extra);
    PagesReach(cfg, step, token, st, page, extra, acc, d);
    if o.status.Fine? && step.pagination.Some? {
      var p := step.pagination.value;
      match ItemsForPage(p, cfg.ev, o.st.scope) {
        case Ok(items) =>
          match Advanced(p, d, cfg.ev, o.st.scope) {
            case Ok((d', Continue(params))) =>
              PagesReach(cfg, step, token, o.st, page + 1, params, acc + items, d');
              AnswersPrefix(log, o.st.history, RunPages(cfg, step, token, st, page, extra, acc, d).st.history);
              PageAgrees(cfg, log, step, token, st, st', page, extra);
              PagesAgree(cfg, log, step, token, o.st, FetchPage(Replayed(cfg, log), step, token, st', page, extra).st,
                         page + 1, params, acc + items, d');
            case _ => PageAgrees(cfg, log, step, token, st, st', page, extra);
          }
        case _ => PageAgrees(cfg, log, step, token, st, st', page, extra);
      }
    } else {
      PageAgrees(cfg, log, step, token, st, st', page, extra);
    }
  }

  lemma {:induction false} LoopAgrees(cfg: Config, log: seq<HttpExchange>, items: seq<Value>, variable: string,
                                      body: seq<Statement>,
                                      token: Value, st: State, st': State, limit: Option<nat>)
    requires Alike(st, st') && Answers(log, RunLoop(cfg, items, variable, body, token, st, limit).st.history)
    ensures var a, b := RunLoop(cfg, items, variable, body, token, st, limit),
        RunLoop(Replayed(cfg, log), items, variable, body, token, st', limit);
            a.status == b.status && Alike(a.st, b.st)
    decreases body, |items| + 1
  {
    if items != [] {
      var e, e' := Enter(st, variable, items[0]), Enter(st', variable, items[0]);
      var o := RunStatements(cfg, body, token, e, limit, false);
      if o.status.Fine? {
        LoopReaches(cfg, items[1..], variable, body, token, Leave(o.st, st.scope.current), limit);
        AnswersPrefix(log, o.st.history, RunLoop(cfg, items, variable, body, token, st, limit).st.history);
      }
      StatementsAgree(cfg, log, body, token, e, e', limit, false);
      if o.status.Fine? {
        var o' := RunStatements(Replayed(cfg, log), body, token, e', limit, false);
        LoopAgrees(cfg, log, items[1..], variable, body, token, Leave(o.st, st.scope.current),
          Leave(o'.st, st'.scope.current), limit);
      }
    }
  }

  lemma {:induction false} StatementAgrees(cfg: Config, log: seq<HttpExchange>, s: Statement, token: Value,
                                           st: State, st': State,
                                           limit: Option<nat>, top: bool)
    requires Alike(st, st') && Answers(log, RunStatement(cfg, s, token, st, limit, top).st.history)
    ensures var a, b := RunStatement(cfg, s, token, st, limit, top),
        RunStatement(Replayed(cfg, log), s, token, st', limit, top);
            a.status == b.status && Alike(a.st, b.st)
    decreases s, 0
  {
    match s {
      case StepStmt(step) => PagesAgree(cfg, log, step, token, st, st', 1, [], [], START);
      case EmitStmt(em) => EmitAgrees(cfg, log, em, st, st');
      case ForLoop(variable, collection, body) =>
        var r := Extract(cfg, collection, st.scope, st.history);
        if r.0.Ok? {
          var items := if top then Cap(Items(r.0.value), limit) else Items(r.0.value);
          var a := st.(history := r.1);
          LoopReaches(cfg, items, variable, body, token, a, limit);
          AnswersPrefix(log, r.1, RunLoop(cfg, items, variable, body, token, a, limit).st.history);
          ExtractAgrees(cfg, log, collection, st.scope, st.history, st'.history);
          var r' := Extract(Replayed(cfg, log), collection, st'.scope, st'.history);
          LoopAgrees(cfg, log, items, variable, body, token, a, st'.(history := r'.1), limit);
        } else {
          ExtractAgrees(cfg, log, collection, st.scope, st.history, st'.history);
        }
    }
  }

  lemma {:induction false} StatementsAgree(cfg: Config, log: seq<HttpExchange>, body: seq<Statement>,
                                           token: Value, st: State, st': State,
                                           limit: Option<nat>, top: bool)
    requires Alike(st, st') && Answers(log, RunStatements(cfg, body, token, st, limit, top).st.history)
    ensures var a, b := RunStatements(cfg, body, token, st, limit, top),
        RunStatements(Replayed(cfg, log), body, token, st', limit, top);
            a.status == b.status && Alike(a.st, b.st)
    decreases body, 0
  {
    if body != [] {
      var o := RunStatement(cfg, body[0], token, st, limit, top);
      if o.status.Fine? {
        StatementsReach(cfg, body[1..], token, o.st, limit, top);
        AnswersPrefix(log, o.st.history, RunStatements(cfg, body, token, st, limit, top).st.history);
      }
      StatementAgrees(cfg, log, body[0], token, st, st', limit, top);
      if o.status.Fine? {
        StatementsAgree(cfg, log, body[1..], token, o.st,
          RunStatement(Replayed(cfg, log), body[0], token, st', limit, top).st, limit, top);
      }
    }
  }

  /** A log that answers every fetch of a run as it was answered reproduces the run, failures included. */
  lemma {:induction false} RunAgrees(cfg: Config, log: seq<HttpExchange>, body: seq<Statement>, inputs: Frame,
                                     secrets: map<string, string>, limit: Option<nat>)
    requires Answers(log, RunRecipe(cfg, body, inputs, secrets, limit).st.history)
    ensures var a, b := RunRecipe(cfg, body, inputs, secrets, limit),
        RunRecipe(Replayed(cfg, log), body, inputs, secrets, limit);
            a.status == b.status && Alike(a.st, b.st)
  {
    var st := InitialState(inputs, secrets);
    var ask := replies => cfg.ev.login(st.scope, replies);
    var r := Drive(cfg.transport, ask, 1, [], []);
    if r.0.Ok? {
      StatementsReach(cfg, body, r.0.value, st.(history := r.1), limit, true);
      AnswersPrefix(log, r.1, RunRecipe(cfg, body, inputs, secrets, limit).st.history);
      DriveAgrees(cfg.transport, log, ask, 1, [], [], []);
      var r' := Drive(ReplayOf(log), ask, 1, [], []);
      StatementsAgree(cfg, log, body, r.0.value, st.(history := r.1), st.(history := r'.1), limit, true);
    } else {
      DriveAgrees(cfg.transport, log, ask, 1, [], [], []);
    }
  }

  // --- record, then replay -------------------------------------------------

  /** Two recorded exchanges a replay cannot tell apart carry the same answer. */
  ghost predicate Unambiguous(log: seq<HttpExchange>) {
    forall i, j | 0 <= i < |log| && 0 <= j < |log| && SameKey(log[i], log[j]) ::
      ToResponse(log[i]) == ToResponse(log[j])
  }

  predicate SameKey(a: HttpExchange, b: HttpExchange) {
    Lower(a.verb) == Lower(b.verb) && StripOrigin(a.url) == StripOrigin(b.url)
  }

  lemma {:induction false} CapturesHold(h: seq<Fetch>, f: Fetch)
    requires f in h && f.result.Ok?
    ensures Recorded(f.req, f.result.value) in Captures(h)
  {
    if h[|h| - 1] != f {
      var i :| 0 <= i < |h| && h[i] == f;
      assert h[..|h| - 1][i] == f;
      CapturesHold(h[..|h| - 1], f);
    }
  }

  lemma {:induction false} CapturesCome(h: seq<Fetch>, e: HttpExchange)
    requires e in Captures(h)
    ensures exists f :: f in h && f.result.Ok? && e == Recorded(f.req, f.result.value)
  {
    var last := h[|h| - 1];
    if !(last.result.Ok? && e == Recorded(last.req, last.result.value)) {
      CapturesCome(h[..|h| - 1], e);
    }
  }

  lemma {:induction false} FirstMatchFinds(log: seq<HttpExchange>, req: Request)
    ensures FirstMatch(log, req).Ok? <==> exists i :: 0 <= i < |log| && Matches(log[i].verb, log[i].url, req)
    ensures FirstMatch(log, req).Ok? ==>
      exists i ::
        0 <= i < |log| && Matches(log[i].verb, log[i].url, req) && FirstMatch(log, req).value == ToResponse(log[i])
  {
    if log != [] && !Matches(log[0].verb, log[0].url, req) {
      FirstMatchFinds(log[1..], req);
      if i :| 0 <= i < |log| && Matches(log[i].verb, log[i].url, req) {
        assert Matches(log[1..][i - 1].verb, log[1..][i - 1].url, req);
      }
      if FirstMatch(log[1..], req).Ok? {
        var i :| 0 <= i < |log[1..]| && Matches(log[1..][i].verb, log[1..][i].url, req)
          && FirstMatch(log[1..], req).value == ToResponse(log[1..][i]);
        assert log[i + 1] == log[1..][i];
      }
    }
  }

  lemma {:induction false} UnambiguousAnswers(h: seq<Fetch>)
    requires AllAnswered(h) && Unambiguous(Captures(h))
    ensures Answers(Captures(h), h)
  {
    var log := Captures(h);
    forall f | f in h ensures ViewResult(FirstMatch(log, f.req)) == ViewResult(f.result) {
      CapturesHold(h, f);
      var e := Recorded(f.req, f.result.value);
      var i :| 0 <= i < |log| && log[i] == e;
      assert Matches(log[i].verb, log[i].url, f.req);
      FirstMatchFinds(log, f.req);
      var j :| 0 <= j < |log| && Matches(log[j].verb, log[j].url, f.req)
        && FirstMatch(log, f.req).value == ToResponse(log[j]);
      UrlMatchesIsEquivalence(log[j].url, f.req.url, f.req.url);
      assert SameKey(log[i], log[j]);
    }
  }

  lemma {:induction false} AnswersUnambiguous(h: seq<Fetch>)
    requires Answers(Captures(h), h)
    ensures Unambiguous(Captures(h))
  {
    var log := Captures(h);
    forall i, j | 0 <= i < |log| && 0 <= j < |log| && SameKey(log[i], log[j])
      ensures ToResponse(log[i]) == ToResponse(log[j])
    {
      assert log[i] in log && log[j] in log;
      CapturesCome(h, log[i]);
      CapturesCome(h, log[j]);
      var f :| f in h && f.result.Ok? && log[i] == Recorded(f.req, f.result.value);
      var g :| g in h && g.result.Ok? && log[j] == Recorded(g.req, g.result.value);
      FirstMatchKey(log, f.req, g.req);
    }
  }

  /** A replay looks at nothing of a request but its key. */
  lemma {:induction false} FirstMatchKey(log: seq<HttpExchange>, a: Request, b: Request)
    requires Lower(a.verb) == Lower(b.verb) && StripOrigin(a.url) == StripOrigin(b.url)
    ensures FirstMatch(log, a).Ok? <==> FirstMatch(log, b).Ok?
    ensures FirstMatch(log, a).Ok? ==> FirstMatch(log, a).value == FirstMatch(log, b).value
  {
    if log != [] {
      UrlMatchesIsEquivalence(log[0].url, a.url, a.url);
      UrlMatchesIsEquivalence(log[0].url, b.url, b.url);
      FirstMatchKey(log[1..], a, b);
    }
  }

  // A recorded run all of whose fetches were answered is reproduced by its own captures,
  // fetch by fetch, exactly when no two captures that share a key differ in their answer.
  // Bodies need not be UTF-8: a capture keeps all that the engine reads of a body.
  lemma {:induction false} ReplayIffUnambiguous(cfg: Config, body: seq<Statement>, inputs: Frame,
                                                secrets: map<string, string>, limit: Option<nat>)
    requires AllAnswered(RunRecipe(cfg, body, inputs, secrets, limit).st.history)
    ensures var a := RunRecipe(cfg, body, inputs, secrets, limit);
            var log := Captures(a.st.history);
            var b := RunRecipe(Replayed(cfg, log), body, inputs, secrets, limit);
            && (Unambiguous(log) <==> SameView(a.st.history, b.st.history))
            && (Unambiguous(log) ==> a.status == b.status && a.st == b.st.(history := a.st.history))
  {
    var a := RunRecipe(cfg, body, inputs, secrets, limit);
    var log := Captures(a.st.history);
    var b := RunRecipe(Replayed(cfg, log), body, inputs, secrets, limit);
    if Unambiguous(log) {
      UnambiguousAnswers(a.st.history);
      RunAgrees(cfg, log, body, inputs, secrets, limit);
    }
    if SameView(a.st.history, b.st.history) {
      BudgetHolds(Replayed(cfg, log), body, inputs, secrets, limit);
      forall f | f in a.st.history ensures ViewResult(FirstMatch(log, f.req)) == ViewResult(f.result) {
        var i :| 0 <= i < |a.st.history| && a.st.history[i] == f;
        assert b.st.history[i].result == FirstMatch(log, f.req);
      }
      AnswersUnambiguous(a.st.history);
    }
  }

  /** All the engine sees of an answer is determined by the verb, up to case, and the URL, up to `strip_origin`. */
  ghost predicate AnswersByKey(t: Transport) {
    forall h, h', r: Request, r': Request | Lower(r.verb) == Lower(r'.verb)
      && StripOrigin(r.url) == StripOrigin(r'.url) ::
      ViewResult(t(h, r)) == ViewResult(t(h', r'))
  }

  lemma {:induction false} ByKeyIsUnambiguous(t: Transport, h: seq<Fetch>)
    requires AnswersByKey(t) && Genuine(t, h)
    ensures Unambiguous(Captures(h))
  {
    var log := Captures(h);
    forall i, j | 0 <= i < |log| && 0 <= j < |log| && SameKey(log[i], log[j])
      ensures ToResponse(log[i]) == ToResponse(log[j])
    {
      var a := CaptureSource(t, h, log[i]);
      var b := CaptureSource(t, h, log[j]);
      assert ViewResult(t(h[..a], h[a].req)) == ViewResult(t(h[..b], h[b].req));
    }
  }

  /** The fetch a capture was made from, as the transport answered it. */
  lemma {:induction false} CaptureSource(t: Transport, h: seq<Fetch>, e: HttpExchange) returns (i: nat)
    requires Genuine(t, h) && e in Captures(h)
    ensures i < |h| && h[i].result.Ok? && e == Recorded(h[i].req, h[i].result.value)
        && h[i].result == t(h[..i], h[i].req)
  {
    CapturesCome(h, e);
    var f :| f in h && f.result.Ok? && e == Recorded(f.req, f.result.value);
    i :| 0 <= i < |h| && h[i] == f;
  }

  /** `forage record`, then `--replay`: a recorded run that succeeded succeeds again, with the same records. */
  lemma {:induction false} RecordThenReplay(cfg: Config, body: seq<Statement>, inputs: Frame,
                                            secrets: map<string, string>, limit: Option<nat>)
    requires AnswersByKey(cfg.transport) && PropagatesErrors(cfg.ev)
    requires RunRecipe(cfg, body, inputs, secrets, limit).status.Fine?
    ensures var a := RunRecipe(cfg, body, inputs, secrets, limit);
            var b := RunRecipe(Replayed(cfg, Captures(a.st.history)), body, inputs, secrets, limit);
            b.status.Fine? && b.st.records == a.st.records && b.st.counts == a.st.counts
  {
    BudgetHolds(cfg, body, inputs, secrets, limit);
    ByKeyIsUnambiguous(cfg.transport, RunRecipe(cfg, body, inputs, secrets, limit).st.history);
    ReplayIffUnambiguous(cfg, body, inputs, secrets, limit);
  }
}
