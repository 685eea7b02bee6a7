/** The parts of a recipe the HTTP engine walks, and the functions it is given. */
module Recipe {
  import opened Wrappers
  import opened Values

  // --- transport -------------------------------------------------------

  // A response body is bytes; only bodies that decode as UTF-8 have text.
  datatype Body = Utf8(text: string) | Binary(raw: seq<int>)

  function BodyText(b: Body): string {
    match b
    case Utf8(t) => t
    case Binary(_) => ""
  }

  datatype Request = Request(
    verb: string, url: string, headers: map<string, string>, body: Option<Body>)

  datatype Response = Response(status: int, headers: map<string, string>, body: Body)

  datatype HttpError =
    | Generic(msg: string)
    | BadStatus(status: int, failedUrl: string)
    | NoFixture(verb: string, url: string)
    | EvalFailed(detail: string)

  /** What the engine and the evaluator read of a response. */
  datatype Seen = Seen(status: int, headers: map<string, string>, text: string)

  function View(r: Response): Seen {
    Seen(r.status, r.headers, BodyText(r.body))
  }

  function ViewResult(r: Result<Response, HttpError>): Result<Seen, HttpError> {
    match r
    case Ok(resp) => Ok(View(resp))
    case Err(e) => Err(e)
  }

  // Why a fetch was issued: the page of a step, with the `$page` bound for it
  // and the query parameters appended to its URL, or something else (a login
  // or a transport-aware transform).
  datatype Purpose =
    | PageOf(step: string, boundPage: nat, query: seq<(string, string)>)
    | Other

  datatype Fetch = Fetch(purpose: Purpose, req: Request, result: Result<Response, HttpError>)

  // A transport answers a request. It may depend on everything fetched before,
  // as a live server with sessions does, but it answers deterministically.
  type Transport = (seq<Fetch>, Request) -> Result<Response, HttpError>

  // --- recipe ----------------------------------------------------------

  datatype Pagination =
    | PageWithTotal(itemsPath: string, totalPath: string, pageParam: string,
                    pageSize: nat, zeroIndexed: bool)
    | UntilEmpty(itemsPath: string, pageParam: string, zeroIndexed: bool)
    | Cursor(itemsPath: string, cursorPath: string, cursorParam: string)

  datatype RegexExtract = RegexExtract(pattern: string, groups: seq<string>)

  datatype HttpStep = HttpStep(
    name: string, request: string, pagination: Option<Pagination>, extract: Option<RegexExtract>)

  // `fetches` bounds how many transport-aware transform calls the expression makes.
  datatype Expr = Expr(text: string, fetches: nat)

  datatype Binding = Binding(fieldName: string, expr: Expr)

  datatype Emission = Emission(typeName: string, bindings: seq<Binding>, bindName: Option<string>)

  datatype Statement =
    | StepStmt(step: HttpStep)
    | EmitStmt(em: Emission)
    | ForLoop(variable: string, collection: Expr, body: seq<Statement>)

  // --- evaluation ------------------------------------------------------

  /** What evaluating an expression does next, given the replies it has had so far. */
  datatype Ask = Produce(v: Value) | Raise(error: HttpError) | Send(req: Request)

  type Replies = seq<Result<Seen, HttpError>>

  // The evaluator is a record of deterministic functions of the scope.
  datatype Evaluator = Evaluator(
    path: (string, Scope) -> Result<Value, HttpError>,
    url: (HttpStep, Scope) -> Result<string, HttpError>,
    headersAndBody: (HttpStep, Scope, Value) -> Result<(map<string, string>, Option<Body>), HttpError>,
    verb: HttpStep -> string,
    parse: (HttpStep, map<string, string>, string) -> Result<Value, HttpError>,
    regex: (string, string) -> Result<Option<seq<Option<string>>>, HttpError>,
    extract: (Expr, Scope, Replies) -> Ask,
    login: (Scope, Replies) -> Ask)

  datatype Config = Config(ev: Evaluator, transport: Transport, maxRequests: nat)

  /** The evaluator invents no typed reference: it only passes on those in scope. */
  ghost predicate NoInventedRefs(ev: Evaluator) {
    && (forall p, s: Scope :: ev.path(p, s).Ok? ==> Refs(ev.path(p, s).value) <= s.AllRefs())
    && (forall st, hs, text :: ev.parse(st, hs, text).Ok? ==> Refs(ev.parse(st, hs, text).value) == {})
    && (forall e, s: Scope, rs :: ev.extract(e, s, rs).Produce? ==> Refs(ev.extract(e, s, rs).v) <= s.AllRefs())
  }

  ghost predicate HasError(rs: Replies) {
    exists r :: r in rs && r.Err?
  }

  /** The evaluator swallows no failed fetch: once one of its fetches failed, it fails. */
  ghost predicate PropagatesErrors(ev: Evaluator) {
    && (forall e, s: Scope, rs :: HasError(rs) ==> ev.extract(e, s, rs).Raise?)
    && (forall s: Scope, rs :: HasError(rs) ==> ev.login(s, rs).Raise?)
  }
}
