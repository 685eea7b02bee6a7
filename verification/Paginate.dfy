/** Pagination drivers: what to request after a page has been read. */
module Paginate {
  import opened Wrappers
  import opened Values
  import opened Recipe

  datatype NextPage = Stop | Continue(params: seq<(string, string)>)

  /** The counters of a driver. */
  datatype Progress = Progress(accumulated: int, page: nat)

  const START := Progress(0, 1)

  predicate Numbered(p: Pagination) {
    p.PageWithTotal? || p.UntilEmpty?
  }

  predicate ZeroIndexed(p: Pagination) {
    Numbered(p) && p.zeroIndexed
  }

  /** The page number a server is told when the engine is on its page-th page. */
  function WirePage(zeroIndexed: bool, page: nat): nat {
    if zeroIndexed && page > 0 then page - 1 else page
  }

  /** The number of items a driver counts on a page: only an array counts. */
  function Counted(v: Value): nat {
    if v.Arr? then |v.items| else 0
  }

  const I64_MIN := -0x8000_0000_0000_0000
  const I64_MAX := 0x7fff_ffff_ffff_ffff

  /** Conversion of a double to a 64-bit integer: toward zero, saturating. */
  function DoubleToInt(d: real): (n: int)
    ensures I64_MIN <= n <= I64_MAX
    ensures 0.0 <= d <= I64_MAX as real ==> n as real <= d < n as real + 1.0
    ensures I64_MIN as real <= d <= 0.0 ==> n as real - 1.0 < d <= n as real
    ensures d > I64_MAX as real ==> n == I64_MAX
    ensures d < I64_MIN as real ==> n == I64_MIN
  {
    var t := if d >= 0.0 then d.Floor else -((-d).Floor);
    if t < I64_MIN then I64_MIN else if t > I64_MAX then I64_MAX else t
  }

  function Total(v: Value): int {
    match v
    case Int(n) => n
    case Double(d) => DoubleToInt(d)
    case _ => 0
  }

  type Step = Result<(Progress, NextPage), HttpError>

  /** One move of a driver, as a function of its counters and the scope. */
  function Advanced(p: Pagination, d: Progress, ev: Evaluator, scope: Scope): Step {
    match p
    case PageWithTotal(itemsPath, totalPath, pageParam, pageSize, zeroIndexed) =>
      (match ev.path(itemsPath, scope)
       case Err(e) => Err(e)
       case Ok(items) =>
         match ev.path(totalPath, scope)
         case Err(e) => Err(e)
         case Ok(total) =>
           var sum := d.accumulated + Counted(items);
           if sum >= Total(total) || Counted(items) == 0 then Ok((d.(accumulated := sum), Stop))
           else Ok((Progress(sum, d.page + 1),
                    Continue([(pageParam, Decimal(WirePage(zeroIndexed, d.page + 1))),
                              ("pageSize", Decimal(pageSize))]))))
    case UntilEmpty(itemsPath, pageParam, zeroIndexed) =>
      (match ev.path(itemsPath, scope)
       case Err(e) => Err(e)
       case Ok(items) =>
         if Counted(items) == 0 then Ok((d, Stop))
         else Ok((d.(page := d.page + 1),
                  Continue([(pageParam, Decimal(WirePage(zeroIndexed, d.page + 1)))]))))
    case Cursor(_, cursorPath, cursorParam) =>
      (match ev.path(cursorPath, scope)
       case Err(e) => Err(e)
       case Ok(c) =>
         if c.Str? && c.s != "" then Ok((d, Continue([(cursorParam, c.s)])))
         else Ok((d, Stop)))
  }

  /** The stateful driver the engine creates for one run of a paginated step. */
  class PaginationDriver {
    const strategy: Pagination
    var accumulated: int
    var page: nat

    constructor (strategy: Pagination)
      ensures this.strategy == strategy && Counters() == START
    {
      this.strategy := strategy;
      accumulated, page := 0, 1;
    }

    function Counters(): Progress
      reads this
    {
      Progress(accumulated, page)
    }

    method Advance(ev: Evaluator, scope: Scope) returns (r: Result<NextPage, HttpError>)
      modifies this
      ensures match Advanced(strategy, old(Counters()), ev, scope)
              case Ok((d, n)) => r == Ok(n) && Counters() == d
              case Err(e) => r == Err(e) && Counters() == old(Counters())
    {
      match strategy {
        case PageWithTotal(itemsPath, totalPath, pageParam, pageSize, zeroIndexed) =>
          var items := ev.path(itemsPath, scope);
          if items.Err? { return Err(items.error); }
          var total := ev.path(totalPath, scope);
          if total.Err? { return Err(total.error); }
          var newCount := Counted(items.value);
          accumulated := accumulated + newCount;
          if accumulated >= Total(total.value) || newCount == 0 { return Ok(Stop); }
          page := page + 1;
          var n := if zeroIndexed then page - 1 else page;
          return Ok(Continue([(pageParam, Decimal(n)), ("pageSize", Decimal(pageSize))]));
        case UntilEmpty(itemsPath, pageParam, zeroIndexed) =>
          var items := ev.path(itemsPath, scope);
          if items.Err? { return Err(items.error); }
          if Counted(items.value) == 0 { return Ok(Stop); }
          page := page + 1;
          var n := if zeroIndexed then page - 1 else page;
          return Ok(Continue([(pageParam, Decimal(n))]));
        case Cursor(_, cursorPath, cursorParam) =>
          var cursor := ev.path(cursorPath, scope);
          if cursor.Err? { return Err(cursor.error); }
          if cursor.value.Str? && cursor.value.s != "" {
            return Ok(Continue([(cursorParam, cursor.value.s)]));
          }
          return Ok(Stop);
      }
    }
  }
}
