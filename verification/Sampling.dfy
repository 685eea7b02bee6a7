/** A sampled run of a recipe whose top-level loop comes last sees a prefix of the full run. */
module Sampling {
  import opened Wrappers
  import opened Values
  import opened Recipe
  import opened Paginate
  import opened Engine
  import opened EngineInvariants

  predicate NoLoops(body: seq<Statement>) {
    forall s | s in body :: !s.ForLoop?
  }

  /** The cap `a` keeps no more items than the cap `b`. */
  predicate AtMost(a: Option<nat>, b: Option<nat>) {
    b.None? || (a.Some? && a.value <= b.value)
  }

  /** Below the top level the cap plays no part. */
  lemma {:induction false} NestedIgnoresCap(cfg: Config, body: seq<Statement>, token: Value, st: State,
                                            a: Option<nat>, b: Option<nat>)
    ensures RunStatements(cfg, body, token, st, a, false) == RunStatements(cfg, body, token, st, b, false)
    decreases body, 0
  {
    if body != [] {
      match body[0] {
        case ForLoop(variable, collection, inner) =>
          match Extract(cfg, collection, st.scope, st.history) {
            case (Ok(v), h) => LoopIgnoresCap(cfg, Items(v), variable, inner, token, st.(history := h), a, b);
            case _ =>
          }
        case _ =>
      }
      var o := RunStatement(cfg, body[0], token, st, a, false);
      NestedIgnoresCap(cfg, body[1..], token, o.st, a, b);
    }
  }

  lemma {:induction false} LoopIgnoresCap(cfg: Config, items: seq<Value>, variable: string, body: seq<Statement>,
                                          token: Value, st: State, a: Option<nat>, b: Option<nat>)
    ensures RunLoop(cfg, items, variable, body, token, st, a) == RunLoop(cfg, items, variable, body, token, st, b)
    decreases body, |items| + 1
  {
    if items != [] {
      var e := Enter(st, variable, items[0]);
      NestedIgnoresCap(cfg, body, token, e, a, b);
      var o := RunStatements(cfg, body, token, e, a, false);
      LoopIgnoresCap(cfg, items[1..], variable, body, token, Leave(o.st, st.scope.current), a, b);
    }
  }

  lemma {:induction false} LoopFreeIgnoresCap(cfg: Config, body: seq<Statement>, token: Value, st: State,
                                              a: Option<nat>, b: Option<nat>)
    requires NoLoops(body)
    ensures RunStatements(cfg, body, token, st, a, true) == RunStatements(cfg, body, token, st, b, true)
  {
    if body != [] {
      assert !body[0].ForLoop?;
      LoopFreeIgnoresCap(cfg, body[1..], token, RunStatement(cfg, body[0], token, st, a, true).st, a, b);
    }
  }

  /** A loop over `xs + ys` runs over `xs`, then over `ys`. */
  lemma {:induction false} LoopSplits(cfg: Config, xs: seq<Value>, ys: seq<Value>, variable: string,
                                      body: seq<Statement>,
                                      token: Value, st: State, limit: Option<nat>)
    ensures var o := RunLoop(cfg, xs, variable, body, token, st, limit);
            RunLoop(cfg, xs + ys, variable, body, token, st, limit) ==
            (if o.status.Failed? then o else RunLoop(cfg, ys, variable, body, token, o.st, limit))
  {
    if xs == [] {
      assert xs + ys == ys;
    } else {
      assert (xs + ys)[1..] == xs[1..] + ys;
      var o := RunStatements(cfg, body, token, Enter(st, variable, xs[0]), limit, false);
      LoopSplits(cfg, xs[1..], ys, variable, body, token, Leave(o.st, st.scope.current), limit);
    }
  }

  lemma {:induction false} StatementsSplit(cfg: Config, body: seq<Statement>, last: Statement, token: Value,
                                           st: State, limit: Option<nat>)
    ensures var o := RunStatements(cfg, body, token, st, limit, true);
            RunStatements(cfg, body + [last], token, st, limit, true) ==
            (if o.status.Failed? then o else RunStatement(cfg, last, token, o.st, limit, true))
  {
    if body == [] {
      assert (body + [last])[1..] == [];
    } else {
      assert (body + [last])[1..] == body[1..] + [last];
      StatementsSplit(cfg, body[1..], last, token, RunStatement(cfg, body[0], token, st, limit, true).st, limit);
    }
  }

  /** Fewer items of a loop: if the longer run succeeds, the shorter one succeeds with a prefix. */
  lemma {:induction false} LoopPrefix(cfg: Config, items: seq<Value>, a: Option<nat>, b: Option<nat>,
                                      variable: string, body: seq<Statement>,
                   token: Value, st: State)
    requires AtMost(a, b)
    requires RunLoop(cfg, Cap(items, b), variable, body, token, st, b).status.Fine?
    ensures var short, long := RunLoop(cfg, Cap(items, a), variable, body, token, st, a),
        RunLoop(cfg, Cap(items, b), variable, body, token, st, b);
            short.status.Fine? && short.st.records <= long.st.records && short.st.history <= long.st.history
  {
    var xs, all := Cap(items, a), Cap(items, b);
    assert xs <= all;
    assert all == xs + all[|xs|..];
    LoopSplits(cfg, xs, all[|xs|..], variable, body, token, st, b);
    LoopIgnoresCap(cfg, xs, variable, body, token, st, a, b);
    LoopReaches(cfg, all[|xs|..], variable, body, token, RunLoop(cfg, xs, variable, body, token, st, b).st, b);
  }

  // Sampling, against any deterministic transport: with a loop-free head and one final
  // loop, a run capped at `a` makes a prefix of the fetches, and emits a prefix of the
  // records, of any successful run with a wider cap or none.
  lemma {:induction false} SampleIsPrefix(cfg: Config, head: seq<Statement>, loop: Statement, inputs: Frame,
                                          secrets: map<string, string>,
                       a: Option<nat>, b: Option<nat>)
    requires NoLoops(head) && loop.ForLoop? && AtMost(a, b)
    requires RunRecipe(cfg, head + [loop], inputs, secrets, b).status.Fine?
    ensures var sample, full := RunRecipe(cfg, head + [loop], inputs, secrets, a),
        RunRecipe(cfg, head + [loop], inputs, secrets, b);
            sample.status.Fine? && sample.st.records <= full.st.records && sample.st.history <= full.st.history
  {
    var st0 := InitialState(inputs, secrets);
    var (token, h0) := Drive(cfg.transport, replies => cfg.ev.login(st0.scope, replies), 1, [], []);
    var st := st0.(history := h0);
    StatementsSplit(cfg, head, loop, token.value, st, a);
    StatementsSplit(cfg, head, loop, token.value, st, b);
    LoopFreeIgnoresCap(cfg, head, token.value, st, a, b);
    var mid := RunStatements(cfg, head, token.value, st, b, true).st;
    var (v, h) := Extract(cfg, loop.collection, mid.scope, mid.history);
    LoopPrefix(cfg, Items(v.value), a, b, loop.variable, loop.body, token.value, mid.(history := h));
  }

  // --- a statement after the loop -----------------------------------------------

  /** The types the statements may emit, nested loops included. */
  function EmitTypes(body: seq<Statement>): set<string>
    decreases body, 0
  {
    if body == [] then {} else EmitTypesOf(body[0]) + EmitTypes(body[1..])
  }

  function EmitTypesOf(s: Statement): set<string>
    decreases s, 0
  {
    match s
    case StepStmt(_) => {}
    case EmitStmt(em) => {em.typeName}
    case ForLoop(_, _, body) => EmitTypes(body)
  }

  /** `b` extends `a` by records of these types. */
  ghost predicate Adds(a: seq<Record>, b: seq<Record>, types: set<string>) {
    a <= b && forall i | |a| <= i < |b| :: b[i].typeName in types
  }

  lemma {:induction false} AddsTwice(a: seq<Record>, b: seq<Record>, c: seq<Record>, types: set<string>)
    requires Adds(a, b, types) && Adds(b, c, types)
    ensures Adds(a, c, types)
  {
    forall i | |a| <= i < |c| ensures c[i].typeName in types {
      if i < |b| { assert c[i] == b[i]; }
    }
  }

  lemma {:induction false} PagesAddNoRecord(cfg: Config, step: HttpStep, token: Value, st: State,
                                            page: nat, extra: seq<(string, string)>, acc: seq<Value>, d: Progress)
    ensures RunPages(cfg, step, token, st, page, extra, acc, d).st.records == st.records
    decreases cfg.maxRequests - st.requests
  {
    hide ItemsForPage, Advanced;
    PageIsFetched(cfg, step, token, st, page, extra);
    var o := FetchPage(cfg, step, token, st, page, extra);
    hide FetchPage;
    if o.status.Fine? && step.pagination.Some? {
      var p := step.pagination.value;
      match (ItemsForPage(p, cfg.ev, o.st.scope), Advanced(p, d, cfg.ev, o.st.scope)) {
        case (Ok(items), Ok((d', Continue(params)))) =>
          PagesAddNoRecord(cfg, step, token, o.st, page + 1, params, acc + items, d');
        case _ =>
      }
    }
  }

  lemma {:induction false} LoopAdds(cfg: Config, items: seq<Value>, variable: string, body: seq<Statement>,
                                    token: Value, st: State, limit: Option<nat>)
    ensures Adds(st.records, RunLoop(cfg, items, variable, body, token, st, limit).st.records, EmitTypes(body))
    decreases body, |items| + 1
  {
    if items != [] {
      var e := Enter(st, variable, items[0]);
      StatementsAdd(cfg, body, token, e, limit, false);
      var o := RunStatements(cfg, body, token, e, limit, false);
      if o.status.Fine? {
        var left := Leave(o.st, st.scope.current);
        LoopAdds(cfg, items[1..], variable, body, token, left, limit);
        AddsTwice(st.records, left.records, RunLoop(cfg, items[1..], variable, body, token, left, limit).st.records,
                  EmitTypes(body));
      }
    }
  }

  lemma {:induction false} StatementAdds(cfg: Config, s: Statement, token: Value, st: State, limit: Option<nat>,
                                         top: bool)
    ensures Adds(st.records, RunStatement(cfg, s, token, st, limit, top).st.records, EmitTypesOf(s))
    decreases s, 0
  {
    match s {
      case StepStmt(step) => PagesAddNoRecord(cfg, step, token, st, 1, [], [], START);
      case EmitStmt(_) =>
      case ForLoop(variable, collection, body) =>
        match Extract(cfg, collection, st.scope, st.history) {
          case (Ok(v), h) =>
            var items := if top then Cap(Items(v), limit) else Items(v);
            LoopAdds(cfg, items, variable, body, token, st.(history := h), limit);
          case _ =>
        }
    }
  }

  /** Statements only add records, of the types they emit. */
  lemma {:induction false} StatementsAdd(cfg: Config, body: seq<Statement>, token: Value, st: State,
                                         limit: Option<nat>, top: bool)
    ensures Adds(st.records, RunStatements(cfg, body, token, st, limit, top).st.records, EmitTypes(body))
    decreases body, 0
  {
    if body != [] {
      StatementAdds(cfg, body[0], token, st, limit, top);
      var o := RunStatement(cfg, body[0], token, st, limit, top);
      if o.status.Fine? {
        StatementsAdd(cfg, body[1..], token, o.st, limit, top);
        AddsTwice(st.records, o.st.records, RunStatements(cfg, body[1..], token, o.st, limit, top).st.records,
                  EmitTypes(body));
      }
    }
  }

  /** Statements with an emit among them that succeed add a record. */
  lemma {:induction false} EmitAdds(cfg: Config, body: seq<Statement>, token: Value, st: State,
                                    limit: Option<nat>, top: bool)
    requires (exists s :: s in body && s.EmitStmt?) && RunStatements(cfg, body, token, st, limit, top).status.Fine?
    ensures |RunStatements(cfg, body, token, st, limit, top).st.records| > |st.records|
  {
    var o := RunStatement(cfg, body[0], token, st, limit, top);
    StatementAdds(cfg, body[0], token, st, limit, top);
    if body[0].EmitStmt? {
      StatementsAdd(cfg, body[1..], token, o.st, limit, top);
    } else {
      EmitAdds(cfg, body[1..], token, o.st, limit, top);
    }
  }

  /** Statements `xs + ys` are `xs`, then `ys`. */
  lemma {:induction false} TailSplits(cfg: Config, xs: seq<Statement>, ys: seq<Statement>, token: Value,
                                      st: State, limit: Option<nat>)
    ensures var o := RunStatements(cfg, xs, token, st, limit, true);
            RunStatements(cfg, xs + ys, token, st, limit, true) ==
            (if o.status.Failed? then o else RunStatements(cfg, ys, token, o.st, limit, true))
  {
    if xs == [] {
      assert xs + ys == ys;
    } else {
      assert (xs + ys)[1..] == xs[1..] + ys;
      TailSplits(cfg, xs[1..], ys, token, RunStatement(cfg, xs[0], token, st, limit, true).st, limit);
    }
  }

  /** The items of the loop after the statements `head`. */
  function ItemsAfter(cfg: Config, head: seq<Statement>, loop: Statement, inputs: Frame,
                      secrets: map<string, string>): seq<Value>
    requires loop.ForLoop?
  {
    var o := RunRecipe(cfg, head, inputs, secrets, None);
    match Extract(cfg, loop.collection, o.st.scope, o.st.history)
    case (Ok(v), _) => Items(v)
    case _ => []
  }

  // What a loop, an emit and a loop-free rest leave, when the loop sees only its first `a` items and there are more:
  // where the sample emits after the loop, the full run has a record of the loop.
  lemma {:induction false} TailDiffers(cfg: Config, items: seq<Value>, a: nat, loop: Statement, em: Emission,
                                       rest: seq<Statement>, token: Value, st: State)
    requires loop.ForLoop? && NoLoops(rest) && a < |items|
    requires (exists s :: s in loop.body && s.EmitStmt?) && em.typeName !in EmitTypes(loop.body)
    requires RunLoop(cfg, items, loop.variable, loop.body, token, st, None).status.Fine?
    ensures var tail := [EmitStmt(em)] + rest;
      var full := RunLoop(cfg, items, loop.variable, loop.body, token, st, None);
      var cut := RunLoop(cfg, items[..a], loop.variable, loop.body, token, st, None);
      var sample := RunStatements(cfg, tail, token, cut.st, None, true);
      var n := |cut.st.records|;
      && cut.status.Fine?
      && n < |full.st.records| && full.st.records[n].typeName != em.typeName
      && (sample.status.Fine? ==> n < |sample.st.records| && sample.st.records[n].typeName == em.typeName)
  {
    var xs, ys := items[..a], items[a..];
    assert items == xs + ys;
    LoopSplits(cfg, xs, ys, loop.variable, loop.body, token, st, None);
    var cut := RunLoop(cfg, xs, loop.variable, loop.body, token, st, None);
    var full := RunLoop(cfg, items, loop.variable, loop.body, token, st, None);
    var e := Enter(cut.st, loop.variable, ys[0]);
    var o := RunStatements(cfg, loop.body, token, e, None, false);
    EmitAdds(cfg, loop.body, token, e, None, false);
    StatementsAdd(cfg, loop.body, token, e, None, false);
    LoopAdds(cfg, ys[1..], loop.variable, loop.body, token, Leave(o.st, cut.st.scope.current), None);
    assert full.st.records[|cut.st.records|] == o.st.records[|cut.st.records|];
    TailEmits(cfg, em, rest, token, cut.st);
  }

  lemma {:induction false} TailEmits(cfg: Config, em: Emission, rest: seq<Statement>, token: Value, st: State)
    ensures var sample := RunStatements(cfg, [EmitStmt(em)] + rest, token, st, None, true);
      sample.status.Fine? ==>
        |sample.st.records| > |st.records| && sample.st.records[|st.records|].typeName == em.typeName
  {
    var tail := [EmitStmt(em)] + rest;
    assert tail[1..] == rest;
    StatementsAdd(cfg, rest, token, RunEmit(cfg, em, st).st, None, true);
  }

  // When an emit follows the only top-level loop, and the loop emits on each item but never that type, sampling a run
  // that succeeds without a cap gives a prefix of its records exactly when the cap leaves the loop whole.
  lemma {:induction false} TailPrefixIff(cfg: Config, head: seq<Statement>, loop: Statement, em: Emission,
                                         rest: seq<Statement>, inputs: Frame, secrets: map<string, string>, a: nat)
    requires NoLoops(head) && loop.ForLoop? && NoLoops(rest)
    requires (exists s :: s in loop.body && s.EmitStmt?) && em.typeName !in EmitTypes(loop.body)
    requires RunRecipe(cfg, head + [loop] + ([EmitStmt(em)] + rest), inputs, secrets, None).status.Fine?
    ensures var body := head + [loop] + ([EmitStmt(em)] + rest);
      var sample, full := RunRecipe(cfg, body, inputs, secrets, Some(a)), RunRecipe(cfg, body, inputs, secrets, None);
      sample.status.Fine? && sample.st.records <= full.st.records <==>
      |ItemsAfter(cfg, head, loop, inputs, secrets)| <= a
  {
    var tail := [EmitStmt(em)] + rest;
    var st0 := InitialState(inputs, secrets);
    var (token, h0) := Drive(cfg.transport, replies => cfg.ev.login(st0.scope, replies), 1, [], []);
    var st := st0.(history := h0);
    var t := token.value;
    var mid := RunStatements(cfg, head, t, st, None, true);
    TailSplits(cfg, head + [loop], tail, t, st, None);
    TailSplits(cfg, head + [loop], tail, t, st, Some(a));
    StatementsSplit(cfg, head, loop, t, st, None);
    StatementsSplit(cfg, head, loop, t, st, Some(a));
    LoopFreeIgnoresCap(cfg, head, t, st, Some(a), None);
    var (v, h) := Extract(cfg, loop.collection, mid.st.scope, mid.st.history);
    var items, at := Items(v.value), mid.st.(history := h);
    assert items == ItemsAfter(cfg, head, loop, inputs, secrets);
    TailAfterLoop(cfg, items, loop, em, rest, t, at, a);
  }

  lemma {:induction false} TailAfterLoop(cfg: Config, items: seq<Value>, loop: Statement, em: Emission,
                                         rest: seq<Statement>, token: Value, st: State, a: nat)
    requires loop.ForLoop? && NoLoops(rest)
    requires (exists s :: s in loop.body && s.EmitStmt?) && em.typeName !in EmitTypes(loop.body)
    requires RunLoop(cfg, items, loop.variable, loop.body, token, st, None).status.Fine?
    ensures var tail := [EmitStmt(em)] + rest;
      var full := RunLoop(cfg, items, loop.variable, loop.body, token, st, None);
      var cut := RunLoop(cfg, Cap(items, Some(a)), loop.variable, loop.body, token, st, Some(a));
      var fullEnd := RunStatements(cfg, tail, token, full.st, None, true);
      var cutEnd := RunStatements(cfg, tail, token, cut.st, Some(a), true);
      && cut.status.Fine?
      && (fullEnd.status.Fine? ==>
            (cutEnd.status.Fine? && cutEnd.st.records <= fullEnd.st.records <==> |items| <= a))
  {
    var tail := [EmitStmt(em)] + rest;
    var full := RunLoop(cfg, items, loop.variable, loop.body, token, st, None);
    LoopIgnoresCap(cfg, Cap(items, Some(a)), loop.variable, loop.body, token, st, Some(a), None);
    var cut := RunLoop(cfg, Cap(items, Some(a)), loop.variable, loop.body, token, st, None);
    assert NoLoops(tail);
    LoopFreeIgnoresCap(cfg, tail, token, cut.st, Some(a), None);
    StatementsAdd(cfg, tail, token, full.st, None, true);
    if a < |items| {
      TailDiffers(cfg, items, a, loop, em, rest, token, st);
    }
  }
}
