/**
Recording a composition. The stages of a recorded run share one transport, so a stage sees
a server that has answered the stages before it, and the captures of all of them replay it.
*/
module PipelineReplay {
  import opened Wrappers
  import opened Values
  import opened Recipe
  import opened Engine
  import opened EngineInvariants
  import opened Linked
  import opened Runtime
  import opened HttpDriver
  import opened Replay

  // What a run over the HTTP engine is given: the engine's configuration, and what each file declares and does.
  datatype Setup = Setup(
    cfg: Config,
    decls: File -> seq<InputDecl>,
    program: File -> seq<Statement>,
    secrets: map<string, string>,
    limit: Option<nat>,
    asValue: Record -> Value,
    text: HttpError -> string,
    noBrowser: string)
  {
    function Replaying(log: seq<HttpExchange>): Setup {
      this.(cfg := Replayed(cfg, log))
    }
  }

  // --- a run whose stages share a transport --------------------------------

  /** The transport once it has answered `h`. */
  function After(t: Transport, h: seq<Fetch>): Transport {
    (h', req) => t(h + h', req)
  }

  function ConfigAfter(su: Setup, h: seq<Fetch>): Config {
    su.cfg.(transport := After(su.cfg.transport, h))
  }

  function HttpStage(su: Setup, f: File, inputs: Frame, prior: PriorRecords, h: seq<Fetch>):
    (Result<Snapshot, HttpError>, seq<Fetch>)
  {
    Stage(ConfigAfter(su, h), su.decls(f), su.program(f), inputs, prior, su.secrets, su.limit, su.asValue)
  }

  function DriversAfter(su: Setup, h: seq<Fetch>): Drivers {
    Drivers((f, inputs, prior) =>
              match HttpStage(su, f, inputs, prior, h).0
              case Ok(s) => Ok(s)
              case Err(e) => Err(su.text(e)),
            (f, inputs, prior) => Err(su.noBrowser))
  }

  function RunLeafAfter(su: Setup, f: File, inputs: Frame, prior: PriorRecords, h: seq<Fetch>): (Ran, seq<Fetch>) {
    (RunScraping(f, inputs, DriversAfter(su, h), prior),
     if f.header.Some? && f.header.value.engine.Http? then h + HttpStage(su, f, inputs, prior, h).1 else h)
  }

  /** How a node ends after the fetches `h`, and all fetches then. `None` when nested deeper than `depth`. */
  function RunNodeAfter(su: Setup, m: LinkedModule, node: LinkedRecipe, inputs: Frame, prior: PriorRecords,
                        depth: nat, h: seq<Fetch>): Option<(Ran, seq<Fetch>)>
    decreases depth, 0
  {
    var f := node.file;
    if !f.body.Composition? then
      Some(RunLeafAfter(su, f, inputs, prior, h))
    else if depth == 0 then None
    else RunStagesAfter(su, m, NameOf(f), f.body.stages, inputs, NO_PRIOR, None, depth - 1, h)
  }

  function RunStagesAfter(su: Setup, m: LinkedModule, name: string, stages: seq<RecipeRef>, inputs: Frame,
                          prior: PriorRecords, last: Option<Snapshot>, depth: nat, h: seq<Fetch>):
    Option<(Ran, seq<Fetch>)>
    decreases depth, |stages| + 1
  {
    if stages == [] then
      Some((if last.Some? then Ok(last.value) else Err(ZeroStages(name)), h))
    else
      match m.Stage(stages[0].name)
      case None => Some((Err(UnresolvedStage(stages[0].name)), h))
      case Some(stage) =>
        match RunNodeAfter(su, m, stage, inputs, prior, depth, h)
        case None => None
        case Some((Err(e), h')) => Some((Err(e), h'))
        case Some((Ok(s), h')) => RunStagesAfter(su, m, name, stages[1..], map[], DerivePrior(s), Some(s), depth, h')
  }

  // --- the shared history --------------------------------------------------

  lemma {:induction false} GenuineAfter(t: Transport, h: seq<Fetch>, more: seq<Fetch>)
    requires Genuine(t, h) && Genuine(After(t, h), more)
    ensures Genuine(t, h + more)
  {
    var all := h + more;
    forall i | 0 <= i < |all| ensures all[i].result == t(all[..i], all[i].req) {
      if i < |h| {
        assert all[..i] == h[..i];
      } else {
        assert all[..i] == h + more[..i - |h|];
      }
    }
  }

  /** The history grew, genuine if it was, and a piece that succeeded had all its fetches answered. */
  ghost predicate Grown(su: Setup, h: seq<Fetch>, now: seq<Fetch>, ok: bool) {
    && h <= now
    && (Genuine(su.cfg.transport, h) ==> Genuine(su.cfg.transport, now))
    && (PropagatesErrors(su.cfg.ev) && AllAnswered(h) && ok ==> AllAnswered(now))
  }

  lemma {:induction false} StageGrows(su: Setup, f: File, inputs: Frame, prior: PriorRecords, h: seq<Fetch>)
    ensures var (r, more) := HttpStage(su, f, inputs, prior, h); Grown(su, h, h + more, r.Ok?)
  {
    var bound := if prior.records == [] then Ok(inputs) else Bound(su.decls(f), prior, inputs, su.asValue);
    if bound.Ok? {
      BudgetHolds(ConfigAfter(su, h), su.program(f), bound.value, su.secrets, su.limit);
    }
    var more := HttpStage(su, f, inputs, prior, h).1;
    if Genuine(su.cfg.transport, h) {
      GenuineAfter(su.cfg.transport, h, more);
    }
  }

  lemma {:induction false} NodeGrows(su: Setup, m: LinkedModule, node: LinkedRecipe, inputs: Frame,
                                     prior: PriorRecords, depth: nat, h: seq<Fetch>)
    requires RunNodeAfter(su, m, node, inputs, prior, depth, h).Some?
    ensures var (r, now) := RunNodeAfter(su, m, node, inputs, prior, depth, h).value; Grown(su, h, now, r.Ok?)
    decreases depth, 0
  {
    if node.file.body.Composition? {
      StagesGrow(su, m, NameOf(node.file), node.file.body.stages, inputs, NO_PRIOR, None, depth - 1, h);
    } else {
      StageGrows(su, node.file, inputs, prior, h);
    }
  }

  lemma {:induction false} StagesGrow(su: Setup, m: LinkedModule, name: string, stages: seq<RecipeRef>, inputs: Frame,
                                      prior: PriorRecords, last: Option<Snapshot>, depth: nat, h: seq<Fetch>)
    requires RunStagesAfter(su, m, name, stages, inputs, prior, last, depth, h).Some?
    ensures var (r, now) := RunStagesAfter(su, m, name, stages, inputs, prior, last, depth, h).value;
            Grown(su, h, now, r.Ok?)
    decreases depth, |stages| + 1
  {
    if stages != [] && m.Stage(stages[0].name).Some? {
      var stage := m.Stage(stages[0].name).value;
      NodeGrows(su, m, stage, inputs, prior, depth, h);
      match RunNodeAfter(su, m, stage, inputs, prior, depth, h).value {
        case (Ok(s), h') => StagesGrow(su, m, name, stages[1..], map[], DerivePrior(s), Some(s), depth, h');
        case _ =>
      }
    }
  }

  // --- two runs that agree -------------------------------------------------

  // A stage on a log that answers its fetches as they were answered does what it did, wherever in a run it comes.
  lemma {:induction false} StageAgrees(su: Setup, log: seq<HttpExchange>, f: File, inputs: Frame,
                                       prior: PriorRecords, h: seq<Fetch>, h': seq<Fetch>)
    requires Answers(log, HttpStage(su, f, inputs, prior, h).1)
    ensures var a, b := HttpStage(su, f, inputs, prior, h), HttpStage(su.Replaying(log), f, inputs, prior, h');
            a.0 == b.0 && SameView(a.1, b.1)
  {
    var bound := if prior.records == [] then Ok(inputs) else Bound(su.decls(f), prior, inputs, su.asValue);
    if bound.Ok? {
      var live, replay := ConfigAfter(su, h), ConfigAfter(su.Replaying(log), h');
      RunAgrees(live, log, su.program(f), bound.value, su.secrets, su.limit);
      BudgetHolds(replay, su.program(f), bound.value, su.secrets, su.limit);
      RunAgrees(replay, log, su.program(f), bound.value, su.secrets, su.limit);
      assert Replayed(live, log) == Replayed(replay, log);
    }
  }

  lemma {:induction false} LaterAnswered(log: seq<HttpExchange>, h: seq<Fetch>, more: seq<Fetch>)
    requires Answers(log, h + more)
    ensures Answers(log, more)
  {
    assert forall f | f in more :: f in h + more;
  }

  lemma {:induction false} ViewsJoin(h: seq<Fetch>, more: seq<Fetch>, h': seq<Fetch>, more': seq<Fetch>)
    requires SameView(h, h') && SameView(more, more')
    ensures SameView(h + more, h' + more')
  {
  }

  lemma {:induction false} LeafAgrees(su: Setup, log: seq<HttpExchange>, f: File, inputs: Frame,
                                      prior: PriorRecords, h: seq<Fetch>, h': seq<Fetch>)
    requires SameView(h, h') && Answers(log, RunLeafAfter(su, f, inputs, prior, h).1)
    ensures var a, b := RunLeafAfter(su, f, inputs, prior, h), RunLeafAfter(su.Replaying(log), f, inputs, prior, h');
            a.0 == b.0 && SameView(a.1, b.1)
  {
    hide HttpStage, Answers, SameView;
    if f.header.Some? && f.header.value.engine.Http? {
      var a, b := HttpStage(su, f, inputs, prior, h), HttpStage(su.Replaying(log), f, inputs, prior, h');
      LaterAnswered(log, h, a.1);
      StageAgrees(su, log, f, inputs, prior, h, h');
      ViewsJoin(h, a.1, h', b.1);
    }
  }

  lemma {:induction false} NodeAgrees(su: Setup, log: seq<HttpExchange>, m: LinkedModule, node: LinkedRecipe,
                                      inputs: Frame, prior: PriorRecords, depth: nat, h: seq<Fetch>, h': seq<Fetch>)
    requires SameView(h, h') && RunNodeAfter(su, m, node, inputs, prior, depth, h).Some?
    requires Answers(log, RunNodeAfter(su, m, node, inputs, prior, depth, h).value.1)
    ensures var a, b := RunNodeAfter(su, m, node, inputs, prior, depth, h),
                        RunNodeAfter(su.Replaying(log), m, node, inputs, prior, depth, h');
            b.Some? && a.value.0 == b.value.0 && SameView(a.value.1, b.value.1)
    decreases depth, 0
  {
    var f := node.file;
    if f.body.Composition? {
      StagesAgree(su, log, m, NameOf(f), f.body.stages, inputs, NO_PRIOR, None, depth - 1, h, h');
    } else {
      LeafAgrees(su, log, f, inputs, prior, h, h');
    }
  }

  lemma {:induction false} StagesAgree(su: Setup, log: seq<HttpExchange>, m: LinkedModule, name: string,
                                       stages: seq<RecipeRef>, inputs: Frame, prior: PriorRecords,
                                       last: Option<Snapshot>, depth: nat, h: seq<Fetch>, h': seq<Fetch>)
    requires SameView(h, h') && RunStagesAfter(su, m, name, stages, inputs, prior, last, depth, h).Some?
    requires Answers(log, RunStagesAfter(su, m, name, stages, inputs, prior, last, depth, h).value.1)
    ensures var a, b := RunStagesAfter(su, m, name, stages, inputs, prior, last, depth, h),
                        RunStagesAfter(su.Replaying(log), m, name, stages, inputs, prior, last, depth, h');
            b.Some? && a.value.0 == b.value.0 && SameView(a.value.1, b.value.1)
    decreases depth, |stages| + 1
  {
    if stages != [] && m.Stage(stages[0].name).Some? {
      var stage := m.Stage(stages[0].name).value;
      var (r, g) := RunNodeAfter(su, m, stage, inputs, prior, depth, h).value;
      if r.Ok? {
        StagesGrow(su, m, name, stages[1..], map[], DerivePrior(r.value), Some(r.value), depth, g);
        AnswersPrefix(log, g, RunStagesAfter(su, m, name, stages, inputs, prior, last, depth, h).value.1);
      }
      NodeAgrees(su, log, m, stage, inputs, prior, depth, h, h');
      if r.Ok? {
        var g' := RunNodeAfter(su.Replaying(log), m, stage, inputs, prior, depth, h').value.1;
        StagesAgree(su, log, m, name, stages[1..], map[], DerivePrior(r.value), Some(r.value), depth, g, g');
      }
    }
  }

  // --- a replay is a run of the runtime ------------------------------------

  /** What a stage gives does not depend on the fetches before it. */
  ghost predicate Memoryless(su: Setup) {
    forall f, inputs, prior, h :: HttpStage(su, f, inputs, prior, h).0 == HttpStage(su, f, inputs, prior, []).0
  }

  lemma {:induction false} ReplayIsMemoryless(su: Setup, log: seq<HttpExchange>)
    ensures Memoryless(su.Replaying(log))
  {
    var replay := su.Replaying(log);
    assert replay.Replaying(log) == replay;
    forall f, inputs, prior, h
      ensures HttpStage(replay, f, inputs, prior, h).0 == HttpStage(replay, f, inputs, prior, []).0
    {
      var bound := if prior.records == [] then Ok(inputs) else Bound(replay.decls(f), prior, inputs, replay.asValue);
      if bound.Ok? {
        BudgetHolds(ConfigAfter(replay, h), replay.program(f), bound.value, replay.secrets, replay.limit);
        StageAgrees(replay, log, f, inputs, prior, h, []);
      }
    }
  }

  lemma {:induction false} NodeIsRuntime(su: Setup, m: LinkedModule, node: LinkedRecipe, inputs: Frame,
                                         prior: PriorRecords, depth: nat, h: seq<Fetch>)
    requires Memoryless(su)
    ensures var r := RunNodeAfter(su, m, node, inputs, prior, depth, h);
            RunNode(m, node, inputs, DriversAfter(su, []), prior, depth) == if r.Some? then Some(r.value.0) else None
    decreases depth, 0
  {
    if node.file.body.Composition? {
      if depth > 0 {
        StagesAreRuntime(su, m, NameOf(node.file), node.file.body.stages, inputs, NO_PRIOR, None, depth - 1, h);
      }
    } else {
      assert HttpStage(su, node.file, inputs, prior, h).0 == HttpStage(su, node.file, inputs, prior, []).0;
    }
  }

  lemma {:induction false} StagesAreRuntime(su: Setup, m: LinkedModule, name: string, stages: seq<RecipeRef>,
                                            inputs: Frame, prior: PriorRecords, last: Option<Snapshot>, depth: nat,
                                            h: seq<Fetch>)
    requires Memoryless(su)
    ensures var r := RunStagesAfter(su, m, name, stages, inputs, prior, last, depth, h);
            RunStages(m, name, stages, inputs, DriversAfter(su, []), prior, last, depth)
            == if r.Some? then Some(r.value.0) else None
    decreases depth, |stages| + 1
  {
    if stages != [] && m.Stage(stages[0].name).Some? {
      var stage := m.Stage(stages[0].name).value;
      NodeIsRuntime(su, m, stage, inputs, prior, depth, h);
      match RunNodeAfter(su, m, stage, inputs, prior, depth, h) {
        case Some((Ok(s), h')) =>
          StagesAreRuntime(su, m, name, stages[1..], map[], DerivePrior(s), Some(s), depth, h');
        case _ =>
      }
    }
  }

  // --- record, then replay -------------------------------------------------

  // A recorded run of a composition, all of whose fetches were answered, is reproduced by its captures, fetch by
  // fetch and stage by stage, exactly when no two captures that share a key differ in their answer.
  lemma {:induction false} PipelineReplayIff(su: Setup, m: LinkedModule, node: LinkedRecipe, inputs: Frame,
                                             depth: nat)
    requires RunNodeAfter(su, m, node, inputs, NO_PRIOR, depth, []).Some?
    requires AllAnswered(RunNodeAfter(su, m, node, inputs, NO_PRIOR, depth, []).value.1)
    ensures var a := RunNodeAfter(su, m, node, inputs, NO_PRIOR, depth, []);
            var log := Captures(a.value.1);
            var b := RunNodeAfter(su.Replaying(log), m, node, inputs, NO_PRIOR, depth, []);
            && (Unambiguous(log) <==> b.Some? && SameView(a.value.1, b.value.1))
            && (Unambiguous(log) ==> b.value.0 == a.value.0)
  {
    var a := RunNodeAfter(su, m, node, inputs, NO_PRIOR, depth, []).value;
    var log := Captures(a.1);
    var b := RunNodeAfter(su.Replaying(log), m, node, inputs, NO_PRIOR, depth, []);
    if Unambiguous(log) {
      UnambiguousAnswers(a.1);
      NodeAgrees(su, log, m, node, inputs, NO_PRIOR, depth, [], []);
    }
    if b.Some? && SameView(a.1, b.value.1) {
      NodeGrows(su.Replaying(log), m, node, inputs, NO_PRIOR, depth, []);
      forall f | f in a.1 ensures ViewResult(FirstMatch(log, f.req)) == ViewResult(f.result) {
        var i :| 0 <= i < |a.1| && a.1[i] == f;
        assert b.value.1[i].result == FirstMatch(log, f.req);
      }
      AnswersUnambiguous(a.1);
    }
  }

  // `forage record`, then `--replay`, on a composition: a recorded run that succeeded succeeds again, with the same
  // snapshot. The replay is a plain run of the runtime over drivers that answer from the captures.
  lemma {:induction false} RecordThenReplayPipeline(su: Setup, m: LinkedModule, node: LinkedRecipe, inputs: Frame,
                                                    depth: nat)
    requires AnswersByKey(su.cfg.transport) && PropagatesErrors(su.cfg.ev)
    requires var a := RunNodeAfter(su, m, node, inputs, NO_PRIOR, depth, []); a.Some? && a.value.0.Ok?
    ensures var a := RunNodeAfter(su, m, node, inputs, NO_PRIOR, depth, []).value;
            var replay := DriversAfter(su.Replaying(Captures(a.1)), []);
            RunNode(m, node, inputs, replay, NO_PRIOR, depth) == Some(a.0)
  {
    var a := RunNodeAfter(su, m, node, inputs, NO_PRIOR, depth, []).value;
    NodeGrows(su, m, node, inputs, NO_PRIOR, depth, []);
    ByKeyIsUnambiguous(su.cfg.transport, a.1);
    PipelineReplayIff(su, m, node, inputs, depth);
    ReplayIsMemoryless(su, Captures(a.1));
    NodeIsRuntime(su.Replaying(Captures(a.1)), m, node, inputs, NO_PRIOR, depth, []);
  }
}
