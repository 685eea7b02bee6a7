/**
The composition runtime. A composition runs its stages in order, each fed the records
of the one before; nested compositions recurse. `depth` bounds the nesting the functions
follow; on an acyclic module the bound is never reached.
*/
module Runtime {
  import opened Wrappers
  import opened Values
  import opened Linked

  type Snapshot = seq<Record>

  datatype PriorRecords = PriorRecords(records: seq<Record>, typeName: string)

  const NO_PRIOR := PriorRecords([], "")

  datatype RunError =
    | Driver(msg: string)
    | BrowserDownstream(stage: string)
    | HeaderlessRoot
    | UnresolvedStage(name: string)
    | ZeroStages(composition: string)

  type RecipeDriver = (File, Frame, PriorRecords) -> Result<Snapshot, string>

  datatype Drivers = Drivers(http: RecipeDriver, browser: RecipeDriver)

  type Ran = Result<Snapshot, RunError>

  function NameOf(f: File): string {
    if f.header.Some? then f.header.value.name else "<unknown>"
  }

  function RunScraping(f: File, inputs: Frame, ds: Drivers, prior: PriorRecords): Ran {
    if f.header.None? then Err(HeaderlessRoot)
    else if f.header.value.engine.Browser? && prior.records != [] then Err(BrowserDownstream(NameOf(f)))
    else
      match (if f.header.value.engine.Http? then ds.http else ds.browser)(f, inputs, prior)
      case Ok(s) => Ok(s)
      case Err(e) => Err(Driver(e))
  }

  function FirstType(records: seq<Record>): string {
    if records == [] then ""
    else if records[0].typeName != "" then records[0].typeName
    else FirstType(records[1..])
  }

  // All records of a snapshot pass on, in order, under the first type name that is not empty.
  ghost predicate Passes(s: Snapshot, prior: PriorRecords) {
    && prior.records == s
    && if forall r | r in s :: r.typeName == "" then prior.typeName == ""
       else
         exists i ::
           0 <= i < |s| && s[i].typeName == prior.typeName != "" && forall j | 0 <= j < i :: s[j].typeName == ""
  }

  lemma {:induction false} FirstTypeIs(s: Snapshot)
    ensures Passes(s, DerivePrior(s))
  {
    if s != [] && s[0].typeName == "" {
      FirstTypeIs(s[1..]);
      assert s == [s[0]] + s[1..];
      if i :| 0 <= i < |s| - 1 && s[1..][i].typeName == FirstType(s[1..]) != ""
              && forall j | 0 <= j < i :: s[1..][j].typeName == "" {
        assert s[i + 1] == s[1..][i];
        assert forall j | 1 <= j < i + 1 :: s[j] == s[1..][j - 1];
      }
    }
  }

  function DerivePrior(s: Snapshot): PriorRecords {
    PriorRecords(s, FirstType(s))
  }

  // --- the runtime as a function ------------------------------------------

  /** `None` when the nesting goes deeper than `depth`. */
  function RunNode(m: LinkedModule, node: LinkedRecipe, inputs: Frame, ds: Drivers, prior: PriorRecords,
                   depth: nat): Option<Ran>
    decreases depth, 0
  {
    if !node.file.body.Composition? then Some(RunScraping(node.file, inputs, ds, prior))
    else if depth == 0 then None
    else RunStages(m, NameOf(node.file), node.file.body.stages, inputs, ds, NO_PRIOR, None, depth - 1)
  }

  function RunStages(m: LinkedModule, name: string, stages: seq<RecipeRef>, inputs: Frame, ds: Drivers,
                     prior: PriorRecords, last: Option<Snapshot>, depth: nat): Option<Ran>
    decreases depth, |stages| + 1
  {
    if stages == [] then
      Some(if last.Some? then Ok(last.value) else Err(ZeroStages(name)))
    else
      match m.Stage(stages[0].name)
      case None => Some(Err(UnresolvedStage(stages[0].name)))
      case Some(stage) =>
        match RunNode(m, stage, inputs, ds, prior, depth)
        case None => None
        case Some(Err(e)) => Some(Err(e))
        case Some(Ok(s)) => RunStages(m, name, stages[1..], map[], ds, DerivePrior(s), Some(s), depth)
  }

  /** A depth that an acyclic module never exceeds below the end of the chain `p`. */
  function Room(m: LinkedModule, p: seq<string>): nat {
    if |p| <= |m.Names()| then |m.Names()| - |p| + 1 else 0
  }

  /** `node` is the root, or the recipe the chain leads to. */
  ghost predicate Leads(m: LinkedModule, p: seq<string>, node: LinkedRecipe) {
    m.Below(m.root, p) && (if p == [] then node == m.root else m.Stage(p[|p| - 1]) == Some(node))
  }

  lemma {:induction false} LeadsOn(m: LinkedModule, p: seq<string>, node: LinkedRecipe, r: RecipeRef)
    requires m.Acyclic() && Leads(m, p, node) && r in StagesOf(node.file) && m.Stage(r.name).Some?
    ensures Leads(m, p + [r.name], m.Stage(r.name).value)
    ensures |p| < |m.Names()| && Room(m, p + [r.name]) == Room(m, p) - 1
  {
    var q := p + [r.name];
    assert m.Refers(node, r.name);
    assert m.Chain([r.name]);
    if p != [] {
      m.BelowExtends(m.root, p, [r.name]);
    } else {
      assert q == [r.name];
    }
    m.ChainIsShort(q);
  }

  // On an acyclic, closed module without empty compositions, every node runs to an end,
  // and the only errors are those of its leaves.
  lemma {:induction false} NodeEnds(m: LinkedModule, p: seq<string>, node: LinkedRecipe, inputs: Frame,
                                    ds: Drivers, prior: PriorRecords, depth: nat)
    requires m.Acyclic() && Leads(m, p, node)
    requires depth >= Room(m, p)
    ensures var r := RunNode(m, node, inputs, ds, prior, depth);
            && r.Some?
            && (m.Closed() && m.NoEmptyComposition() && r.value.Err? ==>
                  !r.value.error.UnresolvedStage? && !r.value.error.ZeroStages?)
    decreases depth, 0
  {
    hide LinkedModule.Chain, LinkedModule.NodeResolves;
    m.ChainIsShort(p);
    if node.file.body.Composition? {
      StagesEnd(m, p, node, node.file.body.stages, inputs, ds, NO_PRIOR, None, depth - 1);
    }
  }

  lemma {:induction false} StagesEnd(m: LinkedModule, p: seq<string>, node: LinkedRecipe, stages: seq<RecipeRef>,
                                     inputs: Frame, ds: Drivers,
                                     prior: PriorRecords, last: Option<Snapshot>, depth: nat)
    requires m.Acyclic() && Leads(m, p, node)
    requires forall r | r in stages :: r in StagesOf(node.file)
    requires depth + 1 >= Room(m, p)
    ensures var r := RunStages(m, NameOf(node.file), stages, inputs, ds, prior, last, depth);
            && r.Some?
            && (m.Closed() && m.NoEmptyComposition() && (stages != [] || last.Some?) && r.value.Err? ==>
                  !r.value.error.UnresolvedStage? && !r.value.error.ZeroStages?)
    decreases depth, |stages| + 1
  {
    if stages != [] {
      if m.Closed() {
        assert m.NodeResolves(node);
        assert m.Stage(stages[0].name).Some?;
      }
      match m.Stage(stages[0].name) {
        case Some(stage) =>
          LeadsOn(m, p, node, stages[0]);
          NodeEnds(m, p + [stages[0].name], stage, inputs, ds, prior, depth);
          match RunNode(m, stage, inputs, ds, prior, depth) {
            case Some(Ok(s)) => StagesEnd(m, p, node, stages[1..], map[], ds, DerivePrior(s), Some(s), depth);
            case _ =>
          }
        case None =>
      }
    }
  }

  /** A run that ended within one depth ends the same way within any greater one. */
  lemma {:induction false} DeeperIsSame(m: LinkedModule, node: LinkedRecipe, inputs: Frame, ds: Drivers,
                                        prior: PriorRecords, depth: nat, deeper: nat)
    requires depth <= deeper && RunNode(m, node, inputs, ds, prior, depth).Some?
    ensures RunNode(m, node, inputs, ds, prior, deeper) == RunNode(m, node, inputs, ds, prior, depth)
    decreases depth, 0
  {
    if node.file.body.Composition? {
      DeeperStagesSame(m, NameOf(node.file), node.file.body.stages, inputs, ds, NO_PRIOR, None, depth - 1, deeper - 1);
    }
  }

  lemma {:induction false} DeeperStagesSame(m: LinkedModule, name: string, stages: seq<RecipeRef>, inputs: Frame,
                                            ds: Drivers,
                                            prior: PriorRecords, last: Option<Snapshot>, depth: nat, deeper: nat)
    requires depth <= deeper && RunStages(m, name, stages, inputs, ds, prior, last, depth).Some?
    ensures RunStages(m, name, stages, inputs, ds, prior, last, deeper)
        == RunStages(m, name, stages, inputs, ds, prior, last, depth)
    decreases depth, |stages| + 1
  {
    if stages != [] && m.Stage(stages[0].name).Some? {
      var stage := m.Stage(stages[0].name).value;
      DeeperIsSame(m, stage, inputs, ds, prior, depth, deeper);
      match RunNode(m, stage, inputs, ds, prior, depth) {
        case Some(Ok(s)) => DeeperStagesSame(m, name, stages[1..], map[], ds, DerivePrior(s), Some(s), depth, deeper);
        case _ =>
      }
    }
  }

  // --- what a run hands from stage to stage ----------------------------------

  // A scraping recipe answers what the driver of its engine answers, and a browser recipe takes no upstream records.
  ghost predicate Scraped(f: File, inputs: Frame, ds: Drivers, prior: PriorRecords, r: Ran) {
    && (f.header.None? <==> r == Err(HeaderlessRoot))
    && (forall h | f.header == Some(h) ::
          && ((exists s :: r == Err(BrowserDownstream(s))) <==> h.engine == Browser && |prior.records| > 0)
          && (r.Err? && r.error.BrowserDownstream? ==> r.error.stage == h.name)
          && (h.engine == Http ==> Relays(ds.http(f, inputs, prior), r))
          && (h.engine == Browser && |prior.records| == 0 ==> Relays(ds.browser(f, inputs, prior), r)))
  }

  ghost predicate Relays(answer: Result<Snapshot, string>, r: Ran) {
    (answer.Ok? <==> r.Ok?) && (r.Ok? ==> r.value == answer.value) && (r.Err? ==> r.error == Driver(answer.error))
  }

  lemma {:induction false} ScrapingScrapes(f: File, inputs: Frame, ds: Drivers, prior: PriorRecords)
    ensures Scraped(f, inputs, ds, prior, RunScraping(f, inputs, ds, prior))
  {
  }

  // The i-th stage of a composition ends this way: the first one given the inputs of the composition and no records,
  // any other one no inputs and all records of the stage before it.
  ghost predicate StageEnds(m: LinkedModule, stages: seq<RecipeRef>, inputs: Frame, ds: Drivers, depth: nat,
                            snaps: seq<Snapshot>, i: nat, r: Ran)
    requires i < |stages| && i <= |snaps|
  {
    && m.Stage(stages[i].name).Some?
    && exists prior ::
         && HandedOn(snaps, i, prior)
         && RunNode(m, m.Stage(stages[i].name).value, if i == 0 then inputs else map[], ds, prior, depth) == Some(r)
  }

  ghost predicate HandedOn(snaps: seq<Snapshot>, i: nat, prior: PriorRecords)
    requires i <= |snaps|
  {
    if i == 0 then prior == NO_PRIOR else Passes(snaps[i - 1], prior)
  }

  // A composition runs its stages in order until one fails, and hands on what the last one gave.
  ghost predicate Composed(m: LinkedModule, name: string, stages: seq<RecipeRef>, inputs: Frame, ds: Drivers,
                           depth: nat, snaps: seq<Snapshot>, r: Ran) {
    && |snaps| <= |stages|
    && (forall i | 0 <= i < |snaps| :: StageEnds(m, stages, inputs, ds, depth, snaps, i, Ok(snaps[i])))
    && if |snaps| < |stages| then
         var next := stages[|snaps|].name;
         if m.Stage(next).None? then r == Err(UnresolvedStage(next))
         else r.Err? && StageEnds(m, stages, inputs, ds, depth, snaps, |snaps|, r)
       else if stages == [] then r == Err(ZeroStages(name))
       else r == Ok(snaps[|snaps| - 1])
  }

  lemma {:induction false} OneStageMore(m: LinkedModule, stages: seq<RecipeRef>, inputs: Frame, ds: Drivers,
                                        depth: nat, snaps: seq<Snapshot>, s: Snapshot)
    requires |snaps| < |stages| && StageEnds(m, stages, inputs, ds, depth, snaps, |snaps|, Ok(s))
    requires forall i | 0 <= i < |snaps| :: StageEnds(m, stages, inputs, ds, depth, snaps, i, Ok(snaps[i]))
    ensures forall i | 0 <= i <= |snaps| ::
      StageEnds(m, stages, inputs, ds, depth, snaps + [s], i, Ok((snaps + [s])[i]))
  {
    hide RunNode, Passes;
    var all := snaps + [s];
    forall i | 0 <= i <= |snaps| ensures StageEnds(m, stages, inputs, ds, depth, all, i, Ok(all[i])) {
      assert StageEnds(m, stages, inputs, ds, depth, snaps, i, Ok(all[i]));
      var prior :| HandedOn(snaps, i, prior) && RunNode(m, m.Stage(stages[i].name).value,
        if i == 0 then inputs else map[], ds, prior, depth) == Some(Ok(all[i]));
      assert HandedOn(all, i, prior);
    }
  }

  lemma {:induction false} OneStage(m: LinkedModule, name: string, stages: seq<RecipeRef>, i: nat, inputs: Frame,
                                    ds: Drivers, prior: PriorRecords, last: Option<Snapshot>, depth: nat)
    requires i < |stages|
    ensures RunStages(m, name, stages[i..], inputs, ds, prior, last, depth) ==
      match m.Stage(stages[i].name)
      case None => Some(Err(UnresolvedStage(stages[i].name)))
      case Some(stage) =>
        match RunNode(m, stage, inputs, ds, prior, depth)
        case None => None
        case Some(Err(e)) => Some(Err(e))
        case Some(Ok(s)) => RunStages(m, name, stages[i + 1..], map[], ds, DerivePrior(s), Some(s), depth)
  {
    hide RunNode, DerivePrior, LinkedModule.Stage;
    assert stages[i..][0] == stages[i] && stages[i..][1..] == stages[i + 1..];
  }

  lemma {:induction false} NoStageLeft(m: LinkedModule, name: string, stages: seq<RecipeRef>, inputs: Frame,
                                       ds: Drivers, prior: PriorRecords, last: Option<Snapshot>, depth: nat)
    requires stages == []
    ensures RunStages(m, name, stages, inputs, ds, prior, last, depth)
         == Some(if last.Some? then Ok(last.value) else Err(ZeroStages(name)))
  {
  }

  lemma {:induction false} StagesCompose(m: LinkedModule, name: string, stages: seq<RecipeRef>, given: Frame,
                                         inputs: Frame, ds: Drivers, prior: PriorRecords, last: Option<Snapshot>,
                                         depth: nat, snaps: seq<Snapshot>) returns (all: seq<Snapshot>)
    requires |snaps| <= |stages| && given == (if snaps == [] then inputs else map[]) && HandedOn(snaps, |snaps|, prior)
    requires last == if snaps == [] then None else Some(snaps[|snaps| - 1])
    requires forall i | 0 <= i < |snaps| :: StageEnds(m, stages, inputs, ds, depth, snaps, i, Ok(snaps[i]))
    requires RunStages(m, name, stages[|snaps|..], given, ds, prior, last, depth).Some?
    ensures Composed(m, name, stages, inputs, ds, depth, all,
                     RunStages(m, name, stages[|snaps|..], given, ds, prior, last, depth).value)
    decreases |stages| - |snaps|
  {
    hide StageEnds, RunNode, Passes, DerivePrior, LinkedModule.Stage;
    all := snaps;
    var i := |snaps|;
    if i < |stages| {
      OneStage(m, name, stages, i, given, ds, prior, last, depth);
      if m.Stage(stages[i].name).Some? {
        StageEnded(m, stages, inputs, ds, prior, depth, snaps);
        hide RunStages;
        var r := RunNode(m, m.Stage(stages[i].name).value, given, ds, prior, depth).value;
        if r.Ok? {
          OneStageMore(m, stages, inputs, ds, depth, snaps, r.value);
          FirstTypeIs(r.value);
          hide Composed;
          all := StagesCompose(m, name, stages, map[], inputs, ds, DerivePrior(r.value), Some(r.value), depth,
                               snaps + [r.value]);
        }
      }
    }
  }

  lemma {:induction false} StageEnded(m: LinkedModule, stages: seq<RecipeRef>, inputs: Frame, ds: Drivers,
                                      prior: PriorRecords, depth: nat, snaps: seq<Snapshot>)
    requires |snaps| < |stages| && m.Stage(stages[|snaps|].name).Some? && HandedOn(snaps, |snaps|, prior)
    ensures var r := RunNode(m, m.Stage(stages[|snaps|].name).value, if snaps == [] then inputs else map[], ds, prior,
                             depth);
      r.Some? ==> StageEnds(m, stages, inputs, ds, depth, snaps, |snaps|, r.value)
  {
    hide RunNode, HandedOn, LinkedModule.Stage;
  }

  lemma {:induction false} NodeIsStages(m: LinkedModule, node: LinkedRecipe, inputs: Frame, ds: Drivers,
                                        prior: PriorRecords, depth: nat)
    requires node.file.body.Composition? && depth > 0
    ensures RunNode(m, node, inputs, ds, prior, depth)
         == RunStages(m, NameOf(node.file), node.file.body.stages[0..], inputs, ds, NO_PRIOR, None, depth - 1)
  {
    assert node.file.body.stages[0..] == node.file.body.stages;
  }

  /** A node that is a composition ends as its stages, in order, make it end. */
  ghost predicate EndsComposed(m: LinkedModule, node: LinkedRecipe, inputs: Frame, ds: Drivers, depth: nat, r: Ran)
    requires node.file.body.Composition?
  {
    exists snaps :: Composed(m, NameOf(node.file), node.file.body.stages, inputs, ds, depth, snaps, r)
  }

  lemma {:induction false} CompositionComposes(m: LinkedModule, node: LinkedRecipe, inputs: Frame, ds: Drivers,
                                               prior: PriorRecords, depth: nat)
    requires node.file.body.Composition? && depth > 0 && RunNode(m, node, inputs, ds, prior, depth).Some?
    ensures EndsComposed(m, node, inputs, ds, depth - 1, RunNode(m, node, inputs, ds, prior, depth).value)
  {
    var stages := node.file.body.stages;
    assert stages[0..] == stages;
    var snaps := StagesCompose(m, NameOf(node.file), stages, inputs, inputs, ds, NO_PRIOR, None, depth - 1, []);
  }

  // --- how deep a run goes ---------------------------------------------------

  /** The recipe is a composition, or one the HTTP engine accepts. */
  predicate OnHttp(node: LinkedRecipe) {
    node.file.body.Composition? || (node.file.header.Some? && node.file.header.value.engine.Http?)
  }

  /** Every reference resolves, no composition is empty, and every other recipe runs on the HTTP engine. */
  ghost predicate Runnable(m: LinkedModule) {
    && m.Closed() && m.NoEmptyComposition()
    && OnHttp(m.root) && forall n | n in m.stages :: OnHttp(m.stages[n])
  }

  ghost predicate NeverFails(ds: Drivers) {
    forall f, inputs, prior :: ds.http(f, inputs, prior).Ok?
  }

  ghost predicate NodeOf(m: LinkedModule, node: LinkedRecipe) {
    node == m.root || exists n :: n in m.stages && node == m.stages[n]
  }

  /** Chains below a node are no longer than `depth`. */
  ghost predicate Within(m: LinkedModule, node: LinkedRecipe, depth: int) {
    forall p | m.Below(node, p) :: |p| <= depth
  }

  // A stage is nested one level deeper than the composition it belongs to.
  lemma {:induction false} StageWithin(m: LinkedModule, node: LinkedRecipe, depth: int)
    requires m.NodeResolves(node) && StagesOf(node.file) != []
    ensures Within(m, node, depth)
       <==> (forall r | r in StagesOf(node.file) :: Within(m, m.Stage(r.name).value, depth - 1))
  {
    if Within(m, node, depth) {
      forall r, p | r in StagesOf(node.file) && m.Below(m.Stage(r.name).value, p) ensures |p| <= depth - 1 {
        assert m.Refers(node, r.name);
        m.BelowExtends(node, [r.name], p);
        assert |[r.name] + p| == |p| + 1;
      }
    } else {
      var p :| m.Below(node, p) && |p| > depth;
      if p == [] {
        var r := StagesOf(node.file)[0];
        assert m.Below(m.Stage(r.name).value, []);
      } else {
        var r :| r in StagesOf(node.file) && r.name == p[0];
        m.ChainTail(p, 1);
        assert m.Below(m.Stage(r.name).value, p[1..]);
      }
    }
  }

  // With drivers that never fail, a runnable node runs to an end within a depth if and only if its stages are
  // nested no deeper, and then it succeeds.
  lemma {:induction false} DepthIsNesting(m: LinkedModule, node: LinkedRecipe, inputs: Frame, ds: Drivers,
                                          prior: PriorRecords, depth: nat)
    requires Runnable(m) && NodeOf(m, node) && NeverFails(ds)
    ensures var r := RunNode(m, node, inputs, ds, prior, depth);
            (r.Some? <==> Within(m, node, depth)) && (r.Some? ==> r.value.Ok?)
    decreases depth, 0
  {
    assert m.NodeResolves(node);
    var stages := StagesOf(node.file);
    if stages != [] {
      StageWithin(m, node, depth);
      if depth == 0 {
        assert m.Below(m.Stage(stages[0].name).value, []);
      } else {
        NestingOfStages(m, NameOf(node.file), stages, inputs, ds, NO_PRIOR, None, depth - 1);
      }
    }
  }

  lemma {:induction false} NestingOfStages(m: LinkedModule, name: string, stages: seq<RecipeRef>, inputs: Frame,
                                           ds: Drivers, prior: PriorRecords, last: Option<Snapshot>, depth: nat)
    requires Runnable(m) && NeverFails(ds) && (stages != [] || last.Some?)
    requires forall r | r in stages :: m.Stage(r.name).Some?
    ensures var r := RunStages(m, name, stages, inputs, ds, prior, last, depth);
            && (r.Some? <==> forall r | r in stages :: Within(m, m.Stage(r.name).value, depth))
            && (r.Some? ==> r.value.Ok?)
    decreases depth, |stages| + 1
  {
    if stages != [] {
      var stage := m.Stage(stages[0].name).value;
      DepthIsNesting(m, stage, inputs, ds, prior, depth);
      match RunNode(m, stage, inputs, ds, prior, depth) {
        case Some(Ok(s)) =>
          NestingOfStages(m, name, stages[1..], map[], ds, DerivePrior(s), Some(s), depth);
          assert forall r | r in stages :: r == stages[0] || r in stages[1..];
        case None => assert stages[0] in stages;
        case Some(Err(_)) =>
      }
    }
  }

  // With drivers that never fail, a runnable module's run comes to an end if and only if no chain of stages
  // below its root is cyclic.
  lemma {:induction false} EndsIffAcyclic(m: LinkedModule, inputs: Frame, ds: Drivers)
    requires Runnable(m) && NeverFails(ds)
    ensures (exists depth :: RunNode(m, m.root, inputs, ds, NO_PRIOR, depth).Some?) <==> m.Acyclic()
    ensures m.Acyclic() ==> RunNode(m, m.root, inputs, ds, NO_PRIOR, |m.Names()|).Some?
  {
    forall depth | RunNode(m, m.root, inputs, ds, NO_PRIOR, depth).Some? ensures m.Acyclic() {
      DepthIsNesting(m, m.root, inputs, ds, NO_PRIOR, depth);
      m.AcyclicIsBounded(depth);
    }
    m.AcyclicIsBounded(0);
    DepthIsNesting(m, m.root, inputs, ds, NO_PRIOR, |m.Names()|);
  }

  // --- the runtime itself ---------------------------------------------------

  method DerivePriorRecords(snap: Snapshot) returns (prior: PriorRecords)
    ensures prior == DerivePrior(snap) && Passes(snap, prior)
  {
    FirstTypeIs(snap);
    hide Passes;
    var typeName := "";
    var records: seq<Record> := [];
    var i := 0;
    while i < |snap|
      invariant 0 <= i <= |snap|
      invariant records == snap[..i]
      invariant FirstType(snap) == if typeName == "" then FirstType(snap[i..]) else typeName
    {
      assert snap[i..][1..] == snap[i + 1..];
      if typeName == "" {
        typeName := snap[i].typeName;
      }
      records := records + [snap[i]];
      i := i + 1;
    }
    return PriorRecords(records, typeName);
  }

  method RunRecipe(m: LinkedModule, inputs: Frame, ds: Drivers) returns (r: Ran)
    requires m.Acyclic()
    ensures RunNode(m, m.root, inputs, ds, NO_PRIOR, Room(m, [])) == Some(r)
    ensures m.Closed() && m.NoEmptyComposition() && r.Err? ==> !r.error.UnresolvedStage? && !r.error.ZeroStages?
  {
    r := RunRecipeNode(m, m.root, inputs, ds, NO_PRIOR, []);
    NodeEnds(m, [], m.root, inputs, ds, NO_PRIOR, Room(m, []));
  }

  method RunRecipeNode(m: LinkedModule, node: LinkedRecipe, inputs: Frame, ds: Drivers, prior: PriorRecords,
                       ghost p: seq<string>)
    returns (r: Ran)
    requires m.Acyclic() && Leads(m, p, node)
    ensures RunNode(m, node, inputs, ds, prior, Room(m, p)) == Some(r)
    ensures if node.file.body.Composition? then Room(m, p) > 0 && EndsComposed(m, node, inputs, ds, Room(m, p) - 1, r)
            else Scraped(node.file, inputs, ds, prior, r)
    decreases Room(m, p), 2
  {
    ScrapingScrapes(node.file, inputs, ds, prior);
    hide Scraped, EndsComposed, RunScraping;
    match node.file.body {
      case Composition(_) =>
        m.ChainIsShort(p);
        r := RunCompositionNode(m, node, inputs, ds, p);
      case _ => r := RunScraping(node.file, inputs, ds, prior);
    }
  }

  method RunCompositionNode(m: LinkedModule, node: LinkedRecipe, inputs: Frame, ds: Drivers,
                            ghost p: seq<string>) returns (r: Ran)
    requires m.Acyclic() && Leads(m, p, node) && node.file.body.Composition? && Room(m, p) > 0
    ensures RunNode(m, node, inputs, ds, NO_PRIOR, Room(m, p)) == Some(r)
    ensures EndsComposed(m, node, inputs, ds, Room(m, p) - 1, r)
    decreases Room(m, p), 1
  {
    hide RunNode, RunStages, EndsComposed, Passes, RunScraping, Leads, Room, NameOf;
    hide LinkedModule.Acyclic, LinkedModule.Below, LinkedModule.Names, LinkedModule.Stage;
    NodeEnds(m, p, node, inputs, ds, NO_PRIOR, Room(m, p));
    CompositionComposes(m, node, inputs, ds, NO_PRIOR, Room(m, p));
    NodeIsStages(m, node, inputs, ds, NO_PRIOR, Room(m, p));
    var stages, name := node.file.body.stages, NameOf(node.file);
    ghost var depth := Room(m, p) - 1;
    var prior := NO_PRIOR;
    var stageInputs := inputs;
    var last: Option<Snapshot> := None;
    var i := 0;
    while i < |stages|
      invariant 0 <= i <= |stages|
      invariant RunNode(m, node, inputs, ds, NO_PRIOR, Room(m, p))
             == RunStages(m, name, stages[i..], stageInputs, ds, prior, last, depth)
    {
      OneStage(m, name, stages, i, stageInputs, ds, prior, last, depth);
      var stage := m.Stage(stages[i].name);
      if stage.None? { return Err(UnresolvedStage(stages[i].name)); }
      LeadsOn(m, p, node, stages[i]);
      var s := RunRecipeNode(m, stage.value, stageInputs, ds, prior, p + [stages[i].name]);
      if s.Err? { return s; }
      stageInputs := map[];
      prior := DerivePriorRecords(s.value);
      last := Some(s.value);
      i := i + 1;
    }
    NoStageLeft(m, name, stages[i..], stageInputs, ds, prior, last, depth);
    if last.Some? { return Ok(last.value); }
    return Err(ZeroStages(name));
  }

  // --- terminal emits ---------------------------------------------------------

  /** The recipe whose emit set a node's run ends with: the last stage of the last stage ... */
  function Terminal(m: LinkedModule, node: LinkedRecipe, depth: nat): Option<set<string>>
    decreases depth
  {
    if node.emitTypes != {} then Some(node.emitTypes)
    else if StagesOf(node.file) == [] then Some({})
    else
      match m.Stage(StagesOf(node.file)[|StagesOf(node.file)| - 1].name)
      case None => Some({})
      case Some(stage) => if depth == 0 then None else Terminal(m, stage, depth - 1)
  }

  /** The recipe emits nothing itself, and `next` is its last stage. */
  ghost predicate LastStage(m: LinkedModule, node: LinkedRecipe, next: LinkedRecipe) {
    var stages := StagesOf(node.file);
    node.emitTypes == {} && stages != [] && m.Stage(stages[|stages| - 1].name) == Some(next)
  }

  ghost predicate LastStages(m: LinkedModule, walk: seq<LinkedRecipe>) {
    walk != [] && forall i, j | 0 <= i && j == i + 1 && j < |walk| :: LastStage(m, walk[i], walk[j])
  }

  /** The emit set a walk ends with: that of its last recipe, when it emits something or there is no further stage. */
  ghost predicate EndsWith(m: LinkedModule, end: LinkedRecipe, emits: set<string>) {
    && emits == end.emitTypes
    && (emits == {} ==>
          var stages := StagesOf(end.file);
          stages == [] || m.Stage(stages[|stages| - 1].name).None?)
  }

  lemma {:induction false} TerminalIsLast(m: LinkedModule, node: LinkedRecipe, depth: nat)
    returns (walk: seq<LinkedRecipe>)
    requires Terminal(m, node, depth).Some?
    ensures LastStages(m, walk) && walk[0] == node && EndsWith(m, walk[|walk| - 1], Terminal(m, node, depth).value)
    decreases depth
  {
    var stages := StagesOf(node.file);
    if node.emitTypes != {} || stages == [] || m.Stage(stages[|stages| - 1].name).None? {
      walk := [node];
    } else {
      var next := m.Stage(stages[|stages| - 1].name).value;
      var rest := TerminalIsLast(m, next, depth - 1);
      walk := [node] + rest;
      forall i, j | 0 <= i && j == i + 1 && j < |walk| ensures LastStage(m, walk[i], walk[j]) {
        if i > 0 {
          assert LastStage(m, rest[i - 1], rest[i]);
        }
      }
    }
  }

  lemma {:induction false} TerminalEnds(m: LinkedModule, node: LinkedRecipe, p: seq<string>)
    requires m.Acyclic() && Leads(m, p, node)
    ensures Terminal(m, node, Room(m, p)).Some?
    decreases Room(m, p)
  {
    hide LinkedModule.Acyclic, LinkedModule.Below, LinkedModule.Names, LinkedModule.Stage;
    m.ChainIsShort(p);
    var stages := StagesOf(node.file);
    if node.emitTypes == {} && stages != [] {
      var last := stages[|stages| - 1];
      if m.Stage(last.name).Some? {
        LeadsOn(m, p, node, last);
        TerminalEnds(m, m.Stage(last.name).value, p + [last.name]);
      }
    }
  }

  /** The walk along last stages from the node ends with this emit set. */
  ghost predicate EndsAt(m: LinkedModule, node: LinkedRecipe, emits: set<string>) {
    exists walk :: LastStages(m, walk) && walk[0] == node && EndsWith(m, walk[|walk| - 1], emits)
  }

  lemma {:induction false} WalkEndsAt(m: LinkedModule, node: LinkedRecipe, depth: nat)
    requires Terminal(m, node, depth).Some?
    ensures EndsAt(m, node, Terminal(m, node, depth).value)
  {
    var walk := TerminalIsLast(m, node, depth);
  }

  method ResolveTerminalEmits(m: LinkedModule, node: LinkedRecipe, ghost p: seq<string>) returns (emits: set<string>)
    requires m.Acyclic() && Leads(m, p, node)
    ensures Terminal(m, node, Room(m, p)) == Some(emits)
    ensures EndsAt(m, node, emits)
    decreases Room(m, p)
  {
    TerminalEnds(m, node, p);
    WalkEndsAt(m, node, Room(m, p));
    hide EndsAt, LinkedModule.Acyclic, LinkedModule.Below, LinkedModule.Names, LinkedModule.Stage;
    m.ChainIsShort(p);
    if node.emitTypes != {} { return node.emitTypes; }
    if !node.file.body.Composition? { return {}; }
    var stages := node.file.body.stages;
    if stages == [] { return {}; }
    var stage := m.Stage(stages[|stages| - 1].name);
    if stage.None? { return {}; }
    LeadsOn(m, p, node, stages[|stages| - 1]);
    emits := ResolveTerminalEmits(m, stage.value, p + [stages[|stages| - 1].name]);
  }

  /** On a closed module whose scraping recipes all emit something, the terminal emit set is never empty. */
  lemma {:induction false} TerminalIsNonEmpty(m: LinkedModule, node: LinkedRecipe, depth: nat)
    requires m.Closed() && m.NoEmptyComposition() && m.NodeResolves(node) && node.file.body != Composition([])
    requires node.file.body.Composition? || node.emitTypes != {}
    requires m.root.file.body.Composition? || m.root.emitTypes != {}
    requires forall n | n in m.stages :: m.stages[n].file.body.Composition? || m.stages[n].emitTypes != {}
    ensures Terminal(m, node, depth) != Some({})
    decreases depth
  {
    if node.emitTypes == {} && depth > 0 {
      TerminalIsNonEmpty(m, m.Stage(StagesOf(node.file)[|StagesOf(node.file)| - 1].name).value, depth - 1);
    }
  }
}
