/**
Flattening a composition. Nested compositions unroll into a plan, a plan flattens into
the chain of its scraping leaves, and running that chain is running the plan exactly
when nested compositions come first.
*/
module Flatten {
  import opened Wrappers
  import opened Values
  import opened Linked
  import opened Runtime

  datatype Plan = Leaf(file: File) | Comp(name: string, stages: seq<Plan>)

  /** The composition tree below a node; `None` if it is too deep or a stage is unresolved. */
  function Unroll(m: LinkedModule, node: LinkedRecipe, depth: nat): Option<Plan>
    decreases depth, 0
  {
    if !node.file.body.Composition? then Some(Leaf(node.file))
    else if depth == 0 then None
    else
      match UnrollAll(m, node.file.body.stages, depth - 1)
      case None => None
      case Some(ps) => Some(Comp(NameOf(node.file), ps))
  }

  function UnrollAll(m: LinkedModule, stages: seq<RecipeRef>, depth: nat): Option<seq<Plan>>
    decreases depth, |stages| + 1
  {
    if stages == [] then Some([])
    else
      match m.Stage(stages[0].name)
      case None => None
      case Some(stage) =>
        match Unroll(m, stage, depth)
        case None => None
        case Some(p) =>
          match UnrollAll(m, stages[1..], depth)
          case None => None
          case Some(ps) => Some([p] + ps)
  }

  function RunPlan(p: Plan, inputs: Frame, ds: Drivers, prior: PriorRecords): Ran
    decreases p, 0
  {
    match p
    case Leaf(f) => RunScraping(f, inputs, ds, prior)
    case Comp(name, stages) => RunChain(name, stages, inputs, ds, NO_PRIOR, None)
  }

  function RunChain(name: string, ps: seq<Plan>, inputs: Frame, ds: Drivers, prior: PriorRecords,
                    last: Option<Snapshot>): Ran
    decreases ps, 1
  {
    if ps == [] then
      if last.Some? then Ok(last.value) else Err(ZeroStages(name))
    else
      match RunPlan(ps[0], inputs, ds, prior)
      case Err(e) => Err(e)
      case Ok(s) => RunChain(name, ps[1..], map[], ds, DerivePrior(s), Some(s))
  }

  lemma {:induction false} UnrollRuns(m: LinkedModule, node: LinkedRecipe, depth: nat, inputs: Frame, ds: Drivers,
                                      prior: PriorRecords)
    requires Unroll(m, node, depth).Some?
    ensures RunNode(m, node, inputs, ds, prior, depth) == Some(RunPlan(Unroll(m, node, depth).value, inputs, ds, prior))
    decreases depth, 0
  {
    if node.file.body.Composition? {
      UnrollAllRuns(m, NameOf(node.file), node.file.body.stages, depth - 1, inputs, ds, NO_PRIOR, None);
    }
  }

  lemma {:induction false} UnrollAllRuns(m: LinkedModule, name: string, stages: seq<RecipeRef>, depth: nat,
                                         inputs: Frame, ds: Drivers,
                                         prior: PriorRecords, last: Option<Snapshot>)
    requires UnrollAll(m, stages, depth).Some?
    ensures RunStages(m, name, stages, inputs, ds, prior, last, depth)
         == Some(RunChain(name, UnrollAll(m, stages, depth).value, inputs, ds, prior, last))
    decreases depth, |stages| + 1
  {
    if stages != [] {
      var stage := m.Stage(stages[0].name).value;
      var p := Unroll(m, stage, depth).value;
      var ps := UnrollAll(m, stages[1..], depth).value;
      assert ([p] + ps)[1..] == ps;
      UnrollRuns(m, stage, depth, inputs, ds, prior);
      match RunPlan(p, inputs, ds, prior) {
        case Ok(s) => UnrollAllRuns(m, name, stages[1..], depth, map[], ds, DerivePrior(s), Some(s));
        case Err(_) =>
      }
    }
  }

  // --- flattening -----------------------------------------------------------

  function Leaves(p: Plan): seq<Plan>
    decreases p, 0
  {
    match p
    case Leaf(_) => [p]
    case Comp(_, stages) => LeavesOf(stages)
  }

  function LeavesOf(ps: seq<Plan>): seq<Plan>
    decreases ps, 1
  {
    if ps == [] then [] else Leaves(ps[0]) + LeavesOf(ps[1..])
  }

  /** No composition below this one is empty. */
  predicate Inhabited(p: Plan) {
    p.Comp? ==> p.stages != [] && forall q | q in p.stages :: Inhabited(q)
  }

  /** Nested compositions occur only as first stages, at every depth. */
  predicate FirstOnly(p: Plan) {
    p.Comp? && p.stages != [] ==>
      FirstOnly(p.stages[0]) && forall i | 1 <= i < |p.stages| :: p.stages[i].Leaf?
  }

  /** One flat chain of scraping recipes; the outer inputs reach only the first. */
  function RunFlat(name: string, leaves: seq<Plan>, inputs: Frame, ds: Drivers): Ran {
    RunChain(name, leaves, inputs, ds, NO_PRIOR, None)
  }

  lemma {:induction false} LeavesNonEmpty(p: Plan)
    requires Inhabited(p)
    ensures Leaves(p) != []
    ensures forall q | q in Leaves(p) :: q.Leaf?
    decreases p, 0
  {
    if p.Comp? {
      LeavesOfNonEmpty(p.stages);
      assert p.stages[0] in p.stages;
      LeavesNonEmpty(p.stages[0]);
    }
  }

  lemma {:induction false} LeavesOfNonEmpty(ps: seq<Plan>)
    requires forall q | q in ps :: Inhabited(q)
    ensures forall q | q in LeavesOf(ps) :: q.Leaf?
    decreases ps, 1
  {
    if ps != [] {
      LeavesNonEmpty(ps[0]);
      LeavesOfNonEmpty(ps[1..]);
    }
  }

  lemma {:induction false} LeavesOfLeaves(ps: seq<Plan>)
    requires forall p | p in ps :: p.Leaf?
    ensures LeavesOf(ps) == ps
  {
    if ps != [] {
      LeavesOfLeaves(ps[1..]);
    }
  }

  /** A chain `xs + ys` is `xs`, then `ys` on what `xs` emitted. */
  lemma {:induction false} ChainSplits(name: string, xs: seq<Plan>, ys: seq<Plan>, inputs: Frame, ds: Drivers,
                                       prior: PriorRecords, last: Option<Snapshot>)
    requires xs != []
    ensures RunChain(name, xs + ys, inputs, ds, prior, last) ==
            (match RunChain(name, xs, inputs, ds, prior, last)
             case Err(e) => Err(e)
             case Ok(s) => RunChain(name, ys, map[], ds, DerivePrior(s), Some(s)))
  {
    assert (xs + ys)[1..] == xs[1..] + ys;
    match RunPlan(xs[0], inputs, ds, prior) {
      case Ok(s) =>
        if |xs| == 1 {
          assert xs[1..] + ys == ys;
        } else {
          ChainSplits(name, xs[1..], ys, map[], ds, DerivePrior(s), Some(s));
        }
      case Err(_) =>
    }
  }

  /** The name of a non-empty chain plays no part. */
  lemma {:induction false} ChainNameIgnored(a: string, b: string, ps: seq<Plan>, inputs: Frame, ds: Drivers,
                                            prior: PriorRecords, last: Option<Snapshot>)
    requires ps != [] || last.Some?
    ensures RunChain(a, ps, inputs, ds, prior, last) == RunChain(b, ps, inputs, ds, prior, last)
  {
    if ps != [] {
      match RunPlan(ps[0], inputs, ds, prior) {
        case Ok(s) => ChainNameIgnored(a, b, ps[1..], map[], ds, DerivePrior(s), Some(s));
        case Err(_) =>
      }
    }
  }

  /** With nested compositions in first position only, a run is the run of its flat chain: same snapshot, same error. */
  lemma {:induction false} FlattenKeepsMeaning(p: Plan, name: string, inputs: Frame, ds: Drivers)
    requires Inhabited(p) && FirstOnly(p)
    ensures RunPlan(p, inputs, ds, NO_PRIOR) == RunFlat(name, Leaves(p), inputs, ds)
  {
    match p {
      case Leaf(_) =>
        match RunPlan(p, inputs, ds, NO_PRIOR) {
          case Ok(s) => assert RunChain(name, [p][1..], map[], ds, DerivePrior(s), Some(s)) == Ok(s);
          case Err(_) =>
        }
      case Comp(own, ps) =>
        assert ps[0] in ps && ps == [ps[0]] + ps[1..];
        FlattenKeepsMeaning(ps[0], name, inputs, ds);
        LeavesOfLeaves(ps[1..]);
        LeavesNonEmpty(ps[0]);
        ChainSplits(name, Leaves(ps[0]), ps[1..], inputs, ds, NO_PRIOR, None);
        match RunPlan(ps[0], inputs, ds, NO_PRIOR) {
          case Ok(s) => ChainNameIgnored(own, name, ps[1..], map[], ds, DerivePrior(s), Some(s));
          case Err(_) =>
        }
    }
  }

  // --- and only then ----------------------------------------------------------

  /** Every leaf has a header and runs on the HTTP engine, which alone takes prior records. */
  predicate AllHttp(p: Plan) {
    match p
    case Leaf(f) => f.header.Some? && f.header.value.engine.Http?
    case Comp(_, stages) => forall q | q in stages :: AllHttp(q)
  }

  const FED := [Record("rec-0", "T", map[])]

  /** A driver that emits one record when it has inputs or prior records, and fails when it has neither. */
  function Picky(): Drivers {
    var d := (f: File, inputs: Frame, prior: PriorRecords) =>
      if inputs != map[] || prior.records != [] then Ok(FED) else Err("starved");
    Drivers(d, d)
  }

  /** Given inputs, the picky driver gets through a plan exactly when it is first-position only. */
  lemma {:induction false} PickyPlan(p: Plan, inputs: Frame, prior: PriorRecords)
    requires Inhabited(p) && AllHttp(p) && inputs != map[]
    ensures RunPlan(p, inputs, Picky(), prior) == if FirstOnly(p) then Ok(FED) else Err(Driver("starved"))
    decreases p, 0
  {
    if p.Comp? {
      assert p.stages[0] in p.stages;
      PickyPlan(p.stages[0], inputs, NO_PRIOR);
      if FirstOnly(p.stages[0]) {
        PickyRest(p.name, p.stages[1..]);
        assert (forall q | q in p.stages[1..] :: q.Leaf?) <==> (forall i | 1 <= i < |p.stages| :: p.stages[i].Leaf?);
      }
    }
  }

  /** A composition that gets no inputs starves: its first leaf sees neither inputs nor prior records. */
  lemma {:induction false} PickyStarves(p: Plan, prior: PriorRecords)
    requires Inhabited(p) && AllHttp(p) && p.Comp?
    ensures RunPlan(p, map[], Picky(), prior) == Err(Driver("starved"))
    decreases p
  {
    var first := p.stages[0];
    assert first in p.stages;
    assert Inhabited(first) && AllHttp(first);
    if first.Comp? {
      PickyStarves(first, NO_PRIOR);
    }
    assert RunPlan(first, map[], Picky(), NO_PRIOR) == Err(Driver("starved"));
    assert RunPlan(p, map[], Picky(), prior) == RunChain(p.name, p.stages, map[], Picky(), NO_PRIOR, None);
  }

  lemma {:induction false} PickyRest(name: string, ps: seq<Plan>)
    requires forall q | q in ps :: Inhabited(q) && AllHttp(q)
    ensures RunChain(name, ps, map[], Picky(), DerivePrior(FED), Some(FED)) ==
            if forall q | q in ps :: q.Leaf? then Ok(FED) else Err(Driver("starved"))
    decreases ps, 1
  {
    if ps != [] {
      assert ps[0] in ps;
      if ps[0].Comp? {
        PickyStarves(ps[0], DerivePrior(FED));
      } else {
        PickyRest(name, ps[1..]);
      }
    }
  }

  lemma {:induction false} LeavesAllHttp(p: Plan)
    requires AllHttp(p)
    ensures forall q | q in Leaves(p) :: AllHttp(q)
    decreases p, 0
  {
    if p.Comp? { LeavesOfAllHttp(p.stages); }
  }

  lemma {:induction false} LeavesOfAllHttp(ps: seq<Plan>)
    requires forall q | q in ps :: AllHttp(q)
    ensures forall q | q in LeavesOf(ps) :: AllHttp(q)
    decreases ps, 1
  {
    if ps != [] {
      LeavesAllHttp(ps[0]);
      LeavesOfAllHttp(ps[1..]);
    }
  }

  // For a composition of HTTP recipes, flattening is right for every driver and every
  // input exactly when nested compositions occur only in first position: anywhere else
  // the runtime drops the prior records.
  lemma {:induction false} FlattenIffFirstOnly(p: Plan, name: string)
    requires Inhabited(p) && AllHttp(p)
    ensures (forall inputs, ds :: RunPlan(p, inputs, ds, NO_PRIOR) == RunFlat(name, Leaves(p), inputs, ds))
        <==> FirstOnly(p)
  {
    if FirstOnly(p) {
      forall inputs, ds ensures RunPlan(p, inputs, ds, NO_PRIOR) == RunFlat(name, Leaves(p), inputs, ds) {
        FlattenKeepsMeaning(p, name, inputs, ds);
      }
    } else {
      var inputs: Frame := map["seed" := Null];
      assert "seed" in inputs;
      PickyPlan(p, inputs, NO_PRIOR);
      LeavesNonEmpty(p);
      LeavesAllHttp(p);
      var flat := Comp(name, Leaves(p));
      assert flat.stages[0] in flat.stages;
      PickyPlan(flat, inputs, NO_PRIOR);
      assert RunPlan(flat, inputs, Picky(), NO_PRIOR) == RunFlat(name, Leaves(p), inputs, Picky());
      assert RunPlan(p, inputs, Picky(), NO_PRIOR) != RunFlat(name, Leaves(p), inputs, Picky());
    }
  }
}
