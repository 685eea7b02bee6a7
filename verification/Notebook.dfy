/**
An ephemeral composition over deployed recipes: each stage's deployed closure is merged
into one module under a synthetic root.
*/
module Notebook {
  import opened Wrappers
  import opened Values
  import opened Linked
  import opened Runtime

  datatype ComposeError =
    | LookupFailed(stage: string, msg: string)
    | NotDeployed(stage: string)
    | LoadFailed(stage: string, version: nat, msg: string)

  // What the daemon knows of deployments: the newest version of a recipe, and each version's module.
  datatype Deployments = Deployments(
    current: string -> Result<Option<nat>, string>,
    load: (string, nat) -> Result<LinkedModule, string>)
  {
    function Current(stage: string): Result<LinkedModule, ComposeError> {
      match current(stage)
      case Err(e) => Err(LookupFailed(stage, e))
      case Ok(None) => Err(NotDeployed(stage))
      case Ok(Some(v)) =>
        match load(stage, v)
        case Err(e) => Err(LoadFailed(stage, v, e))
        case Ok(m) => Ok(m)
    }

    ghost predicate Deployed(stages: seq<string>) {
      forall n | n in stages :: Current(n).Ok?
    }

    function Module(stage: string): LinkedModule
      requires Current(stage).Ok?
    {
      Current(stage).value
    }
  }

  function Local(name: string): RecipeRef {
    RecipeRef(None, name)
  }

  function SyntheticRoot(name: string, stages: seq<string>): LinkedRecipe {
    FromFile(File(Some(Header(name, Http)), {},
      Composition(seq(|stages|, i requires 0 <= i < |stages| => Local(stages[i])))))
  }

  /** A composition of this name, and its stages are the listed recipes, in order, each from the workspace. */
  ghost predicate Lists(f: File, name: string, names: seq<string>) {
    && f.header == Some(Header(name, Http)) && f.emits == {}
    && f.body.Composition? && |f.body.stages| == |names|
    && forall i | 0 <= i < |names| :: f.body.stages[i].author == None && f.body.stages[i].name == names[i]
  }

  lemma {:induction false} RootLists(name: string, names: seq<string>)
    ensures Lists(SyntheticRoot(name, names).file, name, names) && SyntheticRoot(name, names).emitTypes == {}
  {
  }

  // What a listed name stands for: the module of the version the daemon says is current. A failed look-up, an
  // undeployed recipe and a module that does not load are told apart.
  lemma {:induction false} CurrentIs(d: Deployments, n: string, m: LinkedModule)
    ensures d.Current(n) == Ok(m) <==> exists v :: d.current(n) == Ok(Some(v)) && d.load(n, v) == Ok(m)
    ensures d.Current(n) == Err(NotDeployed(n)) <==> d.current(n) == Ok(None)
    ensures forall e :: d.Current(n) == Err(LookupFailed(n, e)) <==> d.current(n) == Err(e)
    ensures forall v: nat, e ::
      d.Current(n) == Err(LoadFailed(n, v, e)) <==> d.current(n) == Ok(Some(v)) && d.load(n, v) == Err(e)
  {
  }

  /** The first listed stage whose deployed closure carries `k`. */
  ghost predicate Introduces(d: Deployments, names: seq<string>, i: nat, k: string)
    requires d.Deployed(names)
  {
    i < |names| && k in d.Module(names[i]).stages && forall j | 0 <= j < i :: k !in d.Module(names[j]).stages
  }

  // What the merge of the first stages holds: a listed stage is its deployed root, any other name is its first
  // closure's.
  ghost predicate Merged(d: Deployments, names: seq<string>, stages: map<string, LinkedRecipe>)
    requires d.Deployed(names)
  {
    && (forall k :: k in stages <==> k in names || exists i: nat :: Introduces(d, names, i, k))
    && (forall n | n in names :: stages[n] == d.Module(n).root)
    && (forall i: nat, k | Introduces(d, names, i, k) && k !in names :: stages[k] == d.Module(names[i]).stages[k])
  }

  /** `i` is the first listed stage whose catalog defines `k`. */
  ghost predicate Defines(d: Deployments, names: seq<string>, i: nat, k: string)
    requires d.Deployed(names)
  {
    i < |names| && k in d.Module(names[i]).catalog && forall j | 0 <= j < i :: k !in d.Module(names[j]).catalog
  }

  ghost predicate CatalogMerged(d: Deployments, names: seq<string>, catalog: map<string, string>)
    requires d.Deployed(names)
  {
    && (forall i: nat, k | Defines(d, names, i, k) :: k in catalog && catalog[k] == d.Module(names[i]).catalog[k])
    && (forall k | k in catalog :: exists i: nat :: Defines(d, names, i, k))
  }

  lemma {:induction false} FirstDefines(d: Deployments, names: seq<string>, j: nat, k: string)
    requires d.Deployed(names) && j < |names| && k in d.Module(names[j]).catalog
    ensures exists i: nat :: Defines(d, names, i, k)
  {
    var i := 0;
    while k !in d.Module(names[i]).catalog
      invariant 0 <= i <= j && forall l | 0 <= l < i :: k !in d.Module(names[l]).catalog
      decreases j - i
    {
      i := i + 1;
    }
    assert Defines(d, names, i, k);
  }

  lemma {:induction false} CatalogOne(d: Deployments, names: seq<string>, n: string, catalog: map<string, string>)
    requires d.Deployed(names) && d.Current(n).Ok? && CatalogMerged(d, names, catalog)
    ensures d.Deployed(names + [n]) && CatalogMerged(d, names + [n], d.Module(n).catalog + catalog)
  {
    var next := names + [n];
    assert d.Deployed(next);
    assert forall j | 0 <= j < |names| :: next[j] == names[j];
    forall i: nat, k | i < |names| ensures Defines(d, next, i, k) <==> Defines(d, names, i, k) {
    }
    forall k | k in d.Module(n).catalog ensures exists i: nat :: Defines(d, next, i, k) {
      FirstDefines(d, next, |names|, k);
    }
    forall k | k in catalog ensures exists i: nat :: Defines(d, next, i, k) {
      var i: nat :| Defines(d, names, i, k);
      assert Defines(d, next, i, k);
    }
  }

  lemma {:induction false} MergedNone(d: Deployments)
    ensures d.Deployed([]) && Merged(d, [], map[]) && CatalogMerged(d, [], map[])
  {
  }

  method Synthesize(d: Deployments, name: string, names: seq<string>) returns (r: Result<LinkedModule, ComposeError>)
    ensures r.Ok? <==> d.Deployed(names)
    ensures r.Ok? ==> r.value.root == SyntheticRoot(name, names) && Merged(d, names, r.value.stages)
    ensures r.Ok? ==> Lists(r.value.root.file, name, names)
    ensures r.Ok? ==> CatalogMerged(d, names, r.value.catalog)
    ensures r.Err? ==> exists i :: 0 <= i < |names| && d.Deployed(names[..i]) && d.Current(names[i]) == Err(r.error)
  {
    RootLists(name, names);
    hide Merged, CatalogMerged, Introduces, Defines, Lists;
    MergedNone(d);
    var stages: map<string, LinkedRecipe> := map[];
    var catalog: map<string, string> := map[];
    var refs: seq<RecipeRef> := [];
    var i := 0;
    while i < |names|
      invariant 0 <= i <= |names|
      invariant d.Deployed(names[..i]) && Merged(d, names[..i], stages)
      invariant CatalogMerged(d, names[..i], catalog)
      invariant refs == seq(i, j requires 0 <= j < i => Local(names[j]))
    {
      var loaded := d.Current(names[i]);
      if loaded.Err? {
        assert names[i] in names;
        return Err(loaded.error);
      }
      CatalogOne(d, names[..i], names[i], catalog);
      catalog := loaded.value.catalog + catalog;
      MergeOne(d, names[..i], names[i], stages);
      stages := (loaded.value.stages + stages)[names[i] := loaded.value.root];
      refs := refs + [Local(names[i])];
      assert names[..i] + [names[i]] == names[..i + 1];
      i := i + 1;
    }
    assert names[..i] == names;
    var root := FromFile(File(Some(Header(name, Http)), {}, Composition(refs)));
    return Ok(LinkedModule(root, stages, catalog));
  }

  /** One turn of the merge: adopt a closure without overwriting, then set the listed stage itself. */
  lemma {:induction false} MergeOne(d: Deployments, names: seq<string>, n: string, stages: map<string, LinkedRecipe>)
    requires d.Deployed(names) && d.Current(n).Ok? && Merged(d, names, stages)
    ensures d.Deployed(names + [n]) && Merged(d, names + [n], (d.Module(n).stages + stages)[n := d.Module(n).root])
  {
    var next := names + [n];
    var after := (d.Module(n).stages + stages)[n := d.Module(n).root];
    assert d.Deployed(next);
    forall k ensures k in after <==> k in next || exists i: nat :: Introduces(d, next, i, k) {
      NoneIntroduces(d, names, k);
      NoneIntroduces(d, next, k);
      assert forall j | 0 <= j < |names| :: next[j] == names[j];
      assert next[|names|] == n;
    }
    forall i: nat, k | Introduces(d, next, i, k) && k !in next ensures after[k] == d.Module(next[i]).stages[k] {
      NoneIntroduces(d, names, k);
      if i < |names| {
        assert Introduces(d, names, i, k) by { assert forall j | 0 <= j <= i :: next[j] == names[j]; }
      } else {
        assert forall j | 0 <= j < |names| :: next[j] == names[j];
        assert k !in stages;
      }
    }
  }

  /** If any closure carries `k`, one of them is the first. */
  lemma {:induction false} NoneIntroduces(d: Deployments, names: seq<string>, k: string)
    requires d.Deployed(names)
    ensures (forall i: nat :: !Introduces(d, names, i, k))
       <==> (forall j | 0 <= j < |names| :: k !in d.Module(names[j]).stages)
  {
    if j :| 0 <= j < |names| && k in d.Module(names[j]).stages {
      var i := 0;
      while k !in d.Module(names[i]).stages
        invariant 0 <= i <= j
        invariant forall l | 0 <= l < i :: k !in d.Module(names[l]).stages
        decreases j - i
      {
        i := i + 1;
      }
      assert Introduces(d, names, i, k);
    }
  }

  // --- closedness ---------------------------------------------------------------

  /** Every listed deployment is closed, and its root carries the name it was deployed under. */
  ghost predicate Coherent(d: Deployments, names: seq<string>)
    requires d.Deployed(names)
  {
    forall n | n in names :: d.Module(n).RootIs(n) && d.Module(n).Closed()
  }

  /** Every merged node comes from some listed deployment, where its own references resolve. */
  lemma {:induction false} Origin(d: Deployments, names: seq<string>, stages: map<string, LinkedRecipe>,
                                  k: string) returns (n: string)
    requires d.Deployed(names) && Coherent(d, names) && Merged(d, names, stages) && k in stages
    ensures n in names && d.Module(n).Stage(k) == Some(stages[k]) && d.Module(n).NodeResolves(stages[k])
  {
    if k in names {
      n := k;
    } else {
      var i: nat :| Introduces(d, names, i, k);
      n := names[i];
    }
  }

  lemma {:induction false} StageIsMerged(d: Deployments, names: seq<string>, stages: map<string, LinkedRecipe>,
                                         n: string, k: string)
    requires d.Deployed(names) && Coherent(d, names) && Merged(d, names, stages)
    requires n in names && d.Module(n).Stage(k).Some?
    ensures k in stages
  {
    if k !in names {
      var i :| 0 <= i < |names| && names[i] == n;
      assert k in d.Module(names[i]).stages;
      NoneIntroduces(d, names, k);
    }
  }

  // The merged module is closed, whatever the synthetic root is called; a listed name means its own deployed
  // root unless the synthetic root took that name.
  lemma {:induction false} MergedIsClosed(d: Deployments, name: string, names: seq<string>, m: LinkedModule)
    requires d.Deployed(names) && Coherent(d, names)
    requires m.root == SyntheticRoot(name, names) && Merged(d, names, m.stages)
    ensures m.Closed()
    ensures forall n | n in names && n != name :: m.Stage(n) == Some(d.Module(n).root)
  {
    forall k, r | k in m.stages && r in StagesOf(m.stages[k].file) ensures m.Stage(r.name).Some? {
      var n := Origin(d, names, m.stages, k);
      StageIsMerged(d, names, m.stages, n, r.name);
    }
  }

  // --- acyclicity ------------------------------------------------------------------

  /** Wherever two listed deployments know the same name, they know the same recipe by it. */
  ghost predicate Agreeing(d: Deployments, names: seq<string>)
    requires d.Deployed(names)
  {
    forall a, b, k | a in names && b in names && d.Module(a).Stage(k).Some? && d.Module(b).Stage(k).Some? ::
      d.Module(a).Stage(k) == d.Module(b).Stage(k)
  }

  ghost predicate Unused(d: Deployments, names: seq<string>, name: string)
    requires d.Deployed(names)
  {
    forall n | n in names :: d.Module(n).Stage(name).None?
  }

  lemma {:induction false} StageStays(d: Deployments, name: string, names: seq<string>, m: LinkedModule,
                                      n: string, k: string)
    requires d.Deployed(names) && Coherent(d, names) && Agreeing(d, names) && Unused(d, names, name)
    requires m.root == SyntheticRoot(name, names) && Merged(d, names, m.stages)
    requires n in names && d.Module(n).Stage(k).Some?
    ensures m.Stage(k) == d.Module(n).Stage(k)
  {
    StageIsMerged(d, names, m.stages, n, k);
    var o := Origin(d, names, m.stages, k);
  }

  /** Below a deployment's own recipe, the merged module looks exactly like that deployment. */
  lemma {:induction false} ChainStays(d: Deployments, name: string, names: seq<string>, m: LinkedModule,
                                      n: string, p: seq<string>)
    requires d.Deployed(names) && Coherent(d, names) && Agreeing(d, names) && Unused(d, names, name)
    requires m.root == SyntheticRoot(name, names) && Merged(d, names, m.stages)
    requires n in names && p != [] && m.Chain(p) && d.Module(n).Stage(p[0]).Some?
    ensures d.Module(n).Chain(p)
    ensures forall k | k in p :: d.Module(n).Stage(k) == m.Stage(k)
  {
    var own := d.Module(n);
    forall k | own.Stage(k).Some? ensures own.Stage(k) == m.Stage(k) {
      StageStays(d, name, names, m, n, k);
    }
    hide Agreeing, Unused, Merged;
    var i := 1;
    while i < |p|
      invariant 1 <= i <= |p|
      invariant forall j | 0 <= j < i :: own.Stage(p[j]).Some? && own.Stage(p[j]) == m.Stage(p[j])
    {
      assert m.Refers(m.Stage(p[i - 1]).value, p[i]);
      assert own.NodeResolves(own.Stage(p[i - 1]).value);
      i := i + 1;
    }
  }

  /** A chain below one deployment's own recipe, in the merged module, visits no recipe twice. */
  lemma {:induction false} MergedChainNoDup(d: Deployments, name: string, names: seq<string>, m: LinkedModule,
                                            p: seq<string>)
    requires d.Deployed(names) && Coherent(d, names) && Agreeing(d, names) && Unused(d, names, name)
    requires m.root == SyntheticRoot(name, names) && Merged(d, names, m.stages)
    requires m.Chain(p) && p != [] && p[0] in names && d.Module(p[0]).Acyclic()
    ensures NoDup(p)
  {
    var own := d.Module(p[0]);
    ChainStays(d, name, names, m, p[0], p);
    assert own.Stage(p[0]) == Some(own.root);
    own.RootChainNoDup(p);
  }

  /** Deployments that agree on every shared name merge without a cycle. */
  lemma {:induction false} AgreeingMergeIsAcyclic(d: Deployments, name: string, names: seq<string>, m: LinkedModule)
    requires d.Deployed(names) && Coherent(d, names) && Agreeing(d, names) && Unused(d, names, name)
    requires forall n | n in names :: d.Module(n).Acyclic()
    requires m.root == SyntheticRoot(name, names) && Merged(d, names, m.stages)
    ensures m.Acyclic()
  {
    hide Agreeing, Unused, Merged, Coherent;
    forall p | m.Below(m.root, p) ensures NoDup(p) {
      if p != [] {
        MergedChainNoDup(d, name, names, m, p);
      }
    }
  }

  /** Every listed deployment runs on the HTTP engine and composes something. */
  ghost predicate RunnableParts(d: Deployments, names: seq<string>)
    requires d.Deployed(names)
  {
    forall n | n in names :: Runnable(d.Module(n))
  }

  // A notebook run over sound deployments, with drivers that never fail, comes to an end if and only if the merged
  // module has no cyclic chain below its root.
  lemma {:induction false} NotebookEndsIffAcyclic(d: Deployments, name: string, names: seq<string>, m: LinkedModule,
                                                  inputs: Frame, ds: Drivers)
    requires d.Deployed(names) && Coherent(d, names) && RunnableParts(d, names) && names != [] && NeverFails(ds)
    requires m.root == SyntheticRoot(name, names) && Merged(d, names, m.stages)
    ensures (exists depth :: RunNode(m, m.root, inputs, ds, NO_PRIOR, depth).Some?) <==> m.Acyclic()
  {
    MergedIsClosed(d, name, names, m);
    assert m.root.file.body.stages != [];
    forall k | k in m.stages ensures m.stages[k].file.body != Composition([]) && OnHttp(m.stages[k]) {
      var n := Origin(d, names, m.stages, k);
    }
    EndsIffAcyclic(m, inputs, ds);
  }

  // Deployments that agree on shared names meet that condition: a run over at least one of them ends, whatever the
  // drivers do, and only a leaf can fail it.
  lemma {:induction false} NotebookRunEnds(d: Deployments, name: string, names: seq<string>, m: LinkedModule,
                                           inputs: Frame, ds: Drivers)
    requires d.Deployed(names) && Coherent(d, names) && Agreeing(d, names) && Unused(d, names, name) && names != []
    requires forall n | n in names :: d.Module(n).Acyclic() && d.Module(n).NoEmptyComposition()
    requires m.root == SyntheticRoot(name, names) && Merged(d, names, m.stages)
    ensures var r := RunNode(m, m.root, inputs, ds, NO_PRIOR, Room(m, []));
            r.Some? && (r.value.Err? ==> !r.value.error.UnresolvedStage? && !r.value.error.ZeroStages?)
  {
    hide RunNode, RunStages, LinkedModule.Acyclic;
    AgreeingMergeIsAcyclic(d, name, names, m);
    MergedIsClosed(d, name, names, m);
    assert m.root.file.body.stages != [];
    forall k | k in m.stages ensures m.stages[k].file.body != Composition([]) {
      var n := Origin(d, names, m.stages, k);
    }
    NodeEnds(m, [], m.root, inputs, ds, NO_PRIOR, Room(m, []));
  }

  // --- closures that disagree ---------------------------------------------------------

  function LeafRecipe(name: string): LinkedRecipe {
    FromFile(File(Some(Header(name, Http)), {"T"}, Scraping("")))
  }

  // `a` was deployed when it was a composition of the leaf `b`; `b` when it was a composition of the leaf `a`.
  function Crossed(n: string): LinkedModule {
    if n == "a" then LinkedModule(SyntheticRoot("a", ["b"]), map["b" := LeafRecipe("b")], map[])
    else LinkedModule(SyntheticRoot("b", ["a"]), map["a" := LeafRecipe("a")], map[])
  }

  function CrossedDeployments(): Deployments {
    Deployments((n: string) => if n == "a" || n == "b" then Ok(Some(1)) else Ok(None),
                (n: string, v: nat) => Ok(Crossed(n)))
  }

  lemma {:induction false} CrossedChain(n: string, p: seq<string>)
    requires n in ["a", "b"] && Crossed(n).Below(Crossed(n).root, p)
    ensures NoDup(p)
  {
    var m := Crossed(n);
    var other := if n == "a" then "b" else "a";
    assert StagesOf(m.root.file) == [Local(other)];
    assert m.Stage(other) == Some(LeafRecipe(other));
    assert StagesOf(LeafRecipe(other).file) == [];
    if p != [] {
      m.BelowCons(m.root, p);
      m.NoneBelowLeaf(LeafRecipe(other), p[1..]);
    }
  }

  /** Each of the two alone is sound. */
  lemma {:induction false} CrossedAlone(n: string)
    requires n in ["a", "b"]
    ensures Crossed(n).RootIs(n) && Crossed(n).Acyclic() && Runnable(Crossed(n)) && Crossed(n).Stage("nb").None?
  {
    var m := Crossed(n);
    forall p | m.Below(m.root, p) ensures NoDup(p) {
      CrossedChain(n, p);
    }
    var other := if n == "a" then "b" else "a";
    assert m.stages == map[other := LeafRecipe(other)];
    assert StagesOf(m.root.file) == [Local(other)];
  }

  lemma {:induction false} CrossedAreSound()
    ensures var d, names := CrossedDeployments(), ["a", "b"];
            && d.Deployed(names) && Coherent(d, names) && RunnableParts(d, names) && Unused(d, names, "nb")
            && (forall n | n in names :: d.Module(n).Acyclic()) && !Agreeing(d, names)
  {
    var d, names := CrossedDeployments(), ["a", "b"];
    CrossedAlone("a");
    CrossedAlone("b");
    assert names[0] in names && names[1] in names;
    assert d.Module("a") == Crossed("a") && d.Module("b") == Crossed("b");
    assert Crossed("a").Stage("b") == Some(LeafRecipe("b"));
    assert Crossed("b").Stage("b") == Some(SyntheticRoot("b", ["a"]));
  }

  // Two sound deployments that disagree: each is closed and acyclic and runs to an end alone, and their merge is
  // cyclic, so that its run goes deeper than any bound.
  lemma {:induction false} MergeMayCycle(m: LinkedModule, inputs: Frame, ds: Drivers, depth: nat)
    requires m.root == SyntheticRoot("nb", ["a", "b"])
    requires CrossedDeployments().Deployed(["a", "b"]) && Merged(CrossedDeployments(), ["a", "b"], m.stages)
    ensures var d, names := CrossedDeployments(), ["a", "b"];
            && Coherent(d, names) && RunnableParts(d, names) && Unused(d, names, "nb")
            && (forall n | n in names :: d.Module(n).Acyclic()) && !Agreeing(d, names)
    ensures RunNode(m, m.root, inputs, ds, NO_PRIOR, depth).None?
  {
    CrossedAreSound();
    CrossedMerge(m, inputs, ds, depth);
  }

  lemma {:induction false} CrossedMerge(m: LinkedModule, inputs: Frame, ds: Drivers, depth: nat)
    requires m.root == SyntheticRoot("nb", ["a", "b"])
    requires CrossedDeployments().Deployed(["a", "b"]) && Merged(CrossedDeployments(), ["a", "b"], m.stages)
    ensures RunNode(m, m.root, inputs, ds, NO_PRIOR, depth).None?
  {
    assert m.stages["a"] == Crossed("a").root by { assert "a" in ["a", "b"]; }
    assert m.stages["b"] == Crossed("b").root by { assert "b" in ["a", "b"]; }
    if depth > 0 {
      CrossedNeverEnds(m, "a", inputs, ds, NO_PRIOR, depth - 1);
    }
  }

  lemma {:induction false} CrossedNeverEnds(m: LinkedModule, n: string, inputs: Frame, ds: Drivers,
                                            prior: PriorRecords, depth: nat)
    requires m.root == SyntheticRoot("nb", ["a", "b"])
    requires forall k | k in ["a", "b"] :: k in m.stages && m.stages[k] == Crossed(k).root
    requires n in ["a", "b"]
    ensures RunNode(m, m.stages[n], inputs, ds, prior, depth).None?
    decreases depth
  {
    if depth > 0 {
      var other := if n == "a" then "b" else "a";
      assert StagesOf(m.stages[n].file) == [Local(other)];
      assert m.Stage(other) == Some(m.stages[other]);
      CrossedNeverEnds(m, other, inputs, ds, NO_PRIOR, depth - 1);
    }
  }
}
