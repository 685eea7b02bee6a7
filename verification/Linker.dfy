/** The linker: the closure of a recipe's composition stages, by depth-first search. */
module Linker {
  import opened Wrappers
  import opened Values
  import opened Linked
  import opened Runtime

  // Recipes of the workspace by header name.
  type Workspace = map<string, File>

  datatype Issue = Issue(isError: bool, code: string)

  datatype LinkResult =
    | UnknownRecipe(name: string)
    | Linked(linked: Option<LinkedModule>, issues: multiset<Issue>)

  /** A stage the workspace can resolve. */
  predicate Local(ws: Workspace, r: RecipeRef) {
    r.author.None? && r.name in ws
  }

  ghost predicate Edge(ws: Workspace, f: File, name: string) {
    exists r :: r in StagesOf(f) && Local(ws, r) && r.name == name
  }

  /** A path of local stages below `f`. */
  ghost predicate Path(ws: Workspace, f: File, p: seq<string>)
    decreases |p|
  {
    p != [] && p[0] in ws && Edge(ws, f, p[0]) && (|p| == 1 || Path(ws, ws[p[0]], p[1..]))
  }

  ghost predicate Reachable(ws: Workspace, f: File, name: string) {
    exists p :: Path(ws, f, p) && p[|p| - 1] == name
  }

  /** What `name` reaches, `f` reaches when `name` is one of its local stages. */
  lemma {:induction false} ReachThrough(ws: Workspace, f: File, name: string, target: string)
    requires name in ws && Edge(ws, f, name)
    ensures Reachable(ws, f, name)
    ensures Reachable(ws, ws[name], target) ==> Reachable(ws, f, target)
  {
    assert Path(ws, f, [name]);
    if Reachable(ws, ws[name], target) {
      var p :| Path(ws, ws[name], p) && p[|p| - 1] == target;
      assert ([name] + p)[1..] == p;
      assert Path(ws, f, [name] + p) && ([name] + p)[|p|] == target;
    }
  }

  /** All local stages of `f` are in `names`. */
  ghost predicate Covered(ws: Workspace, f: File, names: set<string>) {
    forall n | Edge(ws, f, n) :: n in names
  }

  /** A covered set that is closed under local stages holds all that is reachable. */
  lemma {:induction false} ClosedHoldsPaths(ws: Workspace, f: File, names: set<string>, p: seq<string>)
    requires Covered(ws, f, names)
    requires forall n | n in names :: n in ws && Covered(ws, ws[n], names)
    requires Path(ws, f, p)
    ensures p[|p| - 1] in names
    decreases |p|
  {
    assert p[0] in names;
    if |p| > 1 {
      ClosedHoldsPaths(ws, ws[p[0]], names, p[1..]);
    }
  }

  /** The visited map grew by nodes below `f` whose own local stages are all in it. */
  ghost predicate Grew(ws: Workspace, f: File, was: map<string, LinkedRecipe>, now: map<string, LinkedRecipe>) {
    && (forall n | n in was :: n in now && now[n] == was[n])
    && (forall n | n in now && n !in was ::
          n in ws && now[n] == FromFile(ws[n]) && Reachable(ws, f, n) && Covered(ws, ws[n], now.Keys))
  }

  lemma {:induction false} GrewTwice(ws: Workspace, f: File, a: map<string, LinkedRecipe>,
                                     b: map<string, LinkedRecipe>, c: map<string, LinkedRecipe>)
    requires Grew(ws, f, a, b) && Grew(ws, f, b, c)
    ensures Grew(ws, f, a, c)
    ensures ws.Keys - c.Keys <= ws.Keys - b.Keys
  {
  }

  /** The first `i` stages are in `names`, so far as they are local. */
  ghost predicate FirstIn(ws: Workspace, stages: seq<RecipeRef>, i: nat, names: set<string>)
    requires i <= |stages|
  {
    forall j | 0 <= j < i :: Local(ws, stages[j]) ==> stages[j].name in names
  }

  lemma {:induction false} OneMoreIn(ws: Workspace, stages: seq<RecipeRef>, i: nat, was: set<string>, now: set<string>)
    requires i < |stages| && FirstIn(ws, stages, i, was) && was <= now
    requires Local(ws, stages[i]) ==> stages[i].name in now
    ensures FirstIn(ws, stages, i + 1, now)
  {
  }

  lemma {:induction false} AllStagesIn(ws: Workspace, f: File, names: set<string>)
    requires FirstIn(ws, StagesOf(f), |StagesOf(f)|, names)
    ensures Covered(ws, f, names)
  {
  }

  class Walk {
    const ws: Workspace
    var out: map<string, LinkedRecipe>

    constructor (ws: Workspace)
      ensures this.ws == ws && out == map[]
    {
      this.ws, out := ws, map[];
    }

    method WalkStage(f: File, stage: RecipeRef)
      requires stage in StagesOf(f)
      modifies this
      ensures Grew(ws, f, old(out), out)
      ensures Local(ws, stage) ==> stage.name in out
      decreases ws.Keys - out.Keys, 1
    {
      if stage.author.Some? || stage.name in out || stage.name !in ws {
        return;
      }
      var peer := ws[stage.name];
      assert Edge(ws, f, stage.name);
      out := out[stage.name := FromFile(peer)];
      ReachThrough(ws, f, stage.name, stage.name);
      assert stage.name in old(ws.Keys - out.Keys) && stage.name !in ws.Keys - out.Keys;
      WalkAll(peer);
      forall n | n in out && n !in old(out) && n != stage.name ensures Reachable(ws, f, n) {
        ReachThrough(ws, f, stage.name, n);
      }
    }

    method WalkAll(f: File)
      modifies this
      ensures Grew(ws, f, old(out), out)
      ensures Covered(ws, f, out.Keys)
      decreases ws.Keys - out.Keys, 2
    {
      var stages := StagesOf(f);
      var i := 0;
      while i < |stages|
        invariant 0 <= i <= |stages|
        invariant Grew(ws, f, old(out), out)
        invariant FirstIn(ws, stages, i, out.Keys)
        invariant ws.Keys - out.Keys <= old(ws.Keys - out.Keys)
      {
        ghost var before := out;
        WalkStage(f, stages[i]);
        GrewTwice(ws, f, old(out), before, out);
        OneMoreIn(ws, stages, i, before.Keys, out.Keys);
        i := i + 1;
      }
      AllStagesIn(ws, f, out.Keys);
    }
  }

  /** The closure holds exactly the local recipes reachable from the root, each as linked from its file. */
  method CollectStageClosure(ws: Workspace, root: File) returns (stages: map<string, LinkedRecipe>)
    ensures forall n :: n in stages <==> Reachable(ws, root, n)
    ensures forall n | n in stages :: n in ws && stages[n] == FromFile(ws[n])
  {
    var walk := new Walk(ws);
    walk.WalkAll(root);
    stages := walk.out;
    forall n | Reachable(ws, root, n) ensures n in stages {
      var p :| Path(ws, root, p) && p[|p| - 1] == n;
      ClosedHoldsPaths(ws, root, stages.Keys, p);
    }
  }

  /** The validator finds no error in the root or in anything it reaches. */
  ghost predicate AllClean(ws: Workspace, root: File, validate: File -> seq<Issue>) {
    Clean(validate(root)) && forall n | Reachable(ws, root, n) :: n in ws ==> Clean(validate(ws[n]))
  }

  /** The validator finds this issue in the root or in something it reaches. */
  ghost predicate Raised(ws: Workspace, root: File, validate: File -> seq<Issue>, i: Issue) {
    i in validate(root) || exists n :: n in ws && Reachable(ws, root, n) && i in validate(ws[n])
  }

  predicate Clean(issues: seq<Issue>) {
    forall i | i in issues :: !i.isError
  }

  method Link(ws: Workspace, recipeName: string, catalog: map<string, string>,
              validate: File -> seq<Issue>) returns (r: LinkResult)
    ensures r.UnknownRecipe? <==> recipeName !in ws
    ensures recipeName in ws ==> forall i :: i in r.issues <==> Raised(ws, ws[recipeName], validate, i)
    ensures recipeName in ws ==>
      && (r.linked.Some? <==> AllClean(ws, ws[recipeName], validate))
      && (r.linked.Some? ==>
            && r.linked.value.root == FromFile(ws[recipeName])
            && r.linked.value.catalog == catalog
            && (forall n :: n in r.linked.value.stages <==> Reachable(ws, ws[recipeName], n))
            && (forall n | n in r.linked.value.stages :: n in ws && r.linked.value.stages[n] == FromFile(ws[n])))
  {
    if recipeName !in ws {
      return UnknownRecipe(recipeName);
    }
    var root := ws[recipeName];
    var issues := multiset(validate(root));
    var stages := CollectStageClosure(ws, root);
    var todo := stages.Keys;
    while todo != {}
      invariant todo <= stages.Keys
      invariant forall i :: i in issues <==>
        (i in validate(root) || exists n :: n in stages && n !in todo && i in validate(stages[n].file))
      invariant (forall i | i in issues :: !i.isError) <==>
                (Clean(validate(root)) && forall n | n in stages && n !in todo :: Clean(validate(stages[n].file)))
      decreases todo
    {
      var n :| n in todo;
      issues := issues + multiset(validate(stages[n].file));
      todo := todo - {n};
    }
    if exists i | i in issues :: i.isError {
      return Linked(None, issues);
    }
    return Linked(Some(LinkedModule(FromFile(root), stages, catalog)), issues);
  }

  /** Every stage of the file is local: the validator's unknown-stage and hub-stage rules. */
  ghost predicate AllLocal(ws: Workspace, f: File) {
    forall r | r in StagesOf(f) :: Local(ws, r)
  }

  // The linked module of a root whose closure has only local stages. The workspace finds a recipe under its name.
  ghost predicate LinkedFrom(ws: Workspace, root: File, m: LinkedModule) {
    && m.root == FromFile(root)
    && (forall n :: n in m.stages <==> Reachable(ws, root, n))
    && (forall n | n in m.stages :: n in ws && m.stages[n] == FromFile(ws[n]))
    && AllLocal(ws, root) && (forall n | n in m.stages :: AllLocal(ws, ws[n]))
    && (root.header.Some? && root.header.value.name in ws ==> ws[root.header.value.name] == root)
  }

  /** When the validator lets only local stages through, the linked module is closed. */
  lemma {:induction false} LinkedIsClosed(ws: Workspace, root: File, m: LinkedModule)
    requires LinkedFrom(ws, root, m)
    ensures m.Closed()
  {
    forall r | r in StagesOf(root) ensures m.Stage(r.name).Some? {
      ReachThrough(ws, root, r.name, r.name);
    }
    forall n, r | n in m.stages && r in StagesOf(m.stages[n].file) ensures m.Stage(r.name).Some? {
      var p :| Path(ws, root, p) && p[|p| - 1] == n;
      assert Edge(ws, ws[n], r.name);
      PathExtends(ws, root, p, r.name);
    }
  }

  /** A chain in the linked module is a path in the workspace. */
  lemma {:induction false} ChainIsPath(ws: Workspace, root: File, m: LinkedModule, node: LinkedRecipe, p: seq<string>)
    requires LinkedFrom(ws, root, m) && NodeOf(m, node)
    ensures m.Below(node, p) <==> p == [] || Path(ws, node.file, p)
    decreases |p|
  {
    if p != [] {
      hide LinkedModule.Below;
      LinkedIsClosed(ws, root, m);
      m.BelowCons(node, p);
      assert AllLocal(ws, node.file) && m.NodeResolves(node);
      assert m.Refers(node, p[0]) <==> Edge(ws, node.file, p[0]);
      if m.Refers(node, p[0]) {
        var stage := m.Stage(p[0]).value;
        assert stage.file == ws[p[0]];
        ChainIsPath(ws, root, m, stage, p[1..]);
      }
    }
  }

  /** Whether a linked module is acyclic can be read off the workspace. */
  lemma {:induction false} LinkedAcyclicIff(ws: Workspace, root: File, m: LinkedModule)
    requires LinkedFrom(ws, root, m)
    ensures m.Acyclic() <==> forall p | Path(ws, root, p) :: NoDup(p)
  {
    forall p ensures m.Below(m.root, p) <==> p == [] || Path(ws, root, p) {
      ChainIsPath(ws, root, m, m.root, p);
    }
  }

  // So a workspace without a cycle below the root links to a module whose run ends, whatever the drivers do, and
  // only a leaf can fail it.
  lemma {:induction false} LinkedRunEnds(ws: Workspace, root: File, m: LinkedModule, inputs: Frame, ds: Drivers)
    requires LinkedFrom(ws, root, m) && forall p | Path(ws, root, p) :: NoDup(p)
    requires m.NoEmptyComposition()
    ensures var r := RunNode(m, m.root, inputs, ds, NO_PRIOR, Room(m, []));
            r.Some? && (r.value.Err? ==> !r.value.error.UnresolvedStage? && !r.value.error.ZeroStages?)
  {
    hide RunNode, RunStages, LinkedModule.Acyclic, LinkedModule.Closed, LinkedFrom, Path;
    LinkedIsClosed(ws, root, m);
    LinkedAcyclicIff(ws, root, m);
    NodeEnds(m, [], m.root, inputs, ds, NO_PRIOR, Room(m, []));
  }

  lemma {:induction false} PathExtends(ws: Workspace, f: File, p: seq<string>, name: string)
    requires Path(ws, f, p) && p[|p| - 1] in ws && name in ws && Edge(ws, ws[p[|p| - 1]], name)
    ensures Reachable(ws, f, name)
    decreases |p|
  {
    if |p| == 1 {
      ReachThrough(ws, ws[p[0]], name, name);
    } else {
      PathExtends(ws, ws[p[0]], p[1..], name);
    }
    ReachThrough(ws, f, p[0], name);
  }
}
