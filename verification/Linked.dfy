/** Parsed files, linked modules and the graph their compositions form. */
module Linked {
  import opened Wrappers

  datatype EngineKind = Http | Browser

  // A stage of a composition. `author` is set for a stage that lives on the hub.
  datatype RecipeRef = RecipeRef(author: Option<string>, name: string)

  datatype RecipeBody = Scraping(code: string) | Empty | Composition(stages: seq<RecipeRef>)

  datatype Header = Header(name: string, engine: EngineKind)

  // `emits` is the resolved output type set: declared, or inferred from the body.
  datatype File = File(header: Option<Header>, emits: set<string>, body: RecipeBody)

  datatype LinkedRecipe = LinkedRecipe(file: File, emitTypes: set<string>)

  function FromFile(f: File): (r: LinkedRecipe)
    ensures r.file == f && r.emitTypes == f.emits
  {
    LinkedRecipe(f, f.emits)
  }

  function StagesOf(f: File): seq<RecipeRef> {
    if f.body.Composition? then f.body.stages else []
  }

  datatype LinkedModule = LinkedModule(
    root: LinkedRecipe, stages: map<string, LinkedRecipe>, catalog: map<string, string>)
  {
    predicate RootIs(name: string) {
      root.file.header.Some? && root.file.header.value.name == name
    }

    /** A stage by name; the root answers to its own. */
    function Stage(name: string): Option<LinkedRecipe> {
      if RootIs(name) then Some(root)
      else if name in stages then Some(stages[name])
      else None
    }

    function Names(): set<string> {
      stages.Keys + (if root.file.header.Some? then {root.file.header.value.name} else {})
    }

    ghost predicate Refers(node: LinkedRecipe, name: string) {
      exists r :: r in StagesOf(node.file) && r.name == name
    }

    /** Each name is a stage of the one before it. */
    ghost predicate Chain(p: seq<string>) {
      && (forall i | 0 <= i < |p| :: Stage(p[i]).Some?)
      && (forall i, j | 0 <= i && j == i + 1 && j < |p| :: Refers(Stage(p[i]).value, p[j]))
    }

    /** A chain of stages that starts below `node`. */
    ghost predicate Below(node: LinkedRecipe, p: seq<string>) {
      Chain(p) && (p != [] ==> Refers(node, p[0]))
    }

    /** No chain of stages below the root comes back to a recipe. */
    ghost predicate Acyclic() {
      forall p | Below(root, p) :: NoDup(p)
    }

    ghost predicate NodeResolves(node: LinkedRecipe) {
      forall r | r in StagesOf(node.file) :: Stage(r.name).Some?
    }

    /** Every stage reference of every node resolves. */
    ghost predicate Closed() {
      NodeResolves(root) && forall n | n in stages :: NodeResolves(stages[n])
    }

    ghost predicate NoEmptyComposition() {
      && root.file.body != Composition([])
      && forall n | n in stages :: stages[n].file.body != Composition([])
    }

    lemma {:induction false} ChainIsShort(p: seq<string>)
      requires Acyclic() && Below(root, p)
      ensures |p| <= |Names()|
    {
      forall x | x in p ensures x in Names() {
        var i :| 0 <= i < |p| && p[i] == x;
        assert Stage(p[i]).Some?;
      }
      NoDupBound(p, Names());
    }

    lemma {:induction false} BelowExtends(node: LinkedRecipe, p: seq<string>, q: seq<string>)
      requires Below(node, p) && Chain(q) && p != [] && (q != [] ==> Refers(Stage(p[|p| - 1]).value, q[0]))
      ensures Below(node, p + q)
    {
      var r := p + q;
      forall i | 0 <= i < |r| - 1 ensures Refers(Stage(r[i]).value, r[i + 1]) {
        if i < |p| - 1 {
          assert Refers(Stage(p[i]).value, p[i + 1]);
        } else if i >= |p| {
          assert Refers(Stage(q[i - |p|]).value, q[i - |p| + 1]);
        }
      }
    }

    lemma {:induction false} ChainTail(p: seq<string>, i: nat)
      requires Chain(p) && i <= |p|
      ensures Chain(p[i..])
      ensures 0 < i < |p| ==> Below(Stage(p[i - 1]).value, p[i..])
    {
      var q := p[i..];
      forall j | 0 <= j < |q| - 1 ensures Refers(Stage(q[j]).value, q[j + 1]) {
        assert Refers(Stage(p[i + j]).value, p[i + j + 1]);
      }
      if 0 < i < |p| {
        assert Refers(Stage(p[i - 1]).value, p[i - 1 + 1]);
      }
    }

    /** A chain below a node is a stage of it, then a chain below that. */
    lemma {:induction false} BelowCons(node: LinkedRecipe, p: seq<string>)
      requires p != []
      ensures Below(node, p) <==>
        Refers(node, p[0]) && Stage(p[0]).Some? && Below(Stage(p[0]).value, p[1..])
    {
      assert p == [p[0]] + p[1..];
      if Below(node, p) {
        ChainTail(p, 1);
      } else if Refers(node, p[0]) && Stage(p[0]).Some? && Below(Stage(p[0]).value, p[1..]) {
        BelowExtends(node, [p[0]], p[1..]);
      }
    }

    lemma {:induction false} NoneBelowLeaf(node: LinkedRecipe, p: seq<string>)
      requires StagesOf(node.file) == [] && Below(node, p)
      ensures p == []
    {
    }

    /** In an acyclic module a chain that starts with the root itself visits no recipe twice either. */
    lemma {:induction false} RootChainNoDup(p: seq<string>)
      requires Acyclic() && Chain(p) && p != [] && Stage(p[0]) == Some(root)
      ensures NoDup(p)
    {
      ChainTail(p, 1);
      var q := p[1..];
      forall i, j | 0 <= i < j < |p| ensures p[i] != p[j] {
        if i > 0 {
          assert q[i - 1] != q[j - 1];
        } else if p[j] == p[0] {
          var back := q[..j];
          assert back[j - 1] == p[0];
          forall k | 0 <= k < |back| - 1 ensures Refers(Stage(back[k]).value, back[k + 1]) {
            assert Refers(Stage(q[k]).value, q[k + 1]);
          }
          var round := back + [q[0]];
          assert round[0] == round[j];
          BelowExtends(root, back, [q[0]]);
          assert false;
        }
      }
    }

    /** A cycle below a node can be gone round again: chains below it are of any length. */
    lemma {:induction false} Pumped(node: LinkedRecipe, p: seq<string>, i: nat, length: nat) returns (q: seq<string>)
      requires Below(node, p) && i < |p| - 1 && p[i] == p[|p| - 1]
      ensures Below(node, q) && |q| > length
      decreases length - |p|
    {
      if |p| > length {
        q := p;
      } else {
        ChainTail(p, i + 1);
        BelowExtends(node, p, p[i + 1..]);
        q := Pumped(node, p + p[i + 1..], |p| - 1, length);
      }
    }

    /** A module is acyclic if and only if the chains below its root are bounded. */
    lemma {:induction false} AcyclicIsBounded(length: nat)
      ensures Acyclic() ==> forall p | Below(root, p) :: |p| <= |Names()|
      ensures (forall p | Below(root, p) :: |p| <= length) ==> Acyclic()
    {
      if Acyclic() {
        forall p | Below(root, p) ensures |p| <= |Names()| {
          ChainIsShort(p);
        }
      }
      if !Acyclic() {
        var p :| Below(root, p) && !NoDup(p);
        var i, j :| 0 <= i < j < |p| && p[i] == p[j];
        var init := p[..j + 1];
        forall k | 0 <= k < |init| - 1 ensures Refers(Stage(init[k]).value, init[k + 1]) {
          assert Refers(Stage(p[k]).value, p[k + 1]);
        }
        var q := Pumped(root, init, i, length);
      }
    }
  }
}
