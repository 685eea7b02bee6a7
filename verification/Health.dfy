/** Drift detection over a run's recent history, with the 0.7 threshold as an exact fraction. */
module Health {
  import opened Sorting

  datatype Health = Unknown | Healthy | Drift | Failed | Paused

  // Records emitted per type.
  type Counts = map<string, nat>

  const MIN_HISTORY := 3
  const PRIOR_WINDOW := 7

  function CountOf(c: Counts, ty: string): nat {
    if ty in c then c[ty] else 0
  }

  function AtMost(): (nat, nat) -> bool {
    (a: nat, b: nat) => a <= b
  }

  /** One type's counts across the prior runs. */
  function Column(prior: seq<Counts>, ty: string): seq<nat> {
    seq(|prior|, i requires 0 <= i < |prior| => CountOf(prior[i], ty))
  }

  /** Twice the median, a whole number. */
  function TwiceMedian(xs: seq<nat>): nat {
    if xs == [] then 0
    else
      var s, mid := Sort(AtMost(), xs), |xs| / 2;
      if |xs| % 2 == 1 then 2 * s[mid] else s[mid - 1] + s[mid]
  }

  /** The latest count is at most 0.7 of a median that is not zero. */
  predicate Drifted(latest: Counts, prior: seq<Counts>, ty: string) {
    var m := TwiceMedian(Column(prior, ty));
    m > 0 && 20 * CountOf(latest, ty) <= 7 * m
  }

  /** A failed run fails; a short history is healthy; otherwise some type, seen or not, has drifted or none has. */
  ghost function HealthOf(ok: bool, latest: Counts, prior: seq<Counts>): Health {
    if !ok then Failed
    else if |prior| < MIN_HISTORY then Healthy
    else if exists ty :: Drifted(latest, prior, ty) then Drift
    else Healthy
  }

  method MedianTwice(xs: seq<nat>) returns (m: nat)
    ensures m == TwiceMedian(xs)
  {
    if |xs| == 0 {
      return 0;
    }
    var sorted := Sort(AtMost(), xs);
    var mid := |sorted| / 2;
    if |sorted| % 2 == 1 {
      m := 2 * sorted[mid];
    } else {
      m := sorted[mid - 1] + sorted[mid];
    }
  }

  method DeriveHealth(ok: bool, latest: Counts, prior: seq<Counts>) returns (h: Health)
    ensures h == HealthOf(ok, latest, prior) && Judged(ok, latest, prior, h)
  {
    HealthJudges(ok, latest, prior);
    hide Judged;
    if !ok {
      return Failed;
    }
    if |prior| < MIN_HISTORY {
      return Healthy;
    }
    var types: set<string> := {};
    var i := 0;
    while i < |prior|
      invariant 0 <= i <= |prior|
      invariant forall j | 0 <= j < i :: prior[j].Keys <= types
    {
      types := types + prior[i].Keys;
      i := i + 1;
    }
    types := types + latest.Keys;
    var todo := types;
    while todo != {}
      invariant todo <= types
      invariant forall ty | ty in types && ty !in todo :: !Drifted(latest, prior, ty)
      decreases todo
    {
      var ty :| ty in todo;
      todo := todo - {ty};
      var counts := Column(prior, ty);
      var median := MedianTwice(counts);
      if median != 0 && 20 * CountOf(latest, ty) <= 7 * median {
        assert Drifted(latest, prior, ty);
        return Drift;
      }
    }
    forall ty ensures !Drifted(latest, prior, ty) {
      if ty !in types {
        UnseenHasNoMedian(prior, ty);
      }
    }
    return Healthy;
  }

  lemma {:induction false} NatOrder()
    ensures TotalOrder(AtMost())
  {
  }

  /** A type no prior run emitted has median zero. */
  lemma {:induction false} UnseenHasNoMedian(prior: seq<Counts>, ty: string)
    requires forall j | 0 <= j < |prior| :: ty !in prior[j]
    ensures TwiceMedian(Column(prior, ty)) == 0
  {
    var xs := Column(prior, ty);
    SortElements(AtMost(), xs);
    var s, mid := Sort(AtMost(), xs), |xs| / 2;
    forall x | x in s ensures x == 0 {
      assert x in multiset(s);
      assert x in xs;
    }
    if xs != [] { assert s[mid] in s && (mid > 0 ==> s[mid - 1] in s); }
  }

  // --- the median -----------------------------------------------------------------

  lemma {:induction false} SortedIs(xs: seq<nat>, s: seq<nat>)
    requires multiset(s) == multiset(xs) && forall i, j | 0 <= i < j < |s| :: s[i] <= s[j]
    ensures Sort(AtMost(), xs) == s
  {
    hide Sort;
    NatOrder();
    SortElements(AtMost(), xs);
    SortSorted(AtMost(), xs);
    SortedUnique(AtMost(), Sort(AtMost(), xs), s);
  }

  /** The median is the mean of the two middle counts, or the middle one twice, of the counts in order. */
  lemma {:induction false} MedianOfSorted(xs: seq<nat>, s: seq<nat>)
    requires xs != [] && multiset(s) == multiset(xs) && forall i, j | 0 <= i < j < |s| :: s[i] <= s[j]
    ensures |s| == |xs| && TwiceMedian(xs) == s[(|s| - 1) / 2] + s[|s| / 2]
  {
    hide Sort;
    SortedIs(xs, s);
  }

  function CountIf(xs: seq<nat>, p: nat -> bool): nat {
    if xs == [] then 0 else CountIf(xs[..|xs| - 1], p) + if p(xs[|xs| - 1]) then 1 else 0
  }

  lemma {:induction false} CountIfPermuted(a: seq<nat>, b: seq<nat>, p: nat -> bool)
    requires multiset(a) == multiset(b)
    ensures CountIf(a, p) == CountIf(b, p)
    decreases |a|
  {
    assert |multiset(a)| == |a| && |multiset(b)| == |b|;
    if a != [] {
      var n := |a| - 1;
      assert a[n] in multiset(b);
      var j :| 0 <= j < |b| && b[j] == a[n];
      var rest := b[..j] + b[j + 1..];
      assert a[..n] + a[n + 1..] == a[..n];
      Unremoved(a, n);
      Unremoved(b, j);
      Cancel(multiset(a[..n]), multiset(rest), a[n]);
      CountIfPermuted(a[..n], rest, p);
      CountIfRemoved(b, j, p);
    }
  }

  lemma {:induction false} CountIfRemoved(s: seq<nat>, j: nat, p: nat -> bool)
    requires j < |s|
    ensures CountIf(s, p) == CountIf(s[..j] + s[j + 1..], p) + if p(s[j]) then 1 else 0
  {
    var n := |s| - 1;
    if j < n {
      CountIfRemoved(s[..n], j, p);
      var rest := s[..j] + s[j + 1..];
      assert rest[..n - 1] == s[..n][..j] + s[..n][j + 1..];
    } else {
      assert s[..j] + s[j + 1..] == s[..n];
    }
  }

  /** If all of the first k satisfy `p`, at least k do; if all from k on do, at least the rest. */
  lemma {:induction false} CountIfAtLeast(s: seq<nat>, k: nat, p: nat -> bool)
    requires k <= |s|
    ensures (forall i | 0 <= i < k :: p(s[i])) ==> CountIf(s, p) >= k
    ensures (forall i | k <= i < |s| :: p(s[i])) ==> CountIf(s, p) >= |s| - k
  {
    if |s| > 0 {
      var n := |s| - 1;
      CountIfAtLeast(s[..n], if k <= n then k else n, p);
    }
  }

  /** A count doubled lies at or below `m`, or at or above it. */
  function Low(m: nat): nat -> bool {
    x => 2 * x <= m
  }

  function High(m: nat): nat -> bool {
    x => 2 * x >= m
  }

  /** Half of the counts at least lie at or below the median, and half at or above it. */
  lemma {:induction false} MedianHalves(xs: seq<nat>)
    ensures var m := TwiceMedian(xs);
      2 * CountIf(xs, Low(m)) >= |xs| && 2 * CountIf(xs, High(m)) >= |xs|
  {
    if xs != [] {
      var s, m := Sort(AtMost(), xs), TwiceMedian(xs);
      NatOrder();
      SortElements(AtMost(), xs);
      SortSorted(AtMost(), xs);
      SortedPairs(s);
      MedianOfSorted(xs, s);
      CountIfPermuted(xs, s, Low(m));
      CountIfPermuted(xs, s, High(m));
      MiddleHalves(s, m);
    }
  }

  lemma {:induction false} MiddleHalves(s: seq<nat>, m: nat)
    requires s != [] && (forall i, j | 0 <= i < j < |s| :: s[i] <= s[j]) && m == s[(|s| - 1) / 2] + s[|s| / 2]
    ensures 2 * CountIf(s, Low(m)) >= |s| && 2 * CountIf(s, High(m)) >= |s|
  {
    var lower, upper := (|s| - 1) / 2, |s| / 2;
    forall i | 0 <= i < lower + 1 ensures Low(m)(s[i]) {
      assert s[i] <= s[lower] <= s[upper];
    }
    forall i | upper <= i < |s| ensures High(m)(s[i]) {
      assert s[lower] <= s[upper] <= s[i];
    }
    CountIfAtLeast(s, lower + 1, Low(m));
    CountIfAtLeast(s, upper, High(m));
  }

  lemma {:induction false} SortedPairs(s: seq<nat>)
    requires Sorted(AtMost(), s)
    ensures forall i, j | 0 <= i < j < |s| :: s[i] <= s[j]
  {
    forall i, j | 0 <= i < j < |s| ensures s[i] <= s[j] {
      assert AtMost()(s[i], s[j]);
    }
  }

  /** The threshold of `Drifted` in fractions. */
  /** What each prior run emitted of a type. */
  ghost predicate EmittedOf(prior: seq<Counts>, ty: string, xs: seq<nat>) {
    |xs| == |prior| && forall i | 0 <= i < |prior| :: xs[i] == if ty in prior[i] then prior[i][ty] else 0
  }

  /** Those counts in ascending order. */
  ghost predicate Ranked(prior: seq<Counts>, ty: string, s: seq<nat>) {
    && (forall i, j | 0 <= i < j < |s| :: s[i] <= s[j])
    && exists xs: seq<nat> :: EmittedOf(prior, ty, xs) && multiset(xs) == multiset(s) && |xs| == |s|
  }

  /** A type has drifted: what the latest run emitted of it is at most 0.7 of a median that is not zero. */
  ghost predicate HasDrifted(latest: Counts, prior: seq<Counts>, ty: string) {
    exists s ::
      && Ranked(prior, ty, s) && s != []
      && var twice, seen := s[(|s| - 1) / 2] + s[|s| / 2], if ty in latest then latest[ty] else 0;
         twice > 0 && 20 * seen <= 7 * twice
  }

  // The verdict on a run: failed if it failed; healthy when fewer than three prior runs are there to compare with, or
  // when no type has drifted.
  ghost predicate Judged(ok: bool, latest: Counts, prior: seq<Counts>, h: Health) {
    if !ok then h == Failed
    else if |prior| < 3 then h == Healthy
    else (h == Drift || h == Healthy) && (h == Drift <==> exists ty :: HasDrifted(latest, prior, ty))
  }

  lemma {:induction false} RankedMedian(prior: seq<Counts>, ty: string, s: seq<nat>)
    requires prior != [] && Ranked(prior, ty, s)
    ensures s != [] && TwiceMedian(Column(prior, ty)) == s[(|s| - 1) / 2] + s[|s| / 2]
  {
    var xs: seq<nat> :| EmittedOf(prior, ty, xs) && multiset(xs) == multiset(s) && |xs| == |s|;
    assert xs == Column(prior, ty);
    hide TwiceMedian, Column, EmittedOf, Ranked;
    MedianOfSorted(xs, s);
  }

  lemma {:induction false} SortedIsRanked(prior: seq<Counts>, ty: string)
    ensures Ranked(prior, ty, Sort(AtMost(), Column(prior, ty)))
  {
    var xs := Column(prior, ty);
    assert EmittedOf(prior, ty, xs);
    hide EmittedOf, Column, Sort;
    NatOrder();
    SortElements(AtMost(), xs);
    SortSorted(AtMost(), xs);
  }

  lemma {:induction false} DriftedIff(latest: Counts, prior: seq<Counts>, ty: string)
    requires prior != []
    ensures Drifted(latest, prior, ty) <==> HasDrifted(latest, prior, ty)
  {
    hide Ranked, TwiceMedian, Column, Sort;
    SortedIsRanked(prior, ty);
    RankedMedian(prior, ty, Sort(AtMost(), Column(prior, ty)));
    forall s: seq<nat> | Ranked(prior, ty, s)
      ensures s != [] && TwiceMedian(Column(prior, ty)) == s[(|s| - 1) / 2] + s[|s| / 2]
    {
      RankedMedian(prior, ty, s);
    }
  }

  lemma {:induction false} HealthJudges(ok: bool, latest: Counts, prior: seq<Counts>)
    ensures Judged(ok, latest, prior, HealthOf(ok, latest, prior))
  {
    if prior != [] {
      forall ty ensures Drifted(latest, prior, ty) <==> HasDrifted(latest, prior, ty) {
        DriftedIff(latest, prior, ty);
      }
    }
    hide Drifted, HasDrifted;
  }

  lemma {:induction false} DriftThreshold(latest: Counts, prior: seq<Counts>, ty: string)
    ensures var median := TwiceMedian(Column(prior, ty)) as real / 2.0;
      Drifted(latest, prior, ty) <==> median > 0.0 && CountOf(latest, ty) as real <= 0.7 * median
  {
  }

  // --- order does not matter --------------------------------------------------

  lemma {:induction false} Unremoved<T>(s: seq<T>, j: nat)
    requires j < |s|
    ensures multiset(s) == multiset(s[..j] + s[j + 1..]) + multiset{s[j]}
  {
    assert s == s[..j] + [s[j]] + s[j + 1..];
  }

  lemma {:induction false} Cancel<T>(a: multiset<T>, b: multiset<T>, x: T)
    requires a + multiset{x} == b + multiset{x}
    ensures a == b
  {
    assert a == (a + multiset{x}) - multiset{x};
    assert b == (b + multiset{x}) - multiset{x};
  }

  lemma {:induction false} ColumnWithout(s: seq<Counts>, j: nat, ty: string)
    requires j < |s|
    ensures multiset(Column(s, ty)) == multiset(Column(s[..j] + s[j + 1..], ty)) + multiset{CountOf(s[j], ty)}
  {
    Unremoved(Column(s, ty), j);
    assert Column(s, ty)[..j] + Column(s, ty)[j + 1..] == Column(s[..j] + s[j + 1..], ty);
  }

  lemma {:induction false} ColumnOfPermutation(a: seq<Counts>, b: seq<Counts>, ty: string)
    requires multiset(a) == multiset(b)
    ensures multiset(Column(a, ty)) == multiset(Column(b, ty))
    decreases |a|
  {
    if a == [] {
      assert |multiset(b)| == |b|;
    } else {
      var j := Partner(a, b);
      ColumnOfPermutation(a[1..], b[..j] + b[j + 1..], ty);
      assert a[..0] + a[0 + 1..] == a[1..];
      ColumnWithout(a, 0, ty);
      ColumnWithout(b, j, ty);
    }
  }

  /** Where the first element of one arrangement stands in the other, and what is left of both. */
  lemma {:induction false} Partner<T>(a: seq<T>, b: seq<T>) returns (j: nat)
    requires a != [] && multiset(a) == multiset(b)
    ensures j < |b| && b[j] == a[0] && multiset(b[..j] + b[j + 1..]) == multiset(a[1..])
  {
    assert a[0] in multiset(b);
    j :| 0 <= j < |b| && b[j] == a[0];
    assert a[..0] + a[0 + 1..] == a[1..];
    Unremoved(a, 0);
    Unremoved(b, j);
    Cancel(multiset(a[1..]), multiset(b[..j] + b[j + 1..]), a[0]);
  }

  /** Health depends only on which prior runs there are, not on their order. */
  lemma {:induction false} HealthIsOrderFree(ok: bool, latest: Counts, a: seq<Counts>, b: seq<Counts>)
    requires multiset(a) == multiset(b)
    ensures HealthOf(ok, latest, a) == HealthOf(ok, latest, b)
  {
    assert |multiset(a)| == |a| && |multiset(b)| == |b|;
    NatOrder();
    forall ty ensures TwiceMedian(Column(a, ty)) == TwiceMedian(Column(b, ty)) {
      ColumnOfPermutation(a, b, ty);
      SortOfPermutation(AtMost(), Column(a, ty), Column(b, ty));
    }
    forall ty ensures Drifted(latest, a, ty) == Drifted(latest, b, ty) {
    }
  }

  // --- more now, or less before, never looks worse --------------------------------

  predicate Below(a: seq<nat>, b: seq<nat>) {
    |a| == |b| && forall k | 0 <= k < |a| :: a[k] <= b[k]
  }

  lemma {:induction false} InsertLeast(x: nat, s: seq<nat>)
    requires Sorted(AtMost(), [x] + s)
    ensures Insert(AtMost(), x, s) == [x] + s
  {
    if s != [] {
      assert ([x] + s)[0] == x && ([x] + s)[1] == s[0];
      assert AtMost()(([x] + s)[0], ([x] + s)[1]);
    }
  }

  /** Inserting into a sorted tail: the head stays in front unless the new element is smaller. */
  lemma {:induction false} InsertOnTail(x: nat, s: seq<nat>)
    requires s != [] && Sorted(AtMost(), s)
    ensures Sorted(AtMost(), s[1..])
    ensures Insert(AtMost(), x, s) == if x <= s[0] then [x] + Insert(AtMost(), s[0], s[1..])
        else [s[0]] + Insert(AtMost(), x, s[1..])
  {
    assert s == [s[0]] + s[1..];
    InsertLeast(s[0], s[1..]);
  }

  lemma {:induction false} BelowCons(x: nat, a: seq<nat>, y: nat, b: seq<nat>)
    requires x <= y && Below(a, b)
    ensures Below([x] + a, [y] + b)
  {
  }

  lemma {:induction false} InsertMonotone(x: nat, a: seq<nat>, y: nat, b: seq<nat>)
    requires x <= y && Below(a, b) && Sorted(AtMost(), a) && Sorted(AtMost(), b)
    ensures Below(Insert(AtMost(), x, a), Insert(AtMost(), y, b))
    decreases |a|
  {
    if a != [] {
      InsertOnTail(x, a);
      InsertOnTail(y, b);
      // What goes in front of, and into, the two tails.
      var (p, u) := if x <= a[0] then (x, a[0]) else (a[0], x);
      var (q, v) := if y <= b[0] then (y, b[0]) else (b[0], y);
      InsertMonotone(u, a[1..], v, b[1..]);
      BelowCons(p, Insert(AtMost(), u, a[1..]), q, Insert(AtMost(), v, b[1..]));
    }
  }

  lemma {:induction false} SortMonotone(a: seq<nat>, b: seq<nat>)
    requires Below(a, b)
    ensures Below(Sort(AtMost(), a), Sort(AtMost(), b))
  {
    if a != [] {
      NatOrder();
      SortMonotone(a[1..], b[1..]);
      SortSorted(AtMost(), a[1..]);
      SortSorted(AtMost(), b[1..]);
      InsertMonotone(a[0], Sort(AtMost(), a[1..]), b[0], Sort(AtMost(), b[1..]));
    }
  }

  /** Raising latest counts and lowering prior counts never turns a healthy run into a drifting one. */
  lemma {:induction false} HealthIsMonotone(latest: Counts, prior: seq<Counts>, latest': Counts, prior': seq<Counts>)
    requires |prior| == |prior'|
    requires forall ty :: CountOf(latest, ty) <= CountOf(latest', ty)
    requires forall i, ty | 0 <= i < |prior| :: CountOf(prior'[i], ty) <= CountOf(prior[i], ty)
    requires HealthOf(true, latest, prior) == Healthy
    ensures HealthOf(true, latest', prior') == Healthy
  {
    forall ty | |prior| >= MIN_HISTORY ensures !Drifted(latest', prior', ty) {
      SortMonotone(Column(prior', ty), Column(prior, ty));
      assert TwiceMedian(Column(prior', ty)) <= TwiceMedian(Column(prior, ty));
      assert !Drifted(latest, prior, ty);
    }
  }
}
