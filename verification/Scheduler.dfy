/** The scheduler's choice of the next fire, its handling of corrupt cron rows, and fairness. */
module Scheduler {
  import opened Wrappers
  import opened Cadence
  import opened Health

  datatype Run = Run(
    id: string,
    recipe: string,
    enabled: bool,
    cadence: Cadence,
    health: Health,
    nextRun: Option<int>,
    deployed: Option<nat>,
    config: string)

  datatype NextFire = Fire(at: int, id: string) | SyntheticFail(id: string, expr: string) | Idle

  /** An enabled run whose stored cron expression no longer parses. */
  predicate Corrupt(lib: CronLib, r: Run) {
    r.enabled && r.cadence.Cron? && !lib.parses(r.cadence.expr)
  }

  /** A corrupt run that has not been marked failed yet. */
  predicate Pending(lib: CronLib, r: Run) {
    Corrupt(lib, r) && r.health != Failed
  }

  /** When a run asks to be fired. */
  function Asks(lib: CronLib, r: Run, now: int): Option<int> {
    if !r.enabled || Corrupt(lib, r) then None else NextFireFor(lib, r.cadence, r.nextRun, now)
  }

  /** Corrupt runs come first, in list order; otherwise the earliest fire, the first in the list among equals. */
  ghost predicate IsNextFire(lib: CronLib, runs: seq<Run>, now: int, r: NextFire) {
    match r
    case SyntheticFail(id, expr) =>
      exists i :: 0 <= i < |runs| && Pending(lib, runs[i]) && runs[i].id == id && runs[i].cadence.expr == expr
                  && forall j | 0 <= j < i :: !Pending(lib, runs[j])
    case Fire(at, id) =>
      && (forall i | 0 <= i < |runs| :: !Pending(lib, runs[i]))
      && exists i :: 0 <= i < |runs| && runs[i].id == id && Asks(lib, runs[i], now) == Some(at)
                     && (forall j | 0 <= j < |runs| && Asks(lib, runs[j], now).Some? ::
                          at <= Asks(lib, runs[j], now).value)
                     && (forall j | 0 <= j < i && Asks(lib, runs[j], now).Some? :: at < Asks(lib, runs[j], now).value)
    case Idle =>
      forall i | 0 <= i < |runs| :: !Pending(lib, runs[i]) && Asks(lib, runs[i], now).None?
  }

  method ChooseNextFire(lib: CronLib, runs: seq<Run>, now: int) returns (r: NextFire)
    ensures IsNextFire(lib, runs, now, r)
  {
    var best: Option<(int, string)> := None;
    ghost var at := 0;
    var i := 0;
    while i < |runs|
      invariant 0 <= i <= |runs|
      invariant forall j | 0 <= j < i :: !Pending(lib, runs[j])
      invariant best.None? ==> forall j | 0 <= j < i :: Asks(lib, runs[j], now).None?
      invariant best.Some? ==>
        && 0 <= at < i && runs[at].id == best.value.1 && Asks(lib, runs[at], now) == Some(best.value.0)
        && (forall j | 0 <= j < i && Asks(lib, runs[j], now).Some? :: best.value.0 <= Asks(lib, runs[j], now).value)
        && (forall j | 0 <= j < at && Asks(lib, runs[j], now).Some? :: best.value.0 < Asks(lib, runs[j], now).value)
    {
      var run := runs[i];
      if run.enabled {
        if run.cadence.Cron? && !lib.parses(run.cadence.expr) {
          if run.health != Failed {
            return SyntheticFail(run.id, run.cadence.expr);
          }
        } else {
          var fire := NextFireFor(lib, run.cadence, run.nextRun, now);
          if fire.Some? && (best.None? || fire.value < best.value.0) {
            best := Some((fire.value, run.id));
            at := i;
          }
        }
      }
      i := i + 1;
    }
    if best.Some? {
      return Fire(best.value.0, best.value.1);
    }
    return Idle;
  }

  // --- corrupt cron rows -----------------------------------------------------------

  function Marked(r: Run): Run {
    r.(health := Failed, nextRun := None)
  }

  /** The row write of a synthetic failure, if the transaction goes through. */
  function RecordSynthetic(runs: seq<Run>, id: string, wrote: bool): (r: seq<Run>)
    ensures |r| == |runs|
  {
    seq(|runs|, i requires 0 <= i < |runs| => if wrote && runs[i].id == id then Marked(runs[i]) else runs[i])
  }

  function PendingCount(lib: CronLib, runs: seq<Run>): nat {
    if runs == [] then 0
    else PendingCount(lib, runs[..|runs| - 1]) + if Pending(lib, runs[|runs| - 1]) then 1 else 0
  }

  /** The first corrupt row not yet failed, from the i-th on. */
  function FirstPending(lib: CronLib, runs: seq<Run>, i: nat): Option<nat>
    requires i <= |runs|
    decreases |runs| - i
  {
    if i == |runs| then None
    else if Pending(lib, runs[i]) then Some(i)
    else FirstPending(lib, runs, i + 1)
  }

  /** The rows after `n` turns of the loop head; the write of the k-th turn goes through when `writes(k)`. */
  function HeadAfter(lib: CronLib, runs: seq<Run>, writes: nat -> bool, n: nat): (r: seq<Run>)
    ensures |r| == |runs|
  {
    if n == 0 then runs
    else
      var was := HeadAfter(lib, runs, writes, n - 1);
      var i := FirstPending(lib, was, 0);
      if i.None? || i.value >= |was| then was else RecordSynthetic(was, was[i.value].id, writes(n - 1))
  }

  function Wrote(writes: nat -> bool, n: nat): nat {
    if n == 0 then 0 else Wrote(writes, n - 1) + if writes(n - 1) then 1 else 0
  }

  ghost predicate DistinctIds(runs: seq<Run>) {
    forall i, j | 0 <= i < j < |runs| :: runs[i].id != runs[j].id
  }

  lemma {:induction false} FirstPendingIs(lib: CronLib, runs: seq<Run>, i: nat)
    requires i <= |runs| && forall j | 0 <= j < i :: !Pending(lib, runs[j])
    ensures var f := FirstPending(lib, runs, i);
      && (f.None? ==> forall j | 0 <= j < |runs| :: !Pending(lib, runs[j]))
      && (f.Some? ==>
            f.value < |runs| && Pending(lib, runs[f.value]) && forall j | 0 <= j < f.value :: !Pending(lib, runs[j]))
    decreases |runs| - i
  {
    if i < |runs| && !Pending(lib, runs[i]) {
      FirstPendingIs(lib, runs, i + 1);
    }
  }

  lemma {:induction false} CountUpTo(lib: CronLib, runs: seq<Run>, i: nat, k: nat)
    requires i <= k <= |runs|
    ensures PendingCount(lib, runs[..i]) <= PendingCount(lib, runs[..k])
    ensures (exists j :: i <= j < k && Pending(lib, runs[j])) ==>
      PendingCount(lib, runs[..i]) < PendingCount(lib, runs[..k])
    decreases k - i
  {
    if i < k {
      assert runs[..k][..k - 1] == runs[..k - 1];
      CountUpTo(lib, runs, i, k - 1);
    }
  }

  /** When all pending rows before the i-th are among the first `w`, there are at most `w` of them. */
  lemma {:induction false} CountBounded(lib: CronLib, runs: seq<Run>, i: nat, w: nat)
    requires i <= |runs|
    requires forall j | 0 <= j < i && Pending(lib, runs[j]) :: PendingCount(lib, runs[..j]) < w
    ensures PendingCount(lib, runs[..i]) <= w
  {
    if i > 0 {
      CountBounded(lib, runs, i - 1, w);
      assert runs[..i][..i - 1] == runs[..i - 1];
    }
  }

  /** The first `w` pending rows are marked failed, and nothing else changed. */
  ghost predicate FirstMarked(lib: CronLib, runs: seq<Run>, w: nat, after: seq<Run>) {
    && |after| == |runs|
    && forall i | 0 <= i < |runs| ::
         if Pending(lib, runs[i]) && PendingCount(lib, runs[..i]) < w
         then after[i] == runs[i].(health := Failed, nextRun := None)
         else after[i] == runs[i]
  }

  /** What the loop head does in `n` turns: as many rows as had their write go through are marked, in list order. */
  lemma {:induction false} HeadMarks(lib: CronLib, runs: seq<Run>, writes: nat -> bool, n: nat)
    requires DistinctIds(runs)
    ensures FirstMarked(lib, runs, Wrote(writes, n), HeadAfter(lib, runs, writes, n))
  {
    hide Pending, FirstPending, Marked, DistinctIds;
    if n > 0 {
      HeadMarks(lib, runs, writes, n - 1);
      var was := HeadAfter(lib, runs, writes, n - 1);
      MarksOneMore(lib, runs, Wrote(writes, n - 1), was, writes(n - 1));
    }
  }

  lemma {:induction false} MarksOneMore(lib: CronLib, runs: seq<Run>, w: nat, was: seq<Run>, wrote: bool)
    requires DistinctIds(runs) && FirstMarked(lib, runs, w, was)
    ensures var i := FirstPending(lib, was, 0);
      FirstMarked(lib, runs, if wrote then w + 1 else w,
                  if i.None? || i.value >= |was| then was else RecordSynthetic(was, was[i.value].id, wrote))
  {
    FirstPendingIs(lib, was, 0);
    var i := FirstPending(lib, was, 0);
    var last := if i.Some? then i.value else |runs|;
    CountBounded(lib, runs, last, w);
    forall j | last <= j < |runs| ensures PendingCount(lib, runs[..last]) <= PendingCount(lib, runs[..j]) {
      CountUpTo(lib, runs, last, j);
    }
    forall j | last < j < |runs| && i.Some? ensures PendingCount(lib, runs[..last]) < PendingCount(lib, runs[..j]) {
      CountUpTo(lib, runs, last, j);
    }
  }

  // The loop head still yields a synthetic failure after `n` turns exactly when fewer writes went through than there
  // were corrupt rows to mark, whatever the clock says.
  lemma {:induction false} SyntheticUntilWritten(lib: CronLib, runs: seq<Run>, writes: nat -> bool, n: nat, now: int,
                                                 plan: NextFire)
    requires DistinctIds(runs) && IsNextFire(lib, HeadAfter(lib, runs, writes, n), now, plan)
    ensures plan.SyntheticFail? <==> Wrote(writes, n) < PendingCount(lib, runs)
  {
    HeadMarks(lib, runs, writes, n);
    var after, w := HeadAfter(lib, runs, writes, n), Wrote(writes, n);
    assert runs[..|runs|] == runs;
    if i :| 0 <= i < |runs| && Pending(lib, after[i]) {
      CountUpTo(lib, runs, i, |runs|);
    } else {
      forall j | 0 <= j < |runs| && Pending(lib, runs[j]) ensures PendingCount(lib, runs[..j]) < w {
        assert !Pending(lib, after[j]);
      }
      CountBounded(lib, runs, |runs|, w);
    }
  }

  /** While no write goes through, the loop head yields the same synthetic failure for any number of turns. */
  lemma {:induction false} StuckWithoutWrites(lib: CronLib, runs: seq<Run>, writes: nat -> bool, n: nat, now: int,
                                              plan: NextFire)
    requires forall k: nat | k < n :: !writes(k)
    requires plan.SyntheticFail? && IsNextFire(lib, runs, now, plan)
    ensures HeadAfter(lib, runs, writes, n) == runs
    ensures forall later :: IsNextFire(lib, HeadAfter(lib, runs, writes, n), later, plan)
  {
    if n > 0 {
      StuckWithoutWrites(lib, runs, writes, n - 1, now, plan);
    }
  }

  lemma {:induction false} OneTurn(lib: CronLib, runs: seq<Run>, writes: nat -> bool, n: nat, now: int, plan: NextFire)
    requires IsNextFire(lib, HeadAfter(lib, runs, writes, n), now, plan) && plan.SyntheticFail?
    ensures HeadAfter(lib, runs, writes, n + 1)
         == RecordSynthetic(HeadAfter(lib, runs, writes, n), plan.id, writes(n))
  {
    FirstPendingIs(lib, HeadAfter(lib, runs, writes, n), 0);
  }

  // At most `limit` turns of the head of the scheduler loop, each with its own reading of the clock and its own write:
  // it stops at a plan, or goes round after a synthetic failure.
  method DrainSynthetic(lib: CronLib, runs: seq<Run>, clock: nat -> int, writes: nat -> bool, limit: nat)
    returns (after: seq<Run>, plan: NextFire, turns: nat)
    ensures turns <= limit && after == HeadAfter(lib, runs, writes, turns)
    ensures IsNextFire(lib, after, clock(turns), plan)
    ensures plan.SyntheticFail? ==> turns == limit
    ensures DistinctIds(runs) ==> (plan.SyntheticFail? <==> Wrote(writes, turns) < PendingCount(lib, runs))
    ensures DistinctIds(runs) ==> FirstMarked(lib, runs, Wrote(writes, turns), after)
  {
    hide IsNextFire, RecordSynthetic, FirstPending, FirstMarked, DistinctIds, PendingCount;
    after, turns := runs, 0;
    plan := ChooseNextFire(lib, after, clock(turns));
    while turns < limit && plan.SyntheticFail?
      invariant turns <= limit && after == HeadAfter(lib, runs, writes, turns)
      invariant IsNextFire(lib, after, clock(turns), plan)
    {
      OneTurn(lib, runs, writes, turns, clock(turns), plan);
      after := RecordSynthetic(after, plan.id, writes(turns));
      turns := turns + 1;
      plan := ChooseNextFire(lib, after, clock(turns));
    }
    if DistinctIds(runs) {
      SyntheticUntilWritten(lib, runs, writes, turns, clock(turns), plan);
      HeadMarks(lib, runs, writes, turns);
    }
  }

  // --- fairness ------------------------------------------------------------------------

  datatype Clocked = Clocked(runs: seq<Run>, now: int)

  /** The scheduler fires `id`: it waits for the planned time at least, runs for any duration, and advances the row. */
  ghost predicate Fires(lib: CronLib, s: Clocked, id: string, s': Clocked) {
    && (exists at :: IsNextFire(lib, s.runs, s.now, Fire(at, id)) && s'.now >= at)
    && s'.now >= s.now && |s'.runs| == |s.runs|
    && forall i | 0 <= i < |s.runs| ::
         if s.runs[i].id == id then
           s'.runs[i] == s.runs[i].(nextRun := AdvanceNextRun(lib, s.runs[i].cadence, s.runs[i].nextRun, s'.now),
             health := s'.runs[i].health)
         else s'.runs[i] == s.runs[i]
  }

  ghost predicate Trace(lib: CronLib, states: seq<Clocked>, fired: seq<string>) {
    && |states| == |fired| + 1
    && forall i | 0 <= i < |fired| :: Fires(lib, states[i], fired[i], states[i + 1])
  }

  ghost predicate Waiting(s: Clocked, k: nat, a: int) {
    k < |s.runs| && s.runs[k].enabled && s.runs[k].cadence.Interval? && s.runs[k].nextRun == Some(a) && a <= s.now
  }

  /** A run that will not ask to be fired at or before `a` again. */
  predicate Past(r: Run, a: int) {
    r.cadence.Interval? ==> r.nextRun.Some? && r.nextRun.value > a
  }

  /** While an overdue run waits, only runs that are not past it fire, and each is past it afterwards. */
  lemma {:induction false} FiredOnce(lib: CronLib, s: Clocked, id: string, s': Clocked, k: nat, a: int)
    requires CronOk(lib) && Fires(lib, s, id, s') && Waiting(s, k, a) && id != s.runs[k].id
    ensures Waiting(s', k, a) && s'.runs[k].id == s.runs[k].id
    ensures exists i :: 0 <= i < |s.runs| && s.runs[i].id == id && !Past(s.runs[i], a)
    ensures forall i | 0 <= i < |s.runs| :: s'.runs[i].id == s.runs[i].id
    ensures forall i | 0 <= i < |s.runs| && (s.runs[i].id == id || Past(s.runs[i], a)) :: Past(s'.runs[i], a)
  {
    var at :| IsNextFire(lib, s.runs, s.now, Fire(at, id)) && s'.now >= at;
    assert Asks(lib, s.runs[k], s.now) == Some(a);
    forall i | 0 <= i < |s.runs| && s.runs[i].cadence.Interval?
      ensures var r := s.runs[i];
        StepPast(r.nextRun.GetOr(s'.now), StepMs(r.cadence.everyN, r.cadence.unit), s'.now) > s'.now
    {
      var r := s.runs[i];
      var _ := StepPastIsLeast(r.nextRun.GetOr(s'.now), StepMs(r.cadence.everyN, r.cadence.unit), s'.now);
    }
  }

  lemma {:induction false} FiredDistinct(lib: CronLib, states: seq<Clocked>, fired: seq<string>, k: nat, a: int,
                                         done: set<string>)
    requires CronOk(lib) && Trace(lib, states, fired) && Waiting(states[0], k, a)
    requires states[0].runs[k].id !in fired
    requires forall i | 0 <= i < |states[0].runs| && states[0].runs[i].id in done :: Past(states[0].runs[i], a)
    ensures NoDup(fired) && forall id | id in fired :: id !in done && exists i ::
        0 <= i < |states[0].runs| && states[0].runs[i].id == id
    decreases |fired|
  {
    if fired != [] {
      assert fired[0] in fired;
      FiredOnce(lib, states[0], fired[0], states[1], k, a);
      forall i | 0 <= i < |fired| - 1 ensures Fires(lib, states[1..][i], fired[1..][i], states[1..][i + 1]) {
        assert Fires(lib, states[i + 1], fired[i + 1], states[i + 2]);
      }
      FiredDistinct(lib, states[1..], fired[1..], k, a, done + {fired[0]});
      assert fired == [fired[0]] + fired[1..];
    }
  }

  // With a fixed set of N runs and no manual triggers, an overdue interval run is fired
  // after at most N - 1 other fires, whatever each of them takes.
  lemma {:induction false} OverdueIsFiredSoon(lib: CronLib, states: seq<Clocked>, fired: seq<string>, k: nat, a: int)
    requires CronOk(lib) && Trace(lib, states, fired) && Waiting(states[0], k, a)
    requires forall i, j | 0 <= i < j < |states[0].runs| :: states[0].runs[i].id != states[0].runs[j].id
    requires states[0].runs[k].id !in fired
    ensures |fired| <= |states[0].runs| - 1
  {
    FiredDistinct(lib, states, fired, k, a, {});
    var runs := states[0].runs;
    var others := set i | 0 <= i < |runs| && i != k :: runs[i].id;
    NoDupBound(fired, others);
    IdsBound(runs, k);
  }

  lemma {:induction false} IdsBound(runs: seq<Run>, k: nat)
    requires k < |runs|
    ensures |set i | 0 <= i < |runs| && i != k :: runs[i].id| <= |runs| - 1
  {
    var others := set i | 0 <= i < |runs| && i != k :: runs[i].id;
    var rest := runs[..k] + runs[k + 1..];
    forall id | id in others ensures exists j :: 0 <= j < |rest| && rest[j].id == id {
      var i :| 0 <= i < |runs| && i != k && runs[i].id == id;
      assert if i < k then rest[i] == runs[i] else rest[i - 1] == runs[i];
    }
    ImageBound(rest, others);
  }

  lemma {:induction false} ImageBound(runs: seq<Run>, ids: set<string>)
    requires forall id | id in ids :: exists j :: 0 <= j < |runs| && runs[j].id == id
    ensures |ids| <= |runs|
  {
    if runs == [] {
      assert ids == {};
    } else {
      var last := runs[|runs| - 1].id;
      ImageBound(runs[..|runs| - 1], ids - {last});
      assert |ids| <= |ids - {last}| + 1 by {
        if last !in ids { assert ids - {last} == ids; } else { assert ids == ids - {last} + {last}; }
      }
    }
  }
}
