/** Cadences: when a run fires next, and how often it can fire. Times are milliseconds. */
module Cadence {
  import opened Wrappers

  datatype TimeUnit = M | H | D

  datatype Cadence = Manual | Interval(everyN: nat, unit: TimeUnit) | Cron(expr: string)

  // The cron library: which expressions parse, and the next fire after a moment.
  datatype CronLib = CronLib(parses: string -> bool, after: (string, int) -> Option<int>)

  /** A cron fire lies strictly after the moment it is asked for, and only a parsed expression fires. */
  ghost predicate CronOk(lib: CronLib) {
    forall e, t :: lib.after(e, t).Some? ==> lib.after(e, t).value > t && lib.parses(e)
  }

  function IntervalMs(everyN: nat, unit: TimeUnit): nat {
    everyN * (match unit case M => 60 case H => 3600 case D => 86400) * 1000
  }

  /** A minute is sixty thousand milliseconds, an hour sixty minutes, a day twenty-four hours. */
  lemma {:induction false} UnitLengths(n: nat)
    ensures IntervalMs(n, M) == n * 60_000 && IntervalMs(n, H) == IntervalMs(60 * n, M)
    ensures IntervalMs(n, D) == IntervalMs(24 * n, H)
    ensures n >= 1 ==> StepMs(n, M) == n * 60_000 && StepMs(n, H) == n * 3_600_000 && StepMs(n, D) == n * 86_400_000
  {
  }

  function StepMs(everyN: nat, unit: TimeUnit): (step: nat)
    ensures step >= 1
  {
    if IntervalMs(everyN, unit) < 1 then 1 else IntervalMs(everyN, unit)
  }

  function NextFireFor(lib: CronLib, cadence: Cadence, nextRun: Option<int>, now: int): Option<int> {
    match cadence
    case Manual => None
    case Interval(n, u) => Some(nextRun.GetOr(now + StepMs(n, u)))
    case Cron(e) => lib.after(e, now)
  }

  /** One add-a-step at a time, until strictly past `now`. */
  function StepPast(anchor: int, step: nat, now: int): int
    requires step >= 1
    decreases now - anchor
  {
    if anchor + step > now then anchor + step else StepPast(anchor + step, step, now)
  }

  function AdvanceNextRun(lib: CronLib, cadence: Cadence, nextRun: Option<int>, now: int): Option<int> {
    match cadence
    case Manual => None
    case Interval(n, u) => Some(StepPast(nextRun.GetOr(now), StepMs(n, u), now))
    case Cron(e) => lib.after(e, now)
  }

  function StepsAfter(anchor: int, k: nat, step: nat): int {
    anchor + k * step
  }

  // After a fire: never again, when the cron library says, or the least whole number of steps past the planned time,
  // or past the moment if none was planned, that lies in the future.
  ghost predicate OnCadence(lib: CronLib, cadence: Cadence, nextRun: Option<int>, now: int, r: Option<int>) {
    match cadence
    case Manual => r == None
    case Cron(e) => r == lib.after(e, now)
    case Interval(n, u) =>
      var anchor := if nextRun.Some? then nextRun.value else now;
      var unit := if u == M then 60_000 else if u == H then 3_600_000 else 86_400_000;
      var step := if n == 0 then 1 else n * unit;
      && r.Some? && r.value > now
      && (exists k :: k >= 1 && r.value == StepsAfter(anchor, k, step))
      && forall k | k >= 1 && StepsAfter(anchor, k, step) > now :: r.value <= StepsAfter(anchor, k, step)
  }

  lemma {:induction false} AdvancedOnCadence(lib: CronLib, cadence: Cadence, nextRun: Option<int>, now: int)
    ensures OnCadence(lib, cadence, nextRun, now, AdvanceNextRun(lib, cadence, nextRun, now))
  {
    match cadence {
      case Interval(n, u) =>
        var anchor, step := if nextRun.Some? then nextRun.value else now, StepMs(n, u);
        UnitLengths(n);
        var k := StepPastIsLeast(anchor, step, now);
        assert StepsAfter(anchor, k, step) == StepPast(anchor, step, now);
        forall j: nat | j >= 1 && StepsAfter(anchor, j, step) > now
          ensures StepPast(anchor, step, now) <= StepsAfter(anchor, j, step)
        {
          Times(k, j, step);
        }
      case _ =>
    }
  }

  // A run that has no planned time is planned as if it had just fired; a planned interval fire keeps its time, even a
  // past one.
  lemma {:induction false} PlannedOnCadence(lib: CronLib, cadence: Cadence, nextRun: Option<int>, now: int)
    ensures cadence.Interval? && nextRun.Some? ==> NextFireFor(lib, cadence, nextRun, now) == nextRun
    ensures !(cadence.Interval? && nextRun.Some?) ==>
      OnCadence(lib, cadence, None, now, NextFireFor(lib, cadence, nextRun, now))
  {
    AdvancedOnCadence(lib, cadence, None, now);
  }

  /** The arithmetic of the source: one division instead of the walk. */
  method Advance(lib: CronLib, cadence: Cadence, nextRun: Option<int>, now: int) returns (r: Option<int>)
    ensures r == AdvanceNextRun(lib, cadence, nextRun, now)
    ensures OnCadence(lib, cadence, nextRun, now, r)
  {
    AdvancedOnCadence(lib, cadence, nextRun, now);
    hide OnCadence;
    match cadence {
      case Manual => return None;
      case Cron(e) => return lib.after(e, now);
      case Interval(n, u) =>
        var step := StepMs(n, u);
        var anchor := nextRun.GetOr(now);
        var next := anchor + step;
        if next <= now {
          var behind := now - next;
          var skips := behind / step + 1;
          SkipIsWalk(next, step, now);
          next := next + skips * step;
        }
        return Some(next);
    }
  }

  lemma {:induction false} SkipIsWalk(next: int, step: nat, now: int)
    requires step >= 1 && next <= now
    ensures next + ((now - next) / step + 1) * step == StepPast(next, step, now)
    decreases now - next
  {
    var q := (now - next) / step;
    Quotient(now - next, step);
    if next + step <= now {
      SkipIsWalk(next + step, step, now);
      Quotient(now - next - step, step);
      QuotientUnique(now - next, step, (now - next - step) / step + 1);
      assert (q + 1) * step == q * step + step;
      assert ((now - (next + step)) / step + 1) * step == q * step;
    } else {
      QuotientUnique(now - next, step, 0);
    }
  }

  lemma {:induction false} Quotient(a: int, step: nat)
    requires a >= 0 && step >= 1
    ensures a / step * step <= a < a / step * step + step && a / step >= 0
  {
  }

  lemma {:induction false} Times(a: int, b: int, step: nat)
    requires a <= b
    ensures a * step <= b * step
  {
    assert (b - a) * step >= 0;
  }

  lemma {:induction false} SameQuotient(p: int, q: int, a: int, step: nat)
    requires step >= 1
    requires p * step <= a < p * step + step && q * step <= a < q * step + step
    ensures p == q
  {
    assert (p + 1) * step == p * step + step && (q + 1) * step == q * step + step;
    Times(p + 1, if p < q then q else p + 1, step);
    Times(q + 1, if q < p then p else q + 1, step);
  }

  lemma {:induction false} QuotientUnique(a: int, step: nat, q: int)
    requires a >= 0 && step >= 1 && q * step <= a < q * step + step
    ensures a / step == q
  {
    Quotient(a, step);
    SameQuotient(a / step, q, a, step);
  }

  /** The advanced time is the least anchor + k * step, k at least 1, strictly after `now`. */
  lemma {:induction false} StepPastIsLeast(anchor: int, step: nat, now: int) returns (k: nat)
    requires step >= 1
    ensures k >= 1 && StepPast(anchor, step, now) == anchor + k * step > now
    ensures forall j: nat | j >= 1 && anchor + j * step > now :: k <= j
    decreases now - anchor
  {
    if anchor + step > now {
      k := 1;
    } else {
      var m := StepPastIsLeast(anchor + step, step, now);
      k := m + 1;
      assert (m + 1) * step == m * step + step;
      forall j: nat | j >= 1 && anchor + j * step > now ensures k <= j {
        if j > 1 {
          assert (j - 1) * step == j * step - step;
          assert anchor + step + (j - 1) * step > now;
        }
      }
    }
  }

  const MAX := 0x7fff_ffff_ffff_ffff

  predicate Fits(x: int) {
    -MAX - 1 <= x <= MAX
  }

  /** With a 32-bit count and times within 2^61 of the epoch, no step of the arithmetic leaves 64 bits. */
  lemma {:induction false} NoOverflow(everyN: nat, unit: TimeUnit, anchor: int, now: int)
    requires everyN <= 0xffff_ffff
    requires -0x2000_0000_0000_0000 <= anchor <= 0x2000_0000_0000_0000
    requires -0x2000_0000_0000_0000 <= now <= 0x2000_0000_0000_0000
    ensures var step := StepMs(everyN, unit);
      var next := anchor + step;
      && Fits(IntervalMs(everyN, unit)) && Fits(now + step) && Fits(next) && Fits(now - next)
      && (next <= now ==>
            var skips := (now - next) / step + 1;
            Fits(skips) && Fits(skips * step) && Fits(next + skips * step))
  {
    var step := StepMs(everyN, unit);
    assert 1 <= step <= 0x1_0000_0000 * 86_400_000;
    if anchor + step <= now {
      SkipsFit(now - (anchor + step), step);
    }
  }

  lemma {:induction false} SkipsFit(behind: nat, step: nat)
    requires step >= 1
    ensures var skips := behind / step + 1; 1 <= skips <= behind + 1 && 0 <= skips * step <= behind + step
  {
    Quotient(behind, step);
    var q := behind / step;
    assert (q + 1) * step == q * step + step;
    Times(1, step, q);
    assert q * step == step * q;
  }

  // --- how often a run can fire ------------------------------------------------

  // A scheduled start: when, for which planned time, and whether its write-back was lost.
  datatype Start = Start(at: int, planned: int, lost: bool)

  // One interval run under one scheduler task and any number of manual triggers. A run in
  // flight holds the `nextRun` of the row it read, and writes the row back from that copy.
  datatype Life = Life(
    next: int,
    now: int,
    plan: Option<int>,
    scheduled: Option<int>,
    manual: map<nat, int>,
    starts: seq<Start>)

  // An execution whose write-back fails leaves the row as it was; when the process stops, so does every execution
  // under way.
  datatype Event =
    | Plan
    | ScheduledStart(at: int)
    | ScheduledFinish(at: int)
    | ScheduledLost(at: int)
    | ManualStart(tid: nat, at: int)
    | ManualFinish(tid: nat, at: int)
    | ManualLost(tid: nat, at: int)
    | Stop(at: int)

  function TimeOf(l: Life, e: Event): int {
    if e.Plan? then l.now else e.at
  }

  /** The clock does not go back, and each event finds what it needs. */
  predicate Enabled(l: Life, e: Event) {
    && TimeOf(l, e) >= l.now
    && match e
       case Plan => l.scheduled.None?
       case ScheduledStart(t) => l.scheduled.None? && l.plan.Some? && l.plan.value <= t
       case ScheduledFinish(_) => l.scheduled.Some?
       case ScheduledLost(_) => l.scheduled.Some?
       case ManualStart(tid, _) => tid !in l.manual
       case ManualFinish(tid, _) => tid in l.manual
       case ManualLost(tid, _) => tid in l.manual
       case Stop(_) => true
  }

  /** The latest start is marked lost. */
  function LastLost(starts: seq<Start>): seq<Start> {
    if starts == [] then [] else starts[..|starts| - 1] + [starts[|starts| - 1].(lost := true)]
  }

  /** A start is logged with the planned time it answers. */
  function Happen(l: Life, step: nat, e: Event): Life
    requires step >= 1 && Enabled(l, e)
  {
    match e
    case Plan => l.(plan := Some(l.next))
    case ScheduledStart(t) =>
      l.(now := t, scheduled := Some(l.next), plan := None, starts := l.starts + [Start(t, l.plan.value, false)])
    case ScheduledFinish(t) => l.(now := t, scheduled := None, next := StepPast(l.scheduled.value, step, t))
    case ScheduledLost(t) => l.(now := t, scheduled := None, starts := LastLost(l.starts))
    case ManualStart(tid, t) => l.(now := t, manual := l.manual[tid := l.next])
    case ManualFinish(tid, t) => l.(now := t, manual := l.manual - {tid}, next := StepPast(l.manual[tid], step, t))
    case ManualLost(tid, t) => l.(now := t, manual := l.manual - {tid})
    case Stop(t) =>
      l.(now := t, plan := None, scheduled := None, manual := map[],
         starts := if l.scheduled.Some? then LastLost(l.starts) else l.starts)
  }

  // A write-back plans the run by its cadence from the copy the execution read; no other event moves the planned time.
  lemma {:induction false} LifeOnCadence(lib: CronLib, l: Life, everyN: nat, unit: TimeUnit, e: Event)
    requires Enabled(l, e)
    ensures var now, cadence := Happen(l, StepMs(everyN, unit), e), Interval(everyN, unit);
      match e
      case ScheduledFinish(t) => OnCadence(lib, cadence, l.scheduled, t, Some(now.next))
      case ManualFinish(tid, t) => OnCadence(lib, cadence, Some(l.manual[tid]), t, Some(now.next))
      case _ => now.next == l.next
  {
    match e {
      case ScheduledFinish(t) => AdvancedOnCadence(lib, Interval(everyN, unit), l.scheduled, t);
      case ManualFinish(tid, t) => AdvancedOnCadence(lib, Interval(everyN, unit), Some(l.manual[tid]), t);
      case _ =>
    }
  }

  /** The state after a run of events, if each was enabled in turn. */
  function History(l: Life, step: nat, events: seq<Event>): Option<Life>
    requires step >= 1
    decreases |events|
  {
    if events == [] then Some(l)
    else if !Enabled(l, events[0]) then None
    else History(Happen(l, step, events[0]), step, events[1..])
  }

  predicate OnGrid(g: int, step: nat, t: int)
    requires step >= 1
  {
    (t - g) % step == 0
  }

  // Each start answers a planned grid time that had come, and was planned for after the start before it unless the
  // write-back of that one was lost.
  ghost predicate Spaced(g: int, step: nat, starts: seq<Start>)
    requires step >= 1
  {
    && (forall i | 0 <= i < |starts| :: starts[i].planned <= starts[i].at && OnGrid(g, step, starts[i].planned))
    && (forall i, j | 0 <= i < j < |starts| :: starts[i].at <= starts[j].at)
    && (forall i, j | 0 <= i && j == i + 1 && j < |starts| && !starts[i].lost :: starts[i].at < starts[j].planned)
  }

  ghost predicate LifeOk(g: int, step: nat, l: Life)
    requires step >= 1
  {
    && Spaced(g, step, l.starts)
    && OnGrid(g, step, l.next)
    && (l.plan.Some? ==> OnGrid(g, step, l.plan.value))
    && (l.scheduled.Some? ==> OnGrid(g, step, l.scheduled.value) && l.plan.None? && l.starts != [])
    && (forall t | t in l.manual :: OnGrid(g, step, l.manual[t]))
    && (l.starts != [] ==>
          var last := l.starts[|l.starts| - 1];
          && last.at <= l.now
          && (l.scheduled.None? && !last.lost ==> last.at < l.next && (l.plan.Some? ==> last.at < l.plan.value)))
  }

  lemma {:induction false} StepPastStays(g: int, step: nat, anchor: int, now: int)
    requires step >= 1 && OnGrid(g, step, anchor)
    ensures OnGrid(g, step, StepPast(anchor, step, now)) && StepPast(anchor, step, now) > now
    decreases now - anchor
  {
    GridStep(g, step, anchor);
    if anchor + step <= now {
      StepPastStays(g, step, anchor + step, now);
    }
  }

  lemma {:induction false} GridStep(g: int, step: nat, t: int)
    requires step >= 1 && OnGrid(g, step, t)
    ensures OnGrid(g, step, t + step)
  {
    var q := (t - g) / step;
    assert t - g == q * step;
    assert t + step - g == (q + 1) * step;
    MultipleHasNoRemainder(q + 1, step);
  }

  lemma {:induction false} MultipleHasNoRemainder(q: int, step: nat)
    requires step >= 1
    ensures (q * step) % step == 0
  {
    var a := q * step;
    assert a == a / step * step + a % step;
    SameQuotient(a / step, q, a, step);
  }

  lemma {:induction false} LostKeeps(g: int, step: nat, starts: seq<Start>)
    requires step >= 1 && Spaced(g, step, starts) && starts != []
    ensures Spaced(g, step, LastLost(starts)) && |LastLost(starts)| == |starts|
    ensures var last, now := starts[|starts| - 1], LastLost(starts)[|starts| - 1]; now.at == last.at && now.lost
  {
    assert forall i | 0 <= i < |starts| :: LastLost(starts)[i].(lost := starts[i].lost) == starts[i];
  }

  lemma {:induction false} StartKeeps(g: int, step: nat, starts: seq<Start>, s: Start)
    requires step >= 1 && Spaced(g, step, starts) && s.planned <= s.at && OnGrid(g, step, s.planned)
    requires starts != [] ==>
      var last := starts[|starts| - 1];
      last.at <= s.at && (!last.lost ==> last.at < s.planned)
    ensures Spaced(g, step, starts + [s])
  {
  }

  lemma {:induction false} HappenKeeps(g: int, step: nat, l: Life, e: Event)
    requires step >= 1 && LifeOk(g, step, l) && Enabled(l, e)
    ensures LifeOk(g, step, Happen(l, step, e))
  {
    hide StepPast, LastLost;
    if l.starts != [] {
      LostKeeps(g, step, l.starts);
    }
    match e {
      case ScheduledStart(t) => StartKeeps(g, step, l.starts, Start(t, l.plan.value, false));
      case ScheduledFinish(t) => StepPastStays(g, step, l.scheduled.value, t);
      case ManualFinish(tid, t) => StepPastStays(g, step, l.manual[tid], t);
      case _ =>
    }
  }

  lemma {:induction false} HistoryKeeps(g: int, step: nat, l: Life, events: seq<Event>)
    requires step >= 1 && LifeOk(g, step, l) && History(l, step, events).Some?
    ensures LifeOk(g, step, History(l, step, events).value)
    decreases |events|
  {
    if events != [] {
      HappenKeeps(g, step, l, events[0]);
      HistoryKeeps(g, step, Happen(l, step, events[0]), events[1..]);
    }
  }

  /** How many of the starts from the i-th up to the j-th, that one excluded, were lost. */
  function Lost(starts: seq<Start>, i: nat, j: nat): nat
    requires i <= j <= |starts|
    decreases j - i
  {
    if i == j then 0 else Lost(starts, i, j - 1) + if starts[j - 1].lost then 1 else 0
  }

  function Kept(starts: seq<Start>, i: nat, j: nat): int
    requires i <= j <= |starts|
  {
    j - i - Lost(starts, i, j)
  }

  // With n starts from the i-th on that were not lost, the one after the last of them was planned for more than
  // n - 1 steps after the i-th.
  lemma {:induction false} StartsSpread(g: int, step: nat, starts: seq<Start>, i: nat, j: nat) returns (k: nat)
    requires step >= 1 && Spaced(g, step, starts) && i < j < |starts| && Kept(starts, i, j) >= 1
    ensures i < k <= j && starts[k].planned > starts[i].at + (Kept(starts, i, j) - 1) * step
    decreases j - i
  {
    var n := Kept(starts, i, j - 1);
    if starts[j - 1].lost {
      k := StartsSpread(g, step, starts, i, j - 1);
    } else if n == 0 {
      k := j;
      FirstStep(starts[i].at, starts[j].planned, step, n + 1);
    } else {
      NoneKept(starts, i, j - 1);
      var m := StartsSpread(g, step, starts, i, j - 1);
      k := j;
      GridGap(g, step, starts[m].planned, starts[j].planned);
      OneStepMore(starts[i].at, starts[m].planned, starts[j].planned, step, n);
    }
  }

  lemma {:induction false} NoneKept(starts: seq<Start>, i: nat, j: nat)
    requires i <= j <= |starts|
    ensures Kept(starts, i, j) >= 0 && (Kept(starts, i, j) >= 1 ==> i < j)
    decreases j - i
  {
    if i < j {
      NoneKept(starts, i, j - 1);
    }
  }

  lemma {:induction false} FirstStep(a: int, b: int, step: nat, n: int)
    requires a < b && n == 1
    ensures b > a + (n - 1) * step
  {
  }

  lemma {:induction false} OneStepMore(a: int, b: int, c: int, step: nat, n: int)
    requires b > a + (n - 1) * step && b + step <= c
    ensures c > a + (n + 1 - 1) * step
  {
    assert (n - 1) * step + step == n * step;
  }

  lemma {:induction false} GridGap(g: int, step: nat, a: int, b: int)
    requires step >= 1 && OnGrid(g, step, a) && OnGrid(g, step, b) && a < b
    ensures a + step <= b
  {
    var p, q := (a - g) / step, (b - g) / step;
    assert a - g == p * step && b - g == q * step;
    Times(if q <= p then q else p, p, step);
    assert p < q;
    Times(p + 1, q, step);
    assert (p + 1) * step == p * step + step;
  }

  /** `l` divided by `step`, rounded up. */
  function CeilDiv(l: nat, step: nat): nat
    requires step >= 1
  {
    (l + step - 1) / step
  }

  // Whatever overlaps, fails or stops, in any stretch of time of length `len` at most 1 + ceil(len / step) scheduled
  // fires of the run start, and one more for each start before the last whose write-back was lost.
  lemma {:induction false} StartsAreBounded(step: nat, first: Life, events: seq<Event>, i: nat, j: nat, len: nat)
    requires step >= 1
    requires first.plan.None? && first.scheduled.None? && first.manual == map[] && first.starts == []
    requires History(first, step, events).Some?
    requires var starts := History(first, step, events).value.starts;
      i <= j < |starts| && starts[j].at - starts[i].at <= len
    ensures j - i + 1 <= 1 + CeilDiv(len, step) + Lost(History(first, step, events).value.starts, i, j)
  {
    assert OnGrid(first.next, step, first.next);
    HistoryKeeps(first.next, step, first, events);
    WindowBound(first.next, step, History(first, step, events).value.starts, i, j, len);
  }

  /** The bound is met: a lost write-back leaves the row overdue, and the scheduler fires it again at once. */
  lemma {:induction false} LostFiresAgain(step: nat, first: Life, t: int)
    requires step >= 1 && first.next <= t && first.now <= t
    requires first.plan.None? && first.scheduled.None? && first.manual == map[] && first.starts == []
    ensures var events := [Plan, ScheduledStart(t), ScheduledLost(t), Plan, ScheduledStart(t)];
      var r := History(first, step, events);
      && r.Some? && |r.value.starts| == 2 && r.value.starts[0].at == r.value.starts[1].at
      && 2 == 1 + CeilDiv(0, step) + Lost(r.value.starts, 0, 1)
  {
    var events := [Plan, ScheduledStart(t), ScheduledLost(t), Plan, ScheduledStart(t)];
    var a := Happen(first, step, events[0]);
    var b := Happen(a, step, events[1]);
    var c := Happen(b, step, events[2]);
    var d := Happen(c, step, events[3]);
    var e := Happen(d, step, events[4]);
    assert History(d, step, events[4..]) == Some(e) by { assert events[4..][1..] == []; }
    assert History(c, step, events[3..]) == Some(e) by { assert events[3..][1..] == events[4..]; }
    assert History(b, step, events[2..]) == Some(e) by { assert events[2..][1..] == events[3..]; }
    assert History(a, step, events[1..]) == Some(e) by { assert events[1..][1..] == events[2..]; }
    QuotientUnique(step - 1, step, 0);
  }

  lemma {:induction false} WindowBound(g: int, step: nat, starts: seq<Start>, i: nat, j: nat, len: nat)
    requires step >= 1 && Spaced(g, step, starts) && i <= j < |starts| && starts[j].at - starts[i].at <= len
    ensures Kept(starts, i, j) <= CeilDiv(len, step)
  {
    NoneKept(starts, i, j);
    if Kept(starts, i, j) >= 1 {
      var k := StartsSpread(g, step, starts, i, j);
      CeilCovers(len, step, Kept(starts, i, j));
    }
  }

  lemma {:induction false} CeilCovers(len: nat, step: nat, n: nat)
    requires step >= 1 && n >= 1 && (n - 1) * step < len
    ensures n <= CeilDiv(len, step)
  {
    Quotient(len + step - 1, step);
    var c := CeilDiv(len, step);
    Times(c, if c <= n - 1 then n - 1 else c, step);
  }
}
