/** The hub's fixed-window limiter for one bucket and one key. Times are milliseconds. */
module RateLimit {
  import opened Wrappers

  datatype Bucket = Bucket(max: nat, windowSec: nat)

  // The stored entry: a window, or text that does not parse.
  datatype Entry = Window(count: nat, startedAt: int) | Garbage

  datatype Verdict = Admitted | Rejected(retryAfter: int)

  /** The window a request falls in: the stored one while it lasts, else a new one. */
  function Current(b: Bucket, stored: Option<Entry>, now: int): (nat, int) {
    match stored
    case Some(Window(count, startedAt)) => if now - startedAt < 1000 * b.windowSec then (count, startedAt) else (0, now)
    case _ => (0, now)
  }

  function Decide(b: Bucket, stored: Option<Entry>, now: int): Verdict {
    var (count, startedAt) := Current(b, stored, now);
    if count < b.max then Admitted
    else
      var left := b.windowSec - (now - startedAt) / 1000;
      Rejected(if left < 1 then 1 else left)
  }

  // Seconds a stored entry outlives its window.
  const SLACK_SEC := 30

  function TtlMs(b: Bucket): nat {
    1000 * (b.windowSec + SLACK_SEC)
  }

  /** An entry that has expired in storage would have been ignored anyway. */
  lemma {:induction false} ExpiryChangesNothing(b: Bucket, e: Entry, putAt: int, now: int)
    requires e.Window? ==> e.startedAt <= putAt
    requires now >= putAt + TtlMs(b)
    ensures Current(b, Some(e), now) == Current(b, None, now) && Decide(b, Some(e), now) == Decide(b, None, now)
  {
  }

  /** A rejected caller waits between one second and the window, and its next request after that is admitted. */
  lemma {:induction false} RetryAfterIsEnough(b: Bucket, stored: Option<Entry>, now: int, later: int)
    requires b.max >= 1 && b.windowSec >= 1 && Decide(b, stored, now).Rejected?
    requires stored.Some? && stored.value.Window? ==> stored.value.startedAt <= now
    ensures var r := Decide(b, stored, now).retryAfter;
      1 <= r <= b.windowSec && (later >= now + 1000 * r ==> Decide(b, stored, later).Admitted?)
  {
    var since := now - stored.value.startedAt;
    assert since == 1000 * (since / 1000) + since % 1000;
  }

  /** The delay is the least number of whole seconds that helps: any request that comes a second earlier is rejected. */
  lemma {:induction false} RetryAfterIsLeast(b: Bucket, stored: Option<Entry>, now: int, later: int)
    requires b.max >= 1 && b.windowSec >= 1 && Decide(b, stored, now).Rejected?
    requires stored.Some? && stored.value.Window? ==> stored.value.startedAt <= now
    requires now <= later <= now + 1000 * (Decide(b, stored, now).retryAfter - 1)
    ensures Decide(b, stored, later).Rejected?
  {
    var since := now - stored.value.startedAt;
    assert since == 1000 * (since / 1000) + since % 1000;
  }

  // An admitted request: when, in which window, and as the how-manieth of it.
  datatype Admission = Admission(at: int, start: int, k: nat)

  /** Admissions in order: at most `max` to a window, and windows a full length apart. */
  ghost predicate Orderly(b: Bucket, log: seq<Admission>) {
    && (forall i | 0 <= i < |log| ::
         1 <= log[i].k <= b.max && log[i].start <= log[i].at < log[i].start + 1000 * b.windowSec)
    && (forall i, j | 0 <= i < j < |log| && j == i + 1 :: log[i].at <= log[j].at && Follows(b, log[i], log[j]))
  }

  ghost predicate Follows(b: Bucket, x: Admission, y: Admission) {
    if y.start == x.start then y.k == x.k + 1 else y.start >= x.start + 1000 * b.windowSec && y.k == 1
  }

  /** Within a window admissions are counted off; across windows a full length lies between the starts. */
  lemma {:induction false} Counted(b: Bucket, log: seq<Admission>, i: nat, j: nat)
    requires Orderly(b, log) && i <= j < |log|
    ensures log[j].start == log[i].start ==> j - i == log[j].k - log[i].k
    ensures log[j].start != log[i].start ==> log[j].start >= log[i].start + 1000 * b.windowSec
    ensures log[i].at <= log[j].at
    decreases j - i
  {
    if i < j {
      Counted(b, log, i, j - 1);
      assert Follows(b, log[j - 1], log[j]);
    }
  }

  /** No more than `max` admissions share a window. */
  lemma {:induction false} PerWindow(b: Bucket, log: seq<Admission>, i: nat, j: nat)
    requires Orderly(b, log) && i <= j < |log| && log[i].start == log[j].start
    ensures j - i + 1 <= b.max
  {
    Counted(b, log, i, j);
  }

  /** No more than `2 * max` admissions fall into any stretch of a window's length. */
  lemma {:induction false} PerInterval(b: Bucket, log: seq<Admission>, i: nat, j: nat)
    requires Orderly(b, log) && i <= j < |log| && log[j].at - log[i].at < 1000 * b.windowSec
    ensures j - i + 1 <= 2 * b.max
  {
    var m: nat := i;
    while m < j && log[m].start == log[i].start
      invariant i <= m <= j
      invariant forall l | i <= l < m :: log[l].start == log[i].start
    {
      m := m + 1;
    }
    Counted(b, log, i, m);
    Counted(b, log, m, j);
    if m > i { PerWindow(b, log, i, m - 1); }
    if log[m].start == log[i].start {
      PerWindow(b, log, i, m);
    } else {
      PerWindow(b, log, m, j);
    }
  }

  /** One more admission, in the window of the last one or in a new one. */
  lemma {:induction false} StaysOrderly(b: Bucket, log: seq<Admission>, x: Admission)
    requires Orderly(b, log)
    requires 1 <= x.k <= b.max && x.start <= x.at < x.start + 1000 * b.windowSec
    requires log != [] ==> log[|log| - 1].at <= x.at && Follows(b, log[|log| - 1], x)
    ensures Orderly(b, log + [x])
  {
  }

  /** The stored window is the one of the latest admission. */
  ghost predicate InOrder(b: Bucket, entry: Option<Entry>, putAt: int, log: seq<Admission>, clock: int) {
    && b.windowSec >= 1 && Orderly(b, log)
    && (log != [] ==> log[|log| - 1].at <= clock)
    && match entry
       case Some(Window(count, startedAt)) =>
         && startedAt <= putAt <= clock
         && (log != [] ==> log[|log| - 1].start == startedAt && log[|log| - 1].k == count)
       case _ => log == []
  }

  lemma {:induction false} LaterInOrder(b: Bucket, entry: Option<Entry>, putAt: int, log: seq<Admission>, clock: int,
                                        now: int)
    requires InOrder(b, entry, putAt, log, clock) && clock <= now
    ensures InOrder(b, entry, putAt, log, now)
  {
    hide Orderly;
  }

  lemma {:induction false} AdmissionInOrder(b: Bucket, entry: Option<Entry>, putAt: int, log: seq<Admission>,
                                            clock: int, now: int)
    requires InOrder(b, entry, putAt, log, clock) && clock <= now && Decide(b, entry, now).Admitted?
    ensures var (count, startedAt) := Current(b, entry, now);
      InOrder(b, Some(Window(count + 1, startedAt)), now, log + [Admission(now, startedAt, count + 1)], now)
  {
    var (count, startedAt) := Current(b, entry, now);
    StaysOrderly(b, log, Admission(now, startedAt, count + 1));
  }

  /** Nothing was admitted before the log began. */
  ghost predicate FromTheStart(entry: Option<Entry>, log: seq<Admission>) {
    if log == [] then !(entry.Some? && entry.value.Window?) else log[0].k == 1
  }

  /** The last `max` admissions share a window, and it still lasts. */
  ghost predicate Full(b: Bucket, log: seq<Admission>, now: int) {
    b.max == 0
    || (|log| >= b.max && now - log[|log| - 1].start < 1000 * b.windowSec
        && forall i | |log| - b.max <= i < |log| :: log[i].start == log[|log| - 1].start)
  }

  /** Admission `k` of a window has the `k - 1` before it right behind it. */
  lemma {:induction false} CountedOff(b: Bucket, log: seq<Admission>, j: nat)
    requires Orderly(b, log) && j < |log| && log[0].k == 1
    ensures log[j].k <= j + 1 && forall i | j - log[j].k < i <= j :: log[i].start == log[j].start
  {
    if j > 0 {
      CountedOff(b, log, j - 1);
      assert Follows(b, log[j - 1], log[j]);
    }
  }

  /** A request is rejected exactly when its window has had all its admissions. */
  lemma {:induction false} RejectedIffFull(b: Bucket, entry: Option<Entry>, putAt: int, log: seq<Admission>,
                                           clock: int, now: int)
    requires InOrder(b, entry, putAt, log, clock) && clock <= now && FromTheStart(entry, log)
    ensures Decide(b, entry, now).Rejected? <==> Full(b, log, now)
  {
    if log != [] {
      var j := |log| - 1;
      CountedOff(b, log, j);
      if b.max > 0 && |log| >= b.max && log[|log| - b.max].start == log[j].start {
        Counted(b, log, |log| - b.max, j);
      }
    }
  }

  class Limiter {
    const b: Bucket
    var entry: Option<Entry>
    var putAt: int
    ghost var log: seq<Admission>
    ghost var clock: int

    ghost predicate Valid()
      reads this
    {
      InOrder(b, entry, putAt, log, clock)
    }

    constructor (b: Bucket, stored: Option<Entry>, putAt: int, now: int)
      requires b.windowSec >= 1
      requires stored.Some? && stored.value.Window? ==> stored.value.startedAt <= putAt <= now
      ensures Valid() && this.b == b && entry == stored && log == [] && clock == now
    {
      this.b, entry, this.putAt := b, stored, putAt;
      log, clock := [], now;
    }

    /** What storage returns: nothing once the entry's time to live is over. */
    function Stored(now: int): Option<Entry>
      reads this
    {
      if entry.Some? && now >= putAt + TtlMs(b) then None else entry
    }

    /** The window read back: an expired entry makes no difference. */
    method CurrentWindow(now: int) returns (count: nat, startedAt: int)
      requires Valid()
      ensures (count, startedAt) == Current(b, entry, now)
    {
      if entry.Some? && now >= putAt + TtlMs(b) && entry.value.Window? {
        ExpiryChangesNothing(b, entry.value, putAt, now);
      }
      var raw := Stored(now);
      count, startedAt := 0, now;
      if raw.Some? && raw.value.Window? && now - raw.value.startedAt < 1000 * b.windowSec {
        count, startedAt := raw.value.count, raw.value.startedAt;
      }
    }

    /** Decides by the stored entry, expired or not, and records an admission. A rejection writes nothing. */
    method Check(now: int) returns (v: Verdict)
      requires Valid() && clock <= now
      modifies this
      ensures Valid() && clock == now
      ensures v == Decide(b, old(entry), now)
      ensures v.Rejected? ==> entry == old(entry) && putAt == old(putAt) && log == old(log)
      ensures v.Admitted? ==>
        var (count, startedAt) := Current(b, old(entry), now);
        && entry == Some(Window(count + 1, startedAt)) && putAt == now
        && log == old(log) + [Admission(now, startedAt, count + 1)]
      ensures FromTheStart(old(entry), old(log)) ==>
        FromTheStart(entry, log) && (v.Rejected? <==> Full(b, old(log), now))
    {
      if FromTheStart(entry, log) {
        RejectedIffFull(b, entry, putAt, log, clock, now);
      }
      LaterInOrder(b, entry, putAt, log, clock, now);
      hide Full, InOrder;
      var count, startedAt := CurrentWindow(now);
      clock := now;
      if count >= b.max {
        var left := b.windowSec - (now - startedAt) / 1000;
        return Rejected(if left < 1 then 1 else left);
      }
      AdmissionInOrder(b, entry, putAt, log, old(clock), now);
      entry, putAt := Some(Window(count + 1, startedAt)), now;
      log := log + [Admission(now, startedAt, count + 1)];
      return Admitted;
    }

    /** A run of requests on a clock that does not go back: the log stays orderly, so both bounds hold of it. */
    method Serve(times: seq<int>) returns (verdicts: seq<Verdict>)
      requires Valid()
      requires forall i | 0 <= i < |times| :: clock <= times[i]
      requires forall i, j | 0 <= i < j < |times| :: times[i] <= times[j]
      modifies this
      ensures Valid() && |verdicts| == |times| && old(log) <= log
      ensures forall i: nat, j: nat | i <= j < |log| && log[j].at - log[i].at < 1000 * b.windowSec ::
        j - i + 1 <= 2 * b.max
    {
      verdicts := [];
      var n := 0;
      while n < |times|
        invariant 0 <= n <= |times| && |verdicts| == n
        invariant Valid() && old(log) <= log
        invariant forall i | n <= i < |times| :: clock <= times[i]
      {
        var v := Check(times[n]);
        verdicts := verdicts + [v];
        n := n + 1;
      }
      forall i: nat, j: nat | i <= j < |log| && log[j].at - log[i].at < 1000 * b.windowSec
        ensures j - i + 1 <= 2 * b.max {
        PerInterval(b, log, i, j);
      }
    }
  }
}
