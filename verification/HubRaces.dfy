/**
What interleaved requests can break, and exactly when. A copy of metadata that is overtaken
between its read and its write takes versions off the record; a type version that is written
twice can leave a digest naming the wrong source.
*/
module HubRaces {
  import opened Wrappers
  import opened HubModel
  import opened HubRegistry
  import opened HubInterleaved

  // --- the states of a run ---------------------------------------------------

  /** The state after the first `i` events. */
  ghost function At(env: Env, events: seq<Event>, i: nat): State
    requires i <= |events|
  {
    Run(env, EMPTY, events[..i])
  }

  lemma {:induction false} AtNext(env: Env, events: seq<Event>, i: nat)
    requires i < |events|
    ensures At(env, events, i + 1) == Do(env, At(env, events, i), events[i])
  {
    assert events[..i + 1] == events[..i] + [events[i]];
    RunConcat(env, EMPTY, events[..i], [events[i]]);
    RunOne(env, At(env, events, i), events[i]);
  }

  // --- copies of metadata ----------------------------------------------------

  /** The latest version on record; 0 when there is no such package. */
  function LatestOf(s: Store, id: Id): nat {
    if id in s.packages.meta then s.packages.meta[id].latest else 0
  }

  function HeldIn(puts: seq<Put>, id: Id): Option<nat>
    decreases |puts|
  {
    if puts == [] then None
    else if puts[0].PutMeta? && puts[0].id == id then Some(puts[0].meta.latest)
    else HeldIn(puts[1..], id)
  }

  // A request that has read the metadata of a package and is to write it back holds a copy: the latest version it
  // will write.
  function Held(t: Task, id: Id): Option<nat> {
    match t
    case ForkFetch(_, _, up, upMeta, _) => if up == id then Some(upMeta.latest) else None
    case ForkProbe(_, _, up, upMeta, _, _) => if up == id then Some(upMeta.latest) else None
    case StarProbe(i, _, meta, _) => if i == id then Some(meta.latest) else None
    case Writing(puts) => HeldIn(puts, id)
    case _ => None
  }

  /** The next step of the request writes the metadata of `id`. */
  predicate Landing(t: Task, id: Id) {
    t.Writing? && t.puts != [] && t.puts[0].PutMeta? && t.puts[0].id == id
  }

  /** No queue writes the metadata of a package twice. */
  ghost predicate OneEach(puts: seq<Put>)
    decreases |puts|
  {
    puts != [] ==> OneEach(puts[1..]) && (puts[0].PutMeta? ==> HeldIn(puts[1..], puts[0].id).None?)
  }

  ghost predicate Tidy(t: Task) {
    match t
    case ForkProbe(login, slug, up, _, _, _) => Id(login, slug) != up
    case Writing(puts) => OneEach(puts)
    case _ => true
  }

  lemma {:induction false} HeldAfterVersion(env: Env, a: Artifact, rest: seq<Put>, id: Id)
    ensures HeldIn(VersionPuts(env, a) + rest, id) == HeldIn(rest, id)
    ensures OneEach(rest) ==> OneEach(VersionPuts(env, a) + rest)
  {
    var puts := VersionPuts(env, a) + rest;
    if env.oversized(a) {
      assert puts[1..][1..] == rest;
      assert OneEach(rest) ==> OneEach(puts[1..]);
    } else {
      assert puts[1..] == rest;
    }
  }

  lemma {:induction false} HeldInOne(p: Put, id: Id)
    ensures OneEach([p])
    ensures HeldIn([p], id) == if p.PutMeta? && p.id == id then Some(p.meta.latest) else None
  {
    assert [p][1..] == [];
  }

  lemma {:induction false} HeldInTwo(p: Put, q: Put, id: Id)
    requires p.PutMeta? && q.PutMeta? ==> p.id != q.id
    ensures OneEach([p, q])
    ensures HeldIn([p, q], id) ==
      if p.PutMeta? && p.id == id then Some(p.meta.latest)
      else if q.PutMeta? && q.id == id then Some(q.meta.latest) else None
  {
    assert [p, q][1..] == [q];
    HeldInOne(q, id);
    if p.PutMeta? {
      HeldInOne(q, p.id);
    }
  }

  /** A new copy says what the record said when it was read, or one version more. */
  ghost predicate NewCopy(s: Store, held: nat, id: Id) {
    LatestOf(s, id) <= held <= LatestOf(s, id) + 1
  }

  lemma {:induction false} BeginHolds(env: Env, s: Store, q: Request, id: Id)
    requires Begin(env, s, q).Some?
    ensures var t := Begin(env, s, q).value;
      Tidy(t) && (Held(t, id).Some? ==> NewCopy(s, Held(t, id).value, id))
  {
    match q {
      case PublishPackage(caller, i, p, now) =>
        var was := Lookup(s.packages.meta, i);
        HeldInOne(PutMeta(i, NextMeta(was, p, caller, now)), id);
        HeldAfterVersion(env, NextArtifact(i, was, p, caller, now), [PutMeta(i, NextMeta(was, p, caller, now))], id);
      case Download(i) =>
        var m := s.packages.meta[i];
        HeldInOne(PutMeta(i, m.(downloads := m.downloads + 1)), id);
      case _ =>
    }
  }

  // What one step does to the copy a request holds: it keeps it, drops it, writes it, or reads a new one.
  lemma {:induction false} StepHolds(env: Env, s: Store, t: Task, id: Id)
    requires Tidy(t)
    ensures var (s', next) := Advance(env, s, t);
      && LatestOf(s', id) == (if Landing(t, id) then Held(t, id).GetOr(0) else LatestOf(s, id))
      && (Landing(t, id) ==> Held(t, id).Some? && (next.Some? ==> Held(next.value, id).None?))
      && (next.Some? ==>
            && Tidy(next.value)
            && (Held(next.value, id).Some? ==>
                  Held(t, id) == Held(next.value, id)
                  || (Held(t, id).None? && NewCopy(s, Held(next.value, id).value, id))))
  {
    match t {
      case Requested(q) => if Begin(env, s, q).Some? { BeginHolds(env, s, q, id); }
      case ForkFetch(_, _, _, _, _) =>
      case ForkProbe(login, slug, up, upMeta, a, now) =>
        var own, bump := PutMeta(Id(login, slug), ForkMeta(login, up, upMeta, now)), PutMeta(up, Bumped(upMeta));
        HeldInTwo(own, bump, id);
        HeldAfterVersion(env, ForkArtifact(login, slug, a, now), [own, bump], id);
      case TypeProbe(caller, i, p, was, now) =>
        var puts := TypePuts(env, i, was, p, caller, now);
        HeldInTwo(puts[1], puts[2], id);
        assert puts[1..] == [puts[1], puts[2]];
      case StarProbe(i, user, meta, add) =>
        var puts := StarPuts(i, user, meta, add);
        if |puts| == 2 {
          HeldInTwo(puts[0], puts[1], id);
          assert puts == [puts[0], puts[1]];
        } else {
          HeldInOne(puts[0], id);
        }
      case Writing(puts) =>
    }
  }

  // --- copies along a run ----------------------------------------------------

  ghost function LatestAt(env: Env, events: seq<Event>, id: Id, i: nat): nat
    requires i <= |events|
  {
    LatestOf(At(env, events, i).store, id)
  }

  ghost function HeldAt(env: Env, events: seq<Event>, tid: nat, id: Id, i: nat): Option<nat>
    requires i <= |events|
  {
    var tasks := At(env, events, i).tasks;
    if tid in tasks then Held(tasks[tid], id) else None
  }

  /** The i-th event takes versions off the record. */
  ghost predicate Drops(env: Env, events: seq<Event>, id: Id, i: nat)
    requires i < |events|
  {
    LatestAt(env, events, id, i + 1) < LatestAt(env, events, id, i)
  }

  ghost predicate Raises(env: Env, events: seq<Event>, id: Id, i: nat)
    requires i < |events|
  {
    LatestAt(env, events, id, i + 1) > LatestAt(env, events, id, i)
  }

  ghost predicate ReadsAt(env: Env, events: seq<Event>, tid: nat, id: Id, i: nat)
    requires i < |events|
  {
    events[i] == Step(tid) && HeldAt(env, events, tid, id, i).None? && HeldAt(env, events, tid, id, i + 1).Some?
  }

  ghost predicate LandsAt(env: Env, events: seq<Event>, tid: nat, id: Id, i: nat)
    requires i < |events|
  {
    var tasks := At(env, events, i).tasks;
    events[i] == Step(tid) && tid in tasks && Landing(tasks[tid], id)
  }

  /** The request reads the metadata at event j, holds it, and writes it back at event k. */
  ghost predicate Carries(env: Env, events: seq<Event>, tid: nat, id: Id, j: nat, k: nat) {
    && j < k < |events|
    && ReadsAt(env, events, tid, id, j) && LandsAt(env, events, tid, id, k)
    && forall i | j < i <= k :: HeldAt(env, events, tid, id, i).Some?
  }

  lemma {:induction false} TidyAt(env: Env, events: seq<Event>, i: nat)
    requires i <= |events|
    ensures var s := At(env, events, i); forall tid | tid in s.tasks :: Tidy(s.tasks[tid])
  {
    if i > 0 {
      TidyAt(env, events, i - 1);
      AtNext(env, events, i - 1);
      var s, e := At(env, events, i - 1), events[i - 1];
      if e.Step? && e.tid in s.tasks {
        StepHolds(env, s.store, s.tasks[e.tid], Id("", ""));
      }
    }
  }

  /** What one event does to the record and to the copies. */
  lemma {:induction false} EventHolds(env: Env, events: seq<Event>, tid: nat, id: Id, i: nat)
    requires i < |events|
    ensures LandsAt(env, events, tid, id, i) ==>
      HeldAt(env, events, tid, id, i) == Some(LatestAt(env, events, id, i + 1))
    ensures events[i] != Step(tid) && HeldAt(env, events, tid, id, i + 1).Some? ==>
      HeldAt(env, events, tid, id, i) == HeldAt(env, events, tid, id, i + 1)
    ensures HeldAt(env, events, tid, id, i + 1).Some? ==>
      || HeldAt(env, events, tid, id, i) == HeldAt(env, events, tid, id, i + 1)
      || (ReadsAt(env, events, tid, id, i)
          && NewCopy(At(env, events, i).store, HeldAt(env, events, tid, id, i + 1).value, id))
    ensures ReadsAt(env, events, tid, id, i) ==> LatestAt(env, events, id, i + 1) == LatestAt(env, events, id, i)
  {
    TidyAt(env, events, i);
    AtNext(env, events, i);
    var s, e := At(env, events, i), events[i];
    if e.Step? && e.tid in s.tasks {
      StepHolds(env, s.store, s.tasks[e.tid], id);
    }
  }

  /** Only a landing changes the latest version on record. */
  lemma {:induction false} ChangeLands(env: Env, events: seq<Event>, id: Id, i: nat) returns (tid: nat)
    requires i < |events| && LatestAt(env, events, id, i + 1) != LatestAt(env, events, id, i)
    ensures LandsAt(env, events, tid, id, i)
  {
    TidyAt(env, events, i);
    AtNext(env, events, i);
    var s := At(env, events, i);
    tid := events[i].tid;
    if events[i].Step? && tid in s.tasks {
      StepHolds(env, s.store, s.tasks[tid], id);
    }
  }

  lemma {:induction false} NoneHeld(env: Env, events: seq<Event>, tid: nat, id: Id)
    ensures HeldAt(env, events, tid, id, 0).None?
  {
    assert events[..0] == [];
  }

  /** Every copy was read, and says what the record said then, or one version more. */
  lemma {:induction false} ReadOf(env: Env, events: seq<Event>, tid: nat, id: Id, i: nat) returns (j: nat)
    requires i <= |events| && HeldAt(env, events, tid, id, i).Some?
    ensures j < i && ReadsAt(env, events, tid, id, j)
    ensures forall l | j < l <= i :: HeldAt(env, events, tid, id, l) == HeldAt(env, events, tid, id, i)
    ensures NewCopy(At(env, events, j).store, HeldAt(env, events, tid, id, i).value, id)
  {
    NoneHeld(env, events, tid, id);
    EventHolds(env, events, tid, id, i - 1);
    if HeldAt(env, events, tid, id, i - 1) == HeldAt(env, events, tid, id, i) {
      j := ReadOf(env, events, tid, id, i - 1);
    } else {
      j := i - 1;
    }
  }

  /** What a carried copy writes: the latest version at its read, or one more. */
  lemma {:induction false} CarriedValue(env: Env, events: seq<Event>, tid: nat, id: Id, j: nat, k: nat)
    requires Carries(env, events, tid, id, j, k)
    ensures var r, w := LatestAt(env, events, id, j), LatestAt(env, events, id, k + 1); w == r || w == r + 1
    ensures LatestAt(env, events, id, j + 1) == LatestAt(env, events, id, j)
  {
    EventHolds(env, events, tid, id, k);
    EventHolds(env, events, tid, id, j);
    var read := ReadOf(env, events, tid, id, k);
    assert read == j by {
      assert HeldAt(env, events, tid, id, j).None?;
      assert HeldAt(env, events, tid, id, read).None?;
    }
  }

  lemma {:induction false} NoDrops(env: Env, events: seq<Event>, id: Id, a: nat, b: nat)
    requires a <= b <= |events| && forall i | a <= i < b :: !Drops(env, events, id, i)
    ensures LatestAt(env, events, id, a) <= LatestAt(env, events, id, b)
    decreases b - a
  {
    if a < b {
      NoDrops(env, events, id, a, b - 1);
      assert !Drops(env, events, id, b - 1);
    }
  }

  lemma {:induction false} NoRaises(env: Env, events: seq<Event>, id: Id, a: nat, b: nat)
    requires a <= b <= |events| && forall i | a <= i < b :: !Raises(env, events, id, i)
    ensures LatestAt(env, events, id, a) >= LatestAt(env, events, id, b)
    decreases b - a
  {
    if a < b {
      NoRaises(env, events, id, a, b - 1);
      assert !Raises(env, events, id, b - 1);
    }
  }

  /** Two events from `a` on and before `b` raise the record. */
  ghost predicate RaisedTwice(env: Env, events: seq<Event>, id: Id, a: nat, b: nat)
    requires b <= |events|
  {
    exists m, n | a <= m < n < b :: Raises(env, events, id, m) && Raises(env, events, id, n)
  }

  // A copy read at j and written back at k is overtaken: if it puts back the latest version it read (a star, an unstar,
  // a download, a fork's bump of its upstream), some event in between raised the record; if it raises it by one itself
  // (a publish, a fork's own package), two events in between did.
  ghost predicate Overtaken(env: Env, events: seq<Event>, id: Id, j: nat, k: nat)
    requires j < k < |events|
  {
    if LatestAt(env, events, id, k + 1) == LatestAt(env, events, id, j) then
      exists m | j < m < k :: Raises(env, events, id, m)
    else RaisedTwice(env, events, id, j + 1, k)
  }

  /** As long as nothing dropped, an event raises the record by one at most. */
  lemma {:induction false} RaisesByOne(env: Env, events: seq<Event>, id: Id, m: nat)
    requires m < |events| && forall i | 0 <= i < m :: !Drops(env, events, id, i)
    ensures LatestAt(env, events, id, m + 1) <= LatestAt(env, events, id, m) + 1
  {
    if LatestAt(env, events, id, m + 1) != LatestAt(env, events, id, m) {
      var tid := ChangeLands(env, events, id, m);
      EventHolds(env, events, tid, id, m);
      var j := ReadOf(env, events, tid, id, m);
      NoDrops(env, events, id, j, m);
    }
  }

  lemma {:induction false} NotRaisedTwice(env: Env, events: seq<Event>, id: Id, a: nat, b: nat)
    requires a <= b <= |events| && (forall i | 0 <= i < b :: !Drops(env, events, id, i))
    requires !RaisedTwice(env, events, id, a, b)
    ensures LatestAt(env, events, id, b) <= LatestAt(env, events, id, a) + 1
    decreases b - a
  {
    if a < b {
      if Raises(env, events, id, b - 1) {
        NoRaises(env, events, id, a, b - 1);
        RaisesByOne(env, events, id, b - 1);
      } else {
        NotRaisedTwice(env, events, id, a, b - 1);
      }
    }
  }

  lemma {:induction false} NotOvertakenKeeps(env: Env, events: seq<Event>, id: Id, n: nat)
    requires n <= |events|
    requires forall tid: nat, j: nat, k: nat | Carries(env, events, tid, id, j, k) :: !Overtaken(env, events, id, j, k)
    ensures forall i | 0 <= i < n :: !Drops(env, events, id, i)
  {
    if n > 0 {
      NotOvertakenKeeps(env, events, id, n - 1);
      var k := n - 1;
      if LatestAt(env, events, id, k + 1) != LatestAt(env, events, id, k) {
        var tid := ChangeLands(env, events, id, k);
        EventHolds(env, events, tid, id, k);
        var j := ReadOf(env, events, tid, id, k);
        assert Carries(env, events, tid, id, j, k);
        CarriedValue(env, events, tid, id, j, k);
        if LatestAt(env, events, id, k + 1) == LatestAt(env, events, id, j) {
          NoRaises(env, events, id, j + 1, k);
        } else {
          NotRaisedTwice(env, events, id, j + 1, k);
        }
      }
    }
  }

  lemma {:induction false} OvertakenDrops(env: Env, events: seq<Event>, tid: nat, id: Id, j: nat, k: nat)
    requires Carries(env, events, tid, id, j, k) && forall i | 0 <= i < |events| :: !Drops(env, events, id, i)
    ensures !Overtaken(env, events, id, j, k)
  {
    hide LatestAt, ReadsAt, LandsAt, HeldAt;
    CarriedValue(env, events, tid, id, j, k);
    assert !Drops(env, events, id, k);
    if m :| j < m < k && Raises(env, events, id, m) {
      NoDrops(env, events, id, j, m);
      NoDrops(env, events, id, m + 1, k);
    }
    if m, n :| j < m < n < k && Raises(env, events, id, m) && Raises(env, events, id, n) {
      NoDrops(env, events, id, j, m);
      NoDrops(env, events, id, m + 1, n);
      NoDrops(env, events, id, n + 1, k);
    }
  }

  // However requests interleave and stop, the latest version of a package never goes down if and only if no copy of
  // its metadata is overtaken between its read and its write.
  lemma {:induction false} NeverDropsIff(env: Env, events: seq<Event>, id: Id)
    ensures (forall i | 0 <= i < |events| :: !Drops(env, events, id, i))
       <==> (forall tid: nat, j: nat, k: nat | Carries(env, events, tid, id, j, k) :: !Overtaken(env, events, id, j, k))
  {
    hide Drops, Overtaken, ReadsAt, LandsAt, HeldAt;
    if forall tid: nat, j: nat, k: nat | Carries(env, events, tid, id, j, k) :: !Overtaken(env, events, id, j, k) {
      NotOvertakenKeeps(env, events, id, |events|);
    }
    if forall i | 0 <= i < |events| :: !Drops(env, events, id, i) {
      forall tid: nat, j: nat, k: nat | Carries(env, events, tid, id, j, k)
        ensures !Overtaken(env, events, id, j, k)
      {
        OvertakenDrops(env, events, tid, id, j, k);
      }
    }
  }

  // In particular it never goes down if no copy is read before, and written after, an event that raises it.
  lemma {:induction false} NoOverlapNeverDrops(env: Env, events: seq<Event>, id: Id)
    requires forall tid: nat, j: nat, k: nat, m: nat | Carries(env, events, tid, id, j, k) && j < m < k ::
      !Raises(env, events, id, m)
    ensures forall i | 0 <= i < |events| :: !Drops(env, events, id, i)
  {
    forall tid: nat, j: nat, k: nat | Carries(env, events, tid, id, j, k) ensures !Overtaken(env, events, id, j, k) {
      assert forall m | j < m < k :: !Raises(env, events, id, m);
    }
    NeverDropsIff(env, events, id);
  }

  // A download that read the metadata before a publish and writes it back after takes the new version off the
  // record.
  lemma {:induction false} StaleDownloadRollsBack(env: Env, s: State, id: Id, caller: Caller, p: Payload,
                                                  now: int, t1: nat, t2: nat)
    requires t1 != t2 && t1 !in s.tasks && t2 !in s.tasks && id in s.store.packages.meta
    requires PublishRefusal(env, caller, id, p, s.store.packages.meta).None?
    ensures exists events, last ::
      var before, after := Run(env, s, events).store.packages, Run(env, s, events + [last]).store.packages;
      var n := s.store.packages.meta[id].latest;
      && id in before.meta && before.meta[id].latest == n + 1
      && id in after.meta && after.meta[id].latest == n
      && (id, n + 1) in after.slots
  {
    var meta := s.store.packages.meta[id];
    var back := [PutMeta(id, meta.(downloads := meta.downloads + 1))];
    var s1 := s.(tasks := s.tasks[t1 := Writing(back)]);
    var es1 := [Arrive(t1, Download(id))] + [Step(t1)];
    Reads(env, s, t1, Download(id), back);
    var es2 := PublishEvents(env, s1, id, caller, p, now, t2);
    RunConcat(env, s, es1, es2);
    RunConcat(env, s, es1 + es2, [Step(t1)]);
    RunOne(env, Run(env, s1, es2), Step(t1));
    assert Run(env, s, es1 + es2 + [Step(t1)]).store == Apply(Run(env, s1, es2).store, back[0]);
  }

  // --- digests of type versions ----------------------------------------------

  function TypeLatestOf(s: Store, id: Id): nat {
    if id in s.types.meta then s.types.meta[id].latest else 0
  }

  /** Every digest on record for the type names a stored version with that digest, up to the n-th. */
  ghost predicate HashesUpTo(env: Env, s: Store, id: Id, n: nat) {
    forall d | (id, d) in s.types.hashes ::
      var v := s.types.hashes[(id, d)];
      v <= n && (id, v) in s.types.versions && env.sha(s.types.versions[(id, v)].source) == d
  }

  /** Every digest on record for the type names a stored version with that digest. */
  ghost predicate HashesTrue(env: Env, s: Store, id: Id) {
    forall d | (id, d) in s.types.hashes ::
      var v := s.types.hashes[(id, d)];
      (id, v) in s.types.versions && env.sha(s.types.versions[(id, v)].source) == d
  }

  // The put writes a version that a digest on record names over with another digest, or a digest for a version that
  // has another.
  ghost predicate Clobbers(env: Env, s: Store, id: Id, p: Put) {
    match p
    case PutTypeVersion(tv) =>
      tv.id == id && exists d ::
        (id, d) in s.types.hashes && s.types.hashes[(id, d)] == tv.version && d != env.sha(tv.source)
    case PutHash(i, d, n) => i == id && ((id, n) in s.types.versions ==> env.sha(s.types.versions[(id, n)].source) != d)
    case _ => false
  }

  ghost predicate ClobbersAt(env: Env, events: seq<Event>, id: Id, i: nat)
    requires i < |events|
  {
    var s, e := At(env, events, i), events[i];
    && e.Step? && e.tid in s.tasks && s.tasks[e.tid].Writing? && s.tasks[e.tid].puts != []
    && Clobbers(env, s.store, id, s.tasks[e.tid].puts[0])
  }

  lemma {:induction false} PutKeepsHashes(env: Env, s: Store, id: Id, p: Put)
    requires HashesTrue(env, s, id)
    ensures HashesTrue(env, Apply(s, p), id) <==> !Clobbers(env, s, id, p)
  {
    var t := Apply(s, p);
    match p {
      case PutTypeVersion(tv) =>
        forall d | (id, d) in s.types.hashes
          ensures (tv.id == id && s.types.hashes[(id, d)] == tv.version && d != env.sha(tv.source)) <==>
                  !((id, t.types.hashes[(id, d)]) in t.types.versions
                    && env.sha(t.types.versions[(id, t.types.hashes[(id, d)])].source) == d)
        {
        }
      case PutHash(i, d, n) => assert (i, d) in t.types.hashes;
      case _ =>
    }
  }

  // However type publishes interleave and stop, at every moment every digest names a version with that digest if and
  // only if no put so far wrote over a version that a digest names, or named one that had been written over.
  lemma {:induction false} HashesTrueIff(env: Env, events: seq<Event>, id: Id, n: nat)
    requires n <= |events|
    ensures (forall i | 0 <= i <= n :: HashesTrue(env, At(env, events, i).store, id))
       <==> (forall i | 0 <= i < n :: !ClobbersAt(env, events, id, i))
  {
    if n == 0 {
      assert events[..0] == [];
      assert HashesTrue(env, At(env, events, 0).store, id);
    } else {
      HashesTrueIff(env, events, id, n - 1);
      AtNext(env, events, n - 1);
      var s, e := At(env, events, n - 1), events[n - 1];
      if HashesTrue(env, s.store, id) {
        if e.Step? && e.tid in s.tasks && s.tasks[e.tid].Writing? && s.tasks[e.tid].puts != [] {
          PutKeepsHashes(env, s.store, id, s.tasks[e.tid].puts[0]);
        } else {
          assert At(env, events, n).store == s.store;
        }
        assert HashesTrue(env, At(env, events, n).store, id) <==> !ClobbersAt(env, events, id, n - 1);
      }
    }
  }

  // --- publishes of a type that do not overlap ---------------------------------

  predicate TypePut(p: Put, id: Id) {
    match p
    case PutTypeVersion(tv) => tv.id == id
    case PutHash(i, _, _) => i == id
    case PutTypeMeta(i, _) => i == id
    case _ => false
  }

  /** The request is a publish of the type, from the read of its metadata to its last put. */
  predicate Publishing(t: Task, id: Id) {
    match t
    case TypeProbe(_, i, _, _, _) => i == id
    case Writing(puts) => exists p :: p in puts && TypePut(p, id)
    case _ => false
  }

  /** A publish that has put the version and its digest, and not yet the metadata. */
  predicate HashedOnly(t: Task, id: Id) {
    t.Writing? && t.puts != [] && t.puts[0].PutTypeMeta? && t.puts[0].id == id
  }

  /** At most one publish of the type is under way. */
  ghost predicate Solo(s: State, id: Id) {
    forall a, b | a in s.tasks && b in s.tasks && Publishing(s.tasks[a], id) && Publishing(s.tasks[b], id) :: a == b
  }

  /** The event stops a publish of the type between its digest put and its metadata put. */
  ghost predicate StopsShort(s: State, e: Event, id: Id) {
    e.Crash? && e.tid in s.tasks && HashedOnly(s.tasks[e.tid], id)
  }

  // How far a publish that is alone has come: what it read is current, and what it still has to put goes one beyond
  // the latest version.
  ghost predicate OnTrack(env: Env, s: Store, t: Task, id: Id) {
    match t
    case TypeProbe(_, _, _, was, _) => was == Lookup(s.types.meta, id)
    case Writing(puts) =>
      var n := TypeLatestOf(s, id) + 1;
      if |puts| == 3 then
        && puts[0].PutTypeVersion? && puts[0].tv.id == id && puts[0].tv.version == n
        && puts[1] == PutHash(id, env.sha(puts[0].tv.source), n)
        && puts[2].PutTypeMeta? && puts[2].id == id && puts[2].typeMeta.latest == n
      else if |puts| == 2 then
        && puts[0].PutHash? && puts[0].id == id && puts[0].n == n
        && (id, n) in s.types.versions && env.sha(s.types.versions[(id, n)].source) == puts[0].digest
        && puts[1].PutTypeMeta? && puts[1].id == id && puts[1].typeMeta.latest == n
      else
        |puts| == 1 && puts[0].PutTypeMeta? && puts[0].id == id && puts[0].typeMeta.latest == n
    case _ => true
  }

  ghost predicate Orderly(env: Env, s: State, id: Id) {
    && (forall tid | tid in s.tasks && Publishing(s.tasks[tid], id) :: OnTrack(env, s.store, s.tasks[tid], id))
    && (HashesUpTo(env, s.store, id, TypeLatestOf(s.store, id))
        || exists tid | tid in s.tasks && HashedOnly(s.tasks[tid], id) ::
             HashesUpTo(env, s.store, id, TypeLatestOf(s.store, id) + 1))
  }

  /** Neither store differs from the other in what it says of the type. */
  ghost predicate SameType(a: Store, b: Store, id: Id) {
    && Lookup(a.types.meta, id) == Lookup(b.types.meta, id)
    && (forall n: nat :: Lookup(a.types.versions, (id, n)) == Lookup(b.types.versions, (id, n)))
    && (forall d: string :: Lookup(a.types.hashes, (id, d)) == Lookup(b.types.hashes, (id, d)))
  }

  lemma {:induction false} SameTypeKeeps(env: Env, a: Store, b: Store, t: Task, id: Id, n: nat)
    requires SameType(a, b, id)
    ensures TypeLatestOf(a, id) == TypeLatestOf(b, id)
    ensures OnTrack(env, a, t, id) ==> OnTrack(env, b, t, id)
    ensures HashesUpTo(env, a, id, n) ==> HashesUpTo(env, b, id, n)
  {
    assert Lookup(a.types.meta, id) == Lookup(b.types.meta, id);
    forall v: nat ensures (id, v) in a.types.versions ==>
      (id, v) in b.types.versions && b.types.versions[(id, v)] == a.types.versions[(id, v)]
    {
      assert Lookup(a.types.versions, (id, v)) == Lookup(b.types.versions, (id, v));
    }
    forall d | (id, d) in b.types.hashes
      ensures (id, d) in a.types.hashes && a.types.hashes[(id, d)] == b.types.hashes[(id, d)]
    {
      assert Lookup(a.types.hashes, (id, d)) == Lookup(b.types.hashes, (id, d));
    }
  }

  lemma {:induction false} NoTypePuts(env: Env, a: Artifact, rest: seq<Put>, id: Id)
    requires forall p | p in rest :: !TypePut(p, id)
    ensures !Publishing(Writing(VersionPuts(env, a) + rest), id)
  {
  }

  /** A step of any other request leaves the type alone; if it begins a publish of it, it has just read its metadata. */
  lemma {:induction false} OtherStep(env: Env, s: Store, t: Task, id: Id)
    requires !Publishing(t, id)
    ensures var (s', next) := Advance(env, s, t);
      && SameType(s, s', id)
      && (next.Some? && Publishing(next.value, id) ==> OnTrack(env, s', next.value, id))
  {
    match t {
      case Requested(q) =>
        match q {
          case PublishPackage(caller, i, p, now) =>
            var was := Lookup(s.packages.meta, i);
            NoTypePuts(env, NextArtifact(i, was, p, caller, now), [PutMeta(i, NextMeta(was, p, caller, now))], id);
          case _ =>
        }
      case ForkProbe(login, slug, up, upMeta, a, now) =>
        NoTypePuts(env, ForkArtifact(login, slug, a, now),
                   [PutMeta(Id(login, slug), ForkMeta(login, up, upMeta, now)), PutMeta(up, Bumped(upMeta))], id);
      case Writing(puts) =>
        if puts != [] {
          assert puts[0] in puts;
          assert forall p | p in puts[1..] :: p in puts;
        }
      case _ =>
    }
  }

  ghost predicate Accounted(env: Env, s: Store, t: Option<Task>, id: Id) {
    && (t.Some? && Publishing(t.value, id) ==> OnTrack(env, s, t.value, id))
    && (HashesUpTo(env, s, id, TypeLatestOf(s, id))
        || (t.Some? && HashedOnly(t.value, id) && HashesUpTo(env, s, id, TypeLatestOf(s, id) + 1)))
  }

  /** A publish that is alone stays on track and keeps the digests true. */
  lemma {:induction false} PublishStep(env: Env, s: Store, t: Task, id: Id)
    requires Publishing(t, id) && Accounted(env, s, Some(t), id)
    ensures var (s', next) := Advance(env, s, t); Accounted(env, s', next, id)
  {
    if t.Writing? {
      var puts := t.puts;
      var s' := Apply(s, puts[0]);
      assert Advance(env, s, t) == (s', Some(Writing(puts[1..])));
      if |puts| == 3 {
        assert puts[1..] == [puts[1], puts[2]];
        assert HashesUpTo(env, s', id, TypeLatestOf(s', id));
      } else if |puts| == 2 {
        assert puts[1..] == [puts[1]];
        assert HashesUpTo(env, s', id, TypeLatestOf(s', id) + 1);
      } else {
        assert puts[1..] == [];
        assert HashesUpTo(env, s', id, TypeLatestOf(s', id));
      }
    }
  }

  lemma {:induction false} DoKeepsOrder(env: Env, s: State, e: Event, id: Id)
    requires Orderly(env, s, id) && Solo(s, id) && !StopsShort(s, e, id)
    ensures Orderly(env, Do(env, s, e), id)
  {
    if e.Step? && e.tid in s.tasks {
      var t := s.tasks[e.tid];
      if Publishing(t, id) {
        StepAlone(env, s, e.tid, id);
      } else {
        StepAside(env, s, e.tid, id);
      }
    } else {
      var now := Do(env, s, e);
      if tid :| tid in s.tasks && HashedOnly(s.tasks[tid], id)
                && HashesUpTo(env, s.store, id, TypeLatestOf(s.store, id) + 1) {
        assert tid in now.tasks && now.tasks[tid] == s.tasks[tid];
      }
    }
  }

  lemma {:induction false} StepAlone(env: Env, s: State, tid: nat, id: Id)
    requires Orderly(env, s, id) && Solo(s, id) && tid in s.tasks && Publishing(s.tasks[tid], id)
    ensures Orderly(env, Do(env, s, Step(tid)), id)
  {
    hide HashesUpTo, OnTrack, Advance;
    var t := s.tasks[tid];
    if !HashesUpTo(env, s.store, id, TypeLatestOf(s.store, id)) {
      var other :| other in s.tasks && HashedOnly(s.tasks[other], id)
                   && HashesUpTo(env, s.store, id, TypeLatestOf(s.store, id) + 1);
      assert s.tasks[other].puts[0] in s.tasks[other].puts;
      assert Publishing(s.tasks[other], id);
    }
    PublishStep(env, s.store, t, id);
    var now := Do(env, s, Step(tid));
    var (store, next) := Advance(env, s.store, t);
    assert forall x | x in now.tasks && x != tid :: now.tasks[x] == s.tasks[x] && !Publishing(now.tasks[x], id);
    if next.Some? {
      assert now.tasks[tid] == next.value;
    }
  }

  lemma {:induction false} StepAside(env: Env, s: State, tid: nat, id: Id)
    requires Orderly(env, s, id) && tid in s.tasks && !Publishing(s.tasks[tid], id)
    ensures Orderly(env, Do(env, s, Step(tid)), id)
  {
    hide HashesUpTo, OnTrack, SameType;
    var now := Do(env, s, Step(tid));
    OtherStep(env, s.store, s.tasks[tid], id);
    forall x | x in now.tasks && x != tid && Publishing(now.tasks[x], id)
      ensures OnTrack(env, now.store, now.tasks[x], id)
    {
      SameTypeKeeps(env, s.store, now.store, s.tasks[x], id, 0);
    }
    SameTypeKeeps(env, s.store, now.store, s.tasks[tid], id, TypeLatestOf(s.store, id));
    SameTypeKeeps(env, s.store, now.store, s.tasks[tid], id, TypeLatestOf(s.store, id) + 1);
    if other :| other in s.tasks && HashedOnly(s.tasks[other], id)
                && HashesUpTo(env, s.store, id, TypeLatestOf(s.store, id) + 1) {
      assert s.tasks[other].puts[0] in s.tasks[other].puts;
      assert Publishing(s.tasks[other], id);
      assert now.tasks[other] == s.tasks[other];
    }
  }

  lemma {:induction false} OrderlyAt(env: Env, events: seq<Event>, id: Id, i: nat)
    requires i <= |events|
    requires forall j | 0 <= j < i ::
      Solo(At(env, events, j), id) && !StopsShort(At(env, events, j), events[j], id)
    ensures Orderly(env, At(env, events, i), id)
  {
    if i == 0 {
      assert events[..0] == [];
      assert HashesUpTo(env, EMPTY.store, id, 0);
    } else {
      OrderlyAt(env, events, id, i - 1);
      AtNext(env, events, i - 1);
      assert Solo(At(env, events, i - 1), id);
      DoKeepsOrder(env, At(env, events, i - 1), events[i - 1], id);
    }
  }

  // As long as publishes of a type never overlap, from the read of its metadata to the last put, and none stops between
  // its digest and its metadata, every digest names a version with that digest.
  lemma {:induction false} HashesStayTrue(env: Env, events: seq<Event>, id: Id)
    requires forall i | 0 <= i < |events| ::
      Solo(At(env, events, i), id) && !StopsShort(At(env, events, i), events[i], id)
    ensures forall i | 0 <= i <= |events| :: HashesTrue(env, At(env, events, i).store, id)
  {
    forall i | 0 <= i <= |events| ensures HashesTrue(env, At(env, events, i).store, id) {
      OrderlyAt(env, events, id, i);
    }
  }

  // --- and publishes that do ---------------------------------------------------

  /** A type publish arrives, reads the metadata and the digests, and holds what it will write. */
  lemma {:induction false} TypeReads(env: Env, s: State, tid: nat, caller: Caller, id: Id, p: TypePayload, now: int)
    requires tid !in s.tasks && TypeAccepted(env, s.store, caller, id, p)
    ensures var was := Lookup(s.store.types.meta, id);
      Run(env, s, TypeArrives(tid, caller, id, p, now))
      == s.(tasks := s.tasks[tid := Writing(TypePuts(env, id, was, p, caller, now))])
  {
    var q := PublishType(caller, id, p, now);
    var was := Lookup(s.store.types.meta, id);
    var s1 := Do(env, s, Arrive(tid, q));
    var s2 := Do(env, s1, Step(tid));
    var s3 := Do(env, s2, Step(tid));
    assert s2.tasks == s.tasks[tid := TypeProbe(caller, id, p, was, now)];
    assert s3.tasks == s.tasks[tid := Writing(TypePuts(env, id, was, p, caller, now))];
    var es := TypeArrives(tid, caller, id, p, now);
    assert es[1..] == [Step(tid), Step(tid)] && es[1..][1..] == [Step(tid)];
    RunOne(env, s2, Step(tid));
    assert Run(env, s1, es[1..]) == Run(env, s2, [Step(tid)]);
  }

  function TypeArrives(tid: nat, caller: Caller, id: Id, p: TypePayload, now: int): seq<Event> {
    [Arrive(tid, PublishType(caller, id, p, now)), Step(tid), Step(tid)]
  }

  /** The publish is accepted and its source is not that of the latest version. */
  ghost predicate TypeAccepted(env: Env, s: Store, caller: Caller, id: Id, p: TypePayload) {
    && TypeRefusal(env, caller, id, p, s.types.meta).None?
    && (id in s.types.meta ==> Lookup(s.types.hashes, (id, env.sha(p.source))) != Some(s.types.meta[id].latest))
  }

  /** The digest of a source is on record and names a version with another. */
  ghost predicate Misnamed(env: Env, s: Store, id: Id, source: string) {
    var entry := (id, env.sha(source));
    && entry in s.types.hashes && (id, s.types.hashes[entry]) in s.types.versions
    && env.sha(s.types.versions[(id, s.types.hashes[entry])].source) != entry.1
  }

  /** Where one publish has put its version and digest, a second that read before then writes the version over. */
  lemma {:induction false} WrittenOver(env: Env, s: State, id: Id, was: Option<TypeMeta>, caller: Caller,
                                       p: TypePayload, q: TypePayload, now: int, tid: nat)
    requires env.sha(p.source) != env.sha(q.source)
    requires var v := NextTypeVersion(id, was, p, caller, now).version;
      (id, env.sha(p.source)) in s.store.types.hashes && s.store.types.hashes[(id, env.sha(p.source))] == v
    requires tid in s.tasks && s.tasks[tid] == Writing(TypePuts(env, id, was, q, caller, now))
    ensures Misnamed(env, Run(env, s, [Step(tid)]).store, id, p.source)
  {
    RunOne(env, s, Step(tid));
  }

  // Two publishes of a type that overlap, whatever the state they arrive in: the digest of the first ends up naming the
  // source of the second.
  lemma {:induction false} OverlappingTypesMismatch(env: Env, s: State, id: Id, caller: Caller, p: TypePayload,
                                                    q: TypePayload, now: int, t1: nat, t2: nat)
    requires t1 != t2 && t1 !in s.tasks && t2 !in s.tasks
    requires TypeAccepted(env, s.store, caller, id, p) && TypeAccepted(env, s.store, caller, id, q)
    requires env.sha(p.source) != env.sha(q.source)
    ensures Misnamed(env, Run(env, s, TypeArrives(t1, caller, id, p, now) + TypeArrives(t2, caller, id, q, now)
                                      + Steps(t1, 3) + [Step(t2)]).store, id, p.source)
  {
    hide Run, Do, Advance, Begin;
    var was := Lookup(s.store.types.meta, id);
    var a, b := TypeArrives(t1, caller, id, p, now), TypeArrives(t2, caller, id, q, now);
    var first, second := TypePuts(env, id, was, p, caller, now), TypePuts(env, id, was, q, caller, now);
    TypeReads(env, s, t1, caller, id, p, now);
    var s1 := s.(tasks := s.tasks[t1 := Writing(first)]);
    TypeReads(env, s1, t2, caller, id, q, now);
    var s2 := s1.(tasks := s1.tasks[t2 := Writing(second)]);
    WriteOut(env, s2, t1, first);
    var s3 := State(ApplyAll(s2.store, first), s2.tasks[t1 := Writing([])]);
    ApplyThree(s2.store, first[0], first[1], first[2]);
    RunConcat(env, s, a, b);
    RunConcat(env, s, a + b, Steps(t1, 3));
    RunConcat(env, s, a + b + Steps(t1, 3), [Step(t2)]);
    WrittenOver(env, s3, id, was, caller, p, q, now, t2);
  }

  // A publish that stops between its digest and its metadata, then another: the same, with no overlap.
  lemma {:induction false} StoppedTypeMismatch(env: Env, s: State, id: Id, caller: Caller, p: TypePayload,
                                               q: TypePayload, now: int, t1: nat, t2: nat)
    requires t1 != t2 && t1 !in s.tasks && t2 !in s.tasks
    requires TypeAccepted(env, s.store, caller, id, p) && TypeAccepted(env, s.store, caller, id, q)
    requires env.sha(p.source) != env.sha(q.source)
    ensures Misnamed(env, Run(env, s, TypeArrives(t1, caller, id, p, now) + Steps(t1, 2) + [Crash(t1)]
                                      + TypeArrives(t2, caller, id, q, now) + [Step(t2)]).store, id, p.source)
  {
    var was := Lookup(s.store.types.meta, id);
    var a, b := TypeArrives(t1, caller, id, p, now), TypeArrives(t2, caller, id, q, now);
    var first, second := TypePuts(env, id, was, p, caller, now), TypePuts(env, id, was, q, caller, now);
    TypeReads(env, s, t1, caller, id, p, now);
    var s1 := s.(tasks := s.tasks[t1 := Writing(first)]);
    TwoPuts(env, s1, t1, first);
    var s2 := State(Apply(Apply(s.store, first[0]), first[1]), s1.tasks[t1 := Writing(first[2..])]);
    RunOne(env, s2, Crash(t1));
    var s3 := Do(env, s2, Crash(t1));
    assert s3.store.types.meta == s.store.types.meta;
    assert Lookup(s3.store.types.hashes, (id, env.sha(q.source)))
      == Lookup(s.store.types.hashes, (id, env.sha(q.source)));
    TypeReads(env, s3, t2, caller, id, q, now);
    RunConcat(env, s, a, Steps(t1, 2));
    RunConcat(env, s, a + Steps(t1, 2), [Crash(t1)]);
    RunConcat(env, s, a + Steps(t1, 2) + [Crash(t1)], b);
    RunConcat(env, s, a + Steps(t1, 2) + [Crash(t1)] + b, [Step(t2)]);
    WrittenOver(env, s3.(tasks := s3.tasks[t2 := Writing(second)]), id, was, caller, p, q, now, t2);
  }

  lemma {:induction false} TwoPuts(env: Env, s: State, tid: nat, puts: seq<Put>)
    requires tid in s.tasks && s.tasks[tid] == Writing(puts) && |puts| >= 2
    ensures Run(env, s, Steps(tid, 2))
         == State(Apply(Apply(s.store, puts[0]), puts[1]), s.tasks[tid := Writing(puts[2..])])
  {
    var s1 := Do(env, s, Step(tid));
    assert puts[1..][1..] == puts[2..];
    assert Steps(tid, 2)[1..] == Steps(tid, 1) && Steps(tid, 1) == [Step(tid)];
    RunOne(env, s1, Step(tid));
    assert s1.tasks[tid := Writing(puts[2..])] == s.tasks[tid := Writing(puts[2..])];
  }
}
