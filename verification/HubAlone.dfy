/**
A request that nothing interrupts does, one KV or R2 operation at a time, what the atomic
registry does in one step.
*/
module HubAlone {
  import opened Wrappers
  import opened HubModel
  import opened HubRegistry
  import opened HubInterleaved
  import opened HubRaces

  /** The request arrives and makes `n` steps. */
  function Alone(tid: nat, q: Request, n: nat): seq<Event> {
    [Arrive(tid, q)] + Steps(tid, n)
  }

  /** The tasks a request goes through while it only reads. */
  ghost predicate Reading(env: Env, s: Store, q: Request, probes: seq<Task>) {
    && probes != [] && Begin(env, s, q) == Some(probes[0])
    && forall i, j | 0 <= i && j == i + 1 && j < |probes| :: Advance(env, s, probes[i]) == (s, Some(probes[j]))
  }

  lemma {:induction false} ReadsOn(env: Env, s: State, tid: nat, q: Request, probes: seq<Task>, k: nat)
    requires tid !in s.tasks && Reading(env, s.store, q, probes) && 1 <= k <= |probes|
    ensures Run(env, s, Alone(tid, q, k)) == s.(tasks := s.tasks[tid := probes[k - 1]])
  {
    if k == 1 {
      RunConcat(env, s, [Arrive(tid, q)], Steps(tid, 1));
      RunOne(env, s, Arrive(tid, q));
      RunOne(env, s.(tasks := s.tasks[tid := Requested(q)]), Step(tid));
      assert Steps(tid, 1) == [Step(tid)];
      assert s.tasks[tid := Requested(q)][tid := probes[0]] == s.tasks[tid := probes[0]];
    } else {
      ReadsOn(env, s, tid, q, probes, k - 1);
      var now := s.(tasks := s.tasks[tid := probes[k - 2]]);
      assert Advance(env, s.store, probes[k - 2]) == (s.store, Some(probes[k - 1]));
      StepsEnd(tid, k - 1);
      assert Alone(tid, q, k) == Alone(tid, q, k - 1) + [Step(tid)];
      RunConcat(env, s, Alone(tid, q, k - 1), [Step(tid)]);
      RunOne(env, now, Step(tid));
      assert now.tasks[tid := probes[k - 1]] == s.tasks[tid := probes[k - 1]];
    }
  }

  /** Left alone, a request reads, and then makes all the puts it has read up to. */
  lemma {:induction false} ReadsThenWrites(env: Env, s: State, tid: nat, q: Request, probes: seq<Task>, puts: seq<Put>)
    requires tid !in s.tasks && Reading(env, s.store, q, probes) && probes[|probes| - 1] == Writing(puts)
    ensures Run(env, s, Alone(tid, q, |probes| + |puts|))
         == State(ApplyAll(s.store, puts), s.tasks[tid := Writing([])])
  {
    ReadsOn(env, s, tid, q, probes, |probes|);
    hide *;
    Writes(env, s, Alone(tid, q, |probes|), tid, puts);
    AloneJoins(tid, q, |probes|, |puts|);
  }

  lemma {:induction false} AloneJoins(tid: nat, q: Request, a: nat, b: nat)
    ensures Alone(tid, q, a) + Steps(tid, b) == Alone(tid, q, a + b)
  {
    StepsJoin(tid, a, b);
  }

  lemma {:induction false} StepsEnd(tid: nat, n: nat)
    ensures Steps(tid, n + 1) == Steps(tid, n) + [Step(tid)]
  {
    if n > 0 { StepsEnd(tid, n - 1); }
  }

  lemma {:induction false} StepsJoin(tid: nat, a: nat, b: nat)
    ensures Steps(tid, a + b) == Steps(tid, a) + Steps(tid, b)
  {
    if a > 0 { StepsJoin(tid, a - 1, b); }
  }

  /** A download counts one up. */
  lemma {:induction false} DownloadAlone(env: Env, s: State, tid: nat, id: Id)
    requires tid !in s.tasks && id in s.store.packages.meta
    ensures var was, now := s.store, Run(env, s, Alone(tid, Download(id), 2)).store;
      var m := was.packages.meta[id];
      && now.packages == was.packages.(meta := was.packages.meta[id := m.(downloads := m.downloads + 1)])
      && now.types == was.types && now.stars == was.stars
  {
    var m := s.store.packages.meta[id];
    var puts := [PutMeta(id, m.(downloads := m.downloads + 1))];
    ReadsThenWrites(env, s, tid, Download(id), [Writing(puts)], puts);
    assert puts[1..] == [];
  }

  /** A first star is recorded and counted; taking it back undoes both. */
  lemma {:induction false} StarAlone(env: Env, s: State, tid: nat, id: Id, user: string, add: bool)
    requires tid !in s.tasks && id in s.store.packages.meta && ((id, user) in s.store.stars) == !add
    requires !add ==> s.store.packages.meta[id].stars > 0
    ensures var was := s.store;
      var q := if add then Star(User(user), id) else Unstar(User(user), id);
      var now, m := Run(env, s, Alone(tid, q, 4)).store, was.packages.meta[id];
      var n := if add then m.stars + 1 else m.stars - 1;
      && now.packages == was.packages.(meta := was.packages.meta[id := m.(stars := n)])
      && now.types == was.types
      && now.stars == if add then was.stars + {(id, user)} else was.stars - {(id, user)}
  {
    var q := if add then Star(User(user), id) else Unstar(User(user), id);
    var m := s.store.packages.meta[id];
    var puts := StarPuts(id, user, m, add);
    ReadsThenWrites(env, s, tid, q, [StarProbe(id, user, m, add), Writing(puts)], puts);
    assert puts == [puts[0], puts[1]];
    ApplyTwo(s.store, puts[0], puts[1]);
  }

  /** An accepted type publish stores version, digest and metadata. */
  lemma {:induction false} TypeAlone(env: Env, s: State, tid: nat, caller: Caller, id: Id, p: TypePayload, now: int)
    requires tid !in s.tasks && TypeAccepted(env, s.store, caller, id, p)
    ensures var was, after := s.store, Run(env, s, Alone(tid, PublishType(caller, id, p, now), 5)).store;
      var prior := Lookup(was.types.meta, id);
      && after.types == WithVersion(env.sha, was.types, NextTypeVersion(id, prior, p, caller, now),
                                    NextTypeMeta(prior, p, caller, now))
      && after.packages == was.packages && after.stars == was.stars
  {
    var was := Lookup(s.store.types.meta, id);
    var puts := TypePuts(env, id, was, p, caller, now);
    var probes := [TypeProbe(caller, id, p, was, now), Writing(puts)];
    ReadsThenWrites(env, s, tid, PublishType(caller, id, p, now), probes, puts);
    ApplyThree(s.store, puts[0], puts[1], puts[2]);
  }

  /** An accepted fork stores its version and metadata and counts the upstream up. */
  lemma {:induction false} ForkAlone(env: Env, s: State, tid: nat, login: string, up: Id, slug: string, now: int)
    requires tid !in s.tasks && MayFork(env, User(login), up, slug, s.store.packages.meta)
    requires s.store.packages.Latest(up).Some?
    ensures var was := s.store;
      var u := was.packages.Latest(up).value;
      var a, meta := ForkArtifact(login, slug, u.latest, now), ForkMeta(login, up, u.meta, now);
      var n := if env.oversized(a) then 7 else 6;
      var after := Run(env, s, Alone(tid, Fork(User(login), up, Some(slug), now), n)).store;
      && after.packages == WithArtifact(env, was.packages, a, meta).(
           meta := was.packages.meta[a.id := meta][up := Bumped(u.meta)])
      && after.types == was.types && after.stars == was.stars
  {
    var u := s.store.packages.Latest(up).value;
    var a := ForkArtifact(login, slug, u.latest, now);
    var puts := ForkPuts(env, login, slug, up, u.meta, u.latest, now);
    var probes := [ForkFetch(login, slug, up, u.meta, now), ForkProbe(login, slug, up, u.meta, u.latest, now),
                   Writing(puts)];
    ReadsThenWrites(env, s, tid, Fork(User(login), up, Some(slug), now), probes, puts);
    if env.oversized(a) {
      assert puts == [puts[0], puts[1], puts[2], puts[3]];
      assert puts[1..] == [puts[1], puts[2], puts[3]];
      ApplyThree(Apply(s.store, puts[0]), puts[1], puts[2], puts[3]);
    } else {
      assert puts == [puts[0], puts[1], puts[2]];
      ApplyThree(s.store, puts[0], puts[1], puts[2]);
    }
  }

  // --- requests that write nothing -------------------------------------------

  /** The request is refused, or finds its work done: the same source again, a star that is there or not. */
  ghost predicate NothingToDo(env: Env, s: Store, q: Request) {
    match q
    case PublishPackage(caller, id, p, _) => !MayPublish(env, caller, id, p, s.packages.meta)
    case PublishType(caller, id, p, _) =>
      || !MayPublishType(env, caller, id, p, s.types.meta)
      || (id in s.types.meta && Lookup(s.types.hashes, (id, env.sha(p.source))) == Some(s.types.meta[id].latest))
    case Fork(caller, up, slug, _) =>
      !MayFork(env, caller, up, if slug.Some? then slug.value else up.name, s.packages.meta)
    case Star(caller, id) => !caller.User? || id !in s.packages.meta || (id, caller.login) in s.stars
    case Unstar(caller, id) => !caller.User? || id !in s.packages.meta || (id, caller.login) !in s.stars
    case Download(id) => id !in s.packages.meta
  }

  /** A task on its way to an end without a put. */
  ghost predicate Harmless(env: Env, s: Store, t: Task) {
    match t
    case Requested(q) => NothingToDo(env, s, q)
    case ForkFetch(login, slug, up, _, _) =>
      up in s.packages.meta && !MayFork(env, User(login), up, slug, s.packages.meta)
    case ForkProbe(login, slug, _, _, _, _) => Id(login, slug) in s.packages.meta
    case TypeProbe(_, id, p, was, _) =>
      was.Some? && Lookup(s.types.hashes, (id, env.sha(p.source))) == Some(was.value.latest)
    case StarProbe(id, user, _, add) => ((id, user) in s.stars) == add
    case Writing(puts) => puts == []
  }

  lemma {:induction false} HarmlessStep(env: Env, s: Store, t: Task)
    requires Harmless(env, s, t)
    ensures var (now, next) := Advance(env, s, t); now == s && (next.Some? ==> Harmless(env, s, next.value))
  {
    match t {
      case Requested(PublishPackage(caller, id, p, _)) => PublishRefusedUnless(env, caller, id, p, s.packages.meta);
      case Requested(PublishType(caller, id, p, _)) => TypeRefusedUnless(env, caller, id, p, s.types.meta);
      case _ =>
    }
  }

  lemma {:induction false} HarmlessRuns(env: Env, s: State, tid: nat, n: nat)
    requires tid in s.tasks ==> Harmless(env, s.store, s.tasks[tid])
    ensures Run(env, s, Steps(tid, n)).store == s.store
    decreases n
  {
    if n > 0 {
      var events := Steps(tid, n);
      assert events[0] == Step(tid) && events[1..] == Steps(tid, n - 1);
      if tid in s.tasks {
        HarmlessStep(env, s.store, s.tasks[tid]);
      }
      hide Harmless, Advance;
      HarmlessRuns(env, Do(env, s, Step(tid)), tid, n - 1);
    }
  }

  /** Such a request, alone, leaves the store as it was. */
  lemma {:induction false} RefusedAlone(env: Env, s: State, tid: nat, q: Request, n: nat)
    requires tid !in s.tasks && NothingToDo(env, s.store, q)
    ensures Run(env, s, Alone(tid, q, n)).store == s.store
  {
    hide NothingToDo;
    var events := Alone(tid, q, n);
    assert events[0] == Arrive(tid, q) && events[1..] == Steps(tid, n);
    HarmlessRuns(env, Do(env, s, Arrive(tid, q)), tid, n);
  }
}
