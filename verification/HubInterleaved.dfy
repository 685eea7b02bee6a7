/**
The hub with every KV or R2 operation a step of its own. Requests interleave at these steps
and may stop for good at any of them. Metadata is read, held, and written back whole, so a
copy may be stale by the time it lands.
*/
module HubInterleaved {
  import opened Wrappers
  import opened HubModel
  import opened HubRegistry

  datatype Store = Store(packages: Packages, types: Types, stars: set<(Id, string)>)

  datatype Put =
    | PutBlob(artifact: Artifact)
    | PutSlot(id: Id, n: nat, slot: Slot)
    | PutMeta(id: Id, meta: PackageMeta)
    | PutTypeVersion(tv: TypeVersion)
    | PutHash(id: Id, digest: string, n: nat)
    | PutTypeMeta(id: Id, typeMeta: TypeMeta)
    | PutStar(id: Id, user: string)
    | DropStar(id: Id, user: string)

  function Apply(s: Store, p: Put): Store {
    match p
    case PutBlob(a) => s.(packages := s.packages.(blobs := s.packages.blobs[(a.id, a.version) := a]))
    case PutSlot(id, n, slot) => s.(packages := s.packages.(slots := s.packages.slots[(id, n) := slot]))
    case PutMeta(id, meta) => s.(packages := s.packages.(meta := s.packages.meta[id := meta]))
    case PutTypeVersion(tv) => s.(types := s.types.(versions := s.types.versions[(tv.id, tv.version) := tv]))
    case PutHash(id, d, n) => s.(types := s.types.(hashes := s.types.hashes[(id, d) := n]))
    case PutTypeMeta(id, meta) => s.(types := s.types.(meta := s.types.meta[id := meta]))
    case PutStar(id, user) => s.(stars := s.stars + {(id, user)})
    case DropStar(id, user) => s.(stars := s.stars - {(id, user)})
  }

  // A request in flight: what it has read, or the puts it still has to make.
  datatype Task =
    | Requested(q: Request)
    | ForkFetch(login: string, slug: string, up: Id, upMeta: PackageMeta, now: int)
    | ForkProbe(login: string, slug: string, up: Id, upMeta: PackageMeta, upArtifact: Artifact, now: int)
    | TypeProbe(caller: Caller, id: Id, p: TypePayload, was: Option<TypeMeta>, now: int)
    | StarProbe(id: Id, user: string, meta: PackageMeta, add: bool)
    | Writing(puts: seq<Put>)

  // Index puts touch none of the keys modelled here and are left out of the queues.

  function VersionPuts(env: Env, a: Artifact): seq<Put> {
    if env.oversized(a) then [PutBlob(a), PutSlot(a.id, a.version, Pointer((a.id, a.version)))]
    else [PutSlot(a.id, a.version, Inline(a))]
  }

  function PublishPuts(env: Env, id: Id, was: Option<PackageMeta>, p: Payload, caller: Caller, now: int): seq<Put> {
    VersionPuts(env, NextArtifact(id, was, p, caller, now)) + [PutMeta(id, NextMeta(was, p, caller, now))]
  }

  function TypePuts(env: Env, id: Id, was: Option<TypeMeta>, p: TypePayload, caller: Caller, now: int): seq<Put> {
    var tv := NextTypeVersion(id, was, p, caller, now);
    [PutTypeVersion(tv), PutHash(id, env.sha(tv.source), tv.version),
      PutTypeMeta(id, NextTypeMeta(was, p, caller, now))]
  }

  function ForkPuts(env: Env, login: string, slug: string, up: Id, upMeta: PackageMeta, upArtifact: Artifact,
                    now: int): seq<Put> {
    VersionPuts(env, ForkArtifact(login, slug, upArtifact, now))
    + [PutMeta(Id(login, slug), ForkMeta(login, up, upMeta, now)), PutMeta(up, Bumped(upMeta))]
  }

  function StarPuts(id: Id, user: string, meta: PackageMeta, add: bool): seq<Put> {
    if add then [PutStar(id, user), PutMeta(id, meta.(stars := meta.stars + 1))]
    else [DropStar(id, user)] + if meta.stars > 0 then [PutMeta(id, meta.(stars := meta.stars - 1))] else []
  }

  /** The first read of a request: the metadata it decides on. `None` when it answers at once. */
  ghost function Begin(env: Env, s: Store, q: Request): Option<Task> {
    match q
    case PublishPackage(caller, id, p, now) =>
      if PublishRefusal(env, caller, id, p, s.packages.meta).Some? then None
      else Some(Writing(PublishPuts(env, id, Lookup(s.packages.meta, id), p, caller, now)))
    case PublishType(caller, id, p, now) =>
      if TypeRefusal(env, caller, id, p, s.types.meta).Some? then None
      else Some(TypeProbe(caller, id, p, Lookup(s.types.meta, id), now))
    case Fork(caller, up, slug, now) =>
      if !caller.User? || up !in s.packages.meta then None
      else Some(ForkFetch(caller.login, slug.GetOr(up.name), up, s.packages.meta[up], now))
    case Star(caller, id) =>
      if !caller.User? || id !in s.packages.meta then None
      else Some(StarProbe(id, caller.login, s.packages.meta[id], true))
    case Unstar(caller, id) =>
      if !caller.User? || id !in s.packages.meta then None
      else Some(StarProbe(id, caller.login, s.packages.meta[id], false))
    case Download(id) =>
      if id !in s.packages.meta then None
      else var m := s.packages.meta[id]; Some(Writing([PutMeta(id, m.(downloads := m.downloads + 1))]))
  }

  /** One step of one request: a read that decides what comes next, or one put. */
  ghost function Advance(env: Env, s: Store, t: Task): (Store, Option<Task>) {
    match t
    case Requested(q) => (s, Begin(env, s, q))
    case ForkFetch(login, slug, up, upMeta, now) =>
      (match s.packages.Resolve(up, upMeta.latest)
       case Found(a) =>
         if !env.segmentOk(slug) || Id(login, slug) == up then (s, None)
         else (s, Some(ForkProbe(login, slug, up, upMeta, a, now)))
       case _ => (s, None))
    case ForkProbe(login, slug, up, upMeta, a, now) =>
      if Id(login, slug) in s.packages.meta then (s, None)
      else (s, Some(Writing(ForkPuts(env, login, slug, up, upMeta, a, now))))
    case TypeProbe(caller, id, p, was, now) =>
      var dedup := Lookup(s.types.hashes, (id, env.sha(p.source)));
      if was.Some? && dedup == Some(was.value.latest) then (s, None)
      else (s, Some(Writing(TypePuts(env, id, was, p, caller, now))))
    case StarProbe(id, user, meta, add) =>
      if ((id, user) in s.stars) == add then (s, None)
      else (s, Some(Writing(StarPuts(id, user, meta, add))))
    case Writing(puts) =>
      if puts == [] then (s, None) else (Apply(s, puts[0]), Some(Writing(puts[1..])))
  }

  datatype State = State(store: Store, tasks: map<nat, Task>)

  const EMPTY := State(Store(Packages(map[], map[], map[]), Types(map[], map[], map[]), {}), map[])

  // A request arrives, some request takes a step, or one stops for good.
  datatype Event = Arrive(tid: nat, q: Request) | Step(tid: nat) | Crash(tid: nat)

  ghost function Do(env: Env, s: State, e: Event): State {
    match e
    case Arrive(tid, q) => if tid in s.tasks then s else s.(tasks := s.tasks[tid := Requested(q)])
    case Step(tid) =>
      if tid !in s.tasks then s
      else
        var (store, next) := Advance(env, s.store, s.tasks[tid]);
        State(store, if next.Some? then s.tasks[tid := next.value] else s.tasks - {tid})
    case Crash(tid) => s.(tasks := s.tasks - {tid})
  }

  ghost function Run(env: Env, s: State, events: seq<Event>): State
    decreases |events|
  {
    if events == [] then s else Run(env, Do(env, s, events[0]), events[1..])
  }

  // --- what holds throughout -----------------------------------------------------------

  ghost predicate HasVersions(s: Store, id: Id, latest: nat) {
    forall n | 1 <= n <= latest :: (id, n) in s.packages.slots
  }

  ghost predicate HasTypeVersions(s: Store, id: Id, latest: nat) {
    forall n | 1 <= n <= latest :: (id, n) in s.types.versions
  }

  ghost predicate SlotOk(s: Store, id: Id, n: nat, slot: Slot) {
    match slot
    case Inline(a) => a.id == id && a.version == n
    case Pointer(k) => k == (id, n) && k in s.packages.blobs
  }

  ghost predicate Sound(s: Store) {
    && (forall k | k in s.packages.slots :: SlotOk(s, k.0, k.1, s.packages.slots[k]))
    && (forall k | k in s.packages.blobs :: s.packages.blobs[k].id == k.0 && s.packages.blobs[k].version == k.1)
    && (forall id | id in s.packages.meta :: HasVersions(s, id, s.packages.meta[id].latest))
    && (forall k | k in s.types.versions :: s.types.versions[k].id == k.0 && s.types.versions[k].version == k.1)
    && (forall h | h in s.types.hashes :: (h.0, s.types.hashes[h]) in s.types.versions)
    && (forall id | id in s.types.meta :: HasTypeVersions(s, id, s.types.meta[id].latest))
  }

  /** What a put relies on, and what makes it safe. */
  ghost predicate PutOk(s: Store, p: Put) {
    match p
    case PutSlot(id, n, slot) => SlotOk(s, id, n, slot)
    case PutMeta(id, meta) => HasVersions(s, id, meta.latest)
    case PutHash(id, _, n) => (id, n) in s.types.versions
    case PutTypeMeta(id, meta) => HasTypeVersions(s, id, meta.latest)
    case _ => true
  }

  /** Each put of a queue finds what it relies on, once those before it are made. */
  ghost predicate Safe(s: Store, puts: seq<Put>)
    decreases |puts|
  {
    puts == [] || (PutOk(s, puts[0]) && Safe(Apply(s, puts[0]), puts[1..]))
  }

  ghost predicate TaskSafe(s: Store, t: Task) {
    match t
    case Requested(_) => true
    case ForkFetch(_, _, up, upMeta, _) => HasVersions(s, up, upMeta.latest)
    case ForkProbe(_, _, up, upMeta, _, _) => HasVersions(s, up, upMeta.latest)
    case TypeProbe(_, id, _, was, _) => was.Some? ==> HasTypeVersions(s, id, was.value.latest)
    case StarProbe(id, _, meta, _) => HasVersions(s, id, meta.latest)
    case Writing(puts) => Safe(s, puts)
  }

  ghost predicate Inv(s: State) {
    Sound(s.store) && forall tid | tid in s.tasks :: TaskSafe(s.store, s.tasks[tid])
  }

  /** What others may do to the store: version slots, blobs and type versions are replaced, never removed. */
  ghost predicate Grows(a: Store, b: Store) {
    && a.packages.slots.Keys <= b.packages.slots.Keys
    && a.packages.blobs.Keys <= b.packages.blobs.Keys
    && a.types.versions.Keys <= b.types.versions.Keys
  }

  lemma {:induction false} ApplyIsSound(s: Store, p: Put)
    requires Sound(s) && PutOk(s, p)
    ensures Sound(Apply(s, p)) && Grows(s, Apply(s, p))
  {
    var t := Apply(s, p);
    forall k | k in t.packages.slots ensures SlotOk(t, k.0, k.1, t.packages.slots[k]) {
      if k in s.packages.slots { assert SlotOk(s, k.0, k.1, s.packages.slots[k]); }
    }
    forall id | id in t.packages.meta ensures HasVersions(t, id, t.packages.meta[id].latest) {
      if id in s.packages.meta { assert HasVersions(s, id, s.packages.meta[id].latest); }
    }
    forall id | id in t.types.meta ensures HasTypeVersions(t, id, t.types.meta[id].latest) {
      if id in s.types.meta { assert HasTypeVersions(s, id, s.types.meta[id].latest); }
    }
  }

  lemma {:induction false} PutIsStable(a: Store, b: Store, p: Put)
    requires Grows(a, b)
    ensures PutOk(a, p) ==> PutOk(b, p)
    ensures Grows(Apply(a, p), Apply(b, p))
  {
  }

  /** A safe queue stays safe whatever the others do meanwhile. */
  lemma {:induction false} SafeIsStable(a: Store, b: Store, puts: seq<Put>)
    requires Safe(a, puts) && Grows(a, b)
    ensures Safe(b, puts)
    decreases |puts|
  {
    hide PutOk, Grows, Apply;
    if puts != [] {
      PutIsStable(a, b, puts[0]);
      SafeIsStable(Apply(a, puts[0]), Apply(b, puts[0]), puts[1..]);
    }
  }

  lemma {:induction false} TaskIsStable(a: Store, b: Store, t: Task)
    requires TaskSafe(a, t) && Grows(a, b)
    ensures TaskSafe(b, t)
  {
    if t.Writing? { SafeIsStable(a, b, t.puts); }
  }

  /** Storing an artifact is safe and leaves its slot behind. */
  lemma {:induction false} VersionPutsSafe(env: Env, s: Store, a: Artifact, rest: seq<Put>)
    requires forall t | Grows(s, t) && (a.id, a.version) in t.packages.slots :: Safe(t, rest)
    ensures Safe(s, VersionPuts(env, a) + rest)
  {
    var puts := VersionPuts(env, a) + rest;
    var s1 := Apply(s, puts[0]);
    if env.oversized(a) {
      var s2 := Apply(s1, puts[1]);
      assert puts[1..][1..] == rest && Safe(s2, rest);
      assert Safe(s1, puts[1..]);
    } else {
      assert puts[1..] == rest && Safe(s1, rest);
    }
  }

  lemma {:induction false} PublishPutsSafe(env: Env, s: Store, id: Id, was: Option<PackageMeta>, p: Payload,
                                           caller: Caller, now: int)
    requires was.Some? ==> HasVersions(s, id, was.value.latest)
    ensures Safe(s, PublishPuts(env, id, was, p, caller, now))
  {
    var a, meta := NextArtifact(id, was, p, caller, now), NextMeta(was, p, caller, now);
    forall t | Grows(s, t) && (id, a.version) in t.packages.slots ensures Safe(t, [PutMeta(id, meta)]) {
      assert PutOk(t, PutMeta(id, meta));
      assert [PutMeta(id, meta)][1..] == [];
    }
    VersionPutsSafe(env, s, a, [PutMeta(id, meta)]);
  }

  lemma {:induction false} ForkPutsSafe(env: Env, s: Store, login: string, slug: string, up: Id,
                                        upMeta: PackageMeta, upArtifact: Artifact, now: int)
    requires HasVersions(s, up, upMeta.latest)
    ensures Safe(s, ForkPuts(env, login, slug, up, upMeta, upArtifact, now))
  {
    var a, meta := ForkArtifact(login, slug, upArtifact, now), ForkMeta(login, up, upMeta, now);
    var rest := [PutMeta(a.id, meta), PutMeta(up, Bumped(upMeta))];
    forall t | Grows(s, t) && (a.id, 1) in t.packages.slots ensures Safe(t, rest) {
      var t1 := Apply(t, rest[0]);
      assert PutOk(t, rest[0]) && PutOk(t1, rest[1]);
      assert rest[1..][1..] == [] && rest[1..][0] == rest[1];
      assert Safe(t1, rest[1..]);
    }
    VersionPutsSafe(env, s, a, rest);
  }

  lemma {:induction false} TypePutsSafe(env: Env, s: Store, id: Id, was: Option<TypeMeta>, p: TypePayload,
                                        caller: Caller, now: int)
    requires was.Some? ==> HasTypeVersions(s, id, was.value.latest)
    ensures Safe(s, TypePuts(env, id, was, p, caller, now))
  {
    var puts := TypePuts(env, id, was, p, caller, now);
    var s1 := Apply(s, puts[0]);
    var s2 := Apply(s1, puts[1]);
    assert PutOk(s, puts[0]) && PutOk(s1, puts[1]) && PutOk(s2, puts[2]);
    assert puts[1..][0] == puts[1] && puts[1..][1..][0] == puts[2] && puts[1..][1..][1..] == [];
    assert Safe(s2, puts[1..][1..]);
    assert Safe(s1, puts[1..]);
  }

  lemma {:induction false} StarPutsSafe(s: Store, id: Id, user: string, meta: PackageMeta, add: bool)
    requires HasVersions(s, id, meta.latest)
    ensures Safe(s, StarPuts(id, user, meta, add))
  {
    var puts := StarPuts(id, user, meta, add);
    var s1 := Apply(s, puts[0]);
    if |puts| == 2 {
      assert puts[1..][0] == puts[1] && puts[1..][1..] == [];
      assert PutOk(s1, puts[1]);
    }
    assert Safe(s1, puts[1..]);
  }

  lemma {:induction false} BeginIsSafe(env: Env, s: Store, q: Request)
    requires Sound(s)
    ensures Begin(env, s, q).Some? ==> TaskSafe(s, Begin(env, s, q).value)
  {
    match q {
      case PublishPackage(caller, id, p, now) =>
        PublishPutsSafe(env, s, id, Lookup(s.packages.meta, id), p, caller, now);
      case Download(id) =>
        if id in s.packages.meta {
          var m := s.packages.meta[id];
          var puts := [PutMeta(id, m.(downloads := m.downloads + 1))];
          assert PutOk(s, puts[0]) && puts[1..] == [];
        }
      case _ =>
    }
  }

  lemma {:induction false} AdvanceIsSafe(env: Env, s: Store, t: Task)
    requires Sound(s) && TaskSafe(s, t)
    ensures var (s', next) := Advance(env, s, t);
            Sound(s') && Grows(s, s') && (next.Some? ==> TaskSafe(s', next.value))
  {
    match t {
      case Requested(q) => BeginIsSafe(env, s, q);
      case ForkFetch(_, _, _, _, _) =>
      case ForkProbe(login, slug, up, upMeta, a, now) => ForkPutsSafe(env, s, login, slug, up, upMeta, a, now);
      case TypeProbe(caller, id, p, was, now) => TypePutsSafe(env, s, id, was, p, caller, now);
      case StarProbe(id, user, meta, add) => StarPutsSafe(s, id, user, meta, add);
      case Writing(puts) => if puts != [] { ApplyIsSound(s, puts[0]); }
    }
  }

  lemma {:induction false} DoKeeps(env: Env, s: State, e: Event)
    requires Inv(s)
    ensures Inv(Do(env, s, e))
  {
    if e.Step? && e.tid in s.tasks {
      AdvanceIsSafe(env, s.store, s.tasks[e.tid]);
      var (store, _) := Advance(env, s.store, s.tasks[e.tid]);
      forall tid | tid in s.tasks ensures TaskSafe(store, s.tasks[tid]) || tid == e.tid {
        TaskIsStable(s.store, store, s.tasks[tid]);
      }
    }
  }

  lemma {:induction false} RunKeeps(env: Env, s: State, events: seq<Event>)
    requires Inv(s)
    ensures Inv(Run(env, s, events))
    decreases |events|
  {
    if events != [] {
      DoKeeps(env, s, events[0]);
      RunKeeps(env, Do(env, s, events[0]), events[1..]);
    }
  }

  // However requests interleave and wherever they stop: every version up to the latest reads
  // back under its own number, no slot points at a missing blob, every hash entry names a
  // stored type version, and so does every type's history.
  lemma {:induction false} AlwaysReadable(env: Env, events: seq<Event>, id: Id, n: nat)
    ensures var s := Run(env, EMPTY, events).store;
      && (id in s.packages.meta && 1 <= n <= s.packages.meta[id].latest ==>
            var r := s.packages.Resolve(id, n); r.Found? && r.artifact.id == id && r.artifact.version == n)
      && !s.packages.Resolve(id, n).Dangling?
      && (forall d | (id, d) in s.types.hashes :: (id, s.types.hashes[(id, d)]) in s.types.versions)
      && (id in s.types.meta && 1 <= n <= s.types.meta[id].latest ==>
            (id, n) in s.types.versions && s.types.versions[(id, n)].id == id && s.types.versions[(id, n)].version == n)
  {
    RunKeeps(env, EMPTY, events);
    var s := Run(env, EMPTY, events).store;
    if (id, n) in s.packages.slots { assert SlotOk(s, id, n, s.packages.slots[(id, n)]); }
    if id in s.packages.meta { assert HasVersions(s, id, s.packages.meta[id].latest); }
    if id in s.types.meta { assert HasTypeVersions(s, id, s.types.meta[id].latest); }
    forall d | (id, d) in s.types.hashes ensures (id, s.types.hashes[(id, d)]) in s.types.versions {
      assert ((id, d).0, s.types.hashes[(id, d)]) in s.types.versions;
    }
  }

  // --- pieces of a run -------------------------------------------------------------------

  lemma {:induction false} RunConcat(env: Env, s: State, xs: seq<Event>, ys: seq<Event>)
    ensures Run(env, s, xs + ys) == Run(env, Run(env, s, xs), ys)
    decreases |xs|
  {
    if xs == [] {
      assert xs + ys == ys;
    } else {
      assert (xs + ys)[1..] == xs[1..] + ys;
      RunConcat(env, Do(env, s, xs[0]), xs[1..], ys);
    }
  }

  function ApplyAll(s: Store, puts: seq<Put>): Store
    decreases |puts|
  {
    if puts == [] then s else ApplyAll(Apply(s, puts[0]), puts[1..])
  }

  function Steps(tid: nat, n: nat): seq<Event> {
    if n == 0 then [] else [Step(tid)] + Steps(tid, n - 1)
  }

  /** Left alone, a request makes all its puts. */
  lemma {:induction false} WriteOut(env: Env, s: State, tid: nat, puts: seq<Put>)
    requires tid in s.tasks && s.tasks[tid] == Writing(puts)
    ensures Run(env, s, Steps(tid, |puts|)) == State(ApplyAll(s.store, puts), s.tasks[tid := Writing([])])
    decreases |puts|
  {
    if puts == [] {
      assert s.tasks[tid := Writing([])] == s.tasks;
    } else {
      var next := Do(env, s, Step(tid));
      assert next.tasks[tid := Writing([])] == s.tasks[tid := Writing([])];
      WriteOut(env, next, tid, puts[1..]);
      assert Steps(tid, |puts|)[1..] == Steps(tid, |puts| - 1);
    }
  }

  lemma {:induction false} RunOne(env: Env, s: State, e: Event)
    ensures Run(env, s, [e]) == Do(env, s, e)
  {
    assert [e][1..] == [];
  }

  lemma {:induction false} ApplyTwo(s: Store, p: Put, q: Put)
    ensures ApplyAll(s, [p, q]) == Apply(Apply(s, p), q)
  {
    assert [p, q][1..] == [q] && [q][1..] == [];
    assert ApplyAll(Apply(Apply(s, p), q), [q][1..]) == Apply(Apply(s, p), q);
    assert ApplyAll(Apply(s, p), [q]) == Apply(Apply(s, p), q);
  }

  lemma {:induction false} ApplyThree(s: Store, p: Put, q: Put, r: Put)
    ensures ApplyAll(s, [p, q, r]) == Apply(Apply(Apply(s, p), q), r)
  {
    assert [p, q, r][1..] == [q, r];
    ApplyTwo(Apply(s, p), q, r);
  }

  /** A request arrives, reads, and holds what it will write. */
  lemma {:induction false} Reads(env: Env, s: State, tid: nat, q: Request, puts: seq<Put>)
    requires tid !in s.tasks && Begin(env, s.store, q) == Some(Writing(puts))
    ensures Run(env, s, [Arrive(tid, q)] + [Step(tid)]) == s.(tasks := s.tasks[tid := Writing(puts)])
  {
    RunConcat(env, s, [Arrive(tid, q)], [Step(tid)]);
    RunOne(env, s, Arrive(tid, q));
    RunOne(env, Do(env, s, Arrive(tid, q)), Step(tid));
    assert s.tasks[tid := Requested(q)][tid := Writing(puts)] == s.tasks[tid := Writing(puts)];
  }

  /** It then writes, with nothing in between. */
  lemma {:induction false} Writes(env: Env, s: State, es: seq<Event>, tid: nat, puts: seq<Put>)
    requires Run(env, s, es) == s.(tasks := s.tasks[tid := Writing(puts)])
    ensures Run(env, s, es + Steps(tid, |puts|)) == State(ApplyAll(s.store, puts), s.tasks[tid := Writing([])])
  {
    var s1 := s.(tasks := s.tasks[tid := Writing(puts)]);
    RunConcat(env, s, es, Steps(tid, |puts|));
    WriteOut(env, s1, tid, puts);
    assert s1.tasks[tid := Writing([])] == s.tasks[tid := Writing([])];
  }

  lemma {:induction false} PublishedStore(env: Env, s: Store, id: Id, was: Option<PackageMeta>, p: Payload,
                                          caller: Caller, now: int)
    ensures var s', a := ApplyAll(s, PublishPuts(env, id, was, p, caller, now)), NextArtifact(id, was, p, caller, now);
      && s'.packages == WithArtifact(env, s.packages, a, NextMeta(was, p, caller, now))
      && s'.types == s.types && s'.stars == s.stars
  {
    var puts := PublishPuts(env, id, was, p, caller, now);
    if env.oversized(NextArtifact(id, was, p, caller, now)) {
      ApplyThree(s, puts[0], puts[1], puts[2]);
      assert puts == [puts[0], puts[1], puts[2]];
    } else {
      ApplyTwo(s, puts[0], puts[1]);
      assert puts == [puts[0], puts[1]];
    }
  }

  /** An accepted publish, alone: the new version is the latest, and the other requests still hold what they held. */
  lemma {:induction false} PublishEvents(env: Env, s: State, id: Id, caller: Caller, p: Payload, now: int,
                                         tid: nat) returns (es: seq<Event>)
    requires tid !in s.tasks && PublishRefusal(env, caller, id, p, s.store.packages.meta).None?
    ensures var s', was := Run(env, s, es), Lookup(s.store.packages.meta, id);
      && s'.store.packages
           == WithArtifact(env, s.store.packages, NextArtifact(id, was, p, caller, now), NextMeta(was, p, caller, now))
      && s'.store.types == s.store.types && s'.store.stars == s.store.stars
      && s'.tasks == s.tasks[tid := Writing([])]
  {
    var puts := PublishPuts(env, id, Lookup(s.store.packages.meta, id), p, caller, now);
    var q := PublishPackage(caller, id, p, now);
    Reads(env, s, tid, q, puts);
    Writes(env, s, [Arrive(tid, q)] + [Step(tid)], tid, puts);
    PublishedStore(env, s.store, id, Lookup(s.store.packages.meta, id), p, caller, now);
    es := [Arrive(tid, q)] + [Step(tid)] + Steps(tid, |puts|);
  }
}
