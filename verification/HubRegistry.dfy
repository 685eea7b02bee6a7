/**
The hub's write paths, each request one atomic step: package publish, type publish, fork,
stars and downloads. Every request keeps the store sound, the indexes equal to the scans
they replace, and the counters exact.
*/
module HubRegistry {
  import opened Wrappers
  import opened HubModel

  datatype Caller = Anonymous | Admin | User(login: string)

  datatype Payload = Payload(description: string, category: string, tags: seq<string>, content: Content,
    base: Option<nat>)

  datatype TypePayload = TypePayload(
    description: string, category: string, tags: seq<string>, source: string, alignments: seq<Uri>,
    fieldAlignments: seq<(string, Option<Uri>)>, parent: Option<TypeRef>, base: Option<nat>)

  datatype Response =
    | Published(version: nat)
    | Deduped(version: nat)
    | Forked(meta: PackageMeta)
    | Starred(stars: nat, already: bool)
    | Unstarred(removed: bool, stars: nat)
    | Downloaded(downloads: nat)
    | Failed(status: nat, code: string)
    | Stale(latest: nat)

  datatype Request =
    | PublishPackage(caller: Caller, id: Id, p: Payload, now: int)
    | PublishType(caller: Caller, id: Id, tp: TypePayload, now: int)
    | Fork(caller: Caller, id: Id, slug: Option<string>, now: int)
    | Star(caller: Caller, id: Id)
    | Unstar(caller: Caller, id: Id)
    | Download(id: Id)

  // What the handlers take from elsewhere: the digest, the size threshold, and the shape
  // checks of the payload validators. A shape check answers with the declared name.
  datatype Env = Env(
    sha: string -> string,
    oversized: Artifact -> bool,
    shape: Payload -> Option<string>,
    typeShape: TypePayload -> Option<string>,
    segmentOk: string -> bool,
    typeNameOk: string -> bool)

  function Lookup<K, V>(m: map<K, V>, k: K): Option<V> {
    if k in m then Some(m[k]) else None
  }

  predicate CallerCanWrite(caller: Caller, owner: string) {
    match caller
    case Anonymous => false
    case Admin => true
    case User(login) => owner != "admin" && login == owner
  }

  function LoginOf(caller: Caller): string {
    if caller.User? then caller.login else "admin"
  }

  /** Refused before the store is read. */
  function CallerRefusal(caller: Caller, author: string): Option<Response> {
    if caller.Anonymous? then Some(Failed(401, "unauthorized"))
    else if caller.User? && caller.login != author then Some(Failed(403, "forbidden"))
    else None
  }

  /** The owner and stale-base checks that both publish paths share. */
  function BaseRefusal(caller: Caller, existing: Option<(string, nat)>, base: Option<nat>): Option<Response> {
    match existing
    case None => if base.Some? then Some(Stale(0)) else None
    case Some((owner, latest)) =>
      if !CallerCanWrite(caller, owner) then Some(Failed(403, "forbidden"))
      else if base != Some(latest) then Some(Stale(latest))
      else None
  }

  function OwnerAndLatest(packages: map<Id, PackageMeta>, id: Id): Option<(string, nat)> {
    if id in packages then Some((packages[id].owner, packages[id].latest)) else None
  }

  function TypeOwnerAndLatest(types: map<Id, TypeMeta>, id: Id): Option<(string, nat)> {
    if id in types then Some((types[id].owner, types[id].latest)) else None
  }

  ghost function PublishRefusal(env: Env, caller: Caller, id: Id, p: Payload,
                                packages: map<Id, PackageMeta>): Option<Response> {
    if CallerRefusal(caller, id.author).Some? then CallerRefusal(caller, id.author)
    else if env.shape(p).None? || !Partitioned(p.content) then Some(Failed(400, "invalid"))
    else if env.shape(p) != Some(id.name) then Some(Failed(400, "slug_mismatch"))
    else BaseRefusal(caller, OwnerAndLatest(packages, id), p.base)
  }

  function TypeRefusal(env: Env, caller: Caller, id: Id, p: TypePayload, types: map<Id, TypeMeta>): Option<Response> {
    if CallerRefusal(caller, id.author).Some? then CallerRefusal(caller, id.author)
    else if !env.typeNameOk(id.name) then Some(Failed(400, "bad_type_name"))
    else if env.typeShape(p).None? then Some(Failed(400, "invalid"))
    else if env.typeShape(p) != Some(id.name) then Some(Failed(400, "name_mismatch"))
    else BaseRefusal(caller, TypeOwnerAndLatest(types, id), p.base)
  }

  function ForkRefusal(env: Env, caller: Caller, upstream: Id, slug: string,
                       packages: map<Id, PackageMeta>): Option<Response> {
    if !caller.User? then Some(Failed(401, "unauthorized"))
    else if upstream !in packages then Some(Failed(404, "not_found"))
    else if !env.segmentOk(slug) then Some(Failed(400, "bad_slug"))
    else if Id(caller.login, slug) == upstream then Some(Failed(409, "self_fork"))
    else if Id(caller.login, slug) in packages then Some(Failed(409, "already_exists"))
    else None
  }

  // --- validation of type references ------------------------------------------------

  /** The references in one list: well-formed, without duplicates. */
  method CollectTypeRefs(refs: seq<TypeRef>) returns (declared: Option<map<Id, int>>)
    ensures declared.Some? <==> DistinctIds(refs)
    ensures declared.Some? ==> forall id, v ::
        (id in declared.value && declared.value[id] == v) <==> TypeRef(id, v) in refs
  {
    var seen: map<Id, int> := map[];
    var i := 0;
    while i < |refs|
      invariant 0 <= i <= |refs|
      invariant DistinctIds(refs[..i])
      invariant forall id, v :: (id in seen && seen[id] == v) <==> TypeRef(id, v) in refs[..i]
    {
      var r := refs[i];
      assert r in refs;
      if r.version < 1 {
        return None;
      }
      if r.id in seen {
        var j :| 0 <= j < |refs[..i]| && refs[..i][j] == TypeRef(r.id, seen[r.id]);
        assert refs[j].id == refs[i].id;
        return None;
      }
      assert forall j | 0 <= j < i :: refs[..i][j] in refs[..i] && refs[j].id in seen by {
        forall j | 0 <= j < i ensures refs[..i][j] in refs[..i] && refs[j].id in seen {
          assert TypeRef(refs[j].id, refs[j].version) in refs[..i];
        }
      }
      seen := seen[r.id := r.version];
      assert refs[..i + 1] == refs[..i] + [r];
      i := i + 1;
    }
    assert refs[..i] == refs;
    return Some(seen);
  }

  /** A partition is a duplicate-free part of the declared references, at the declared versions. */
  method ValidatePartition(refs: seq<TypeRef>, declared: map<Id, int>) returns (ok: bool)
    ensures ok <==> DistinctIds(refs) && forall r | r in refs :: r.id in declared && declared[r.id] == r.version
  {
    var own := CollectTypeRefs(refs);
    if own.None? {
      return false;
    }
    var i := 0;
    while i < |refs|
      invariant 0 <= i <= |refs|
      invariant forall j | 0 <= j < i :: refs[j].id in declared && declared[refs[j].id] == refs[j].version
    {
      if refs[i].id !in declared || declared[refs[i].id] != refs[i].version {
        assert refs[i] in refs;
        return false;
      }
      i := i + 1;
    }
    return true;
  }

  method ValidateTypeRefs(c: Content) returns (ok: bool)
    ensures ok <==> Partitioned(c)
  {
    var declared := CollectTypeRefs(c.typeRefs);
    if declared.None? {
      return false;
    }
    assert forall r: TypeRef :: (r.id in declared.value && declared.value[r.id] == r.version) <==> r in c.typeRefs by {
      forall r: TypeRef ensures (r.id in declared.value && declared.value[r.id] == r.version) <==> r in c.typeRefs {
        assert r == TypeRef(r.id, r.version);
      }
    }
    var inputs := ValidatePartition(c.inputs, declared.value);
    if !inputs {
      return false;
    }
    ok := ValidatePartition(c.outputs, declared.value);
  }

  // --- index keys of a version ---------------------------------------------------------

  function ConsumerKeys(refs: seq<TypeRef>): (keys: seq<Key>)
    ensures forall k :: k in keys <==> k.Consumers? && Names(refs, k.t)
  {
    var keys := seq(|refs|, i requires 0 <= i < |refs| => Consumers(refs[i].id));
    assert forall i | 0 <= i < |refs| :: keys[i] == Consumers(refs[i].id) && refs[i] in refs;
    keys
  }

  function ProducerKeys(refs: seq<TypeRef>): (keys: seq<Key>)
    ensures forall k :: k in keys <==> k.Producers? && Names(refs, k.t)
  {
    var keys := seq(|refs|, i requires 0 <= i < |refs| => Producers(refs[i].id));
    assert forall i | 0 <= i < |refs| :: keys[i] == Producers(refs[i].id) && refs[i] in refs;
    keys
  }

  function AlignedKeys(uris: seq<Uri>): (keys: seq<Key>)
    ensures forall k :: k in keys <==> k.Aligned? && k.uri in uris
  {
    var keys := seq(|uris|, i requires 0 <= i < |uris| => Aligned(uris[i]));
    assert forall i | 0 <= i < |uris| :: keys[i] == Aligned(uris[i]) && uris[i] in uris;
    keys
  }

  /** The diff of one membership: added if it is new, dropped if it is gone. */
  function Diffed<T(==)>(s: seq<T>, x: T, before: bool, after: bool): seq<T> {
    if after && !before then Added(s, x) else if before && !after then Dropped(s, x) else s
  }

  // --- storing a version -----------------------------------------------------------------

  function SlotFor(env: Env, a: Artifact): Slot {
    if env.oversized(a) then Pointer((a.id, a.version)) else Inline(a)
  }

  function BlobsWith(env: Env, blobs: map<VersionKey, Artifact>, a: Artifact): map<VersionKey, Artifact> {
    if env.oversized(a) then blobs[(a.id, a.version) := a] else blobs
  }

  function WithArtifact(env: Env, packages: Packages, a: Artifact, meta: PackageMeta): Packages {
    Packages(packages.meta[a.id := meta], packages.slots[(a.id, a.version) := SlotFor(env, a)],
      BlobsWith(env, packages.blobs, a))
  }

  /** What is put is read back, through a blob or not, and no other version reads differently. */
  lemma {:induction false} PutThenGet(env: Env, packages: Packages, a: Artifact, meta: PackageMeta, id: Id, n: nat)
    requires PointersOwn(packages.slots)
    ensures var packages' := WithArtifact(env, packages, a, meta);
            && PointersOwn(packages'.slots)
            && packages'.Resolve(id, n) == (if (id, n) == (a.id, a.version) then Found(a) else packages.Resolve(id, n))
  {
  }

  /** The next version of a package: everything published so far still reads, and the new one is the latest. */
  lemma {:induction false} NextVersionSound(env: Env, packages: Packages, a: Artifact, meta: PackageMeta)
    requires PackagesSound(packages)
    requires meta.latest == a.version == (if a.id in packages.meta then packages.meta[a.id].latest else 0) + 1
    requires BaseOf(a.base, a.version) && Partitioned(a.content)
    ensures var packages' := WithArtifact(env, packages, a, meta);
            && PackagesSound(packages')
            && forall x {:trigger packages'.Latest(x)} ::
                 packages'.Latest(x) == if x == a.id then Some(Package(meta, a)) else packages.Latest(x)
  {
    var packages' := WithArtifact(env, packages, a, meta);
    forall id, n: nat | id in packages'.meta && 1 <= n <= packages'.meta[id].latest
      ensures VersionSound(packages', id, n)
    {
      PutThenGet(env, packages, a, meta, id, n);
      if (id, n) != (a.id, a.version) { assert VersionSound(packages, id, n); }
    }
    forall x ensures packages'.Latest(x) == if x == a.id then Some(Package(meta, a)) else packages.Latest(x) {
      if x in packages'.meta { PutThenGet(env, packages, a, meta, x, packages'.meta[x].latest); }
    }
    PutThenGet(env, packages, a, meta, a.id, a.version);
  }

  // --- counters ------------------------------------------------------------------------------

  /** Metadata that keeps its lineage and its counters, or a first version with none, keeps every count. */
  lemma {:induction false} StillCounted(packages: map<Id, PackageMeta>, stars: set<(Id, string)>, id: Id,
                                        meta: PackageMeta)
    requires Counted(packages, stars)
    requires if id in packages
             then meta.forkedFrom == packages[id].forkedFrom && meta.stars == packages[id].stars
               && meta.forkCount == packages[id].forkCount
             else meta.forkedFrom.None? && meta.stars == 0 && meta.forkCount == 0
    ensures Counted(packages[id := meta], stars)
  {
    var packages' := packages[id := meta];
    forall x ensures ForksOf(packages', x) == ForksOf(packages, x) {
    }
  }

  lemma {:induction false} StarCounted(packages: map<Id, PackageMeta>, stars: set<(Id, string)>, id: Id, user: string)
    requires Counted(packages, stars) && id in packages && (id, user) !in stars
    ensures Counted(packages[id := packages[id].(stars := packages[id].stars + 1)], stars + {(id, user)})
  {
    var s := (id, user);
    var packages' := packages[id := packages[id].(stars := packages[id].stars + 1)];
    forall x ensures ForksOf(packages', x) == ForksOf(packages, x) {
    }
    forall x | x != id ensures StarsOf(stars + {s}, x) == StarsOf(stars, x) {
    }
    assert StarsOf(stars + {s}, id) == StarsOf(stars, id) + {s};
  }

  lemma {:induction false} StarUncounted(packages: map<Id, PackageMeta>, stars: set<(Id, string)>, id: Id, user: string)
    requires Counted(packages, stars) && id in packages && (id, user) in stars
    ensures packages[id].stars > 0
    ensures Counted(packages[id := packages[id].(stars := packages[id].stars - 1)], stars - {(id, user)})
  {
    var s := (id, user);
    assert s in StarsOf(stars, id);
    var packages' := packages[id := packages[id].(stars := packages[id].stars - 1)];
    forall x ensures ForksOf(packages', x) == ForksOf(packages, x) {
    }
    forall x | x != id ensures StarsOf(stars - {s}, x) == StarsOf(stars, x) {
    }
    assert StarsOf(stars - {s}, id) == StarsOf(stars, id) - {s};
  }

  lemma {:induction false} ForksGrow(packages: map<Id, PackageMeta>, id: Id, meta: PackageMeta, up: Id,
                                     upMeta: PackageMeta, x: Id)
    requires id !in packages && up in packages && meta.forkedFrom.Some? && meta.forkedFrom.value.0 == up
    requires upMeta.forkedFrom == packages[up].forkedFrom
    ensures id !in ForksOf(packages, x)
    ensures ForksOf(packages[id := meta][up := upMeta], x) == if x == up then ForksOf(packages, x) + {id}
        else ForksOf(packages, x)
  {
  }

  /** A fork is one more fork of its upstream. */
  lemma {:induction false} ForkCounted(packages: map<Id, PackageMeta>, stars: set<(Id, string)>, id: Id,
                                       meta: PackageMeta, up: Id, upMeta: PackageMeta)
    requires Counted(packages, stars) && id !in packages && up in packages
    requires meta.forkedFrom.Some? && meta.forkedFrom.value.0 == up && meta.stars == 0 && meta.forkCount == 0
    requires upMeta.forkedFrom == packages[up].forkedFrom && upMeta.stars == packages[up].stars
        && upMeta.forkCount == packages[up].forkCount + 1
    ensures Counted(packages[id := meta][up := upMeta], stars)
  {
    var packages' := packages[id := meta][up := upMeta];
    forall x ensures |ForksOf(packages', x)| == if x in packages' then packages'[x].forkCount else 0 {
      ForksGrow(packages, id, meta, up, upMeta, x);
    }
  }

  lemma {:induction false} MovesKeepNoDup(was: Index, now: Index, id: Id)
    requires NoDupListings(was)
    requires forall k ::
      || Listing(now, k) == Listing(was, k)
      || Listing(now, k) == Added(Listing(was, k), id)
      || Listing(now, k) == Dropped(Listing(was, k), id)
    ensures NoDupListings(now)
  {
    forall k ensures NoDup(Listing(now, k)) {
      AdjustedMeaning(Listing(was, k), id, true);
      AdjustedMeaning(Listing(was, k), id, false);
    }
  }

  lemma {:induction false} DroppedTwice<T>(s: seq<T>, x: T)
    requires NoDup(s)
    ensures Dropped(Dropped(s, x), x) == Dropped(s, x)
  {
    AdjustedMeaning(s, x, false);
  }

  lemma {:induction false} ListingDroppedTwice(index: Index, k: Key, id: Id)
    requires NoDupListings(index)
    ensures Dropped(Dropped(Listing(index, k), id), id) == Dropped(Listing(index, k), id)
  {
    DroppedTwice(Listing(index, k), id);
  }

  /** The package, user and category listings; an old category means the package existed. */
  function IdentityStep(s: seq<Id>, k: Key, id: Id, oldCategory: Option<string>, category: string): seq<Id> {
    match k
    case AllPackages => if oldCategory.None? then Added(s, id) else s
    case UserPackages(a) => if oldCategory.None? && a == id.author then Added(s, id) else s
    case Category(c) => if c == category then Added(s, id) else if oldCategory == Some(c) then Dropped(s, id) else s
    case _ => s
  }

  /** What the index writes of a publish do to one listing. */
  function PackageStep(s: seq<Id>, k: Key, id: Id, was: Option<Package>, now: Package): seq<Id> {
    match k
    case Producers(t) =>
      Diffed(s, id, was.Some? && Names(was.value.latest.content.outputs, t), Names(now.latest.content.outputs, t))
    case Consumers(t) =>
      Diffed(s, id, was.Some? && Names(was.value.latest.content.inputs, t), Names(now.latest.content.inputs, t))
    case _ => IdentityStep(s, k, id, if was.Some? then Some(was.value.meta.category) else None, now.meta.category)
  }

  /** The consumer and producer listings move exactly where the signature changed. */
  function SignatureStep(s: seq<Id>, k: Key, id: Id, priorInputs: seq<TypeRef>, priorOutputs: seq<TypeRef>,
                         nextInputs: seq<TypeRef>, nextOutputs: seq<TypeRef>): seq<Id> {
    match k
    case Consumers(t) => Diffed(s, id, Names(priorInputs, t), Names(nextInputs, t))
    case Producers(t) => Diffed(s, id, Names(priorOutputs, t), Names(nextOutputs, t))
    case _ => s
  }

  function InputsOf(p: Option<Package>): seq<TypeRef> {
    if p.Some? then p.value.latest.content.inputs else []
  }

  function OutputsOf(p: Option<Package>): seq<TypeRef> {
    if p.Some? then p.value.latest.content.outputs else []
  }

  function CategoryOf(p: Option<Package>): Option<string> {
    if p.Some? then Some(p.value.meta.category) else None
  }

  lemma {:induction false} IdentityKeepsNoDup(was: Index, now: Index, id: Id, oldCategory: Option<string>,
                                              category: string)
    requires NoDupListings(was)
    requires forall k :: Listing(now, k) == IdentityStep(Listing(was, k), k, id, oldCategory, category)
    ensures NoDupListings(now)
  {
    MovesKeepNoDup(was, now, id);
  }

  /** The identity listings first, then the signature listings: together, what a publish does to each. */
  lemma {:induction false} StepsCompose(was: Index, middle: Index, now: Index, categories: seq<string>, id: Id,
                                        prior: Option<Package>, p: Package)
    requires forall k :: Listing(middle, k) == IdentityStep(Listing(was, k), k, id, CategoryOf(prior), p.meta.category)
    requires forall k ::
      Listing(now, k) == SignatureStep(Listing(middle, k), k, id, InputsOf(prior), OutputsOf(prior),
                                       p.latest.content.inputs, p.latest.content.outputs)
    requires CategoriesAgree(middle, categories)
    ensures forall k :: Listing(now, k) == PackageStep(Listing(was, k), k, id, prior, p)
    ensures CategoriesAgree(now, categories)
  {
    forall k ensures Listing(now, k) == PackageStep(Listing(was, k), k, id, prior, p) {
      assert Listing(middle, k) == IdentityStep(Listing(was, k), k, id, CategoryOf(prior), p.meta.category);
    }
    assert forall c :: Listing(now, Category(c)) == Listing(middle, Category(c));
  }

  /** On a listing that agrees with its scan, those writes leave the id in exactly when the new version wants it. */
  lemma {:induction false} PackageStepAdjusts(packages: Packages, types: Types, was: Index, k: Key, id: Id, p: Package)
    requires Scan(packages, types, k, id) <==> id in Listing(was, k)
    ensures PackageStep(Listing(was, k), k, id, packages.Latest(id), p) ==
      (if IsTypeKey(k) then Listing(was, k) else Adjusted(Listing(was, k), id, PackageIn(k, id, p)))
  {
  }

  lemma {:induction false} PackageStepIsReindex(packages: Packages, types: Types, was: Index, now: Index, id: Id,
                                                p: Package)
    requires Indexed(packages, types, was)
    requires forall k :: Listing(now, k) == PackageStep(Listing(was, k), k, id, packages.Latest(id), p)
    ensures PackageReindexed(was, now, id, p)
  {
    forall k ensures Listing(now, k) ==
      (if IsTypeKey(k) then Listing(was, k) else Adjusted(Listing(was, k), id, PackageIn(k, id, p)))
    {
      assert Scan(packages, types, k, id) <==> id in Listing(was, k);
      PackageStepAdjusts(packages, types, was, k, id, p);
    }
  }

  /** The whole effect of storing a version: sound again, and indexed again. */
  lemma {:induction false} PackageStored(env: Env, packages: Packages, types: Types, was: Index, now: Index,
                                         a: Artifact, meta: PackageMeta)
    requires PackagesSound(packages) && Indexed(packages, types, was)
    requires meta.latest == a.version == (if a.id in packages.meta then packages.meta[a.id].latest else 0) + 1
    requires BaseOf(a.base, a.version) && Partitioned(a.content)
    requires forall k ::
      Listing(now, k) == PackageStep(Listing(was, k), k, a.id, packages.Latest(a.id), Package(meta, a))
    ensures PackagesSound(WithArtifact(env, packages, a, meta))
    ensures Indexed(WithArtifact(env, packages, a, meta), types, now)
    ensures PackageReindexed(was, now, a.id, Package(meta, a))
  {
    NextVersionSound(env, packages, a, meta);
    PackageStepIsReindex(packages, types, was, now, a.id, Package(meta, a));
    PackageReindexedAgrees(packages, types, was, WithArtifact(env, packages, a, meta), now, a.id, Package(meta, a));
  }

  /** What the index writes of a type publish do to one listing. */
  function TypeStep(s: seq<Id>, k: Key, id: Id, was: Option<TypeVersion>, now: TypeVersion): seq<Id> {
    match k
    case AllTypes => if was.None? then Added(s, id) else s
    case UserTypes(a) => if was.None? && a == id.author then Added(s, id) else s
    case Aligned(u) => Diffed(s, id, was.Some? && u in was.value.alignments, u in now.alignments)
    case Extends(parent) =>
      if now.parent == Some(parent) then Added(s, id)
      else if was.Some? && was.value.parent == Some(parent) then Dropped(s, id)
      else s
    case _ => s
  }

  lemma {:induction false} TypeStored(sha: string -> string, packages: Packages, types: Types, was: Index,
                                      now: Index, tv: TypeVersion, meta: TypeMeta)
    requires TypesSound(types) && Hashed(sha, types) && Indexed(packages, types, was)
    requires meta.latest == tv.version == (if tv.id in types.meta then types.meta[tv.id].latest else 0) + 1
    requires BaseOf(tv.base, tv.version)
    requires types.Latest(tv.id).Some? ==> sha(types.Latest(tv.id).value.source) != sha(tv.source)
    requires forall k :: Listing(now, k) == TypeStep(Listing(was, k), k, tv.id, types.Latest(tv.id), tv)
    ensures TypesSound(WithVersion(sha, types, tv, meta)) && Hashed(sha, WithVersion(sha, types, tv, meta))
    ensures Indexed(packages, WithVersion(sha, types, tv, meta), now)
    ensures TypeReindexed(was, now, tv.id, tv)
  {
    NextTypeSound(sha, types, tv, meta);
    NextTypeHashed(sha, types, tv, meta);
    forall k ensures Listing(now, k) ==
      (if IsTypeKey(k) then Adjusted(Listing(was, k), tv.id, TypeIn(k, tv.id, tv)) else Listing(was, k))
    {
      assert Scan(packages, types, k, tv.id) <==> tv.id in Listing(was, k);
    }
    TypeReindexedAgrees(packages, types, was, WithVersion(sha, types, tv, meta), now, tv.id, tv);
  }

  /** Package listings that stay leave the category list right. */
  lemma {:induction false} CategoriesStay(was: Index, now: Index, categories: seq<string>)
    requires CategoriesAgree(was, categories)
    requires forall c {:trigger Category(c)} :: Listing(now, Category(c)) == Listing(was, Category(c))
    ensures CategoriesAgree(now, categories)
  {
  }

  function ForkArtifact(login: string, slug: string, up: Artifact, now: int): Artifact {
    Artifact(Id(login, slug), 1, up.content, None, now, login)
  }

  function ForkMeta(login: string, upstream: Id, up: PackageMeta, now: int): PackageMeta {
    PackageMeta(up.description, up.category, up.tags, Some((upstream, up.latest)), now, 1, 0, 0, 0, login)
  }

  /** One more fork, which also counts as a download. */
  function Bumped(up: PackageMeta): PackageMeta {
    up.(forkCount := up.forkCount + 1, downloads := up.downloads + 1)
  }

  /** The references name `t`, at exactly this version if one is asked for. */
  predicate Pins(refs: seq<TypeRef>, t: Id, version: Option<int>) {
    exists r :: r in refs && r.id == t && (version.None? || r.version == version.value)
  }

  lemma {:induction false} PinsIsMember(refs: seq<TypeRef>, t: Id, version: Option<int>)
    ensures Pins(refs, t, version) <==> if version.None? then Names(refs, t) else TypeRef(t, version.value) in refs
  {
    if version.Some? {
      assert forall r: TypeRef :: r.id == t && r.version == version.value ==> r == TypeRef(t, version.value);
    }
  }

  /** A valid recipe answers to at most one version of a type, so two version filters never list it twice. */
  lemma {:induction false} OneVersionEach(c: Content, t: Id, v: int, w: int)
    requires Partitioned(c) && Pins(c.outputs, t, Some(v)) && Pins(c.outputs, t, Some(w))
    ensures v == w
  {
    PinsIsMember(c.outputs, t, Some(v));
    PinsIsMember(c.outputs, t, Some(w));
  }

  /** Nothing disappears and no latest version goes down. */
  ghost predicate PackagesAdvance(was: map<Id, PackageMeta>, now: map<Id, PackageMeta>) {
    forall id | id in was :: id in now && now[id].latest >= was[id].latest
  }

  ghost predicate TypesAdvance(was: map<Id, TypeMeta>, now: map<Id, TypeMeta>) {
    forall id | id in was :: id in now && now[id].latest >= was[id].latest
  }

  // --- what a request writes -----------------------------------------------------------------

  function NextArtifact(id: Id, was: Option<PackageMeta>, p: Payload, caller: Caller, now: int): Artifact {
    Artifact(id, if was.Some? then was.value.latest + 1 else 1, p.content, p.base, now, LoginOf(caller))
  }

  /** Lineage, counters, creation time and owner stay; the rest is the payload's. */
  function NextMeta(was: Option<PackageMeta>, p: Payload, caller: Caller, now: int): PackageMeta {
    match was
    case None => PackageMeta(p.description, p.category, p.tags, None, now, 1, 0, 0, 0, LoginOf(caller))
    case Some(m) => m.(description := p.description, category := p.category, tags := p.tags, latest := m.latest + 1)
  }

  function NextTypeVersion(id: Id, was: Option<TypeMeta>, p: TypePayload, caller: Caller, now: int): TypeVersion {
    var version := if was.Some? then was.value.latest + 1 else 1;
    TypeVersion(id, version, p.source, p.alignments, p.fieldAlignments, p.parent, p.base, now, LoginOf(caller))
  }

  function NextTypeMeta(was: Option<TypeMeta>, p: TypePayload, caller: Caller, now: int): TypeMeta {
    match was
    case None => TypeMeta(p.description, p.category, p.tags, now, 1, LoginOf(caller))
    case Some(m) => m.(description := p.description, category := p.category, tags := p.tags, latest := m.latest + 1)
  }

  // --- what a publish amounts to ---------------------------------------------------------------

  /** The account a write is recorded under. */
  ghost predicate SignedBy(caller: Caller, name: string) {
    if caller.User? then name == caller.login else name == "admin"
  }

  /** The caller may write what `owner` owns and `latest` is the latest version of, on this base. */
  ghost predicate MayReplace(caller: Caller, owner: string, latest: nat, base: Option<nat>) {
    (caller == Admin || (caller == User(owner) && owner != "admin")) && base == Some(latest)
  }

  ghost predicate MayPublish(env: Env, caller: Caller, id: Id, p: Payload, packages: map<Id, PackageMeta>) {
    && caller != Anonymous && (caller.User? ==> caller.login == id.author)
    && env.shape(p) == Some(id.name) && Partitioned(p.content)
    && if id in packages then MayReplace(caller, packages[id].owner, packages[id].latest, p.base) else p.base == None
  }

  ghost predicate MayPublishType(env: Env, caller: Caller, id: Id, p: TypePayload, types: map<Id, TypeMeta>) {
    && caller != Anonymous && (caller.User? ==> caller.login == id.author)
    && env.typeNameOk(id.name) && env.typeShape(p) == Some(id.name)
    && if id in types then MayReplace(caller, types[id].owner, types[id].latest, p.base) else p.base == None
  }

  ghost predicate MayFork(env: Env, caller: Caller, upstream: Id, slug: string, packages: map<Id, PackageMeta>) {
    && caller.User? && upstream in packages && env.segmentOk(slug)
    && !(caller.login == upstream.author && slug == upstream.name) && Id(caller.login, slug) !in packages
  }

  lemma {:induction false} PublishRefusedUnless(env: Env, caller: Caller, id: Id, p: Payload,
                                                packages: map<Id, PackageMeta>)
    ensures PublishRefusal(env, caller, id, p, packages).None? <==> MayPublish(env, caller, id, p, packages)
    ensures var refusal := PublishRefusal(env, caller, id, p, packages);
      refusal.Some? ==> refusal.value.Failed? || refusal.value.Stale?
  {
  }

  lemma {:induction false} TypeRefusedUnless(env: Env, caller: Caller, id: Id, p: TypePayload, types: map<Id, TypeMeta>)
    ensures TypeRefusal(env, caller, id, p, types).None? <==> MayPublishType(env, caller, id, p, types)
    ensures var refusal := TypeRefusal(env, caller, id, p, types);
      refusal.Some? ==> refusal.value.Failed? || refusal.value.Stale?
  {
  }

  lemma {:induction false} ForkRefusedUnless(env: Env, caller: Caller, up: Id, slug: string,
                                             packages: map<Id, PackageMeta>)
    ensures ForkRefusal(env, caller, up, slug, packages).None? <==> MayFork(env, caller, up, slug, packages)
    ensures var refusal := ForkRefusal(env, caller, up, slug, packages); refusal.Some? ==> refusal.value.Failed?
  {
  }

  /** Every other package and version is as it was. */
  ghost predicate OthersKept(was: Packages, now: Packages, id: Id, n: nat) {
    && (forall x | x != id :: Lookup(now.meta, x) == Lookup(was.meta, x))
    && forall x, m: nat | (x, m) != (id, n) :: now.Resolve(x, m) == was.Resolve(x, m)
  }

  /** The package is in exactly these listings of recipes, and no other id came or went anywhere. */
  ghost predicate ListedBy(was: Index, now: Index, id: Id, category: string, inputs: seq<TypeRef>,
                           outputs: seq<TypeRef>) {
    && id in Listing(now, AllPackages) && id in Listing(now, UserPackages(id.author))
    && (forall c :: id in Listing(now, Category(c)) <==> c == category)
    && (forall t :: id in Listing(now, Producers(t)) <==> exists r :: r in outputs && r.id == t)
    && (forall t :: id in Listing(now, Consumers(t)) <==> exists r :: r in inputs && r.id == t)
    && forall k, x | x != id :: x in Listing(now, k) <==> x in Listing(was, k)
  }

  // Version `n` of the package carries the payload's content under the caller's name, its metadata is the payload's
  // with everything else kept, or begun for a first version, and the listings follow the payload.
  ghost predicate RecipePublished(was: Packages, now: Packages, before: Index, after: Index, caller: Caller, id: Id,
                                  p: Payload, time: int, n: nat) {
    && n == (if id in was.meta then was.meta[id].latest else 0) + 1
    && now.Resolve(id, n).Found? && id in now.meta
    && (var a := now.Resolve(id, n).artifact;
        && a.id == id && a.version == n && a.content == p.content && a.base == p.base
        && a.publishedAt == time && SignedBy(caller, a.publishedBy))
    && (var m := now.meta[id];
        && m.latest == n && m.description == p.description && m.category == p.category && m.tags == p.tags
        && if id in was.meta then
             var o := was.meta[id];
             && m.owner == o.owner && m.createdAt == o.createdAt && m.forkedFrom == o.forkedFrom
             && m.stars == o.stars && m.downloads == o.downloads && m.forkCount == o.forkCount
           else
             && SignedBy(caller, m.owner) && m.createdAt == time && m.forkedFrom.None?
             && m.stars == 0 && m.downloads == 0 && m.forkCount == 0)
    && OthersKept(was, now, id, n)
    && ListedBy(before, after, id, p.category, p.content.inputs, p.content.outputs)
  }

  lemma {:induction false} PackageMembers(before: Index, after: Index, id: Id, p: Package)
    requires NoDupListings(before) && PackageReindexed(before, after, id, p)
    ensures forall k, x :: x in Listing(after, k) <==>
      if x == id && !IsTypeKey(k) then PackageIn(k, id, p) else x in Listing(before, k)
  {
    hide PackageIn, Adjusted;
    forall k, x
      ensures x in Listing(after, k) <==>
        if x == id && !IsTypeKey(k) then PackageIn(k, id, p) else x in Listing(before, k)
    {
      AdjustedMeaning(Listing(before, k), id, PackageIn(k, id, p));
    }
  }

  lemma {:induction false} TypeMembers(before: Index, after: Index, id: Id, tv: TypeVersion)
    requires NoDupListings(before) && TypeReindexed(before, after, id, tv)
    ensures forall k, x :: x in Listing(after, k) <==>
      if x == id && IsTypeKey(k) then TypeIn(k, id, tv) else x in Listing(before, k)
  {
    hide TypeIn, Adjusted;
    forall k, x
      ensures x in Listing(after, k) <==>
        if x == id && IsTypeKey(k) then TypeIn(k, id, tv) else x in Listing(before, k)
    {
      AdjustedMeaning(Listing(before, k), id, TypeIn(k, id, tv));
    }
  }

  lemma {:induction false} ReindexedListing(before: Index, after: Index, id: Id, p: Package)
    requires NoDupListings(before) && PackageReindexed(before, after, id, p)
    ensures ListedBy(before, after, id, p.meta.category, p.latest.content.inputs, p.latest.content.outputs)
  {
    PackageMembers(before, after, id, p);
    hide NoDupListings, PackageReindexed, Listing;
    var c := p.latest.content;
    forall k | !IsTypeKey(k) ensures id in Listing(after, k) <==> PackageIn(k, id, p) {
    }
    assert PackageIn(AllPackages, id, p) && PackageIn(UserPackages(id.author), id, p);
    forall category ensures PackageIn(Category(category), id, p) <==> category == p.meta.category {
    }
    forall t ensures PackageIn(Producers(t), id, p) <==> exists r :: r in c.outputs && r.id == t {
    }
    forall t ensures PackageIn(Consumers(t), id, p) <==> exists r :: r in c.inputs && r.id == t {
    }
    hide Names, PackageIn;
  }

  lemma {:induction false} PublishAmounts(env: Env, was: Packages, now: Packages, before: Index, after: Index,
                                          caller: Caller, id: Id, p: Payload, time: int)
    requires PointersOwn(was.slots) && NoDupListings(before)
    requires var prior := Lookup(was.meta, id);
      var a, m := NextArtifact(id, prior, p, caller, time), NextMeta(prior, p, caller, time);
      now == WithArtifact(env, was, a, m) && PackageReindexed(before, after, id, Package(m, a))
    ensures var n := NextArtifact(id, Lookup(was.meta, id), p, caller, time).version;
      RecipePublished(was, now, before, after, caller, id, p, time, n)
  {
    var prior := Lookup(was.meta, id);
    var a, m := NextArtifact(id, prior, p, caller, time), NextMeta(prior, p, caller, time);
    forall x, n: nat ensures now.Resolve(x, n) == if (x, n) == (id, a.version) then Found(a) else was.Resolve(x, n) {
      PutThenGet(env, was, a, m, x, n);
    }
    ReindexedListing(before, after, id, Package(m, a));
  }

  // The same for a type: its version, its digest, its metadata, its listings.
  ghost predicate TypePublished(sha: string -> string, was: Types, now: Types, before: Index, after: Index,
                                caller: Caller, id: Id, p: TypePayload, time: int, n: nat) {
    && n == (if id in was.meta then was.meta[id].latest else 0) + 1
    && (id, n) in now.versions && id in now.meta
    && (var tv := now.versions[(id, n)];
        && tv.id == id && tv.version == n && tv.source == p.source && tv.alignments == p.alignments
        && tv.fieldAlignments == p.fieldAlignments && tv.parent == p.parent && tv.base == p.base
        && tv.publishedAt == time && SignedBy(caller, tv.publishedBy))
    && (var m := now.meta[id];
        && m.latest == n && m.description == p.description && m.category == p.category && m.tags == p.tags
        && if id in was.meta then m.owner == was.meta[id].owner && m.createdAt == was.meta[id].createdAt
           else SignedBy(caller, m.owner) && m.createdAt == time)
    && (forall x | x != id :: Lookup(now.meta, x) == Lookup(was.meta, x))
    && (forall k | k != (id, n) :: Lookup(now.versions, k) == Lookup(was.versions, k))
    && (forall h :: Lookup(now.hashes, h) == if h == (id, sha(p.source)) then Some(n) else Lookup(was.hashes, h))
    && TypeListedBy(before, after, id, p.alignments, p.parent)
  }

  ghost predicate TypeListedBy(was: Index, now: Index, id: Id, alignments: seq<Uri>, parent: Option<TypeRef>) {
    && id in Listing(now, AllTypes) && id in Listing(now, UserTypes(id.author))
    && (forall u :: id in Listing(now, Aligned(u)) <==> u in alignments)
    && (forall r :: id in Listing(now, Extends(r)) <==> parent == Some(r))
    && forall k, x | x != id :: x in Listing(now, k) <==> x in Listing(was, k)
  }

  lemma {:induction false} ReindexedTypeListing(before: Index, after: Index, id: Id, tv: TypeVersion)
    requires NoDupListings(before) && TypeReindexed(before, after, id, tv)
    ensures TypeListedBy(before, after, id, tv.alignments, tv.parent)
  {
    TypeMembers(before, after, id, tv);
    hide NoDupListings, TypeReindexed, Listing;
  }

  lemma {:induction false} TypeAmounts(env: Env, was: Types, now: Types, before: Index, after: Index, caller: Caller,
                                       id: Id, p: TypePayload, time: int)
    requires NoDupListings(before)
    requires var prior := Lookup(was.meta, id);
      var tv, m := NextTypeVersion(id, prior, p, caller, time), NextTypeMeta(prior, p, caller, time);
      now == WithVersion(env.sha, was, tv, m) && TypeReindexed(before, after, id, tv)
    ensures var n := NextTypeVersion(id, Lookup(was.meta, id), p, caller, time).version;
      TypePublished(env.sha, was, now, before, after, caller, id, p, time, n)
  {
    var tv := NextTypeVersion(id, Lookup(was.meta, id), p, caller, time);
    ReindexedTypeListing(before, after, id, tv);
    hide NoDupListings, TypeReindexed, TypeListedBy;
  }

  // A fork: version 1 of a new package with the content of the upstream's latest version, under the caller's name, its
  // lineage on record and nothing counted yet; and one more fork and download for the upstream.
  ghost predicate ForkMade(was: Packages, now: Packages, before: Index, after: Index, login: string, slug: string,
                           up: Id, time: int) {
    var id := Id(login, slug);
    && up in was.meta && id in now.meta && up in now.meta && was.Resolve(up, was.meta[up].latest).Found?
    && now.Resolve(id, 1).Found?
    && (var source, a := was.Resolve(up, was.meta[up].latest).artifact, now.Resolve(id, 1).artifact;
        && a.id == id && a.version == 1 && a.content == source.content && a.base == None
        && a.publishedAt == time && a.publishedBy == login
        && ListedBy(before, after, id, was.meta[up].category, source.content.inputs, source.content.outputs))
    && (var m, o := now.meta[id], was.meta[up];
        && m.description == o.description && m.category == o.category && m.tags == o.tags
        && m.forkedFrom == Some((up, o.latest)) && m.owner == login && m.createdAt == time && m.latest == 1
        && m.stars == 0 && m.downloads == 0 && m.forkCount == 0)
    && (var m, o := now.meta[up], was.meta[up];
        && m.forkCount == o.forkCount + 1 && m.downloads == o.downloads + 1
        && m.(forkCount := o.forkCount, downloads := o.downloads) == o)
    && (forall x | x != id && x != up :: Lookup(now.meta, x) == Lookup(was.meta, x))
    && forall x, m: nat | (x, m) != (id, 1) :: now.Resolve(x, m) == was.Resolve(x, m)
  }

  lemma {:induction false} ForkAmounts(env: Env, was: Packages, now: Packages, before: Index, after: Index,
                                       login: string, slug: string, up: Id, time: int)
    requires PointersOwn(was.slots) && NoDupListings(before) && was.Latest(up).Some?
    requires Id(login, slug) !in was.meta && Id(login, slug) != up
    requires var u := was.Latest(up).value;
      var a, m := ForkArtifact(login, slug, u.latest, time), ForkMeta(login, up, u.meta, time);
      && now.meta == was.meta[a.id := m][up := Bumped(u.meta)]
      && now.slots == was.slots[(a.id, 1) := SlotFor(env, a)] && now.blobs == BlobsWith(env, was.blobs, a)
      && PackageReindexed(before, after, a.id, Package(m, a))
    ensures ForkMade(was, now, before, after, login, slug, up, time)
  {
    var u := was.Latest(up).value;
    var a, m := ForkArtifact(login, slug, u.latest, time), ForkMeta(login, up, u.meta, time);
    var stored := WithArtifact(env, was, a, m);
    forall x, n: nat ensures now.Resolve(x, n) == if (x, n) == (a.id, 1) then Found(a) else was.Resolve(x, n) {
      PutThenGet(env, was, a, m, x, n);
      assert now.Resolve(x, n) == stored.Resolve(x, n);
    }
    ReindexedListing(before, after, a.id, Package(m, a));
  }

  // --- the registry ------------------------------------------------------------------------------

  class Registry {
    const env: Env
    var packages: map<Id, PackageMeta>
    var slots: map<VersionKey, Slot>
    var blobs: map<VersionKey, Artifact>
    var types: map<Id, TypeMeta>
    var typeVersions: map<VersionKey, TypeVersion>
    var hashes: HashIndex
    var index: Index
    var categories: seq<string>
    var stars: set<(Id, string)>

    function PackageStore(): Packages
      reads this
    {
      Packages(packages, slots, blobs)
    }

    function TypeStore(): Types
      reads this
    {
      Types(types, typeVersions, hashes)
    }

    /** Versions read back, digests name the greatest version, indexes equal scans, counters count. */
    ghost predicate Valid()
      reads this
    {
      Stored() && Counted(packages, stars)
    }

    ghost predicate Stored()
      reads this
    {
      && PackagesSound(PackageStore())
      && TypesSound(TypeStore())
      && Hashed(env.sha, TypeStore())
      && Indexed(PackageStore(), TypeStore(), index)
      && CategoriesAgree(index, categories)
    }

    constructor (env: Env)
      ensures Valid() && this.env == env && packages == map[] && types == map[]
    {
      this.env := env;
      packages, slots, blobs := map[], map[], map[];
      types, typeVersions, hashes := map[], map[], map[];
      index, categories, stars := map[], [], {};
    }

    // --- version artifacts ---

    method PutVersion(a: Artifact)
      modifies `slots, `blobs
      ensures slots == old(slots)[(a.id, a.version) := SlotFor(env, a)]
      ensures blobs == BlobsWith(env, old(blobs), a)
      ensures var key := (a.id, a.version);
        if env.oversized(a) then slots[key] == Pointer(key) && blobs == old(blobs)[key := a]
        else slots[key] == Inline(a) && blobs == old(blobs)
    {
      if !env.oversized(a) {
        slots := slots[(a.id, a.version) := Inline(a)];
        return;
      }
      blobs := blobs[(a.id, a.version) := a];
      slots := slots[(a.id, a.version) := Pointer((a.id, a.version))];
    }

    function GetVersion(id: Id, n: nat): Read
      reads this
    {
      PackageStore().Resolve(id, n)
    }

    // --- index slots ---

    method AppendToIndex(k: Key, id: Id)
      modifies `index
      ensures Listing(index, k) == Added(Listing(old(index), k), id)
      ensures Listing(index, k) == if id in Listing(old(index), k) then Listing(old(index), k)
                                   else Listing(old(index), k) + [id]
      ensures forall j | j != k :: Listing(index, j) == Listing(old(index), j)
    {
      var current := Listing(index, k);
      if id in current {
        return;
      }
      index := index[k := current + [id]];
    }

    method RemoveFromIndex(k: Key, id: Id)
      modifies `index
      ensures Listing(index, k) == Dropped(Listing(old(index), k), id)
      ensures var was := Listing(old(index), k);
        if id !in was then Listing(index, k) == was
        else exists i :: 0 <= i < |was| && was[i] == id && Listing(index, k) == was[..i] + was[i + 1..]
      ensures forall j | j != k :: Listing(index, j) == Listing(old(index), j)
    {
      var current := Listing(index, k);
      if id !in current {
        return;
      }
      var i := FirstAt(current, id);
      index := index[k := current[..i] + current[i + 1..]];
    }

    method IndexAddCategory(category: string, id: Id)
      requires CategoriesAgree(index, categories)
      modifies `index, `categories
      ensures Listing(index, Category(category)) == Added(Listing(old(index), Category(category)), id)
      ensures forall j | j != Category(category) :: Listing(index, j) == Listing(old(index), j)
      ensures CategoriesAgree(index, categories)
    {
      AppendToIndex(Category(category), id);
      if category !in categories {
        categories := categories + [category];
      }
    }

    method IndexRemoveCategory(category: string, id: Id)
      requires CategoriesAgree(index, categories)
      modifies `index, `categories
      ensures Listing(index, Category(category)) == Dropped(Listing(old(index), Category(category)), id)
      ensures forall j | j != Category(category) :: Listing(index, j) == Listing(old(index), j)
      ensures CategoriesAgree(index, categories)
    {
      RemoveFromIndex(Category(category), id);
      AdjustedMeaning(categories, category, false);
      if Listing(index, Category(category)) == [] && category in categories {
        var i := FirstAt(categories, category);
        categories := categories[..i] + categories[i + 1..];
      }
    }

    /** First half of a diff: the keys that only the new version has. */
    method AddNew(id: Id, next: seq<Key>, prior: seq<Key>)
      modifies `index
      ensures forall k ::
        Listing(index, k)
          == (if k in next && k !in prior then Added(Listing(old(index), k), id) else Listing(old(index), k))
    {
      var i := 0;
      while i < |next|
        invariant 0 <= i <= |next|
        invariant forall k ::
          Listing(index, k)
            == (if k in next[..i] && k !in prior then Added(Listing(old(index), k), id) else Listing(old(index), k))
      {
        assert next[..i + 1] == next[..i] + [next[i]];
        if next[i] !in prior {
          AppendToIndex(next[i], id);
        }
        i := i + 1;
      }
      assert next[..i] == next;
    }

    /** Second half: the keys that only the prior version had, each of which lists the id at most once. */
    method DropGone(id: Id, prior: seq<Key>, next: seq<Key>)
      requires NoDupListings(index)
      modifies `index
      ensures forall k ::
        Listing(index, k)
          == (if k in prior && k !in next then Dropped(Listing(old(index), k), id) else Listing(old(index), k))
    {
      hide NoDupListings, Dropped, Listing;
      var i := 0;
      while i < |prior|
        invariant 0 <= i <= |prior|
        invariant forall k ::
          Listing(index, k)
            == (if k in prior[..i] && k !in next then Dropped(Listing(old(index), k), id) else Listing(old(index), k))
      {
        assert prior[..i + 1] == prior[..i] + [prior[i]];
        if prior[i] !in next {
          ListingDroppedTwice(old(index), prior[i], id);
          RemoveFromIndex(prior[i], id);
        }
        i := i + 1;
      }
      assert prior[..i] == prior;
    }

    method DiffProducerConsumerIndexes(id: Id, priorInputs: seq<TypeRef>, priorOutputs: seq<TypeRef>,
                                       nextInputs: seq<TypeRef>, nextOutputs: seq<TypeRef>)
      requires NoDupListings(index)
      modifies `index
      ensures forall k ::
        Listing(index, k)
        == SignatureStep(Listing(old(index), k), k, id, priorInputs, priorOutputs, nextInputs, nextOutputs)
    {
      AddNew(id, ConsumerKeys(nextInputs), ConsumerKeys(priorInputs));
      MovesKeepNoDup(old(index), index, id);
      DropGone(id, ConsumerKeys(priorInputs), ConsumerKeys(nextInputs));
      AddNew(id, ProducerKeys(nextOutputs), ProducerKeys(priorOutputs));
      MovesKeepNoDup(old(index), index, id);
      DropGone(id, ProducerKeys(priorOutputs), ProducerKeys(nextOutputs));
    }

    method DiffAlignmentIndex(id: Id, prior: seq<Uri>, next: seq<Uri>)
      requires NoDupListings(index)
      modifies `index
      ensures forall k ::
        Listing(index, k) == (if k.Aligned? then Diffed(Listing(old(index), k), id, k.uri in prior, k.uri in next)
                              else Listing(old(index), k))
    {
      AddNew(id, AlignedKeys(next), AlignedKeys(prior));
      MovesKeepNoDup(old(index), index, id);
      DropGone(id, AlignedKeys(prior), AlignedKeys(next));
    }

    // --- package publish ---

    /** The listings of all packages and of the author's. */
    method IndexNewPackage(id: Id)
      modifies `index
      ensures forall k ::
        Listing(index, k) == (if k == AllPackages || k == UserPackages(id.author) then Added(Listing(old(index), k), id)
                              else Listing(old(index), k))
    {
      AppendToIndex(AllPackages, id);
      AppendToIndex(UserPackages(id.author), id);
    }

    method ReindexCategory(id: Id, oldCategory: Option<string>, category: string)
      requires CategoriesAgree(index, categories)
      modifies `index, `categories
      ensures forall k ::
        Listing(index, k) == (if k == Category(category) then Added(Listing(old(index), k), id)
                              else if k.Category? && oldCategory == Some(k.category)
                              then Dropped(Listing(old(index), k), id)
                              else Listing(old(index), k))
      ensures CategoriesAgree(index, categories)
    {
      IndexAddCategory(category, id);
      if oldCategory.Some? && oldCategory.value != category {
        IndexRemoveCategory(oldCategory.value, id);
      }
    }

    /** The package, user and category listings of a publish. */
    method ReindexIdentity(id: Id, oldCategory: Option<string>, category: string)
      requires CategoriesAgree(index, categories)
      modifies `index, `categories
      ensures forall k :: Listing(index, k) == IdentityStep(Listing(old(index), k), k, id, oldCategory, category)
      ensures CategoriesAgree(index, categories)
    {
      hide Added, Dropped, CategoriesAgree, Listing;
      if oldCategory.None? {
        IndexNewPackage(id);
        CategoriesStay(old(index), index, categories);
      }
      ReindexCategory(id, oldCategory, category);
    }

    /** The index writes of a publish. */
    method ReindexPackage(id: Id, was: Option<Package>, now: Package)
      requires NoDupListings(index) && CategoriesAgree(index, categories)
      modifies `index, `categories
      ensures forall k :: Listing(index, k) == PackageStep(Listing(old(index), k), k, id, was, now)
      ensures CategoriesAgree(index, categories)
    {
      hide IdentityStep, SignatureStep, PackageStep, CategoriesAgree, NoDupListings;
      ReindexIdentity(id, CategoryOf(was), now.meta.category);
      ghost var middle := index;
      IdentityKeepsNoDup(old(index), middle, id, CategoryOf(was), now.meta.category);
      DiffProducerConsumerIndexes(id, InputsOf(was), OutputsOf(was), now.latest.content.inputs,
                                  now.latest.content.outputs);
      StepsCompose(old(index), middle, index, categories, id, was, now);
    }

    method PublishVersion(caller: Caller, id: Id, p: Payload, now: int) returns (r: Response)
      requires Valid()
      modifies this
      ensures Valid()
      ensures PackagesAdvance(old(packages), packages) && TypesAdvance(old(types), types)
      ensures PublishRefusal(env, caller, id, p, old(packages)).Some? ==>
        r == PublishRefusal(env, caller, id, p, old(packages)).value && unchanged(this)
      ensures PublishRefusal(env, caller, id, p, old(packages)).None? ==>
        var was := Lookup(old(packages), id);
        var a, meta := NextArtifact(id, was, p, caller, now), NextMeta(was, p, caller, now);
        && r == Published(a.version)
        && PackageStore() == WithArtifact(env, old(PackageStore()), a, meta)
        && PackageReindexed(old(index), index, id, Package(meta, a))
        && unchanged(`types, `typeVersions, `hashes, `stars)
      ensures r.Published? <==> MayPublish(env, caller, id, p, old(packages))
      ensures r.Published? ==>
        RecipePublished(old(PackageStore()), PackageStore(), old(index), index, caller, id, p, now, r.version)
    {
      hide TypesSound, Hashed, CategoriesAgree, Counted, PackageReindexed, MayPublish, RecipePublished;
      PublishRefusedUnless(env, caller, id, p, packages);
      if caller.Anonymous? {
        return Failed(401, "unauthorized");
      }
      if caller.User? && caller.login != id.author {
        return Failed(403, "forbidden");
      }
      var refsOk := ValidateTypeRefs(p.content);
      var name := env.shape(p);
      if name.None? || !refsOk {
        return Failed(400, "invalid");
      }
      if name.value != id.name {
        return Failed(400, "slug_mismatch");
      }
      var existing := Lookup(packages, id);
      if existing.None? {
        if p.base.Some? {
          return Stale(0);
        }
      } else {
        if !CallerCanWrite(caller, existing.value.owner) {
          return Failed(403, "forbidden");
        }
        if p.base != Some(existing.value.latest) {
          return Stale(existing.value.latest);
        }
      }
      var a, meta := NextArtifact(id, existing, p, caller, now), NextMeta(existing, p, caller, now);
      StillCounted(packages, stars, id, meta);
      StorePackage(a, meta);
      PublishAmounts(env, old(PackageStore()), PackageStore(), old(index), index, caller, id, p, now);
      return Published(a.version);
    }

    /** The writes of an accepted publish: artifact, metadata, indexes. */
    method StorePackage(a: Artifact, meta: PackageMeta)
      requires Stored()
      requires meta.latest == a.version == (if a.id in packages then packages[a.id].latest else 0) + 1
      requires BaseOf(a.base, a.version) && Partitioned(a.content)
      modifies this
      ensures Stored()
      ensures PackageStore() == WithArtifact(env, old(PackageStore()), a, meta)
      ensures PackageReindexed(old(index), index, a.id, Package(meta, a))
      ensures unchanged(`types, `typeVersions, `hashes, `stars)
    {
      // The prior metadata and latest artifact, read before they are overwritten.
      var prior := PackageStore().Latest(a.id);
      PutVersion(a);
      packages := packages[a.id := meta];
      ReindexPackage(a.id, prior, Package(meta, a));
      PackageStored(env, old(PackageStore()), TypeStore(), old(index), index, a, meta);
    }

    // --- type publish ---

    method IndexNewType(id: Id)
      modifies `index
      ensures forall k ::
        Listing(index, k) == (if k == AllTypes || k == UserTypes(id.author) then Added(Listing(old(index), k), id)
                              else Listing(old(index), k))
    {
      AppendToIndex(AllTypes, id);
      AppendToIndex(UserTypes(id.author), id);
    }

    /** Moves a child from its old parent pin to its new one. */
    method ReindexParent(id: Id, was: Option<TypeRef>, now: Option<TypeRef>)
      modifies `index
      ensures forall k ::
        Listing(index, k) == (if k.Extends? && now == Some(k.parent) then Added(Listing(old(index), k), id)
                              else if k.Extends? && was == Some(k.parent) then Dropped(Listing(old(index), k), id)
                              else Listing(old(index), k))
    {
      if was.Some? && (now.None? || was.value != now.value) {
        RemoveFromIndex(Extends(was.value), id);
      }
      if now.Some? {
        AppendToIndex(Extends(now.value), id);
      }
    }

    method ReindexType(id: Id, was: Option<TypeVersion>, now: TypeVersion)
      requires NoDupListings(index)
      modifies `index
      ensures forall k :: Listing(index, k) == TypeStep(Listing(old(index), k), k, id, was, now)
    {
      if was.None? {
        IndexNewType(id);
      }
      MovesKeepNoDup(old(index), index, id);
      DiffAlignmentIndex(id, if was.Some? then was.value.alignments else [], now.alignments);
      ReindexParent(id, if was.Some? then was.value.parent else None, now.parent);
    }

    method PublishTypeVersion(caller: Caller, id: Id, p: TypePayload, now: int) returns (r: Response)
      requires Valid()
      modifies this
      ensures Valid()
      ensures PackagesAdvance(old(packages), packages) && TypesAdvance(old(types), types)
      ensures TypeRefusal(env, caller, id, p, old(types)).Some? ==>
        r == TypeRefusal(env, caller, id, p, old(types)).value && unchanged(this)
      ensures TypeRefusal(env, caller, id, p, old(types)).None? ==>
        var was, latest := Lookup(old(types), id), old(TypeStore().Latest(id));
        var tv, meta := NextTypeVersion(id, was, p, caller, now), NextTypeMeta(was, p, caller, now);
        if latest.Some? && env.sha(latest.value.source) == env.sha(p.source) then
          r == Deduped(latest.value.version) && unchanged(this)
        else
          && r == Published(tv.version)
          && TypeStore() == WithVersion(env.sha, old(TypeStore()), tv, meta)
          && TypeReindexed(old(index), index, id, tv)
          && unchanged(`packages, `slots, `blobs, `categories, `stars)
      ensures r.Published? || r.Deduped? <==> MayPublishType(env, caller, id, p, old(types))
      ensures r.Published? ==>
        TypePublished(env.sha, old(TypeStore()), TypeStore(), old(index), index, caller, id, p, now, r.version)
    {
      hide PackagesSound, CategoriesAgree, Counted, MayPublishType, TypePublished;
      TypeRefusedUnless(env, caller, id, p, types);
      if caller.Anonymous? {
        return Failed(401, "unauthorized");
      }
      if caller.User? && caller.login != id.author {
        return Failed(403, "forbidden");
      }
      if !env.typeNameOk(id.name) {
        return Failed(400, "bad_type_name");
      }
      var name := env.typeShape(p);
      if name.None? {
        return Failed(400, "invalid");
      }
      if name.value != id.name {
        return Failed(400, "name_mismatch");
      }
      var existing := Lookup(types, id);
      if existing.None? {
        if p.base.Some? {
          return Stale(0);
        }
      } else {
        if !CallerCanWrite(caller, existing.value.owner) {
          return Failed(403, "forbidden");
        }
        if p.base != Some(existing.value.latest) {
          return Stale(existing.value.latest);
        }
        DedupIsLatest(env.sha, TypeStore(), id, p.source);
        assert TypeVersionSound(TypeStore(), id, existing.value.latest);
        var dedup := Lookup(hashes, (id, env.sha(p.source)));
        if dedup == Some(existing.value.latest) {
          return Deduped(existing.value.latest);
        }
      }
      var tv, meta := NextTypeVersion(id, existing, p, caller, now), NextTypeMeta(existing, p, caller, now);
      StoreType(tv, meta);
      TypeAmounts(env, old(TypeStore()), TypeStore(), old(index), index, caller, id, p, now);
      return Published(tv.version);
    }

    /** The writes of an accepted type publish: version, hash, metadata, indexes. */
    method StoreType(tv: TypeVersion, meta: TypeMeta)
      requires Valid()
      requires meta.latest == tv.version == (if tv.id in types then types[tv.id].latest else 0) + 1
      requires BaseOf(tv.base, tv.version)
      requires TypeStore().Latest(tv.id).Some? ==> env.sha(TypeStore().Latest(tv.id).value.source) != env.sha(tv.source)
      modifies this
      ensures Valid()
      ensures TypeStore() == WithVersion(env.sha, old(TypeStore()), tv, meta)
      ensures TypeReindexed(old(index), index, tv.id, tv)
      ensures unchanged(`packages, `slots, `blobs, `categories, `stars)
    {
      hide PackagesSound, TypesSound, Counted, TypeStep;
      var prior := TypeStore().Latest(tv.id);
      typeVersions := typeVersions[(tv.id, tv.version) := tv];
      hashes := hashes[(tv.id, env.sha(tv.source)) := tv.version];
      types := types[tv.id := meta];
      ReindexType(tv.id, prior, tv);
      TypeStored(env.sha, PackageStore(), old(TypeStore()), old(index), index, tv, meta);
      CategoriesStay(old(index), index, categories);
    }

    // --- forks, stars, downloads ---

    method CreateFork(caller: Caller, upstream: Id, slugAs: Option<string>, now: int) returns (r: Response)
      requires Valid()
      modifies this
      ensures Valid()
      ensures PackagesAdvance(old(packages), packages) && TypesAdvance(old(types), types)
      ensures var slug := slugAs.GetOr(upstream.name);
        if ForkRefusal(env, caller, upstream, slug, old(packages)).Some? then
          r == ForkRefusal(env, caller, upstream, slug, old(packages)).value && unchanged(this)
        else
          var up := old(PackageStore().Latest(upstream));
          up.Some? &&
          var a, meta := ForkArtifact(caller.login, slug, up.value.latest, now),
            ForkMeta(caller.login, upstream, up.value.meta, now);
          && r == Forked(meta)
          && packages == old(packages)[a.id := meta][upstream := Bumped(up.value.meta)]
          && slots == old(slots)[(a.id, 1) := SlotFor(env, a)] && blobs == BlobsWith(env, old(blobs), a)
          && PackageReindexed(old(index), index, a.id, Package(meta, a))
          && unchanged(`types, `typeVersions, `hashes, `stars)
      ensures r.Forked? <==> MayFork(env, caller, upstream, slugAs.GetOr(upstream.name), old(packages))
      ensures r.Forked? ==>
        ForkMade(old(PackageStore()), PackageStore(), old(index), index, caller.login, slugAs.GetOr(upstream.name),
                 upstream, now)
    {
      hide TypesSound, Hashed, CategoriesAgree, Counted, PackageReindexed, MayFork, ForkMade;
      ForkRefusedUnless(env, caller, upstream, slugAs.GetOr(upstream.name), packages);
      if !caller.User? {
        return Failed(401, "unauthorized");
      }
      if upstream !in packages {
        return Failed(404, "not_found");
      }
      var upMeta := packages[upstream];
      assert VersionSound(PackageStore(), upstream, upMeta.latest);
      var upArtifact := GetVersion(upstream, upMeta.latest).artifact;
      var slug := slugAs.GetOr(upstream.name);
      if !env.segmentOk(slug) {
        return Failed(400, "bad_slug");
      }
      if caller.login == upstream.author && slug == upstream.name {
        return Failed(409, "self_fork");
      }
      if Id(caller.login, slug) in packages {
        return Failed(409, "already_exists");
      }
      var a, meta := ForkArtifact(caller.login, slug, upArtifact, now), ForkMeta(caller.login, upstream, upMeta, now);
      StorePackage(a, meta);
      ForkCounted(old(packages), stars, a.id, meta, upstream, Bumped(upMeta));
      PutMeta(upstream, Bumped(upMeta));
      ForkAmounts(env, old(PackageStore()), PackageStore(), old(index), index, caller.login, slug, upstream, now);
      return Forked(meta);
    }

    /** Writing back metadata that keeps its latest version and category. */
    method PutMeta(id: Id, meta: PackageMeta)
      requires Stored() && id in packages
      requires meta.category == packages[id].category && meta.latest == packages[id].latest
      modifies `packages
      ensures Stored()
      ensures packages == old(packages)[id := meta]
    {
      SameScan(PackageStore(), TypeStore(), index, id, meta);
      ghost var was := PackageStore();
      packages := packages[id := meta];
      forall x, n: nat | x in packages && 1 <= n <= packages[x].latest ensures VersionSound(PackageStore(), x, n) {
        assert VersionSound(was, x, n);
      }
    }

    method AddStar(caller: Caller, id: Id) returns (r: Response)
      requires Valid()
      modifies `packages, `stars
      ensures Valid()
      ensures PackagesAdvance(old(packages), packages) && TypesAdvance(old(types), types)
      ensures
        if !caller.User? then r == Failed(401, "unauthorized") && unchanged(this)
        else if id !in old(packages) then r == Failed(404, "not_found") && unchanged(this)
        else
          var n := |StarsOf(stars, id)|;
          && r == Starred(n, (id, caller.login) in old(stars))
          && stars == old(stars) + {(id, caller.login)}
          && packages == old(packages)[id := old(packages)[id].(stars := n)]
    {
      if !caller.User? {
        return Failed(401, "unauthorized");
      }
      if id !in packages {
        return Failed(404, "not_found");
      }
      var meta := packages[id];
      if (id, caller.login) in stars {
        assert stars == stars + {(id, caller.login)} && packages == packages[id := meta];
        return Starred(meta.stars, true);
      }
      StarCounted(packages, stars, id, caller.login);
      stars := stars + {(id, caller.login)};
      meta := meta.(stars := meta.stars + 1);
      PutMeta(id, meta);
      assert |StarsOf(stars, id)| == packages[id].stars;
      return Starred(meta.stars, false);
    }

    method RemoveStar(caller: Caller, id: Id) returns (r: Response)
      requires Valid()
      modifies `packages, `stars
      ensures Valid()
      ensures PackagesAdvance(old(packages), packages) && TypesAdvance(old(types), types)
      ensures
        if !caller.User? then r == Failed(401, "unauthorized") && unchanged(this)
        else if id !in old(packages) then r == Failed(404, "not_found") && unchanged(this)
        else
          var n := |StarsOf(stars, id)|;
          && r == Unstarred((id, caller.login) in old(stars), n)
          && stars == old(stars) - {(id, caller.login)}
          && packages == old(packages)[id := old(packages)[id].(stars := n)]
    {
      if !caller.User? {
        return Failed(401, "unauthorized");
      }
      if id !in packages {
        return Failed(404, "not_found");
      }
      var meta := packages[id];
      if (id, caller.login) !in stars {
        assert stars == stars - {(id, caller.login)} && packages == packages[id := meta];
        assert |StarsOf(stars, id)| == packages[id].stars;
        return Unstarred(false, meta.stars);
      }
      StarUncounted(packages, stars, id, caller.login);
      stars := stars - {(id, caller.login)};
      if meta.stars > 0 {
        meta := meta.(stars := meta.stars - 1);
        PutMeta(id, meta);
      }
      assert |StarsOf(stars, id)| == packages[id].stars;
      return Unstarred(true, meta.stars);
    }

    method RecordDownload(id: Id) returns (r: Response)
      requires Valid()
      modifies `packages
      ensures Valid()
      ensures PackagesAdvance(old(packages), packages) && TypesAdvance(old(types), types)
      ensures
        if id !in old(packages) then r == Failed(404, "not_found") && unchanged(this)
        else
          var n := old(packages)[id].downloads + 1;
          r == Downloaded(n) && packages == old(packages)[id := old(packages)[id].(downloads := n)]
    {
      if id !in packages {
        return Failed(404, "not_found");
      }
      var meta := packages[id].(downloads := packages[id].downloads + 1);
      StillCounted(packages, stars, id, meta);
      PutMeta(id, meta);
      return Downloaded(meta.downloads);
    }

    // --- discovery ---

    /** The listed packages whose latest artifact is to be kept, in listing order. */
    method CollectRecipeListings(refs: seq<Id>, keep: Artifact -> bool) returns (items: seq<(Id, PackageMeta)>)
      requires NoDup(refs)
      ensures NoDup(items)
      ensures forall id, meta :: (id, meta) in items <==>
        id in refs && PackageStore().Latest(id).Some? && meta == packages[id]
          && keep(PackageStore().Latest(id).value.latest)
    {
      items := [];
      var i := 0;
      while i < |refs|
        invariant 0 <= i <= |refs|
        invariant NoDup(items)
        invariant forall id, meta :: (id, meta) in items <==>
          id in refs[..i] && PackageStore().Latest(id).Some? && meta == packages[id]
            && keep(PackageStore().Latest(id).value.latest)
      {
        var id := refs[i];
        assert refs[..i + 1] == refs[..i] + [id];
        assert id !in refs[..i];
        var latest := PackageStore().Latest(id);
        if latest.Some? && keep(latest.value.latest) {
          items := items + [(id, latest.value.meta)];
        }
        i := i + 1;
      }
      assert refs[..i] == refs;
    }

    // The recipes whose latest version produces `t`, at the given type version if there is one: a full scan,
    // read off the index.
    method DiscoverProducers(t: Id, version: Option<int>) returns (items: seq<(Id, PackageMeta)>)
      requires Valid()
      ensures NoDup(items)
      ensures forall id, meta :: (id, meta) in items <==>
        id in packages && packages[id] == meta && PackageStore().Latest(id).Some? &&
        Pins(PackageStore().Latest(id).value.latest.content.outputs, t, version)
    {
      var refs := Listing(index, Producers(t));
      assert forall id :: Scan(PackageStore(), TypeStore(), Producers(t), id) <==> id in refs;
      items := CollectRecipeListings(refs,
        (a: Artifact) => version.None? || TypeRef(t, version.value) in a.content.outputs);
      forall p: Package
        ensures Pins(p.latest.content.outputs, t, version) <==>
          Names(p.latest.content.outputs, t) && (version.None? || TypeRef(t, version.value) in p.latest.content.outputs)
      {
        PinsIsMember(p.latest.content.outputs, t, version);
      }
    }

    method DiscoverConsumers(t: Id, version: Option<int>) returns (items: seq<(Id, PackageMeta)>)
      requires Valid()
      ensures NoDup(items)
      ensures forall id, meta :: (id, meta) in items <==>
        id in packages && packages[id] == meta && PackageStore().Latest(id).Some? &&
        Pins(PackageStore().Latest(id).value.latest.content.inputs, t, version)
    {
      var refs := Listing(index, Consumers(t));
      assert forall id :: Scan(PackageStore(), TypeStore(), Consumers(t), id) <==> id in refs;
      items := CollectRecipeListings(refs,
        (a: Artifact) => version.None? || TypeRef(t, version.value) in a.content.inputs);
      forall p: Package
        ensures Pins(p.latest.content.inputs, t, version) <==>
          Names(p.latest.content.inputs, t) && (version.None? || TypeRef(t, version.value) in p.latest.content.inputs)
      {
        PinsIsMember(p.latest.content.inputs, t, version);
      }
    }

    method CollectTypeListings(refs: seq<Id>) returns (items: seq<(Id, TypeMeta)>)
      requires NoDup(refs)
      ensures NoDup(items)
      ensures forall id, meta :: (id, meta) in items <==> id in refs && id in types && meta == types[id]
    {
      items := [];
      var i := 0;
      while i < |refs|
        invariant 0 <= i <= |refs|
        invariant NoDup(items)
        invariant forall id, meta :: (id, meta) in items <==> id in refs[..i] && id in types && meta == types[id]
      {
        assert refs[..i + 1] == refs[..i] + [refs[i]];
        assert refs[i] !in refs[..i];
        if refs[i] in types {
          items := items + [(refs[i], types[refs[i]])];
        }
        i := i + 1;
      }
      assert refs[..i] == refs;
    }

    /** The types whose latest version declares the alignment. */
    method DiscoverAlignedWith(uri: Uri) returns (items: seq<(Id, TypeMeta)>)
      requires Valid()
      ensures NoDup(items)
      ensures forall id, meta :: (id, meta) in items <==>
        id in types && types[id] == meta && TypeStore().Latest(id).Some?
          && uri in TypeStore().Latest(id).value.alignments
    {
      assert forall id :: Scan(PackageStore(), TypeStore(), Aligned(uri), id) <==> id in Listing(index, Aligned(uri));
      items := CollectTypeListings(Listing(index, Aligned(uri)));
    }

    /** The types whose latest version pins exactly this parent version. */
    method ListExtensions(parent: TypeRef) returns (items: seq<(Id, TypeMeta)>)
      requires Valid()
      ensures NoDup(items)
      ensures forall id, meta :: (id, meta) in items <==>
        id in types && types[id] == meta && TypeStore().Latest(id).Some?
          && TypeStore().Latest(id).value.parent == Some(parent)
    {
      assert forall id ::
        Scan(PackageStore(), TypeStore(), Extends(parent), id) <==> id in Listing(index, Extends(parent));
      items := CollectTypeListings(Listing(index, Extends(parent)));
    }

    // --- runs ---

    method Handle(q: Request) returns (r: Response)
      requires Valid()
      modifies this
      ensures Valid()
      ensures PackagesAdvance(old(packages), packages) && TypesAdvance(old(types), types)
    {
      match q {
        case PublishPackage(caller, id, p, now) => r := PublishVersion(caller, id, p, now);
        case PublishType(caller, id, p, now) => r := PublishTypeVersion(caller, id, p, now);
        case Fork(caller, id, slug, now) => r := CreateFork(caller, id, slug, now);
        case Star(caller, id) => r := AddStar(caller, id);
        case Unstar(caller, id) => r := RemoveStar(caller, id);
        case Download(id) => r := RecordDownload(id);
      }
    }

    /** Any run of requests keeps the registry valid and never lowers a latest version. */
    method Serve(requests: seq<Request>) returns (responses: seq<Response>)
      requires Valid()
      modifies this
      ensures Valid() && |responses| == |requests|
      ensures PackagesAdvance(old(packages), packages) && TypesAdvance(old(types), types)
    {
      responses := [];
      var i := 0;
      while i < |requests|
        invariant 0 <= i <= |requests| && |responses| == i
        invariant Valid()
        invariant PackagesAdvance(old(packages), packages)
        invariant TypesAdvance(old(types), types)
      {
        var r := Handle(requests[i]);
        responses := responses + [r];
        i := i + 1;
      }
    }
  }
}
