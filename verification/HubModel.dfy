/**
What the hub stores: package and type metadata, version artifacts, and the inverse indexes
that the publish paths keep by hand. An index entry is an `author/name` string in storage;
`RefRoundTrip` is why it can be an `Id` here.
*/
module HubModel {
  import opened Wrappers

  datatype Id = Id(author: string, name: string)

  // --- references as strings ------------------------------------------------

  function RefText(id: Id): string {
    id.author + "/" + id.name
  }

  function FirstSlash(s: string): (i: int)
    ensures -1 <= i < |s|
  {
    if s == [] then -1
    else if s[0] == '/' then 0
    else var i := FirstSlash(s[1..]); if i < 0 then -1 else i + 1
  }

  /** `None` where the source throws on a reference without a slash. */
  function SplitRef(r: string): Option<Id> {
    var i := FirstSlash(r);
    if i < 0 then None else Some(Id(r[..i], r[i + 1..]))
  }

  lemma {:induction false} SlashAfter(a: string, b: string)
    requires '/' !in a
    ensures FirstSlash(a + "/" + b) == |a|
  {
    if a != [] {
      assert (a + "/" + b)[1..] == a[1..] + "/" + b;
      SlashAfter(a[1..], b);
    } else {
      assert a + "/" + b == "/" + b;
    }
  }

  /** The author has no slash, as every author pattern of the hub demands; the name may have some. */
  lemma {:induction false} RefRoundTrip(id: Id)
    requires '/' !in id.author
    ensures SplitRef(RefText(id)) == Some(id)
  {
    SlashAfter(id.author, id.name);
    var r := RefText(id);
    assert r[..|id.author|] == id.author && r[|id.author| + 1..] == id.name;
  }

  lemma {:induction false} SplitRefBack(r: string)
    ensures SplitRef(r).Some? ==> RefText(SplitRef(r).value) == r && '/' !in SplitRef(r).value.author
    ensures SplitRef(r).None? <==> '/' !in r
  {
    FirstSlashIsFirst(r);
  }

  lemma {:induction false} FirstSlashIsFirst(s: string)
    ensures var i := FirstSlash(s);
            if i < 0 then '/' !in s else s[i] == '/' && '/' !in s[..i]
  {
    if s != [] && s[0] != '/' {
      FirstSlashIsFirst(s[1..]);
      assert s == [s[0]] + s[1..];
      var i := FirstSlash(s[1..]);
      if i >= 0 { assert s[..i + 1] == [s[0]] + s[1..][..i]; }
    }
  }

  // --- stored values ----------------------------------------------------------

  datatype TypeRef = TypeRef(id: Id, version: int)

  datatype Uri = Uri(ontology: string, term: string)

  // What a version of a recipe carries. The fixtures and the snapshot are opaque here.
  datatype Content = Content(
    recipe: string,
    typeRefs: seq<TypeRef>,
    inputs: seq<TypeRef>,
    outputs: seq<TypeRef>,
    fixtures: seq<(string, string)>,
    snapshot: Option<string>)

  datatype Artifact = Artifact(id: Id, version: nat, content: Content, base: Option<nat>, publishedAt: int,
    publishedBy: string)

  datatype PackageMeta = PackageMeta(
    description: string,
    category: string,
    tags: seq<string>,
    forkedFrom: Option<(Id, nat)>,
    createdAt: int,
    latest: nat,
    stars: nat,
    downloads: nat,
    forkCount: nat,
    owner: string)

  datatype TypeVersion = TypeVersion(
    id: Id,
    version: nat,
    source: string,
    alignments: seq<Uri>,
    fieldAlignments: seq<(string, Option<Uri>)>,
    parent: Option<TypeRef>,
    base: Option<nat>,
    publishedAt: int,
    publishedBy: string)

  datatype TypeMeta = TypeMeta(description: string, category: string, tags: seq<string>, createdAt: int, latest: nat,
    owner: string)

  type VersionKey = (Id, nat)

  // A version slot holds the artifact, or the key of the blob that does.
  datatype Slot = Inline(artifact: Artifact) | Pointer(blob: VersionKey)

  // Reading a version: no slot, a slot whose blob is gone (the source throws), or the artifact.
  datatype Read = Absent | Dangling | Found(artifact: Artifact)

  datatype Packages = Packages(meta: map<Id, PackageMeta>, slots: map<VersionKey, Slot>,
    blobs: map<VersionKey, Artifact>)
  {
    function Resolve(id: Id, n: nat): Read {
      if (id, n) !in slots then Absent
      else
        match slots[(id, n)]
        case Inline(a) => Found(a)
        case Pointer(k) => if k in blobs then Found(blobs[k]) else Dangling
    }

    /** The metadata and the latest artifact of a package, if it has both. */
    function Latest(id: Id): Option<Package> {
      if id in meta && Resolve(id, meta[id].latest).Found?
      then Some(Package(meta[id], Resolve(id, meta[id].latest).artifact))
      else None
    }
  }

  datatype Types = Types(meta: map<Id, TypeMeta>, versions: map<VersionKey, TypeVersion>, hashes: HashIndex)
  {
    function Latest(id: Id): Option<TypeVersion> {
      if id in meta && (id, meta[id].latest) in versions then Some(versions[(id, meta[id].latest)]) else None
    }
  }

  type HashIndex = map<(Id, string), nat>

  // --- indexes ------------------------------------------------------------------

  datatype Key =
    | AllPackages
    | UserPackages(author: string)
    | Category(category: string)
    | Producers(t: Id)
    | Consumers(t: Id)
    | AllTypes
    | UserTypes(author: string)
    | Aligned(uri: Uri)
    | Extends(parent: TypeRef)

  predicate IsTypeKey(k: Key) {
    k.AllTypes? || k.UserTypes? || k.Aligned? || k.Extends?
  }

  type Index = map<Key, seq<Id>>

  function Listing(index: Index, k: Key): seq<Id> {
    if k in index then index[k] else []
  }

  /** The metadata and the latest artifact of one package. */
  datatype Package = Package(meta: PackageMeta, latest: Artifact)

  predicate Names(refs: seq<TypeRef>, t: Id) {
    exists r :: r in refs && r.id == t
  }

  /** Whether a package belongs in the listing of `k`: the scan that the index replaces. */
  predicate PackageIn(k: Key, id: Id, p: Package) {
    match k
    case AllPackages => true
    case UserPackages(a) => id.author == a
    case Category(c) => p.meta.category == c
    case Producers(t) => Names(p.latest.content.outputs, t)
    case Consumers(t) => Names(p.latest.content.inputs, t)
    case _ => false
  }

  /** Whether a type belongs in the listing of `k`. */
  predicate TypeIn(k: Key, id: Id, tv: TypeVersion) {
    match k
    case AllTypes => true
    case UserTypes(a) => id.author == a
    case Aligned(u) => u in tv.alignments
    case Extends(parent) => tv.parent == Some(parent)
    case _ => false
  }

  predicate Scan(packages: Packages, types: Types, k: Key, id: Id) {
    if IsTypeKey(k) then types.Latest(id).Some? && TypeIn(k, id, types.Latest(id).value)
    else packages.Latest(id).Some? && PackageIn(k, id, packages.Latest(id).value)
  }

  ghost predicate NoDupListings(index: Index) {
    forall k :: NoDup(Listing(index, k))
  }

  /** Every listing is duplicate-free and equals the scan. */
  ghost predicate Indexed(packages: Packages, types: Types, index: Index) {
    && NoDupListings(index)
    && forall k, id {:trigger Scan(packages, types, k, id)} :: Scan(packages, types, k, id) <==> id in Listing(index, k)
  }

  /** The category list names exactly the categories that have a package. */
  ghost predicate CategoriesAgree(index: Index, categories: seq<string>) {
    NoDup(categories) && forall c :: c in categories <==> Listing(index, Category(c)) != []
  }

  // --- index updates --------------------------------------------------------------

  function Added<T(==)>(s: seq<T>, x: T): seq<T> {
    if x in s then s else s + [x]
  }

  function FirstAt<T(==)>(s: seq<T>, x: T): (i: nat)
    requires x in s
    ensures i < |s| && s[i] == x && x !in s[..i]
  {
    if s[0] == x then 0
    else
      var i := FirstAt(s[1..], x) + 1;
      assert s[..i] == [s[0]] + s[1..][..i - 1];
      i
  }

  function Dropped<T(==)>(s: seq<T>, x: T): seq<T> {
    if x in s then var i := FirstAt(s, x); s[..i] + s[i + 1..] else s
  }

  /** What one request does to a listing: the id is in it afterwards exactly when wanted, and nothing else moves. */
  function Adjusted<T(==)>(s: seq<T>, x: T, wanted: bool): seq<T> {
    if wanted then Added(s, x) else Dropped(s, x)
  }

  lemma {:induction false} AdjustedMeaning<T>(s: seq<T>, x: T, wanted: bool)
    requires NoDup(s)
    ensures NoDup(Adjusted(s, x, wanted))
    ensures forall y :: y in Adjusted(s, x, wanted) <==> if y == x then wanted else y in s
  {
    if !wanted && x in s {
      var i := FirstAt(s, x);
      var t := Dropped(s, x);
      forall y ensures y in t <==> y in s && y != x {
        if y in s && y != x {
          var j :| 0 <= j < |s| && s[j] == y;
          assert if j < i then t[j] == y else t[j - 1] == y;
        }
      }
    }
  }

  /** One package published: every package listing adjusted for it, the others left alone. */
  ghost predicate PackageReindexed(was: Index, now: Index, id: Id, p: Package) {
    forall k :: Listing(now, k) ==
      if IsTypeKey(k) then Listing(was, k) else Adjusted(Listing(was, k), id, PackageIn(k, id, p))
  }

  ghost predicate TypeReindexed(was: Index, now: Index, id: Id, tv: TypeVersion) {
    forall k :: Listing(now, k) ==
      if IsTypeKey(k) then Adjusted(Listing(was, k), id, TypeIn(k, id, tv)) else Listing(was, k)
  }

  lemma {:induction false} PackageReindexedAgrees(packages: Packages, types: Types, was: Index,
                                                  packages': Packages, now: Index, id: Id, p: Package)
    requires Indexed(packages, types, was) && PackageReindexed(was, now, id, p)
    requires forall x {:trigger packages'.Latest(x)} ::
      packages'.Latest(x) == if x == id then Some(p) else packages.Latest(x)
    ensures Indexed(packages', types, now)
  {
    forall k ensures NoDup(Listing(now, k)) {
      if !IsTypeKey(k) { AdjustedMeaning(Listing(was, k), id, PackageIn(k, id, p)); }
    }
    forall k, x ensures Scan(packages', types, k, x) <==> x in Listing(now, k) {
      assert Scan(packages, types, k, x) <==> x in Listing(was, k);
      if !IsTypeKey(k) { AdjustedMeaning(Listing(was, k), id, PackageIn(k, id, p)); }
    }
  }

  lemma {:induction false} TypeReindexedAgrees(packages: Packages, types: Types, was: Index, types': Types,
                                               now: Index, id: Id, tv: TypeVersion)
    requires Indexed(packages, types, was) && TypeReindexed(was, now, id, tv)
    requires forall x {:trigger types'.Latest(x)} :: types'.Latest(x) == if x == id then Some(tv) else types.Latest(x)
    ensures Indexed(packages, types', now)
  {
    forall k ensures NoDup(Listing(now, k)) {
      if IsTypeKey(k) { AdjustedMeaning(Listing(was, k), id, TypeIn(k, id, tv)); }
    }
    forall k, x ensures Scan(packages, types', k, x) <==> x in Listing(now, k) {
      assert Scan(packages, types, k, x) <==> x in Listing(was, k);
      if IsTypeKey(k) { AdjustedMeaning(Listing(was, k), id, TypeIn(k, id, tv)); }
    }
  }

  /** Metadata that keeps its latest version and its category changes no scan. */
  lemma {:induction false} SameScan(packages: Packages, types: Types, index: Index, id: Id, meta: PackageMeta)
    requires Indexed(packages, types, index) && id in packages.meta
    requires meta.category == packages.meta[id].category && meta.latest == packages.meta[id].latest
    ensures Indexed(packages.(meta := packages.meta[id := meta]), types, index)
  {
    forall k, x ensures Scan(packages.(meta := packages.meta[id := meta]), types, k, x) <==> x in Listing(index, k) {
      assert Scan(packages, types, k, x) <==> x in Listing(index, k);
    }
  }

  // --- what publishing keeps of versions -----------------------------------------------

  /** Input and output references are duplicate-free and pin exactly what `typeRefs` declares. */
  ghost predicate Partitioned(c: Content) {
    && DistinctIds(c.typeRefs) && DistinctIds(c.inputs) && DistinctIds(c.outputs)
    && (forall r | r in c.inputs :: r in c.typeRefs)
    && (forall r | r in c.outputs :: r in c.typeRefs)
  }

  ghost predicate DistinctIds(refs: seq<TypeRef>) {
    && (forall i, j | 0 <= i < j < |refs| :: refs[i].id != refs[j].id)
    && (forall r | r in refs :: r.version >= 1)
  }

  predicate BaseOf(base: Option<nat>, version: nat) {
    base == if version <= 1 then None else Some((version - 1) as nat)
  }

  ghost predicate VersionSound(packages: Packages, id: Id, n: nat) {
    var r := packages.Resolve(id, n);
    r.Found? && r.artifact.id == id && r.artifact.version == n && BaseOf(r.artifact.base, n)
      && Partitioned(r.artifact.content)
  }

  /** A slot points at the blob of its own version only. */
  ghost predicate PointersOwn(slots: map<VersionKey, Slot>) {
    forall k | k in slots && slots[k].Pointer? :: slots[k].blob == k
  }

  /** Every version from 1 to the latest can be read back, as what was published under that number. */
  ghost predicate PackagesSound(packages: Packages) {
    && PointersOwn(packages.slots)
    && (forall id | id in packages.meta :: packages.meta[id].latest >= 1)
    && forall id, n: nat | id in packages.meta && 1 <= n <= packages.meta[id].latest :: VersionSound(packages, id, n)
  }

  ghost predicate TypeVersionSound(types: Types, id: Id, n: nat) {
    && (id, n) in types.versions
    && types.versions[(id, n)].id == id && types.versions[(id, n)].version == n
         && BaseOf(types.versions[(id, n)].base, n)
  }

  ghost predicate TypesSound(types: Types) {
    && (forall id | id in types.meta :: types.meta[id].latest >= 1)
    && forall id, n: nat | id in types.meta && 1 <= n <= types.meta[id].latest :: TypeVersionSound(types, id, n)
  }

  // --- content-hash dedup --------------------------------------------------------------------

  /** Version `n` of a type exists and its source has the digest `d`. */
  predicate HasDigest(sha: string -> string, types: Types, id: Id, n: nat, d: string) {
    id in types.meta && 1 <= n <= types.meta[id].latest && (id, n) in types.versions
      && sha(types.versions[(id, n)].source) == d
  }

  /** The hash index maps each digest to the greatest version with it, and adjacent versions differ. */
  ghost predicate Hashed(sha: string -> string, types: Types) {
    && (forall id, n, d | HasDigest(sha, types, id, n, d) :: (id, d) in types.hashes && n <= types.hashes[(id, d)])
    && (forall id, d | (id, d) in types.hashes :: HasDigest(sha, types, id, types.hashes[(id, d)], d))
    && (forall id, n: nat, m: nat, d | HasDigest(sha, types, id, n, d) && HasDigest(sha, types, id, m, d) :: m != n + 1)
  }

  /** What a type publish writes. */
  function WithVersion(sha: string -> string, types: Types, tv: TypeVersion, meta: TypeMeta): Types {
    Types(types.meta[tv.id := meta], types.versions[(tv.id, tv.version) := tv],
      types.hashes[(tv.id, sha(tv.source)) := tv.version])
  }

  /** The next version of a type whose source differs from the latest's. */
  lemma {:induction false} NextTypeHashed(sha: string -> string, types: Types, tv: TypeVersion, meta: TypeMeta)
    requires TypesSound(types) && Hashed(sha, types)
    requires meta.latest == tv.version == (if tv.id in types.meta then types.meta[tv.id].latest else 0) + 1
    requires tv.id in types.meta ==> !HasDigest(sha, types, tv.id, types.meta[tv.id].latest, sha(tv.source))
    ensures Hashed(sha, WithVersion(sha, types, tv, meta))
  {
    var types' := WithVersion(sha, types, tv, meta);
    forall x, n: nat, d ensures HasDigest(sha, types', x, n, d) <==>
      (HasDigest(sha, types, x, n, d) || (x == tv.id && n == tv.version && d == sha(tv.source))) {
    }
  }

  lemma {:induction false} NextTypeSound(sha: string -> string, types: Types, tv: TypeVersion, meta: TypeMeta)
    requires TypesSound(types)
    requires meta.latest == tv.version == (if tv.id in types.meta then types.meta[tv.id].latest else 0) + 1
    requires BaseOf(tv.base, tv.version)
    ensures var types' := WithVersion(sha, types, tv, meta);
            && TypesSound(types')
            && forall x {:trigger types'.Latest(x)} ::
                 types'.Latest(x) == if x == tv.id then Some(tv) else types.Latest(x)
  {
    var types' := WithVersion(sha, types, tv, meta);
    forall x, n: nat | x in types'.meta && 1 <= n <= types'.meta[x].latest ensures TypeVersionSound(types', x, n) {
      if !(x == tv.id && n == tv.version) { assert TypeVersionSound(types, x, n); }
    }
  }

  /** Version k + 1 was rebased from k and its source differs. */
  lemma {:induction false} VersionChain(sha: string -> string, types: Types, id: Id, k: nat)
    requires TypesSound(types) && Hashed(sha, types)
    requires id in types.meta && 1 <= k < types.meta[id].latest
    ensures (id, k) in types.versions && (id, k + 1) in types.versions
    ensures types.versions[(id, k + 1)].base == Some(k)
    ensures sha(types.versions[(id, k)].source) != sha(types.versions[(id, k + 1)].source)
    ensures types.versions[(id, k)].source != types.versions[(id, k + 1)].source
  {
    assert TypeVersionSound(types, id, k) && TypeVersionSound(types, id, k + 1);
    var d := sha(types.versions[(id, k)].source);
    assert HasDigest(sha, types, id, k, d);
    assert !HasDigest(sha, types, id, k + 1, d);
  }

  /** Dedup by digest is dedup against the latest source. */
  lemma {:induction false} DedupIsLatest(sha: string -> string, types: Types, id: Id, source: string)
    requires TypesSound(types) && Hashed(sha, types) && id in types.meta
    ensures ((id, sha(source)) in types.hashes && types.hashes[(id, sha(source))] == types.meta[id].latest)
        <==> (types.Latest(id).Some? && sha(types.Latest(id).value.source) == sha(source))
  {
    var n := types.meta[id].latest;
    assert TypeVersionSound(types, id, n);
    assert HasDigest(sha, types, id, n, sha(types.versions[(id, n)].source));
  }

  // --- counters ---------------------------------------------------------------------------------

  ghost function StarsOf(stars: set<(Id, string)>, id: Id): set<(Id, string)> {
    set s | s in stars && s.0 == id
  }

  ghost function ForksOf(packages: map<Id, PackageMeta>, id: Id): set<Id> {
    set f | f in packages && packages[f].forkedFrom.Some? && packages[f].forkedFrom.value.0 == id
  }

  /** Each counter is the number of things it counts. */
  ghost predicate Counted(packages: map<Id, PackageMeta>, stars: set<(Id, string)>) {
    && (forall id {:trigger StarsOf(stars, id)} ::
         |StarsOf(stars, id)| == if id in packages then packages[id].stars else 0)
    && (forall id {:trigger ForksOf(packages, id)} ::
         |ForksOf(packages, id)| == if id in packages then packages[id].forkCount else 0)
  }
}
