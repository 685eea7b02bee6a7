/** How a replayed request is matched to a recorded one: `strip_origin` and `url_matches`. */
module Urls {
  import opened Wrappers
  import opened Sorting

  /** The first position of `c`, or the length when there is none. */
  function IndexOf(s: string, c: char): (i: nat)
    ensures i <= |s|
    ensures i < |s| ==> s[i] == c
    ensures c !in s[..i]
  {
    if s == [] || s[0] == c then 0 else 1 + IndexOf(s[1..], c)
  }

  lemma {:induction false} IndexOfAppend(a: string, c: char, b: string)
    requires c !in a
    ensures IndexOf(a, c) == |a|
    ensures IndexOf(a + [c] + b, c) == |a|
  {
    if a != [] {
      assert (a + [c] + b)[1..] == a[1..] + [c] + b;
      IndexOfAppend(a[1..], c, b);
    }
  }

  function Split(s: string, c: char): seq<string>
    decreases |s|
  {
    var i := IndexOf(s, c);
    if i == |s| then [s] else [s[..i]] + Split(s[i + 1..], c)
  }

  function Join(parts: seq<string>, c: char): string {
    if parts == [] then ""
    else if |parts| == 1 then parts[0]
    else parts[0] + [c] + Join(parts[1..], c)
  }

  lemma {:induction false} SplitJoin(parts: seq<string>, c: char)
    requires parts != []
    requires forall p | p in parts :: c !in p
    ensures Split(Join(parts, c), c) == parts
  {
    if |parts| == 1 {
      IndexOfAppend(parts[0], c, "");
    } else {
      var rest := Join(parts[1..], c);
      IndexOfAppend(parts[0], c, rest);
      SplitJoin(parts[1..], c);
      assert Join(parts, c)[..|parts[0]|] == parts[0];
      assert Join(parts, c)[|parts[0]| + 1..] == rest;
    }
  }

  /** The position of the last `//`. */
  function LastSlashes(s: string): Option<nat> {
    if |s| < 2 then None
    else if s[|s| - 2] == '/' && s[|s| - 1] == '/' then Some(|s| - 2)
    else LastSlashes(s[..|s| - 1])
  }

  lemma {:induction false} LastSlashesAt(s: string, i: nat)
    requires i + 1 < |s| && s[i] == '/' && s[i + 1] == '/'
    requires forall j | i < j && j + 1 < |s| :: !(s[j] == '/' && s[j + 1] == '/')
    ensures LastSlashes(s) == Some(i)
  {
    if i + 2 < |s| {
      assert !(s[|s| - 2] == '/' && s[|s| - 1] == '/');
      LastSlashesAt(s[..|s| - 1], i);
    }
  }

  lemma {:induction false} LastSlashesInRange(s: string)
    ensures LastSlashes(s).Some? ==> LastSlashes(s).value + 2 <= |s|
  {
    if |s| >= 2 { LastSlashesInRange(s[..|s| - 1]); }
  }

  function FromSlash(rest: string): string {
    var j := IndexOf(rest, '/');
    if j < |rest| then rest[j..] else rest
  }

  function StripPath(path: string): string {
    match LastSlashes(path)
    case None => path
    case Some(i) =>
      LastSlashesInRange(path);
      FromSlash(path[i + 2..])
  }

  /** Byte-wise string order. */
  predicate LexLe(a: string, b: string) {
    if a == [] then true
    else if b == [] then false
    else a[0] < b[0] || (a[0] == b[0] && LexLe(a[1..], b[1..]))
  }

  function SortedQuery(q: string): string {
    Join(Sort(LexLe, Split(q, '&')), '&')
  }

  function StripOrigin(u: string): string {
    var i := IndexOf(u, '?');
    if i == |u| then StripPath(u)
    else StripPath(u[..i]) + "?" + SortedQuery(u[i + 1..])
  }

  predicate UrlMatches(fixtureUrl: string, reqUrl: string) {
    fixtureUrl == reqUrl || StripOrigin(fixtureUrl) == StripOrigin(reqUrl)
  }

  /** Matching is an equivalence on URLs: the exact-match shortcut adds nothing. */
  lemma {:induction false} UrlMatchesIsEquivalence(a: string, b: string, c: string)
    ensures UrlMatches(a, a)
    ensures UrlMatches(a, b) ==> UrlMatches(b, a)
    ensures UrlMatches(a, b) && UrlMatches(b, c) ==> UrlMatches(a, c)
    ensures UrlMatches(a, b) <==> StripOrigin(a) == StripOrigin(b)
  {
  }

  lemma {:induction false} LexTotal(a: string, b: string)
    ensures LexLe(a, a)
    ensures LexLe(a, b) || LexLe(b, a)
    ensures LexLe(a, b) && LexLe(b, a) ==> a == b
  {
    if a != [] {
      LexTotal(a[1..], if b == [] then [] else b[1..]);
      if b != [] {
        assert a == [a[0]] + a[1..] && b == [b[0]] + b[1..];
      }
    }
  }

  lemma {:induction false} LexTransitive(a: string, b: string, c: string)
    requires LexLe(a, b) && LexLe(b, c)
    ensures LexLe(a, c)
  {
    if a != [] && a[0] == b[0] && b[0] == c[0] {
      LexTransitive(a[1..], b[1..], c[1..]);
    }
  }

  lemma {:induction false} LexIsTotalOrder()
    ensures TotalOrder(LexLe)
  {
    forall x, y ensures LexLe(x, x) && (LexLe(x, y) || LexLe(y, x)) && (LexLe(x, y) && LexLe(y, x) ==> x == y) {
      LexTotal(x, y);
    }
    forall x, y, z | LexLe(x, y) && LexLe(y, z) ensures LexLe(x, z) {
      LexTransitive(x, y, z);
    }
  }

  lemma {:induction false} StripWithQuery(base: string, q: string)
    requires '?' !in base
    ensures StripOrigin(base + "?" + q) == StripPath(base) + "?" + SortedQuery(q)
    ensures StripOrigin(base) == StripPath(base)
  {
    IndexOfAppend(base, '?', q);
    assert (base + "?" + q)[..|base|] == base && (base + "?" + q)[|base| + 1..] == q;
  }

  /** The order of the query parameters of a URL never affects a match. */
  lemma {:induction false} QueryOrderIgnored(base: string, params: seq<string>, params': seq<string>)
    requires '?' !in base
    requires params != [] && (forall p | p in params :: '&' !in p)
    requires multiset(params) == multiset(params')
    ensures UrlMatches(base + "?" + Join(params, '&'), base + "?" + Join(params', '&'))
  {
    assert |multiset(params')| == |params'| && |multiset(params)| == |params|;
    forall p | p in params' ensures '&' !in p {
      assert p in multiset(params);
    }
    SplitJoin(params, '&');
    SplitJoin(params', '&');
    LexIsTotalOrder();
    SortOfPermutation(LexLe, params, params');
    StripWithQuery(base, Join(params, '&'));
    StripWithQuery(base, Join(params', '&'));
  }

  /** The last `//` of a text that has one is the last of anything that ends with it. */
  lemma {:induction false} LastSlashesOfSuffix(prefix: string, s: string)
    requires LastSlashes(s).Some?
    ensures LastSlashes(prefix + s) == Some(|prefix| + LastSlashes(s).value)
  {
    if !(s[|s| - 2] == '/' && s[|s| - 1] == '/') {
      assert (prefix + s)[..|prefix + s| - 1] == prefix + s[..|s| - 1];
      LastSlashesOfSuffix(prefix, s[..|s| - 1]);
    }
  }

  lemma {:induction false} NoSlashes(s: string, j: nat)
    requires LastSlashes(s).None? && j + 1 < |s|
    ensures !(s[j] == '/' && s[j + 1] == '/')
  {
    if j + 2 < |s| {
      NoSlashes(s[..|s| - 1], j);
    }
  }

  /** What precedes a path with `//` is stripped up to that `//`. */
  lemma {:induction false} PrefixStripped(prefix: string, path: string)
    requires LastSlashes(path).Some?
    ensures StripPath(prefix + path) == StripPath(path)
  {
    hide LastSlashes, FromSlash;
    LastSlashesOfSuffix(prefix, path);
    LastSlashesInRange(path);
    AfterPrefix(prefix, path, LastSlashes(path).value + 2);
  }

  lemma {:induction false} AfterPrefix(prefix: string, s: string, k: nat)
    requires k <= |s|
    ensures (prefix + s)[|prefix| + k..] == s[k..]
  {
  }

  /** Scheme and host never affect a match, given an absolute path. */
  lemma {:induction false} OriginIgnored(scheme: string, host: string, scheme': string, host': string,
                                         path: string, q: string)
    requires host != [] && '/' !in host && '?' !in scheme + "//" + host
    requires host' != [] && '/' !in host' && '?' !in scheme' + "//" + host'
    requires path != [] && path[0] == '/' && '?' !in path
    ensures UrlMatches(scheme + "//" + host + path, scheme' + "//" + host' + path)
    ensures UrlMatches(scheme + "//" + host + path + "?" + q, scheme' + "//" + host' + path + "?" + q)
  {
    if LastSlashes(path).Some? {
      PrefixStripped(scheme + "//" + host, path);
      PrefixStripped(scheme' + "//" + host', path);
    } else {
      OriginStripped(scheme, host, path);
      OriginStripped(scheme', host', path);
    }
    StripWithQuery(scheme + "//" + host + path, q);
    StripWithQuery(scheme' + "//" + host' + path, q);
  }

  lemma {:induction false} OriginStripped(scheme: string, host: string, path: string)
    requires host != [] && '/' !in host
    requires path != [] && path[0] == '/' && LastSlashes(path).None?
    ensures StripPath(scheme + "//" + host + path) == path
  {
    var u := scheme + "//" + host + path;
    var n := |scheme| + 2 + |host|;
    forall j | |scheme| < j && j + 1 < |u| ensures !(u[j] == '/' && u[j + 1] == '/') {
      if j + 1 < n {
        if j >= |scheme| + 2 { assert u[j] == host[j - |scheme| - 2]; } else { assert u[j + 1] == host[0]; }
      } else if j >= n {
        NoSlashes(path, j - n);
        assert u[j] == path[j - n] && u[j + 1] == path[j + 1 - n];
      } else {
        assert u[j] == host[|host| - 1];
      }
    }
    LastSlashesAt(u, |scheme|);
    var rest := u[|scheme| + 2..];
    assert rest == host + ['/'] + path[1..];
    IndexOfAppend(host, '/', path[1..]);
    assert rest[|host|..] == path;
  }

  // --- exactly when URLs match ---------------------------------------------

  lemma {:induction false} IndexOfFirst(s: string, i: nat, c: char)
    requires i < |s| && s[i] == c && c !in s[..i]
    ensures IndexOf(s, c) == i
  {
    IndexOfAppend(s[..i], c, s[i + 1..]);
    assert s == s[..i] + [c] + s[i + 1..];
  }

  /** No two slashes stand next to each other. */
  ghost predicate NoDouble(s: string) {
    forall j, k | 0 <= j && k == j + 1 && k < |s| :: !(s[j] == '/' && s[k] == '/')
  }

  lemma {:induction false} NoDoubleIs(s: string)
    ensures NoDouble(s) <==> LastSlashes(s).None?
    ensures LastSlashes(s).Some? ==>
      var i := LastSlashes(s).value;
      i + 1 < |s| && s[i] == '/' && s[i + 1] == '/' && NoDouble(s[i + 1..])
  {
    if |s| >= 2 && !(s[|s| - 2] == '/' && s[|s| - 1] == '/') {
      var init := s[..|s| - 1];
      NoDoubleIs(init);
      if LastSlashes(s).Some? {
        var i := LastSlashes(s).value;
        assert s[i + 1..] == init[i + 1..] + [s[|s| - 1]];
      } else {
        forall j, k | 0 <= j && k == j + 1 && k < |s| ensures !(s[j] == '/' && s[k] == '/') {
          if k < |init| { assert init[j] == s[j] && init[k] == s[k]; }
        }
      }
    }
  }

  /** `t` is `rest` from its first slash on, or all of it when there is none. */
  ghost predicate AfterHost(rest: string, t: string) {
    if '/' !in rest then t == rest
    else |t| <= |rest| && rest[|rest| - |t|..] == t && t != [] && t[0] == '/' && '/' !in rest[..|rest| - |t|]
  }

  // What is left of a path: all of it, or what follows the host after its last `//`; the host itself when nothing
  // follows it.
  ghost predicate Kept(path: string, t: string) {
    if NoDouble(path) then t == path
    else
      exists origin: string, rest: string ::
        path == origin + "//" + rest && NoDouble("/" + rest) && AfterHost(rest, t)
  }

  lemma {:induction false} StripPathKeeps(path: string, t: string)
    ensures Kept(path, t) <==> t == StripPath(path)
  {
    hide NoDouble, AfterHost, LastSlashes, FromSlash;
    NoDoubleIs(path);
    LastSlashesInRange(path);
    if !NoDouble(path) {
      var i := LastSlashes(path).value;
      assert path == path[..i] + "//" + path[i + 2..];
      assert path[i + 1..] == "/" + path[i + 2..];
      FromSlashIs(path[i + 2..], StripPath(path));
      if Kept(path, t) {
        var origin, rest :| path == origin + "//" + rest && NoDouble("/" + rest) && AfterHost(rest, t);
        SplitAtLast(path, origin, rest);
        FromSlashIs(rest, t);
      }
    }
  }

  lemma {:induction false} SplitAtLast(path: string, origin: string, rest: string)
    requires path == origin + "//" + rest && NoDouble("/" + rest)
    ensures LastSlashes(path) == Some(|origin|) && path[|origin| + 2..] == rest
  {
    var i := |origin|;
    assert path[i] == '/' && path[i + 1] == '/' && path[i + 1..] == "/" + rest;
    forall j | i < j && j + 1 < |path| ensures !(path[j] == '/' && path[j + 1] == '/') {
      assert path[j] == path[i + 1..][j - i - 1] && path[j + 1] == path[i + 1..][j - i];
      assert ("/" + rest)[j - i - 1] == path[j] && ("/" + rest)[j - i] == path[j + 1];
    }
    LastSlashesAt(path, i);
  }

  lemma {:induction false} FromSlashIs(rest: string, t: string)
    ensures t == FromSlash(rest) <==> AfterHost(rest, t)
  {
    assert rest[..|rest|] == rest;
    if '/' in rest {
      if AfterHost(rest, t) {
        IndexOfFirst(rest, |rest| - |t|, '/');
      }
    }
  }

  lemma {:induction false} KeptHasNo(path: string, c: char)
    requires c !in path
    ensures c !in StripPath(path)
  {
    LastSlashesInRange(path);
  }

  lemma {:induction false} JoinInjective(a: seq<string>, b: seq<string>, c: char)
    requires a != [] && (forall p | p in a :: c !in p) && b != [] && (forall p | p in b :: c !in p)
    requires Join(a, c) == Join(b, c)
    ensures a == b
  {
    SplitJoin(a, c);
    SplitJoin(b, c);
  }

  lemma {:induction false} SameElements(a: seq<string>, b: seq<string>, c: char)
    requires multiset(a) == multiset(b) && forall p | p in a :: c !in p
    ensures forall p | p in b :: c !in p
    ensures |a| == |b|
  {
    assert |multiset(a)| == |a| && |multiset(b)| == |b|;
    forall p | p in b ensures c !in p {
      assert p in multiset(a);
    }
  }

  /** Two queries come out alike exactly when they have the same parameters, whatever their order. */
  lemma {:induction false} SortedQueryIff(ps: seq<string>, ps': seq<string>)
    requires ps != [] && (forall p | p in ps :: '&' !in p) && ps' != [] && (forall p | p in ps' :: '&' !in p)
    ensures SortedQuery(Join(ps, '&')) == SortedQuery(Join(ps', '&')) <==> multiset(ps) == multiset(ps')
  {
    var a, b := Sort(LexLe, ps), Sort(LexLe, ps');
    SplitJoin(ps, '&');
    SplitJoin(ps', '&');
    SortElements(LexLe, ps);
    SortElements(LexLe, ps');
    SameElements(ps, a, '&');
    SameElements(ps', b, '&');
    LexIsTotalOrder();
    if multiset(ps) == multiset(ps') {
      SortOfPermutation(LexLe, ps, ps');
    }
    if Join(a, '&') == Join(b, '&') {
      JoinInjective(a, b, '&');
    }
  }

  // Matching looks at exactly this: what is kept of the paths, whether there is a query, and the parameters of the
  // query with their multiplicity.
  lemma {:induction false} MatchIff(base: string, base': string, ps: seq<string>, ps': seq<string>)
    requires '?' !in base && '?' !in base'
    requires ps != [] && (forall p | p in ps :: '&' !in p) && ps' != [] && (forall p | p in ps' :: '&' !in p)
    ensures UrlMatches(base + "?" + Join(ps, '&'), base' + "?" + Join(ps', '&'))
       <==> StripPath(base) == StripPath(base') && multiset(ps) == multiset(ps')
    ensures UrlMatches(base, base') <==> StripPath(base) == StripPath(base')
    ensures !UrlMatches(base + "?" + Join(ps, '&'), base')
  {
    var q, q' := Join(ps, '&'), Join(ps', '&');
    StripWithQuery(base, q);
    StripWithQuery(base', q');
    KeptHasNo(base, '?');
    KeptHasNo(base', '?');
    SortedQueryIff(ps, ps');
    QueryAfter(StripPath(base), SortedQuery(q), StripPath(base'), SortedQuery(q'));
    UrlMatchesIsEquivalence(base + "?" + q, base' + "?" + q', base);
    UrlMatchesIsEquivalence(base, base', base);
    UrlMatchesIsEquivalence(base + "?" + q, base', base);
    assert '?' in StripPath(base) + "?" + SortedQuery(q) by {
      assert (StripPath(base) + "?" + SortedQuery(q))[|StripPath(base)|] == '?';
    }
  }

  lemma {:induction false} QueryAfter(a: string, x: string, b: string, y: string)
    requires '?' !in a && '?' !in b
    ensures a + "?" + x == b + "?" + y <==> a == b && x == y
  {
    if a + "?" + x == b + "?" + y {
      IndexOfAppend(a, '?', x);
      IndexOfAppend(b, '?', y);
      assert (a + "?" + x)[|a| + 1..] == x && (b + "?" + y)[|b| + 1..] == y;
      assert (a + "?" + x)[..|a|] == a && (b + "?" + y)[..|b|] == b;
    }
  }

  // Two absolute URLs match exactly when their paths agree from the host on, and so do their parameters, in any order.
  lemma {:induction false} AbsoluteMatchIff(scheme: string, host: string, path: string, ps: seq<string>,
                                            scheme': string, host': string, path': string, ps': seq<string>)
    requires host != [] && '/' !in host && '?' !in scheme + "//" + host
    requires host' != [] && '/' !in host' && '?' !in scheme' + "//" + host'
    requires path != [] && path[0] == '/' && '?' !in path && NoDouble(path)
    requires path' != [] && path'[0] == '/' && '?' !in path' && NoDouble(path')
    requires ps != [] && (forall p | p in ps :: '&' !in p) && ps' != [] && (forall p | p in ps' :: '&' !in p)
    ensures var u, u' := scheme + "//" + host + path, scheme' + "//" + host' + path';
      && (UrlMatches(u, u') <==> path == path')
      && (UrlMatches(u + "?" + Join(ps, '&'), u' + "?" + Join(ps', '&'))
          <==> path == path' && multiset(ps) == multiset(ps'))
      && !UrlMatches(u + "?" + Join(ps, '&'), u')
  {
    NoDoubleIs(path);
    NoDoubleIs(path');
    OriginStripped(scheme, host, path);
    OriginStripped(scheme', host', path');
    MatchIff(scheme + "//" + host + path, scheme' + "//" + host' + path', ps, ps');
  }

  /** A doubled slash inside a path hides all before it and the segment behind it: different paths match. */
  lemma {:induction false} DoubledSlashHides(scheme: string, host: string, before: string, segment: string,
                                             path: string)
    requires host != [] && '/' !in host && '?' !in scheme + "//" + host
    requires segment != [] && '/' !in segment && '?' !in before + "//" + segment
    requires path != [] && path[0] == '/' && '?' !in path && NoDouble(path)
    ensures UrlMatches(scheme + "//" + host + before + "//" + segment + path, scheme + "//" + host + path)
  {
    var origin := scheme + "//" + host;
    NoDoubleIs(path);
    OriginStripped(origin + before, segment, path);
    OriginStripped(scheme, host, path);
    StripWithQuery(origin + before + "//" + segment + path, "");
    StripWithQuery(origin + path, "");
  }
}
