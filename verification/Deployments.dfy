/** Names of deployment directories and the scan for the highest version on disk. */
module Deployments {
  import opened Wrappers
  import opened Values

  function VersionDir(v: nat): string {
    "v" + Decimal(v)
  }

  /** A work directory; `tail` is the unique suffix of one deploy. */
  function TempDir(v: nat, tail: string): string {
    ".tmp-v" + Decimal(v) + "-" + tail
  }

  function DigitValue(c: char): Option<nat> {
    if '0' <= c <= '9' then Some((c as int - '0' as int) as nat) else None
  }

  function ParseDigits(s: string): Option<nat> {
    if s == [] then None
    else
      match DigitValue(s[|s| - 1])
      case None => None
      case Some(d) =>
        if |s| == 1 then Some(d)
        else
          match ParseDigits(s[..|s| - 1])
          case None => None
          case Some(n) => Some(10 * n + d)
  }

  /** An unsigned number with an optional plus sign. */
  function ParseNat(s: string): Option<nat> {
    if s != [] && s[0] == '+' then ParseDigits(s[1..]) else ParseDigits(s)
  }

  function ParseVersion(dir: string): Option<nat> {
    if dir != [] && dir[0] == 'v' then ParseNat(dir[1..]) else None
  }

  lemma {:induction false} DigitRoundTrip(n: nat)
    requires n < 10
    ensures DigitValue(Digit(n)) == Some(n)
  {
  }

  lemma {:induction false} DecimalParses(n: nat)
    ensures Decimal(n) != [] && Decimal(n)[0] != '+' && ParseDigits(Decimal(n)) == Some(n)
  {
    DigitRoundTrip(n % 10);
    var s := Decimal(n);
    if n >= 10 {
      DecimalParses(n / 10);
      assert s[..|s| - 1] == Decimal(n / 10) && s[|s| - 1] == Digit(n % 10);
    }
  }

  /** The scan reads back the version a directory was named for. */
  lemma {:induction false} VersionDirParses(v: nat)
    ensures ParseVersion(VersionDir(v)) == Some(v)
  {
    DecimalParses(v);
    assert VersionDir(v)[1..] == Decimal(v);
  }

  /** Work directories do not look like versions. */
  lemma {:induction false} TempDirIsNoVersion(v: nat, tail: string)
    ensures ParseVersion(TempDir(v, tail)).None?
    ensures forall w: nat :: TempDir(v, tail) != VersionDir(w)
  {
    assert TempDir(v, tail)[0] == '.';
    forall w: nat ensures TempDir(v, tail) != VersionDir(w) {
      assert VersionDir(w)[0] == 'v';
    }
  }

  ghost predicate IsMax(m: Option<nat>, s: set<nat>) {
    match m
    case None => s == {}
    case Some(x) => x in s && forall y | y in s :: y <= x
  }

  lemma {:induction false} OneMax(m: nat, other: Option<nat>, s: set<nat>)
    requires IsMax(Some(m), s) && other != Some(m)
    ensures !IsMax(other, s)
  {
  }

  ghost function VersionsIn(dirs: set<string>): set<nat> {
    set d | d in dirs && ParseVersion(d).Some? :: ParseVersion(d).value
  }

  method MaxVersionOnDisk(dirs: set<string>) returns (highest: Option<nat>)
    ensures IsMax(highest, VersionsIn(dirs))
  {
    highest := None;
    var todo := dirs;
    while todo != {}
      invariant todo <= dirs
      invariant IsMax(highest, VersionsIn(dirs - todo))
      decreases todo
    {
      var d :| d in todo;
      ghost var seen := dirs - todo;
      todo := todo - {d};
      assert dirs - todo == seen + {d};
      assert VersionsIn(seen + {d})
        == VersionsIn(seen) + (if ParseVersion(d).Some? then {ParseVersion(d).value} else {});
      var n := ParseVersion(d);
      if n.Some? {
        highest := if highest.Some? && highest.value >= n.value then highest else n;
      }
    }
    assert dirs - todo == dirs;
  }

  /** The newest row of a recipe. */
  method MaxOf(versions: set<nat>) returns (highest: Option<nat>)
    ensures IsMax(highest, versions)
  {
    highest := None;
    var todo := versions;
    while todo != {}
      invariant todo <= versions
      invariant IsMax(highest, versions - todo)
      decreases todo
    {
      var n :| n in todo;
      ghost var seen := versions - todo;
      todo := todo - {n};
      assert versions - todo == seen + {n};
      highest := if highest.Some? && highest.value >= n then highest else Some(n);
    }
    assert versions - todo == versions;
  }
}
