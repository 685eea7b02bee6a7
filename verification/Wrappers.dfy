/** Option, Result and a few facts about sequences that the other modules share. */
module Wrappers {

  datatype Option<+T> = None | Some(value: T) {
    function GetOr(default: T): T {
      match this
      case Some(v) => v
      case None => default
    }
  }

  datatype Result<+T, +E> = Ok(value: T) | Err(error: E)

  /** No element occurs twice. */
  ghost predicate NoDup<T>(s: seq<T>) {
    forall i, j | 0 <= i < j < |s| :: s[i] != s[j]
  }

  /** A duplicate-free sequence over a finite set is no longer than the set is large. */
  lemma {:induction false} NoDupBound<T>(s: seq<T>, universe: set<T>)
    requires NoDup(s)
    requires forall x | x in s :: x in universe
    ensures |s| <= |universe|
  {
    if s != [] {
      var init := s[..|s| - 1];
      forall x | x in init ensures x in universe - {s[|s| - 1]} {
        var i :| 0 <= i < |init| && init[i] == x;
        assert s[i] == x;
      }
      NoDupBound(init, universe - {s[|s| - 1]});
      assert s[|s| - 1] in s;
    }
  }
}
