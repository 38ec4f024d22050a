/** Result types and a few notions shared by every component. */
module Prelude {
  datatype Option<+T> = None | Some(value: T)

  datatype Result<+T, +E> = Ok(value: T) | Err(error: E)

  /** The newest text recorded for step `n`, as the renderer reads `{{n_output}}`. */
  function NewestOf(store: map<int, seq<string>>, n: int): string {
    if n in store && store[n] != [] then store[n][|store[n]| - 1] else ""
  }

  predicate IsHexDigit(c: char) {
    '0' <= c <= '9' || 'a' <= c <= 'f' || 'A' <= c <= 'F'
  }

  ghost predicate Distinct<T(!new)>(s: seq<T>) {
    forall i, j :: 0 <= i < j < |s| ==> s[i] != s[j]
  }

  /** Pigeonhole: a list without repetition over a finite set is no longer than the set. */
  lemma {:induction false} DistinctLength<T(!new)>(s: seq<T>, universe: set<T>)
    requires Distinct(s)
    requires forall i :: 0 <= i < |s| ==> s[i] in universe
    ensures |s| <= |universe|
  {
    if |s| > 0 {
      var last := s[|s| - 1];
      DistinctLength(s[..|s| - 1], universe - {last});
    }
  }
}
