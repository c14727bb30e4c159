/**
 * Facts about sequences that both programs' logs and lists rely on.
 */
module Sequences {
  /** Appending in two steps is appending once. */
  lemma Associative<T>(a: seq<T>, b: seq<T>, c: seq<T>)
    ensures a + (b + c) == a + b + c
  {
  }

  /** An entry that no two positions of `log` share occurs in it at most once. */
  lemma {:induction false} OnceIfNeverRepeated<T>(log: seq<T>, p: T)
    requires forall i, j :: 0 <= i < j < |log| && log[i] == log[j] ==> log[i] != p
    ensures multiset(log)[p] <= 1
    decreases |log|
  {
    if log != [] {
      var front := log[..|log| - 1];
      assert log == front + [log[|log| - 1]];
      OnceIfNeverRepeated(front, p);
      if log[|log| - 1] == p {
        forall i | 0 <= i < |front|
          ensures front[i] != p
        {
          assert log[i] == front[i];
        }
        assert p !in multiset(front);
      }
    }
  }
}
