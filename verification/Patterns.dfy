/** Occurrences of a pattern in a sequence: what the replacing passes over traces and cache keys share. */
module Patterns {
  /** The pattern occurs nowhere. */
  ghost predicate Lacks<T>(s: seq<T>, pattern: seq<T>) {
    forall i: nat {:trigger s[i..]} | i <= |s| :: !(pattern <= s[i..])
  }

  lemma LacksDrop<T>(s: seq<T>, pattern: seq<T>, n: nat)
    requires n <= |s| && Lacks(s, pattern)
    ensures Lacks(s[n..], pattern)
  {
    forall i: nat | i <= |s| - n
      ensures !(pattern <= s[n..][i..])
    {
      assert s[n..][i..] == s[n + i..];
    }
  }

  lemma LacksTail<T>(s: seq<T>, pattern: seq<T>)
    requires s != [] && Lacks(s, pattern)
    ensures Lacks(s[1..], pattern)
  {
    LacksDrop(s, pattern, 1);
  }

  lemma LacksMore<T>(s: seq<T>, pattern: seq<T>)
    requires s != [] && Lacks(s[1..], pattern) && !(pattern <= s)
    ensures Lacks(s, pattern)
  {
    forall i: nat | i <= |s|
      ensures !(pattern <= s[i..])
    {
      if i > 0 {
        assert s[i..] == s[1..][i - 1..];
      } else {
        assert s[0..] == s;
      }
    }
  }
}
