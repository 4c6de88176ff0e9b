/** Substring search, counting and replacement, on sequences that compare for equality. */
module Sequences {

  /** `needle in s`. */
  predicate Occurs<T(==)>(needle: seq<T>, s: seq<T>) {
    needle <= s || (s != [] && Occurs(needle, s[1..]))
  }

  /** `s.replace(pattern, substitute)`: all matches from left to right, none overlapping. */
  function ReplaceAll<T(==)>(s: seq<T>, pattern: seq<T>, substitute: seq<T>): seq<T>
    requires pattern != []
    decreases |s|
  {
    if s == [] then []
    else if pattern <= s then substitute + ReplaceAll(s[|pattern|..], pattern, substitute)
    else [s[0]] + ReplaceAll(s[1..], pattern, substitute)
  }

  /** `s.count(pattern)`: the matches that `ReplaceAll` replaces. */
  function CountAll<T(==)>(s: seq<T>, pattern: seq<T>): nat
    requires pattern != []
    decreases |s|
  {
    if s == [] then 0
    else if pattern <= s then 1 + CountAll(s[|pattern|..], pattern)
    else CountAll(s[1..], pattern)
  }

  /** No match of `pattern` begins in the first part of `t + u`. */
  ghost predicate NoneBegins<T>(pattern: seq<T>, t: seq<T>, u: seq<T>) {
    forall o | 0 <= o < |t| :: !(pattern <= (t + u)[o..])
  }

  lemma {:induction false} Miss<T>(pattern: seq<T>, substitute: seq<T>, t: seq<T>, u: seq<T>)
    requires pattern != [] && NoneBegins(pattern, t, u)
    ensures ReplaceAll(t + u, pattern, substitute) == t + ReplaceAll(u, pattern, substitute)
    ensures CountAll(t + u, pattern) == CountAll(u, pattern)
  {
    if t == [] {
      assert t + u == u;
    } else {
      var s := t + u;
      assert s[0..] == s;
      assert s[1..] == t[1..] + u;
      forall o | 0 <= o < |t[1..]|
        ensures !(pattern <= (t[1..] + u)[o..])
      {
        assert (t[1..] + u)[o..] == s[o + 1..];
      }
      Miss(pattern, substitute, t[1..], u);
    }
  }

  lemma Hit<T>(pattern: seq<T>, substitute: seq<T>, u: seq<T>)
    requires pattern != []
    ensures ReplaceAll(pattern + u, pattern, substitute) == substitute + ReplaceAll(u, pattern, substitute)
    ensures CountAll(pattern + u, pattern) == 1 + CountAll(u, pattern)
  {
    assert (pattern + u)[|pattern|..] == u;
  }

  lemma {:induction false} OccursAt<T>(needle: seq<T>, s: seq<T>, i: nat)
    requires i <= |s| && needle <= s[i..]
    ensures Occurs(needle, s)
  {
    if i > 0 {
      assert s[1..][i - 1..] == s[i..];
      OccursAt(needle, s[1..], i - 1);
    } else {
      assert s[0..] == s;
    }
  }

  lemma {:induction false} OccursFrom<T>(needle: seq<T>, t: seq<T>, u: seq<T>)
    requires Occurs(needle, u)
    ensures Occurs(needle, t + u)
  {
    if t == [] {
      assert t + u == u;
    } else {
      assert (t + u)[1..] == t[1..] + u;
      OccursFrom(needle, t[1..], u);
    }
  }

  /** A needle in a prefix of `s` is in `s`. */
  lemma {:induction false} OccursInPrefix<T>(needle: seq<T>, t: seq<T>, u: seq<T>)
    requires Occurs(needle, t)
    ensures Occurs(needle, t + u)
  {
    if needle <= t {
      assert needle <= t + u;
    } else {
      assert (t + u)[1..] == t[1..] + u;
      OccursInPrefix(needle, t[1..], u);
    }
  }

  /** Counting finds a match exactly when there is one. */
  lemma {:induction false} CountIffOccurs<T>(s: seq<T>, pattern: seq<T>)
    requires pattern != []
    ensures CountAll(s, pattern) > 0 <==> Occurs(pattern, s)
  {
    if s != [] && !(pattern <= s) {
      CountIffOccurs(s[1..], pattern);
    }
  }
}
