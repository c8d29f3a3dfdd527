/** Sets that keep insertion order, as lists. */
module Lists {

  /** `Set.delete` on a set that keeps insertion order. */
  function Without<T(==)>(s: seq<T>, x: T): (r: seq<T>)
    ensures forall y | y in r :: y in s && y != x
    ensures forall y | y in s && y != x :: y in r
    ensures |r| <= |s|
  {
    if s == [] then []
    else (if s[0] == x then [] else [s[0]]) + Without(s[1..], x)
  }

  ghost predicate NoRepeats<T>(s: seq<T>) {
    forall i, j | 0 <= i < j < |s| :: s[i] != s[j]
  }

  lemma {:induction false} WithoutNoRepeats<T>(s: seq<T>, x: T)
    requires NoRepeats(s)
    ensures NoRepeats(Without(s, x))
  {
    if s != [] {
      WithoutNoRepeats(s[1..], x);
      assert forall i | 0 <= i < |Without(s[1..], x)| :: Without(s[1..], x)[i] in s[1..];
    }
  }

  /** Exactly this element goes, and the rest stay as they stood. */
  lemma {:induction false} WithoutCut<T>(a: seq<T>, x: T, b: seq<T>)
    requires x !in a && x !in b
    ensures Without(a + [x] + b, x) == a + b
  {
    if a == [] {
      assert ([] + [x] + b)[1..] == b;
      WithoutAbsent(b, x);
    } else {
      WithoutCut(a[1..], x, b);
      assert (a + [x] + b)[1..] == a[1..] + [x] + b;
    }
  }

  lemma {:induction false} WithoutAbsent<T>(s: seq<T>, x: T)
    requires x !in s
    ensures Without(s, x) == s
  {
    if s != [] {
      WithoutAbsent(s[1..], x);
    }
  }

  /** Counting by places: one place more. */
  lemma OneMoreCounted<T>(before: set<T>, now: set<T>, n: T, more: bool)
    requires n !in before && forall i :: i in now <==> i in before || (i == n && more)
    ensures |now| == |before| + if more then 1 else 0
  {
    assert now == if more then before + {n} else before;
  }
}
