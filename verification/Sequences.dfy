// Sequences without one of their elements.
module Sequences {
  // The sequence with the first occurrence of x taken out.
  function Without<T(==)>(s: seq<T>, x: T): seq<T> {
    if s == [] then [] else if s[0] == x then s[1..] else [s[0]] + Without(s[1..], x)
  }

  ghost predicate Distinct<T>(s: seq<T>) {
    forall i, j :: 0 <= i < j < |s| ==> s[i] != s[j]
  }

  lemma ConcatAssoc<T>(a: seq<T>, b: seq<T>, c: seq<T>)
    ensures (a + b) + c == a + (b + c)
  {
  }

  lemma {:induction false} WithoutAbsent<T>(s: seq<T>, x: T)
    requires x !in s
    ensures Without(s, x) == s
  {
    if s != [] {
      WithoutAbsent(s[1..], x);
    }
  }

  lemma {:induction false} WithoutDistinct<T>(s: seq<T>, x: T)
    requires Distinct(s)
    ensures Distinct(Without(s, x)) && x !in Without(s, x)
    ensures forall y :: y in s && y != x ==> y in Without(s, x)
    ensures forall i {:trigger Without(s, x)[i]} :: 0 <= i < |Without(s, x)| ==> Without(s, x)[i] in s
  {
    if s != [] && s[0] != x {
      WithoutDistinct(s[1..], x);
      assert s[0] !in s[1..] && s == [s[0]] + s[1..];
    }
  }

  lemma {:induction false} WithoutKeepsOthers<T>(s: seq<T>, x: T)
    ensures forall y :: y in s && y != x ==> y in Without(s, x)
  {
    if s != [] && s[0] != x {
      WithoutKeepsOthers(s[1..], x);
    }
  }

  lemma {:induction false} WithoutLength<T>(s: seq<T>, x: T)
    ensures |Without(s, x)| == if x in s then |s| - 1 else |s|
  {
    if s != [] {
      WithoutLength(s[1..], x);
    }
  }

  lemma {:induction false} WithoutWithin<T>(s: seq<T>, x: T)
    ensures forall y :: y in Without(s, x) ==> y in s
  {
    if s != [] && s[0] != x {
      WithoutWithin(s[1..], x);
    }
  }

  lemma {:induction false} WithoutAt<T>(s: seq<T>, x: T, k: nat)
    requires k < |s| && s[k] == x && x !in s[..k]
    ensures Without(s, x) == s[..k] + s[k + 1..]
  {
    if k > 0 {
      assert s[1..][k - 1] == x && s[1..][..k - 1] == s[..k][1..];
      WithoutAt(s[1..], x, k - 1);
    }
  }

  lemma {:induction false} OnceInDistinct<T>(s: seq<T>, x: T)
    requires Distinct(s)
    ensures multiset(s)[x] == if x in s then 1 else 0
  {
    if s != [] {
      OnceInDistinct(s[1..], x);
      assert s == [s[0]] + s[1..] && s[0] !in s[1..];
    }
  }

  lemma HasElement<T>(s: seq<T>)
    requires s != []
    ensures exists x :: x in s
  {
    assert s[0] in s;
  }

  // Distinct numbers below n are at most n.
  lemma {:induction false} Pigeonhole(s: seq<nat>, n: nat)
    requires Distinct(s) && forall x :: x in s ==> 0 <= x < n
    ensures |s| <= n
    decreases n
  {
    if n == 0 {
      if s != [] {
        HasElement(s);
      }
    } else {
      WithoutDistinct(s, n - 1);
      WithoutWithin(s, n - 1);
      Pigeonhole(Without(s, n - 1), n - 1);
      WithoutLength(s, n - 1);
    }
  }
}
