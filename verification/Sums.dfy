/** Sums over sequences and copies of an element in a sequence. */
module Sums {
  function Total<T>(xs: seq<T>, f: T -> int): int {
    if xs == [] then 0 else f(xs[0]) + Total(xs[1..], f)
  }

  lemma {:induction false} TotalUpdate<T>(xs: seq<T>, f: T -> int, k: nat, x: T)
    requires k < |xs|
    ensures Total(xs[k := x], f) == Total(xs, f) - f(xs[k]) + f(x)
    decreases k
  {
    if k == 0 {
      assert xs[0 := x][1..] == xs[1..];
    } else {
      assert xs[k := x][1..] == xs[1..][k - 1 := x];
      TotalUpdate(xs[1..], f, k - 1, x);
    }
  }

  lemma {:induction false} TotalZero<T(!new)>(xs: seq<T>, f: T -> int)
    requires forall x :: f(x) >= 0
    ensures Total(xs, f) >= 0
    ensures Total(xs, f) == 0 <==> forall i | 0 <= i < |xs| :: f(xs[i]) == 0
    decreases |xs|
  {
    if xs != [] {
      TotalZero(xs[1..], f);
      assert forall i | 0 < i < |xs| :: xs[i] == xs[1..][i - 1];
    }
  }

  function Copies<T(==)>(s: seq<T>, x: T): nat {
    multiset(s)[x]
  }

  lemma CopiesConcat<T>(a: seq<T>, b: seq<T>, x: T)
    ensures Copies(a + b, x) == Copies(a, x) + Copies(b, x)
  {
  }

  lemma CopiesOne<T>(y: T, x: T)
    ensures Copies([y], x) == if x == y then 1 else 0
  {
  }

  lemma CopiesIn<T>(s: seq<T>, x: T)
    ensures x in s <==> Copies(s, x) > 0
  {
    assert x in s <==> x in multiset(s);
  }

  // Taking off either end.
  lemma CopiesEnds<T>(s: seq<T>, x: T)
    requires s != []
    ensures Copies(s, x) == Copies(s[1..], x) + if x == s[0] then 1 else 0
    ensures Copies(s, x) == Copies(s[..|s| - 1], x) + if x == s[|s| - 1] then 1 else 0
  {
    assert s == [s[0]] + s[1..] && s == s[..|s| - 1] + [s[|s| - 1]];
    CopiesConcat([s[0]], s[1..], x);
    CopiesConcat(s[..|s| - 1], [s[|s| - 1]], x);
    CopiesOne(s[0], x);
    CopiesOne(s[|s| - 1], x);
  }
}
