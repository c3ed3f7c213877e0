/** Finite sums over sequences: the shape of every `SUM(...)` query and running total. */
module Sums {

  function SumReal<T>(s: seq<T>, f: T -> real): real {
    if s == [] then 0.0 else SumReal(s[..|s| - 1], f) + f(s[|s| - 1])
  }

  function SumInt<T>(s: seq<T>, f: T -> int): int {
    if s == [] then 0 else SumInt(s[..|s| - 1], f) + f(s[|s| - 1])
  }

  lemma SumRealAppend<T>(s: seq<T>, x: T, f: T -> real)
    ensures SumReal(s + [x], f) == SumReal(s, f) + f(x)
  {
  }

  lemma SumIntAppend<T>(s: seq<T>, x: T, f: T -> int)
    ensures SumInt(s + [x], f) == SumInt(s, f) + f(x)
  {
  }

  lemma {:induction false} SumRealConcat<T>(s: seq<T>, t: seq<T>, f: T -> real)
    ensures SumReal(s + t, f) == SumReal(s, f) + SumReal(t, f)
  {
    if t == [] {
      assert s + t == s;
    } else {
      var m := |t| - 1;
      SumRealConcat(s, t[..m], f);
      assert (s + t)[..|s + t| - 1] == s + t[..m];
    }
  }

  lemma {:induction false} SumIntConcat<T>(s: seq<T>, t: seq<T>, f: T -> int)
    ensures SumInt(s + t, f) == SumInt(s, f) + SumInt(t, f)
  {
    if t == [] {
      assert s + t == s;
    } else {
      var m := |t| - 1;
      SumIntConcat(s, t[..m], f);
      assert (s + t)[..|s + t| - 1] == s + t[..m];
    }
  }

  /** Replacing one row moves the sum by the difference of that row's terms. */
  lemma {:induction false} SumRealUpdate<T>(s: seq<T>, i: nat, x: T, f: T -> real)
    requires i < |s|
    ensures SumReal(s[i := x], f) == SumReal(s, f) - f(s[i]) + f(x)
  {
    var n := |s| - 1;
    if i == n {
      assert s[i := x][..n] == s[..n];
    } else {
      assert s[i := x][..n] == s[..n][i := x];
      SumRealUpdate(s[..n], i, x, f);
    }
  }

  lemma {:induction false} SumIntUpdate<T>(s: seq<T>, i: nat, x: T, f: T -> int)
    requires i < |s|
    ensures SumInt(s[i := x], f) == SumInt(s, f) - f(s[i]) + f(x)
  {
    var n := |s| - 1;
    if i == n {
      assert s[i := x][..n] == s[..n];
    } else {
      assert s[i := x][..n] == s[..n][i := x];
      SumIntUpdate(s[..n], i, x, f);
    }
  }

  lemma {:induction false} SumRealMonotone<T>(s: seq<T>, f: T -> real, g: T -> real)
    requires forall x :: x in s ==> f(x) <= g(x)
    ensures SumReal(s, f) <= SumReal(s, g)
  {
    if s != [] {
      SumRealMonotone(s[..|s| - 1], f, g);
    }
  }

  /** Terms that agree on the rows give the same sum. */
  lemma {:induction false} SumRealSame<T>(s: seq<T>, f: T -> real, g: T -> real)
    requires forall x :: x in s ==> f(x) == g(x)
    ensures SumReal(s, f) == SumReal(s, g)
  {
    if s != [] {
      SumRealSame(s[..|s| - 1], f, g);
    }
  }

  lemma {:induction false} SumRealPlus<T>(s: seq<T>, f: T -> real, g: T -> real, h: T -> real)
    requires forall x :: x in s ==> h(x) == f(x) + g(x)
    ensures SumReal(s, h) == SumReal(s, f) + SumReal(s, g)
  {
    if s != [] {
      SumRealPlus(s[..|s| - 1], f, g, h);
    }
  }

  /** A sum that takes `c` once for every counted row. */
  lemma {:induction false} SumRealCounted<T>(s: seq<T>, f: T -> real, count: T -> int, c: real)
    requires forall x :: x in s ==> (count(x) == 0 && f(x) == 0.0) || (count(x) == 1 && f(x) == c)
    ensures 0 <= SumInt(s, count) && SumReal(s, f) == SumInt(s, count) as real * c
  {
    if s != [] {
      SumRealCounted(s[..|s| - 1], f, count, c);
    }
  }

  lemma SumIntZero<T>(s: seq<T>, f: T -> int)
    requires forall x :: x in s ==> f(x) == 0
    ensures SumInt(s, f) == 0
  {
  }

  lemma SumRealNonNegative<T>(s: seq<T>, f: T -> real)
    requires forall x :: x in s ==> 0.0 <= f(x)
    ensures 0.0 <= SumReal(s, f)
  {
  }

  lemma SumIntNonNegative<T>(s: seq<T>, f: T -> int)
    requires forall x :: x in s ==> 0 <= f(x)
    ensures 0 <= SumInt(s, f)
  {
  }

  lemma IntBetween<T>(a: seq<T>, x: T, b: seq<T>, f: T -> int)
    ensures SumInt(a + [x] + b, f) == SumInt(a + b, f) + f(x)
  {
    SumIntConcat(a + [x], b, f);
    SumIntAppend(a, x, f);
    SumIntConcat(a, b, f);
  }

  lemma RealBetween<T>(a: seq<T>, x: T, b: seq<T>, g: T -> real)
    ensures SumReal(a + [x] + b, g) == SumReal(a + b, g) + g(x)
  {
    SumRealConcat(a + [x], b, g);
    SumRealAppend(a, x, g);
    SumRealConcat(a, b, g);
  }

  lemma SplitAt<T>(t: seq<T>, k: nat)
    requires k < |t|
    ensures t == t[..k] + [t[k]] + t[k + 1..]
  {
  }

  /** Taking one row out of a sequence takes its term out of both sums. */
  lemma SumsWithout<T>(t: seq<T>, k: nat, f: T -> int, g: T -> real)
    requires k < |t|
    ensures SumInt(t, f) == SumInt(t[..k] + t[k + 1..], f) + f(t[k])
    ensures SumReal(t, g) == SumReal(t[..k] + t[k + 1..], g) + g(t[k])
  {
    SplitAt(t, k);
    IntBetween(t[..k], t[k], t[k + 1..], f);
    RealBetween(t[..k], t[k], t[k + 1..], g);
  }

  lemma BagWithout<T>(t: seq<T>, k: nat)
    requires k < |t|
    ensures multiset(t[..k] + t[k + 1..]) == multiset(t) - multiset{t[k]}
  {
    assert t == (t[..k] + [t[k]]) + t[k + 1..];
  }

  /** Sums depend only on the bag of rows, not on their order. */
  lemma {:induction false} SumsOfPermutation<T>(s: seq<T>, t: seq<T>, f: T -> int, g: T -> real)
    requires multiset(s) == multiset(t)
    ensures SumInt(s, f) == SumInt(t, f)
    ensures SumReal(s, g) == SumReal(t, g)
    decreases |s|
  {
    if s == [] {
      assert |multiset(t)| == 0;
    } else {
      var n := |s| - 1;
      assert s[n] in multiset(t);
      var k :| 0 <= k < |t| && t[k] == s[n];
      SumsWithout(t, k, f, g);
      BagWithout(t, k);
      BagWithout(s, n);
      assert s[..n] + s[n + 1..] == s[..n];
      SumsOfPermutation(s[..n], t[..k] + t[k + 1..], f, g);
    }
  }
}
