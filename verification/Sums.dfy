/** Totals of integer weights over a sequence. */
module Sums {

  function Min(a: int, b: int): int {
    if a <= b then a else b
  }

  function Max(a: int, b: int): int {
    if a >= b then a else b
  }

  function Sum<T>(xs: seq<T>, f: T -> int): int {
    if xs == [] then 0 else Sum(xs[..|xs| - 1], f) + f(xs[|xs| - 1])
  }

  lemma SumNext<T>(xs: seq<T>, i: nat, f: T -> int)
    requires i < |xs|
    ensures Sum(xs[..i + 1], f) == Sum(xs[..i], f) + f(xs[i])
  {
    assert xs[..i + 1][..i] == xs[..i];
  }

  lemma SumSnoc<T>(xs: seq<T>, x: T, f: T -> int)
    ensures Sum(xs + [x], f) == Sum(xs, f) + f(x)
  {
    assert (xs + [x])[..|xs|] == xs;
  }

  lemma {:induction false} SumUpdate<T>(xs: seq<T>, i: nat, x: T, f: T -> int)
    requires i < |xs|
    ensures Sum(xs[i := x], f) == Sum(xs, f) - f(xs[i]) + f(x)
    decreases |xs|
  {
    var n := |xs| - 1;
    if i < n {
      assert xs[i := x][..n] == xs[..n][i := x];
      SumUpdate(xs[..n], i, x, f);
    } else {
      assert xs[i := x][..n] == xs[..n];
    }
  }

  /** A linear relation between weights carries over to their totals. */
  lemma {:induction false} SumLinear<T>(xs: seq<T>, f: T -> int, g: T -> int, c: int, h: T -> int)
    requires forall i | 0 <= i < |xs| :: h(xs[i]) == f(xs[i]) + c * g(xs[i])
    ensures Sum(xs, h) == Sum(xs, f) + c * Sum(xs, g)
    decreases |xs|
  {
    if xs != [] {
      var n := |xs| - 1;
      assert forall i | 0 <= i < n :: xs[..n][i] == xs[i];
      SumLinear(xs[..n], f, g, c, h);
      assert h(xs[n]) == f(xs[n]) + c * g(xs[n]);
      assert c * (Sum(xs[..n], g) + g(xs[n])) == c * Sum(xs[..n], g) + c * g(xs[n]);
    }
  }

  lemma {:induction false} SumBounds<T>(xs: seq<T>, f: T -> int, g: T -> int)
    requires forall i | 0 <= i < |xs| :: f(xs[i]) <= g(xs[i])
    ensures Sum(xs, f) <= Sum(xs, g)
    decreases |xs|
  {
    if xs != [] {
      var n := |xs| - 1;
      assert forall i | 0 <= i < n :: xs[..n][i] == xs[i];
      SumBounds(xs[..n], f, g);
    }
  }

  lemma {:induction false} SumZero<T>(xs: seq<T>, f: T -> int)
    requires forall i | 0 <= i < |xs| :: f(xs[i]) == 0
    ensures Sum(xs, f) == 0
    decreases |xs|
  {
    if xs != [] {
      var n := |xs| - 1;
      assert forall i | 0 <= i < n :: xs[..n][i] == xs[i];
      SumZero(xs[..n], f);
    }
  }

  lemma {:induction false} SumOne<T>(xs: seq<T>, f: T -> int)
    requires forall i | 0 <= i < |xs| :: f(xs[i]) == 1
    ensures Sum(xs, f) == |xs|
    decreases |xs|
  {
    if xs != [] {
      var n := |xs| - 1;
      assert forall i | 0 <= i < n :: xs[..n][i] == xs[i];
      SumOne(xs[..n], f);
    }
  }

  /** One weight is at most the total of nonnegative weights. */
  lemma {:induction false} SumAtLeast<T>(xs: seq<T>, f: T -> int, i: nat)
    requires i < |xs| && forall j | 0 <= j < |xs| :: f(xs[j]) >= 0
    ensures Sum(xs, f) >= f(xs[i])
    decreases |xs|
  {
    var n := |xs| - 1;
    assert forall j | 0 <= j < n :: xs[..n][j] == xs[j];
    if i < n {
      SumAtLeast(xs[..n], f, i);
    } else {
      SumNonnegative(xs[..n], f);
    }
  }

  lemma {:induction false} SumNonnegative<T>(xs: seq<T>, f: T -> int)
    requires forall j | 0 <= j < |xs| :: f(xs[j]) >= 0
    ensures Sum(xs, f) >= 0
    decreases |xs|
  {
    if xs != [] {
      var n := |xs| - 1;
      assert forall j | 0 <= j < n :: xs[..n][j] == xs[j];
      SumNonnegative(xs[..n], f);
    }
  }
}
