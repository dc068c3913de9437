/// Sums over the members of a sequence, used to count the processes in a given phase.
module Counting {

  function Sum<T>(f: T -> nat, xs: seq<T>): nat {
    if xs == [] then 0 else f(xs[0]) + Sum(f, xs[1..])
  }

  lemma {:induction false} SumUpdate<T>(f: T -> nat, xs: seq<T>, i: nat, x: T)
    requires i < |xs|
    ensures Sum(f, xs[i := x]) + f(xs[i]) == Sum(f, xs) + f(x)
  {
    if i == 0 {
      assert xs[0 := x][1..] == xs[1..];
    } else {
      assert xs[i := x][1..] == xs[1..][i - 1 := x];
      SumUpdate(f, xs[1..], i - 1, x);
    }
  }

  lemma {:induction false} SumConcat<T>(f: T -> nat, xs: seq<T>, ys: seq<T>)
    ensures Sum(f, xs + ys) == Sum(f, xs) + Sum(f, ys)
  {
    if xs == [] {
      assert xs + ys == ys;
    } else {
      assert (xs + ys)[0] == xs[0] && (xs + ys)[1..] == xs[1..] + ys;
      SumConcat(f, xs[1..], ys);
    }
  }

  lemma SumAppend<T>(f: T -> nat, xs: seq<T>, x: T)
    ensures Sum(f, xs + [x]) == Sum(f, xs) + f(x)
  {
    SumConcat(f, xs, [x]);
    assert Sum(f, [x]) == f(x) + Sum(f, [x][1..]);
  }

  lemma SumRemove<T>(f: T -> nat, xs: seq<T>, i: nat)
    requires i < |xs|
    ensures Sum(f, xs[..i] + xs[i + 1..]) + f(xs[i]) == Sum(f, xs)
  {
    SumConcat(f, xs[..i], xs[i + 1..]);
    SumConcat(f, xs[..i], xs[i..]);
    assert xs == xs[..i] + xs[i..] && xs[i..][1..] == xs[i + 1..];
  }

  /// Two terms at different places
  lemma SumOfTwo<T>(f: T -> nat, xs: seq<T>, i: nat, j: nat)
    requires i < j < |xs|
    ensures Sum(f, xs) >= f(xs[i]) + f(xs[j])
  {
    SumConcat(f, xs[..j], xs[j..]);
    assert xs == xs[..j] + xs[j..];
    SumAtLeast(f, xs[..j], i);
    SumAtLeast(f, xs[j..], 0);
  }

  lemma {:induction false} SumAtLeast<T>(f: T -> nat, xs: seq<T>, i: nat)
    requires i < |xs|
    ensures Sum(f, xs) >= f(xs[i])
  {
    if i > 0 {
      SumAtLeast(f, xs[1..], i - 1);
    }
  }

  /// The sum is zero exactly when every term is.
  lemma {:induction false} SumZero<T>(f: T -> nat, xs: seq<T>)
    ensures Sum(f, xs) == 0 <==> forall i | 0 <= i < |xs| :: f(xs[i]) == 0
  {
    if xs != [] {
      SumZero(f, xs[1..]);
      assert forall i | 1 <= i < |xs| :: xs[i] == xs[1..][i - 1];
      assert forall i | 0 <= i < |xs| - 1 :: xs[1..][i] == xs[i + 1];
    }
  }

  /// With terms at most one, the sum is at most the length, and smaller when a term is zero.
  lemma {:induction false} SumAtMostLength<T>(f: T -> nat, xs: seq<T>)
    requires forall i | 0 <= i < |xs| :: f(xs[i]) <= 1
    ensures Sum(f, xs) <= |xs|
    ensures Sum(f, xs) == |xs| <==> forall i | 0 <= i < |xs| :: f(xs[i]) == 1
  {
    if xs != [] {
      assert forall i | 0 <= i < |xs| - 1 :: xs[1..][i] == xs[i + 1];
      SumAtMostLength(f, xs[1..]);
    }
  }

  lemma {:induction false} SumRepeat<T>(f: T -> nat, n: nat, x: T)
    ensures Sum(f, seq(n, _ => x)) == n * f(x)
  {
    if n > 0 {
      assert seq(n, _ => x)[1..] == seq(n - 1, _ => x);
      SumRepeat(f, n - 1, x);
    }
  }
}
