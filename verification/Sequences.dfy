/// Sequences made by a loop that appends something for every member.
module Sequences {

  function Map<A, B>(f: A -> B, xs: seq<A>): (ys: seq<B>)
    ensures |ys| == |xs| && forall i | 0 <= i < |xs| :: ys[i] == f(xs[i])
  {
    seq(|xs|, i requires 0 <= i < |xs| => f(xs[i]))
  }

  lemma MapLast<A, B>(f: A -> B, xs: seq<A>, k: nat)
    requires k < |xs|
    ensures Map(f, xs[..k + 1]) == Map(f, xs[..k]) + [f(xs[k])]
  {
  }

  function Collect<A, B>(f: A -> seq<B>, xs: seq<A>): seq<B> {
    if xs == [] then [] else Collect(f, xs[..|xs| - 1]) + f(xs[|xs| - 1])
  }

  lemma CollectLast<A, B>(f: A -> seq<B>, front: seq<A>, x: A)
    ensures Collect(f, front + [x]) == Collect(f, front) + f(x)
  {
    assert (front + [x])[..|front|] == front;
  }

  lemma CollectOne<A, B>(f: A -> seq<B>, x: A)
    ensures Collect(f, [x]) == f(x)
  {
    CollectLast(f, [], x);
    assert [] + [x] == [x];
  }

  lemma CollectStep<A, B>(f: A -> seq<B>, xs: seq<A>, k: nat)
    requires k < |xs|
    ensures Collect(f, xs[..k + 1]) == Collect(f, xs[..k]) + f(xs[k])
  {
    CollectLast(f, xs[..k], xs[k]);
    assert xs[..k + 1] == xs[..k] + [xs[k]];
  }

  lemma Assoc<B>(a: seq<B>, b: seq<B>, c: seq<B>)
    ensures a + b + c == a + (b + c)
  {
  }

  lemma ConcatLast<A, B>(f: A -> seq<B>, a: seq<A>, front: seq<A>, x: A)
    ensures Collect(f, a + (front + [x])) == Collect(f, a + front) + f(x)
  {
    CollectLast(f, a + front, x);
    Assoc(a, front, [x]);
  }

  lemma {:induction false} CollectConcat<A, B>(f: A -> seq<B>, a: seq<A>, b: seq<A>)
    ensures Collect(f, a + b) == Collect(f, a) + Collect(f, b)
    decreases |b|
  {
    if b == [] {
      assert a + b == a;
    } else {
      var front, last := b[..|b| - 1], b[|b| - 1];
      assert b == front + [last];
      CollectConcat(f, a, front);
      ConcatLast(f, a, front, last);
      Assoc(Collect(f, a), Collect(f, front), f(last));
    }
  }

  lemma {:induction false} CollectPointwise<A, B, C>(f: A -> seq<C>, xs: seq<A>, g: B -> seq<C>, ys: seq<B>)
    requires |xs| == |ys| && forall i | 0 <= i < |xs| :: f(xs[i]) == g(ys[i])
    ensures Collect(f, xs) == Collect(g, ys)
  {
    if xs != [] {
      CollectPointwise(f, xs[..|xs| - 1], g, ys[..|ys| - 1]);
    }
  }

  /// Nothing is collected exactly when every member gives nothing.
  lemma {:induction false} CollectNoneIff<A, B>(f: A -> seq<B>, xs: seq<A>)
    ensures Collect(f, xs) == [] <==> forall i | 0 <= i < |xs| :: f(xs[i]) == []
  {
    if xs != [] {
      var front, last := xs[..|xs| - 1], xs[|xs| - 1];
      CollectNoneIff(f, front);
      assert |Collect(f, xs)| == |Collect(f, front)| + |f(last)|;
      assert forall i | 0 <= i < |front| :: front[i] == xs[i];
    }
  }

  /// Two loops that append equally much each time collect the same exactly when they append the same.
  lemma {:induction false} CollectSameIff<A, B>(f: A -> seq<B>, g: A -> seq<B>, xs: seq<A>)
    requires forall i | 0 <= i < |xs| :: |f(xs[i])| == |g(xs[i])|
    ensures |Collect(f, xs)| == |Collect(g, xs)|
    ensures Collect(f, xs) == Collect(g, xs) <==> forall i | 0 <= i < |xs| :: f(xs[i]) == g(xs[i])
  {
    if xs != [] {
      var front, last := xs[..|xs| - 1], xs[|xs| - 1];
      CollectSameIff(f, g, front);
      SameParts(Collect(f, front), f(last), Collect(g, front), g(last));
      assert forall i | 0 <= i < |front| :: front[i] == xs[i];
    }
  }

  lemma SameParts<B>(a: seq<B>, b: seq<B>, c: seq<B>, d: seq<B>)
    requires |a| == |c| && |b| == |d|
    ensures a + b == c + d <==> a == c && b == d
  {
    if a + b == c + d {
      assert a == (a + b)[..|a|] && c == (c + d)[..|a|];
      assert b == (a + b)[|a|..] && d == (c + d)[|a|..];
    }
  }

  lemma {:induction false} CollectAll<A>(f: A -> seq<A>, xs: seq<A>)
    requires forall i | 0 <= i < |xs| :: f(xs[i]) == [xs[i]]
    ensures Collect(f, xs) == xs
  {
    if xs != [] {
      CollectAll(f, xs[..|xs| - 1]);
    }
  }

  lemma {:induction false} CollectedFrom<A, B>(f: A -> seq<B>, xs: seq<A>, y: B) returns (i: nat)
    requires y in Collect(f, xs)
    ensures i < |xs| && y in f(xs[i])
  {
    var front := xs[..|xs| - 1];
    if y in Collect(f, front) {
      i := CollectedFrom(f, front, y);
    } else {
      i := |xs| - 1;
    }
  }
}
