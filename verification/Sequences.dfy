/** Parts of sequences: the entries under one name, and subsequences. */
module Sequences {

  /** The entries of `xs` that belong to `i`. */
  function By<T, U(==)>(xs: seq<T>, who: seq<U>, i: U): seq<T>
    requires |xs| == |who|
  {
    if xs == [] then []
    else By(xs[..|xs| - 1], who[..|who| - 1], i) + (if who[|who| - 1] == i then [xs[|xs| - 1]] else [])
  }

  lemma {:induction false} ByAppend<T, U>(xs: seq<T>, who: seq<U>, x: T, k: U, i: U)
    requires |xs| == |who|
    ensures By(xs + [x], who + [k], i) == By(xs, who, i) + (if k == i then [x] else [])
  {
  }

  predicate Increasing(f: seq<nat>) {
    forall a, b | 0 <= a < b < |f| :: f[a] < f[b]
  }

  /** In order, exactly the entries that stand under the name `i`. */
  lemma {:induction false} ByPositions<T, U>(xs: seq<T>, who: seq<U>, i: U) returns (f: seq<nat>)
    requires |xs| == |who|
    ensures |f| == |By(xs, who, i)| && Increasing(f)
    ensures forall a | 0 <= a < |f| :: f[a] < |xs| && who[f[a]] == i && xs[f[a]] == By(xs, who, i)[a]
    ensures forall k | 0 <= k < |xs| && who[k] == i :: k in f
  {
    f := [];
    if xs != [] {
      var m := |xs| - 1;
      f := ByPositions(xs[..m], who[..m], i);
      PositionsOfPrefix(xs, who, i, f);
      hide By;
      ByLast(xs, who, i);
      if who[m] == i {
        f := f + [m];
        assert f[|f| - 1] == m;
        assert forall k | k in f[..|f| - 1] :: k in f;
      }
    }
  }

  lemma {:induction false} PositionsOfPrefix<T, U>(xs: seq<T>, who: seq<U>, i: U, f: seq<nat>)
    requires |xs| == |who| && xs != []
    requires var m := |xs| - 1;
             && |f| == |By(xs[..m], who[..m], i)|
             && (forall a | 0 <= a < |f| ::
                   f[a] < m && who[..m][f[a]] == i && xs[..m][f[a]] == By(xs[..m], who[..m], i)[a])
             && (forall k | 0 <= k < m && who[..m][k] == i :: k in f)
    ensures var m := |xs| - 1;
            && (forall a | 0 <= a < |f| :: f[a] < m && who[f[a]] == i && xs[f[a]] == By(xs[..m], who[..m], i)[a])
            && (forall k | 0 <= k < m && who[k] == i :: k in f)
  {
    hide By;
    var m := |xs| - 1;
    forall k | 0 <= k < m && who[k] == i ensures k in f {
      assert who[..m][k] == i;
    }
  }

  lemma {:induction false} ByLast<T, U>(xs: seq<T>, who: seq<U>, i: U)
    requires |xs| == |who| && xs != []
    ensures var m := |xs| - 1;
            By(xs, who, i) == By(xs[..m], who[..m], i) + (if who[m] == i then [xs[m]] else [])
  {
  }

  lemma {:induction false} ByConcat<T, U>(xs: seq<T>, who: seq<U>, ys: seq<T>, whose: seq<U>, i: U)
    requires |xs| == |who| && |ys| == |whose|
    ensures By(xs + ys, who + whose, i) == By(xs, who, i) + By(ys, whose, i)
  {
    if ys == [] {
      assert xs + ys == xs && who + whose == who;
    } else {
      var m := |ys| - 1;
      ByConcat(xs, who, ys[..m], whose[..m], i);
      assert (xs + ys)[..|xs + ys| - 1] == xs + ys[..m];
      assert (who + whose)[..|xs + ys| - 1] == who + whose[..m];
    }
  }

  lemma {:induction false} ByAll<T, U>(xs: seq<T>, who: seq<U>, i: U)
    requires |xs| == |who| && forall k | 0 <= k < |who| :: who[k] == i
    ensures By(xs, who, i) == xs
  {
    if xs != [] {
      ByAll(xs[..|xs| - 1], who[..|xs| - 1], i);
    }
  }

  lemma {:induction false} ByHasOneLength<T, U>(xs: seq<T>, ys: seq<U>, who: seq<nat>, i: nat)
    requires |xs| == |ys| == |who|
    ensures |By(xs, who, i)| == |By(ys, who, i)|
  {
    if xs != [] {
      var m := |xs| - 1;
      ByHasOneLength(xs[..m], ys[..m], who[..m], i);
    }
  }

  /** `a` is what is left of `b` after leaving some entries out. */
  predicate Subsequence<T(==)>(a: seq<T>, b: seq<T>) {
    a == [] || (b != [] && (Subsequence(a, b[1..]) || (a[0] == b[0] && Subsequence(a[1..], b[1..]))))
  }

  /** `f` embeds `a` in `b`, in order. */
  predicate Embeds<T(==)>(f: seq<nat>, a: seq<T>, b: seq<T>) {
    |f| == |a| && Increasing(f) && forall k | 0 <= k < |f| :: f[k] < |b| && a[k] == b[f[k]]
  }

  lemma {:induction false} SubsequenceEmbeds<T>(a: seq<T>, b: seq<T>) returns (f: seq<nat>)
    requires Subsequence(a, b)
    ensures Embeds(f, a, b)
  {
    if a == [] {
      f := [];
    } else if Subsequence(a, b[1..]) {
      var g := SubsequenceEmbeds(a, b[1..]);
      f := seq(|g|, k requires 0 <= k < |g| => g[k] + 1);
    } else {
      var g := SubsequenceEmbeds(a[1..], b[1..]);
      f := [0] + seq(|g|, k requires 0 <= k < |g| => g[k] + 1);
    }
  }

  lemma {:induction false} EmbeddingIsSubsequence<T>(a: seq<T>, b: seq<T>, f: seq<nat>)
    requires Embeds(f, a, b)
    ensures Subsequence(a, b)
    decreases |b|
  {
    if a != [] {
      if f[0] == 0 {
        var g := seq(|f| - 1, k requires 0 <= k < |f| - 1 => (f[k + 1] - 1) as nat);
        EmbeddingIsSubsequence(a[1..], b[1..], g);
      } else {
        var g := seq(|f|, k requires 0 <= k < |f| => (f[k] - 1) as nat);
        EmbeddingIsSubsequence(a, b[1..], g);
      }
    }
  }

  /** A subsequence is what an order-keeping map of positions picks out. */
  lemma {:induction false} SubsequenceIff<T>(a: seq<T>, b: seq<T>)
    ensures Subsequence(a, b) <==> exists f :: Embeds(f, a, b)
  {
    if Subsequence(a, b) {
      var f := SubsequenceEmbeds(a, b);
    }
    if f :| Embeds(f, a, b) {
      EmbeddingIsSubsequence(a, b, f);
    }
  }

  lemma {:induction false} SubsequenceOfItself<T>(a: seq<T>)
    ensures Subsequence(a, a)
  {
    if a != [] {
      SubsequenceOfItself(a[1..]);
    }
  }

  lemma {:induction false} SubsequenceTransitive<T>(a: seq<T>, b: seq<T>, c: seq<T>)
    requires Subsequence(a, b) && Subsequence(b, c)
    ensures Subsequence(a, c)
  {
    if a != [] {
      if Subsequence(b, c[1..]) {
        SubsequenceTransitive(a, b, c[1..]);
      } else if Subsequence(a, b[1..]) {
        SubsequenceTransitive(a, b[1..], c[1..]);
      } else {
        SubsequenceTransitive(a[1..], b[1..], c[1..]);
      }
    }
  }

  lemma {:induction false} SubsequenceConcat<T>(a: seq<T>, b: seq<T>, c: seq<T>, d: seq<T>)
    requires Subsequence(a, b) && Subsequence(c, d)
    ensures Subsequence(a + c, b + d)
    decreases |b|
  {
    if b == [] {
      assert a + c == c && b + d == d;
    } else {
      assert (b + d)[1..] == b[1..] + d;
      if Subsequence(a, b[1..]) {
        SubsequenceConcat(a, b[1..], c, d);
      } else {
        assert (a + c)[1..] == a[1..] + c;
        SubsequenceConcat(a[1..], b[1..], c, d);
      }
    }
  }

  /** What `j` took, of what `i` put in, stands in order among all that `i` put in. */
  lemma {:induction false} ByWithinBy<T>(xs: seq<T>, givers: seq<nat>, takers: seq<nat>, i: nat, j: nat)
    requires |xs| == |givers| == |takers|
    ensures |By(xs, takers, j)| == |By(givers, takers, j)|
    ensures Subsequence(By(By(xs, takers, j), By(givers, takers, j), i), By(xs, givers, i))
  {
    ByHasOneLength(xs, givers, takers, j);
    if xs != [] {
      var m := |xs| - 1;
      ByHasOneLength(xs[..m], givers[..m], takers[..m], j);
      ByWithinBy(xs[..m], givers[..m], takers[..m], i, j);
      var mine, from := By(xs[..m], takers[..m], j), By(givers[..m], takers[..m], j);
      ByAppend(mine, from, xs[m], givers[m], i);
      var last := if givers[m] == i then [xs[m]] else [];
      var taken := if takers[m] == j then last else [];
      SubsequenceOfItself(last);
      SubsequenceConcat(By(mine, from, i), By(xs[..m], givers[..m], i), taken, last);
      assert mine + [] == mine && from + [] == from;
      assert By(By(xs, takers, j), By(givers, takers, j), i) == By(mine, from, i) + taken;
      assert By(xs, givers, i) == By(xs[..m], givers[..m], i) + last;
    }
  }

  lemma {:induction false} ByOfPrefix<T>(xs: seq<T>, who: seq<nat>, n: nat, i: nat)
    requires |xs| == |who| && n <= |xs|
    ensures By(xs[..n], who[..n], i) <= By(xs, who, i)
  {
    if n < |xs| {
      var m := |xs| - 1;
      ByOfPrefix(xs[..m], who[..m], n, i);
      assert xs[..m][..n] == xs[..n] && who[..m][..n] == who[..n];
    } else {
      assert xs[..n] == xs && who[..n] == who;
    }
  }

  lemma {:induction false} PrefixIsSubsequence<T>(a: seq<T>, b: seq<T>)
    requires a <= b
    ensures Subsequence(a, b)
  {
    SubsequenceOfItself(a);
    SubsequenceConcat(a, a, [], b[|a|..]);
    assert a + [] == a && a + b[|a|..] == b;
  }
}
