/** Sequences: weighted sums and the subsequence order. */
module Sums {

  function Sum<T>(f: T -> int, xs: seq<T>): int {
    if xs == [] then 0 else f(xs[0]) + Sum(f, xs[1..])
  }

  lemma Associate<T>(a: seq<T>, b: seq<T>, c: seq<T>)
    ensures (a + b) + c == a + (b + c)
  {
  }

  lemma {:induction false} SumConcat<T>(f: T -> int, xs: seq<T>, ys: seq<T>)
    ensures Sum(f, xs + ys) == Sum(f, xs) + Sum(f, ys)
  {
    if xs == [] {
      assert xs + ys == ys;
    } else {
      SumConcat(f, xs[1..], ys);
      assert (xs + ys)[1..] == xs[1..] + ys;
    }
  }

  lemma SumSplit<T>(f: T -> int, xs: seq<T>, i: nat)
    requires i < |xs|
    ensures Sum(f, xs) == Sum(f, xs[..i]) + f(xs[i]) + Sum(f, xs[i + 1..])
  {
    assert xs == xs[..i] + xs[i..];
    SumConcat(f, xs[..i], xs[i..]);
    assert xs[i..][1..] == xs[i + 1..];
  }

  lemma SumUpdate<T>(f: T -> int, xs: seq<T>, i: nat, x: T)
    requires i < |xs|
    ensures Sum(f, xs[i := x]) == Sum(f, xs) - f(xs[i]) + f(x)
  {
    SumSplit(f, xs, i);
    SumSplit(f, xs[i := x], i);
    assert xs[i := x][..i] == xs[..i] && xs[i := x][i + 1..] == xs[i + 1..];
  }

  lemma SumOne<T>(f: T -> int, x: T)
    ensures Sum(f, [x]) == f(x)
  {
    assert [x][1..] == [];
  }

  lemma {:induction false} SumNonNegative<T>(f: T -> int, xs: seq<T>)
    requires forall x :: x in xs ==> f(x) >= 0
    ensures Sum(f, xs) >= 0
  {
    if xs != [] {
      SumNonNegative(f, xs[1..]);
    }
  }

  lemma {:induction false} SumPositive<T>(f: T -> int, xs: seq<T>)
    requires forall x :: x in xs ==> f(x) >= 0
    ensures Sum(f, xs) > 0 <==> exists x :: x in xs && f(x) > 0
  {
    if xs != [] {
      SumNonNegative(f, xs[1..]);
      SumPositive(f, xs[1..]);
      if x :| x in xs && f(x) > 0 {
        assert x == xs[0] || x in xs[1..];
      }
    }
  }

  // ----- Subsequences -----

  predicate Subseq<T(==)>(a: seq<T>, b: seq<T>) {
    a == [] || (b != [] && (if a[0] == b[0] then Subseq(a[1..], b[1..]) else Subseq(a, b[1..])))
  }

  lemma {:induction false} SubseqSelf<T>(a: seq<T>)
    ensures Subseq(a, a)
  {
    if a != [] {
      SubseqSelf(a[1..]);
    }
  }

  // Dropping the first element of the smaller side.
  lemma {:induction false} SubseqTail<T>(a: seq<T>, b: seq<T>)
    requires a != [] && Subseq(a, b)
    ensures b != [] && Subseq(a[1..], b[1..])
    decreases |b|, 0
  {
    if a[0] != b[0] {
      SubseqTail(a, b[1..]);
      SubseqSkip(a[1..], b[1..][1..], b[1]);
      assert [b[1]] + b[1..][1..] == b[1..];
    }
  }

  // Growing the larger side in front.
  lemma {:induction false} SubseqSkip<T>(a: seq<T>, b: seq<T>, x: T)
    requires Subseq(a, b)
    ensures Subseq(a, [x] + b)
    decreases |b|, 1
  {
    assert ([x] + b)[1..] == b;
    if a != [] && a[0] == x {
      SubseqTail(a, b);
      SubseqSkip(a[1..], b[1..], b[0]);
      assert [b[0]] + b[1..] == b;
    }
  }

  lemma {:induction false} SubseqTrans<T>(a: seq<T>, b: seq<T>, c: seq<T>)
    requires Subseq(a, b) && Subseq(b, c)
    ensures Subseq(a, c)
    decreases |c|
  {
    if a != [] {
      if b[0] != c[0] {
        SubseqTrans(a, b, c[1..]);
        SubseqSkip(a, c[1..], c[0]);
        assert [c[0]] + c[1..] == c;
      } else if a[0] == b[0] {
        SubseqTrans(a[1..], b[1..], c[1..]);
      } else {
        SubseqTrans(a, b[1..], c[1..]);
      }
    }
  }

  lemma {:induction false} SubseqPrefix<T>(p: seq<T>, a: seq<T>, b: seq<T>)
    requires Subseq(a, b)
    ensures Subseq(p + a, p + b)
  {
    if p == [] {
      assert p + a == a && p + b == b;
    } else {
      SubseqPrefix(p[1..], a, b);
      assert (p + a)[1..] == p[1..] + a && (p + b)[1..] == p[1..] + b;
    }
  }

  /** Removing one element. */
  lemma SubseqRemove<T>(a: seq<T>, x: T, b: seq<T>)
    ensures Subseq(a + b, a + [x] + b)
  {
    SubseqSelf(b);
    SubseqSkip(b, b, x);
    SubseqPrefix(a, b, [x] + b);
    assert a + ([x] + b) == a + [x] + b;
  }
}
