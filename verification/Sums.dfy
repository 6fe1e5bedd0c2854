/** Weighted sums over sequences: every balance, ledger net and total of this project is one. */
module Sums {

  function Sum<T>(s: seq<T>, f: T -> int): int {
    if s == [] then 0 else Sum(s[..|s| - 1], f) + f(s[|s| - 1])
  }

  lemma Push<T>(s: seq<T>, x: T, f: T -> int)
    ensures Sum(s + [x], f) == Sum(s, f) + f(x)
  {
    assert (s + [x])[..|s|] == s;
  }

  lemma {:induction false} Concat<T>(a: seq<T>, b: seq<T>, f: T -> int)
    ensures Sum(a + b, f) == Sum(a, f) + Sum(b, f)
    decreases |b|
  {
    if b == [] {
      assert a + b == a;
    } else {
      var init, last := b[..|b| - 1], b[|b| - 1];
      assert a + b == (a + init) + [last];
      Concat(a, init, f);
      Push(a + init, last, f);
    }
  }

  /** Replacing one element moves the sum by the difference. */
  lemma Update<T>(s: seq<T>, i: nat, x: T, f: T -> int)
    requires i < |s|
    ensures Sum(s[i := x], f) == Sum(s, f) - f(s[i]) + f(x)
  {
    assert s == s[..i] + [s[i]] + s[i + 1..];
    assert s[i := x] == s[..i] + [x] + s[i + 1..];
    Concat(s[..i] + [s[i]], s[i + 1..], f);
    Concat(s[..i] + [x], s[i + 1..], f);
    Push(s[..i], s[i], f);
    Push(s[..i], x, f);
  }

  /** Sums over two sequences agree when the terms do. */
  lemma {:induction false} Pointwise<S, T>(a: seq<S>, f: S -> int, b: seq<T>, g: T -> int)
    requires |a| == |b|
    requires forall i :: 0 <= i < |a| ==> f(a[i]) == g(b[i])
    ensures Sum(a, f) == Sum(b, g)
  {
    if a == [] {
    } else {
      var n := |a| - 1;
      forall i | 0 <= i < n ensures f(a[..n][i]) == g(b[..n][i]) {
        assert a[..n][i] == a[i] && b[..n][i] == b[i];
      }
      Pointwise(a[..n], f, b[..n], g);
    }
  }

  /** The order of the terms does not matter. */
  lemma {:induction false} Permute<T>(a: seq<T>, b: seq<T>, f: T -> int)
    requires multiset(a) == multiset(b)
    ensures Sum(a, f) == Sum(b, f)
    decreases |a|
  {
    assert |a| == |multiset(a)| == |multiset(b)| == |b|;
    if a == [] {
    } else {
      var n := |a| - 1;
      var x := a[n];
      assert x in multiset(b);
      var i :| 0 <= i < |b| && b[i] == x;
      assert a == a[..n] + [x];
      assert b == b[..i] + [x] + b[i + 1..];
      assert multiset(b[..i] + b[i + 1..]) == multiset(b) - multiset{x} == multiset(a[..n]);
      Permute(a[..n], b[..i] + b[i + 1..], f);
      Concat(b[..i] + [x], b[i + 1..], f);
      Push(b[..i], x, f);
      Concat(b[..i], b[i + 1..], f);
    }
  }

  /** Non-negative terms bound every single term by the sum. */
  lemma {:induction false} TermAtMostSum<T>(s: seq<T>, i: nat, f: T -> int)
    requires i < |s|
    requires forall j :: 0 <= j < |s| ==> f(s[j]) >= 0
    ensures 0 <= f(s[i]) <= Sum(s, f)
  {
    var n := |s| - 1;
    assert forall j :: 0 <= j < n ==> s[..n][j] == s[j];
    if i < n {
      TermAtMostSum(s[..n], i, f);
    } else if n > 0 {
      TermAtMostSum(s[..n], 0, f);
    }
  }

  function RealSum<T>(s: seq<T>, f: T -> real): real {
    if s == [] then 0.0 else RealSum(s[..|s| - 1], f) + f(s[|s| - 1])
  }

  lemma OneMoreTerm(f: int, g: real, h: int, f1: int, g1: real, h1: int, c: real)
    requires f as real + g == h as real * c && f1 as real + g1 == h1 as real * c
    ensures (f + f1) as real + (g + g1) == (h + h1) as real * c
  {
    assert (h as real + h1 as real) * c == h as real * c + h1 as real * c;
  }

  /** A term splits a multiple of another into a whole and a rest. */
  predicate Splits<T>(x: T, whole: T -> int, rest: T -> real, of: T -> int, c: real) {
    whole(x) as real + rest(x) == of(x) as real * c
  }

  /** If every term does, the sums do. */
  lemma {:induction false} SplitTerms<T>(s: seq<T>, whole: T -> int, rest: T -> real, of: T -> int, c: real)
    requires forall i :: 0 <= i < |s| ==> Splits(s[i], whole, rest, of, c)
    ensures Sum(s, whole) as real + RealSum(s, rest) == Sum(s, of) as real * c
  {
    if s == [] {
    } else {
      var n := |s| - 1;
      var init, last := s[..n], s[n];
      assert forall i :: 0 <= i < n ==> init[i] == s[i];
      SplitTerms(init, whole, rest, of, c);
      assert Splits(last, whole, rest, of, c);
      OneMoreTerm(Sum(init, whole), RealSum(init, rest), Sum(init, of), whole(last), rest(last), of(last), c);
    }
  }

  function Repeat<T>(x: T, n: nat): (r: seq<T>)
    ensures |r| == n && forall i :: 0 <= i < n ==> r[i] == x
  {
    seq(n, _ => x)
  }
}
