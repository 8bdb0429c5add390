/** Sequence helpers shared by the rules: order-preserving subsequences,
    `Array.prototype.indexOf`, `String.prototype.lastIndexOf`, the
    prefix/suffix tests of `String.prototype.startsWith` / `endsWith`, and
    the list a `forEach` builds by pushing what each element contributes. */
module Seqs {

  /** `a` occurs in `b` in order, possibly with gaps (greedy matching). */
  predicate Subsequence<T(==)>(a: seq<T>, b: seq<T>)
    decreases |b|
  {
    if |a| == 0 then true
    else if |b| == 0 then false
    else if a[0] == b[0] then Subsequence(a[1..], b[1..])
    else Subsequence(a, b[1..])
  }

  /** A subsequence is never longer than the sequence it is drawn from,
      and draws only elements of it. */
  lemma {:induction false} SubsequenceBounds<T>(a: seq<T>, b: seq<T>)
    requires Subsequence(a, b)
    ensures |a| <= |b|
    ensures forall x :: x in a ==> x in b
    decreases |b|
  {
    if |a| == 0 {
    } else if a[0] == b[0] {
      SubsequenceBounds(a[1..], b[1..]);
      forall x | x in a ensures x in b {
        if x != a[0] {
          assert x in a[1..];
        }
      }
    } else {
      SubsequenceBounds(a, b[1..]);
    }
  }

  /** Every sequence is a subsequence of itself. */
  lemma {:induction false} SubsequenceReflexive<T>(a: seq<T>)
    ensures Subsequence(a, a)
    decreases |a|
  {
    if |a| != 0 {
      SubsequenceReflexive(a[1..]);
    }
  }

  /** `Array.prototype.indexOf` under strict equality: the first index
      holding `x`, or -1 when there is none. */
  function IndexOf<T(==)>(s: seq<T>, x: T): (i: int)
    ensures -1 <= i < |s|
    ensures i == -1 <==> x !in s
    ensures 0 <= i ==> s[i] == x && forall j :: 0 <= j < i ==> s[j] != x
  {
    if |s| == 0 then -1
    else if s[0] == x then 0
    else
      var k := IndexOf(s[1..], x);
      if k == -1 then -1 else k + 1
  }

  /** `String.prototype.lastIndexOf` for one character: the last index
      holding `c`, or -1 when there is none. */
  function LastIndexOf(s: string, c: char): (i: int)
    ensures -1 <= i < |s|
    ensures i == -1 <==> c !in s
    ensures 0 <= i ==> s[i] == c && forall j :: i < j < |s| ==> s[j] != c
  {
    if |s| == 0 then -1
    else if s[|s| - 1] == c then |s| - 1
    else LastIndexOf(s[..|s| - 1], c)
  }

  predicate StartsWith(s: string, prefix: string) {
    |prefix| <= |s| && s[..|prefix|] == prefix
  }

  predicate EndsWith(s: string, suffix: string) {
    |suffix| <= |s| && s[|s| - |suffix|..] == suffix
  }

  /** `true` when `needle` occurs somewhere inside `s`. */
  predicate Contains(s: string, needle: string) {
    exists i :: 0 <= i <= |s| && StartsWith(s[i..], needle)
  }

  /** What each element of `xs` contributes under `f`, concatenated in order. */
  function FlatMap<T, U>(f: T -> seq<U>, xs: seq<T>): (ys: seq<U>)
    ensures (forall k :: 0 <= k < |xs| ==> |f(xs[k])| <= 1) ==> |ys| <= |xs|
  {
    if |xs| == 0 then []
    else
      assert forall k :: 1 <= k < |xs| ==> xs[1..][k - 1] == xs[k];
      f(xs[0]) + FlatMap(f, xs[1..])
  }

  /** Two lists contribute one after the other. */
  lemma {:induction false} FlatMapAppend<T, U>(f: T -> seq<U>, a: seq<T>, b: seq<T>)
    ensures FlatMap(f, a + b) == FlatMap(f, a) + FlatMap(f, b)
    decreases |a|
  {
    if |a| == 0 {
      assert a + b == b;
    } else {
      assert (a + b)[0] == a[0] && (a + b)[1..] == a[1..] + b;
      FlatMapAppend(f, a[1..], b);
    }
  }

  /** An element of the result comes from some element's contribution, and
      every contribution is in the result. */
  lemma {:induction false} FlatMapMembers<T, U>(f: T -> seq<U>, xs: seq<T>)
    ensures forall y :: y in FlatMap(f, xs) <==> exists x :: x in xs && y in f(x)
    decreases |xs|
  {
    if |xs| != 0 {
      FlatMapMembers(f, xs[1..]);
      assert forall x :: x in xs <==> x == xs[0] || x in xs[1..];
    }
  }

  /** Nothing comes out exactly when no element contributes anything. */
  lemma {:induction false} FlatMapEmpty<T, U>(f: T -> seq<U>, xs: seq<T>)
    ensures FlatMap(f, xs) == [] <==> forall k :: 0 <= k < |xs| ==> f(xs[k]) == []
    decreases |xs|
  {
    if |xs| != 0 {
      FlatMapEmpty(f, xs[1..]);
      assert forall k :: 1 <= k < |xs| ==> xs[1..][k - 1] == xs[k];
    }
  }

  /** One more element adds its own contribution at the end. */
  lemma FlatMapSnoc<T, U>(f: T -> seq<U>, xs: seq<T>, i: nat)
    requires i < |xs|
    ensures FlatMap(f, xs[..i + 1]) == FlatMap(f, xs[..i]) + f(xs[i])
  {
    assert xs[..i + 1] == xs[..i] + [xs[i]];
    FlatMapAppend(f, xs[..i], [xs[i]]);
    assert FlatMap(f, [xs[i]]) == f(xs[i]) + FlatMap(f, []);
  }
}
