/** Sequence helpers standing in for JavaScript's `Array.prototype.filter`,
    `reduce` (as a sum) and `reverse` on a copy. */
module Seqs {

  /** `s.filter(p)`: the elements of `s` that satisfy `p`, in their original order. */
  function Keep<T(!new)>(s: seq<T>, p: T -> bool): (r: seq<T>)
    ensures |r| <= |s|
    ensures forall x :: x in r <==> x in s && p(x)
    ensures forall i :: 0 <= i < |r| ==> p(r[i])
  {
    if s == [] then []
    else (if p(s[0]) then [s[0]] else []) + Keep(s[1..], p)
  }

  /** `r` is `s` with some elements left out and the rest kept in order. */
  ghost predicate IsSubsequence<T>(r: seq<T>, s: seq<T>)
    decreases |s|
  {
    r == [] || (s != [] && ((r[0] == s[0] && IsSubsequence(r[1..], s[1..])) || IsSubsequence(r, s[1..])))
  }

  lemma {:induction false} KeepIsSubsequence<T(!new)>(s: seq<T>, p: T -> bool)
    ensures IsSubsequence(Keep(s, p), s)
  {
    if s != [] {
      KeepIsSubsequence(s[1..], p);
      if p(s[0]) {
        var r := Keep(s, p);
        assert r == [s[0]] + Keep(s[1..], p);
        assert r[0] == s[0] && r[1..] == Keep(s[1..], p);
        assert IsSubsequence(r[1..], s[1..]);
        assert IsSubsequence(r, s);
      } else {
        assert Keep(s, p) == Keep(s[1..], p);
      }
    }
  }

  /** Filtering distributes over concatenation. */
  lemma {:induction false} KeepAppend<T(!new)>(a: seq<T>, b: seq<T>, p: T -> bool)
    ensures Keep(a + b, p) == Keep(a, p) + Keep(b, p)
  {
    if a == [] {
      assert a + b == b;
    } else {
      assert (a + b)[1..] == a[1..] + b;
      KeepAppend(a[1..], b, p);
    }
  }

  /** Two predicates that agree everywhere filter alike. */
  lemma {:induction false} KeepSame<T(!new)>(s: seq<T>, p: T -> bool, q: T -> bool)
    requires forall x :: p(x) == q(x)
    ensures Keep(s, p) == Keep(s, q)
  {
    if s != [] {
      KeepSame(s[1..], p, q);
    }
  }

  /** Filtering twice is filtering once by the conjunction `pq`. */
  lemma {:induction false} KeepKeep<T(!new)>(s: seq<T>, p: T -> bool, q: T -> bool, pq: T -> bool)
    requires forall x :: pq(x) == (p(x) && q(x))
    ensures Keep(Keep(s, p), q) == Keep(s, pq)
  {
    if s != [] {
      KeepKeep(s[1..], p, q, pq);
      KeepAppend(if p(s[0]) then [s[0]] else [], Keep(s[1..], p), q);
    }
  }

  /** A filter that keeps everything is the identity. */
  lemma {:induction false} KeepAll<T(!new)>(s: seq<T>, p: T -> bool)
    requires forall x :: x in s ==> p(x)
    ensures Keep(s, p) == s
  {
    if s != [] {
      assert forall x :: x in s[1..] ==> x in s;
      KeepAll(s[1..], p);
    }
  }

  /** Filtering by a stronger predicate keeps an ordered part of what a weaker one keeps. */
  lemma {:induction false} KeepStronger<T(!new)>(s: seq<T>, p: T -> bool, q: T -> bool)
    requires forall x :: p(x) ==> q(x)
    ensures IsSubsequence(Keep(s, p), Keep(s, q))
  {
    if s != [] {
      KeepStronger(s[1..], p, q);
      var kp, kq := Keep(s, p), Keep(s, q);
      if p(s[0]) {
        assert kp == [s[0]] + Keep(s[1..], p) && kq == [s[0]] + Keep(s[1..], q);
        assert kp[1..] == Keep(s[1..], p) && kq[1..] == Keep(s[1..], q);
      } else if q(s[0]) {
        assert kq == [s[0]] + Keep(s[1..], q);
        assert kq[1..] == Keep(s[1..], q);
        assert kp == Keep(s[1..], p);
        assert IsSubsequence(kp, kq[1..]);
        assert IsSubsequence(kp, kq);
      } else {
        assert kp == Keep(s[1..], p) && kq == Keep(s[1..], q);
      }
    }
  }

  /** What `p` keeps and what its negation `notP` keeps add up to the whole sequence. */
  lemma {:induction false} KeepPartition<T(!new)>(s: seq<T>, p: T -> bool, notP: T -> bool)
    requires forall x :: notP(x) == !p(x)
    ensures |Keep(s, p)| + |Keep(s, notP)| == |s|
  {
    if s != [] {
      KeepPartition(s[1..], p, notP);
    }
  }

  /** `s.reduce((acc, x) => acc + f(x), 0)`. */
  function Sum<T>(s: seq<T>, f: T -> int): int {
    if s == [] then 0 else f(s[0]) + Sum(s[1..], f)
  }

  lemma {:induction false} SumAppend<T>(a: seq<T>, b: seq<T>, f: T -> int)
    ensures Sum(a + b, f) == Sum(a, f) + Sum(b, f)
  {
    if a == [] {
      assert a + b == b;
    } else {
      assert (a + b)[1..] == a[1..] + b;
      SumAppend(a[1..], b, f);
    }
  }

  /** The sum over the kept part plus the sum over the dropped part is the sum over all. */
  lemma {:induction false} SumPartition<T(!new)>(s: seq<T>, p: T -> bool, notP: T -> bool, f: T -> int)
    requires forall x :: notP(x) == !p(x)
    ensures Sum(Keep(s, p), f) + Sum(Keep(s, notP), f) == Sum(s, f)
  {
    if s != [] {
      SumPartition(s[1..], p, notP, f);
      SumAppend(if p(s[0]) then [s[0]] else [], Keep(s[1..], p), f);
      SumAppend(if notP(s[0]) then [s[0]] else [], Keep(s[1..], notP), f);
    }
  }

  /** `[...s].reverse()`: a reversed copy; `s` itself is a value and is left as it was. */
  function Reverse<T>(s: seq<T>): (r: seq<T>)
    ensures |r| == |s|
    ensures forall i :: 0 <= i < |s| ==> r[i] == s[|s| - 1 - i]
  {
    if s == [] then [] else [s[|s| - 1]] + Reverse(s[..|s| - 1])
  }

  /** Reversing a sequence with one more element at the end puts that element first. */
  lemma ReverseSnoc<T>(s: seq<T>, x: T)
    ensures Reverse(s + [x]) == [x] + Reverse(s)
  {
    assert (s + [x])[..|s|] == s;
  }

  lemma ReverseReverse<T>(s: seq<T>)
    ensures Reverse(Reverse(s)) == s
  {
  }
}
