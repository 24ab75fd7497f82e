/** `Array.prototype.filter` on sequences, and the order it preserves. */
module Sequences {

  /** `a` can be obtained from `b` by deleting elements: the elements of `a` occur in `b` in the same relative order. */
  predicate IsSubsequence<T(==)>(a: seq<T>, b: seq<T>)
    decreases |b|
  {
    a == [] || (b != [] && ((a[0] == b[0] && IsSubsequence(a[1..], b[1..])) || IsSubsequence(a, b[1..])))
  }

  /** `s.filter(keep)`: the elements of `s` that satisfy `keep`, every occurrence of each, in their order in `s`. */
  function Keep<T(==,!new)>(s: seq<T>, keep: T -> bool): (r: seq<T>)
    ensures |r| <= |s|
    ensures forall x :: x in r <==> x in s && keep(x)
    ensures forall x :: multiset(r)[x] == if keep(x) then multiset(s)[x] else 0
    ensures IsSubsequence(r, s)
  {
    if s == [] then []
    else
      var rest := Keep(s[1..], keep);
      assert s == [s[0]] + s[1..];
      if keep(s[0]) then
        var r := [s[0]] + rest;
        assert r[1..] == rest;
        r
      else rest
  }

  lemma {:induction false} SubsequenceReflexive<T>(s: seq<T>)
    ensures IsSubsequence(s, s)
  {
    if s != [] {
      SubsequenceReflexive(s[1..]);
    }
  }

  /** A subsequence takes no element more often than the sequence holds it. */
  lemma {:induction false} SubsequenceMultiset<T>(a: seq<T>, b: seq<T>)
    requires IsSubsequence(a, b)
    ensures multiset(a) <= multiset(b)
    decreases |b|
  {
    if a != [] {
      assert b == [b[0]] + b[1..];
      if a[0] == b[0] && IsSubsequence(a[1..], b[1..]) {
        SubsequenceMultiset(a[1..], b[1..]);
        assert a == [a[0]] + a[1..];
      } else {
        SubsequenceMultiset(a, b[1..]);
      }
    }
  }

  /** Filtering with a predicate every element satisfies changes nothing. */
  lemma {:induction false} KeepAll<T(!new)>(s: seq<T>, keep: T -> bool)
    requires forall x :: x in s ==> keep(x)
    ensures Keep(s, keep) == s
  {
    if s != [] {
      KeepAll(s[1..], keep);
      assert s == [s[0]] + s[1..];
    }
  }

  /** Filtering twice with the same predicate is filtering once. */
  lemma {:induction false} KeepIdempotent<T(!new)>(s: seq<T>, keep: T -> bool)
    ensures Keep(Keep(s, keep), keep) == Keep(s, keep)
  {
    KeepAll(Keep(s, keep), keep);
  }

  /**
   * The contract of `Keep` determines its result: any subsequence of `s` made of
   * elements satisfying `keep`, that takes each such element as often as `s` holds it,
   * is `Keep(s, keep)`.
   */
  lemma {:induction false} KeepUnique<T(!new)>(s: seq<T>, keep: T -> bool, r: seq<T>)
    requires IsSubsequence(r, s)
    requires forall x :: x in r ==> keep(x)
    requires forall x :: keep(x) ==> multiset(r)[x] == multiset(s)[x]
    ensures r == Keep(s, keep)
    decreases |s|
  {
    if s == [] {
    } else {
      var x := s[0];
      assert s == [x] + s[1..];
      if keep(x) {
        assert multiset(r)[x] == multiset(s)[x] > 0;
        assert r != [];
        if r[0] == x && IsSubsequence(r[1..], s[1..]) {
          assert r == [x] + r[1..];
          forall y | keep(y) ensures multiset(r[1..])[y] == multiset(s[1..])[y] {
          }
          KeepUnique(s[1..], keep, r[1..]);
        } else {
          SubsequenceMultiset(r, s[1..]);
          assert false;
        }
      } else {
        if r != [] && r[0] == x {
          assert false;
        }
        assert IsSubsequence(r, s[1..]);
        forall y | keep(y) ensures multiset(r)[y] == multiset(s[1..])[y] {
          assert y != x;
        }
        KeepUnique(s[1..], keep, r);
      }
    }
  }
}
