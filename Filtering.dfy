/**
 An order-preserving filter over sequences. It is defined on the last
 element, so that a loop that visits a list front to back and appends the
 elements it keeps builds exactly `Filter(p, s[..i])` after `i` steps.
 */
module Filtering {

  function Filter<T>(p: T -> bool, s: seq<T>): seq<T>
  {
    if s == [] then []
    else Filter(p, s[..|s| - 1]) + (if p(s[|s| - 1]) then [s[|s| - 1]] else [])
  }

  /** One more loop step: the filter of a longer prefix. */
  lemma FilterSnoc<T>(p: T -> bool, s: seq<T>, x: T)
    ensures Filter(p, s + [x]) == Filter(p, s) + (if p(x) then [x] else [])
  {
    assert (s + [x])[..|s + [x]| - 1] == s;
  }

  /** Filtering distributes over concatenation: the kept elements stay in input order. */
  lemma {:induction false} FilterAppend<T>(p: T -> bool, a: seq<T>, b: seq<T>)
    ensures Filter(p, a + b) == Filter(p, a) + Filter(p, b)
    decreases |b|
  {
    if b == [] {
      assert a + b == a;
    } else {
      var b' := b[..|b| - 1];
      var x := b[|b| - 1];
      assert b == b' + [x];
      assert a + b == (a + b') + [x];
      FilterAppend(p, a, b');
      FilterSnoc(p, a + b', x);
      FilterSnoc(p, b', x);
    }
  }

  /** Nothing is added: the result is no longer than the input and every kept element satisfies `p`. */
  lemma {:induction false} FilterSound<T>(p: T -> bool, s: seq<T>)
    ensures |Filter(p, s)| <= |s|
    ensures forall x :: x in Filter(p, s) ==> x in s && p(x)
  {
    if s != [] {
      FilterSound(p, s[..|s| - 1]);
    }
  }

  /**
   Duplicates are kept: an element satisfying `p` occurs in the result exactly
   as often as in the input, and one failing `p` does not occur at all.
   */
  lemma {:induction false} FilterCount<T>(p: T -> bool, s: seq<T>, x: T)
    ensures multiset(Filter(p, s))[x] == if p(x) then multiset(s)[x] else 0
  {
    if s != [] {
      var s' := s[..|s| - 1];
      assert s == s' + [s[|s| - 1]];
      FilterCount(p, s', x);
    }
  }

  /** The filter keeps the whole input exactly when every element satisfies `p`. */
  lemma {:induction false} FilterKeepsAll<T>(p: T -> bool, s: seq<T>)
    ensures Filter(p, s) == s <==> forall i :: 0 <= i < |s| ==> p(s[i])
  {
    if s != [] {
      var s' := s[..|s| - 1];
      FilterKeepsAll(p, s');
      FilterSound(p, s');
      if !p(s[|s| - 1]) {
        assert |Filter(p, s)| < |s|;
      } else if Filter(p, s) == s {
        assert Filter(p, s') == s';
      } else {
        assert s == s' + [s[|s| - 1]];
      }
    }
  }
}
