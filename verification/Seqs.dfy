/** Sequences: looking for an element, and the regroupings the solver does not find by itself. */
module Seqs {

  /** The index of the first `x` in `s`, or |s|. */
  function IndexOf<T(==)>(s: seq<T>, x: T): (i: nat)
    ensures i <= |s|
  {
    if s == [] || s[0] == x then 0 else 1 + IndexOf(s[1..], x)
  }

  lemma {:induction false} IndexOfFirst<T>(s: seq<T>, x: T, rest: seq<T>)
    requires x !in s
    ensures IndexOf(s + [x] + rest, x) == |s|
  {
    if s != [] {
      assert (s + [x] + rest)[1..] == s[1..] + [x] + rest;
      IndexOfFirst(s[1..], x, rest);
    }
  }

  lemma {:induction false} IndexOfIs<T>(s: seq<T>, x: T)
    ensures var i := IndexOf(s, x);
            (i < |s| ==> s[i] == x) && x !in s[..i]
  {
    if s != [] && s[0] != x {
      IndexOfIs(s[1..], x);
      assert s[..IndexOf(s, x)] == [s[0]] + s[1..][..IndexOf(s[1..], x)];
    }
  }

  lemma Associate<T>(a: seq<T>, b: seq<T>, c: seq<T>)
    ensures a + (b + c) == a + b + c
  {
  }

  /** What holds of a tail holds of the whole. */
  lemma Prepend<T>(head: seq<T>, a: seq<T>, b: seq<T>, whole: seq<T>, tail': seq<T>, whole': seq<T>)
    requires whole == head + a && tail' == a + b && whole' == head + tail'
    ensures whole' == whole + b
  {
  }

  lemma Regroup<T>(a: seq<T>, b: seq<T>, c: seq<T>, d: seq<T>)
    ensures a + (b + c + d) == a + b + c + d && b + (c + d) == b + c + d
  {
  }

  lemma RegroupRight<T>(a: seq<T>, b: seq<T>, c: seq<T>, d: seq<T>)
    ensures a + b + c + d == a + (b + ([] + c + d)) == a + (b + (c + d))
  {
  }
}
