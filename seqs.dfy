/** Sequence helpers shared by the model: concatenating per-element
    contributions in order, and the lemmas that let loops build them. */
module Seqs {

  /** The concatenation of f(x) for every x of s, in the order of s.
      Defined from the back, so that a loop appending one element's
      contribution per iteration matches it step by step. */
  function FlatMap<T, U>(s: seq<T>, f: T -> seq<U>): seq<U>
  {
    if s == [] then [] else FlatMap(s[..|s| - 1], f) + f(s[|s| - 1])
  }

  lemma FlatMapSnoc<T, U>(s: seq<T>, x: T, f: T -> seq<U>)
    ensures FlatMap(s + [x], f) == FlatMap(s, f) + f(x)
  {
    assert (s + [x])[..|s|] == s;
  }

  /** The concatenation over one element is that element's part. */
  lemma FlatMapOne<T, U>(x: T, f: T -> seq<U>)
    ensures FlatMap([x], f) == f(x)
  {
    FlatMapSnoc([], x, f);
    assert [] + [x] == [x];
  }

  /** Extending a prefix by one element extends the concatenation by that element's part. */
  lemma FlatMapPrefix<T, U>(s: seq<T>, i: nat, f: T -> seq<U>)
    requires i < |s|
    ensures FlatMap(s[..i + 1], f) == FlatMap(s[..i], f) + f(s[i])
  {
    assert s[..i + 1] == s[..i] + [s[i]];
    FlatMapSnoc(s[..i], s[i], f);
  }

  lemma {:induction false} FlatMapAppend<T, U>(a: seq<T>, b: seq<T>, f: T -> seq<U>)
    ensures FlatMap(a + b, f) == FlatMap(a, f) + FlatMap(b, f)
    decreases |b|
  {
    if b == [] {
      assert a + b == a;
    } else {
      var b', x := b[..|b| - 1], b[|b| - 1];
      assert b == b' + [x];
      calc {
        FlatMap(a + b, f);
      == { assert a + b == (a + b') + [x]; }
        FlatMap((a + b') + [x], f);
      == { FlatMapSnoc(a + b', x, f); }
        FlatMap(a + b', f) + f(x);
      == { FlatMapAppend(a, b', f); }
        (FlatMap(a, f) + FlatMap(b', f)) + f(x);
      ==
        FlatMap(a, f) + (FlatMap(b', f) + f(x));
      == { FlatMapSnoc(b', x, f); }
        FlatMap(a, f) + FlatMap(b, f);
      }
    }
  }

  /** Everything in the concatenation comes from the part of some element. */
  lemma {:induction false} FlatMapMember<T, U>(s: seq<T>, f: T -> seq<U>, y: U)
    requires y in FlatMap(s, f)
    ensures exists i :: 0 <= i < |s| && y in f(s[i])
    decreases |s|
  {
    var s', x := s[..|s| - 1], s[|s| - 1];
    assert s == s' + [x];
    if y in f(x) {
      assert y in f(s[|s| - 1]);
    } else {
      assert y in FlatMap(s', f);
      FlatMapMember(s', f, y);
      var i :| 0 <= i < |s'| && y in f(s'[i]);
      assert s[i] == s'[i];
    }
  }

  /** Conversely, the part of every element occurs in the concatenation. */
  lemma {:induction false} FlatMapContains<T, U>(s: seq<T>, f: T -> seq<U>, i: nat, y: U)
    requires i < |s| && y in f(s[i])
    ensures y in FlatMap(s, f)
    decreases |s|
  {
    var s', x := s[..|s| - 1], s[|s| - 1];
    if i < |s| - 1 {
      assert s'[i] == s[i];
      FlatMapContains(s', f, i, y);
    }
  }

  /** Two sequences whose elements contribute the same parts have the same concatenation. */
  lemma {:induction false} FlatMapPointwise<T, U>(a: seq<T>, b: seq<T>, f: T -> seq<U>)
    requires |a| == |b| && forall i :: 0 <= i < |a| ==> f(a[i]) == f(b[i])
    ensures FlatMap(a, f) == FlatMap(b, f)
    decreases |a|
  {
    if a != [] {
      FlatMapPointwise(a[..|a| - 1], b[..|b| - 1], f);
    }
  }

  /** Concatenation is associative (stated for element types whose own axioms would make the
      solver search). */
  lemma Assoc<T>(a: seq<T>, b: seq<T>, c: seq<T>)
    ensures a + (b + c) == (a + b) + c
  {
  }

  /** A slice inside the front part of a concatenation. */
  lemma SliceFront<T>(a: seq<T>, b: seq<T>, lo: nat, hi: nat)
    requires lo <= hi <= |a|
    ensures (a + b)[lo..hi] == a[lo..hi]
  {
    assert forall j :: lo <= j < hi ==> (a + b)[j] == a[j];
  }

  /** A slice inside the back part of a concatenation, at the shifted bounds lo' and hi'. */
  lemma SliceBack<T>(a: seq<T>, b: seq<T>, lo: nat, hi: nat, lo': nat, hi': nat)
    requires |a| <= lo <= hi <= |a| + |b| && lo' == lo - |a| && hi' == hi - |a|
    ensures (a + b)[lo..hi] == b[lo'..hi']
  {
    assert forall j :: lo <= j < hi ==> (a + b)[j] == b[j - |a|];
  }

  /** The part of element k sits right after the parts of the elements before it. */
  lemma FlatMapSlice<T, U>(s: seq<T>, k: nat, f: T -> seq<U>)
    requires k < |s|
    ensures var start := |FlatMap(s[..k], f)|;
      start + |f(s[k])| <= |FlatMap(s, f)| &&
      FlatMap(s, f)[start..start + |f(s[k])|] == f(s[k])
  {
    assert s == s[..k + 1] + s[k + 1..];
    FlatMapAppend(s[..k + 1], s[k + 1..], f);
    FlatMapPrefix(s, k, f);
  }

  /** A sequence of n copies of x. */
  function Repeat<T>(x: T, n: nat): (r: seq<T>)
    ensures |r| == n
    ensures forall i :: 0 <= i < n ==> r[i] == x
  {
    if n == 0 then [] else Repeat(x, n - 1) + [x]
  }
}
