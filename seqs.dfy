/** Order-preserving filtering of sequences, shared by both ways of acquiring
    listeners: both keep the candidates whose attempt succeeded, in the order
    they were tried, and skip the others. */
module Seqs {

  /** The elements of `xs` that satisfy `p`, in their original order. */
  function Keep<T>(xs: seq<T>, p: T -> bool): (r: seq<T>)
    ensures |r| <= |xs|
    ensures forall i :: 0 <= i < |r| ==> p(r[i]) && r[i] in xs
    decreases |xs|
  {
    if |xs| == 0 then []
    else Keep(xs[..|xs| - 1], p) + (if p(xs[|xs| - 1]) then [xs[|xs| - 1]] else [])
  }

  /** Filtering one more element at the end. */
  lemma KeepSnoc<T>(xs: seq<T>, x: T, p: T -> bool)
    ensures Keep(xs + [x], p) == Keep(xs, p) + (if p(x) then [x] else [])
  {
    assert (xs + [x])[..|xs|] == xs;
  }

  /** Filtering distributes over concatenation: nothing is reordered across
      the boundary. */
  lemma {:induction false} KeepAppend<T>(a: seq<T>, b: seq<T>, p: T -> bool)
    ensures Keep(a + b, p) == Keep(a, p) + Keep(b, p)
    decreases |b|
  {
    if |b| == 0 {
      assert a + b == a;
    } else {
      var b' := b[..|b| - 1];
      assert (a + b)[..|a + b| - 1] == a + b';
      assert (a + b)[|a + b| - 1] == b[|b| - 1];
      KeepAppend(a, b', p);
    }
  }

  /** Every element that satisfies `p` is kept (the converse half of the
      ensures of Keep). */
  lemma {:induction false} KeepComplete<T>(xs: seq<T>, p: T -> bool, x: T)
    requires x in xs && p(x)
    ensures x in Keep(xs, p)
    decreases |xs|
  {
    var init := xs[..|xs| - 1];
    if x != xs[|xs| - 1] {
      assert xs == init + [xs[|xs| - 1]];
      assert x in init;
      KeepComplete(init, p, x);
    }
  }

  /** Nothing is dropped exactly when every element satisfies `p`. */
  lemma {:induction false} KeepAll<T>(xs: seq<T>, p: T -> bool)
    ensures (forall i :: 0 <= i < |xs| ==> p(xs[i])) <==> Keep(xs, p) == xs
    decreases |xs|
  {
    if |xs| > 0 {
      var init := xs[..|xs| - 1];
      KeepAll(init, p);
      if Keep(xs, p) == xs {
        forall i | 0 <= i < |xs| ensures p(xs[i]) {
          assert xs[i] == Keep(xs, p)[i];
        }
      }
      if forall i :: 0 <= i < |xs| ==> p(xs[i]) {
        assert forall i :: 0 <= i < |init| ==> p(init[i]) by {
          forall i | 0 <= i < |init| ensures p(init[i]) { assert init[i] == xs[i]; }
        }
        assert xs == init + [xs[|xs| - 1]];
      }
    }
  }

  /** Everything is dropped exactly when no element satisfies `p`. */
  lemma {:induction false} KeepNone<T>(xs: seq<T>, p: T -> bool)
    ensures (forall i :: 0 <= i < |xs| ==> !p(xs[i])) <==> Keep(xs, p) == []
    decreases |xs|
  {
    if |xs| > 0 {
      var init := xs[..|xs| - 1];
      KeepNone(init, p);
      if Keep(xs, p) == [] {
        forall i | 0 <= i < |xs| ensures !p(xs[i]) {
          if p(xs[i]) { KeepComplete(xs, p, xs[i]); }
        }
      }
      if forall i :: 0 <= i < |xs| ==> !p(xs[i]) {
        forall i | 0 <= i < |init| ensures !p(init[i]) { assert init[i] == xs[i]; }
      }
    }
  }
}
