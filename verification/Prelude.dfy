/** Small shared vocabulary: optional values and the subsequence relation. */
module Prelude {

  datatype Option<+T> = None | Some(value: T)

  /** `a` can be obtained from `b` by deleting elements, keeping the order of the rest. */
  ghost predicate Subseq<T>(a: seq<T>, b: seq<T>)
    decreases |b|
  {
    if a == [] then true
    else if b == [] then false
    else
      || (a[|a|-1] == b[|b|-1] && Subseq(a[..|a|-1], b[..|b|-1]))
      || Subseq(a, b[..|b|-1])
  }

  lemma {:induction false} SubseqRefl<T>(a: seq<T>)
    ensures Subseq(a, a)
  {
    if a != [] { SubseqRefl(a[..|a|-1]); }
  }

  /** Appending the same element to both sides keeps the relation. */
  lemma SubseqSnoc<T>(a: seq<T>, b: seq<T>, x: T)
    requires Subseq(a, b)
    ensures Subseq(a + [x], b + [x])
  {
    assert (a + [x])[..|a|] == a && (b + [x])[..|b|] == b;
  }

  /** The larger side may grow. */
  lemma SubseqGrow<T>(a: seq<T>, b: seq<T>, x: T)
    requires Subseq(a, b)
    ensures Subseq(a, b + [x])
  {
    assert (b + [x])[..|b|] == b;
  }

  lemma {:induction false} SubseqTrans<T>(a: seq<T>, b: seq<T>, c: seq<T>)
    requires Subseq(a, b) && Subseq(b, c)
    ensures Subseq(a, c)
    decreases |c|
  {
    if a != [] && c != [] {
      var cf := c[..|c|-1];
      if Subseq(b, cf) {
        SubseqTrans(a, b, cf);
      } else {
        var bf := b[..|b|-1];
        if a[|a|-1] == b[|b|-1] && Subseq(a[..|a|-1], bf) {
          SubseqTrans(a[..|a|-1], bf, cf);
        } else {
          SubseqTrans(a, bf, cf);
        }
      }
    }
  }

  /** The larger side may grow at its front, too. */
  lemma {:induction false} SubseqCons<T>(x: T, a: seq<T>, b: seq<T>)
    requires Subseq(a, b)
    ensures Subseq(a, [x] + b)
    decreases |b|
  {
    if a != [] {
      var bf := b[..|b|-1];
      assert ([x] + b)[..|b|] == [x] + bf;
      if Subseq(a, bf) {
        SubseqCons(x, a, bf);
      } else {
        SubseqCons(x, a[..|a|-1], bf);
      }
    }
  }

  /** The relation survives a common prefix. */
  lemma {:induction false} SubseqPrefix<T>(p: seq<T>, a: seq<T>, b: seq<T>)
    requires Subseq(a, b)
    ensures Subseq(p + a, p + b)
    decreases |b|
  {
    if b == [] {
      assert p + a == p && p + b == p;
      SubseqRefl(p);
    } else {
      var bf := b[..|b|-1];
      assert (p + b)[..|p + b|-1] == p + bf;
      if a == [] {
        SubseqPrefix(p, a, bf);
        assert p + a == p;
      } else if a[|a|-1] == b[|b|-1] && Subseq(a[..|a|-1], bf) {
        SubseqPrefix(p, a[..|a|-1], bf);
        assert (p + a)[..|p + a|-1] == p + a[..|a|-1];
      } else {
        SubseqPrefix(p, a, bf);
      }
    }
  }

  /** Every element of the smaller side occurs in the larger one. */
  lemma {:induction false} SubseqIn<T>(a: seq<T>, b: seq<T>, x: T)
    requires Subseq(a, b) && x in a
    ensures x in b
    decreases |b|
  {
    if b != [] {
      var bf := b[..|b|-1];
      if Subseq(a, bf) {
        SubseqIn(a, bf, x);
      } else if x != a[|a|-1] {
        SubseqIn(a[..|a|-1], bf, x);
      }
    }
  }
}
