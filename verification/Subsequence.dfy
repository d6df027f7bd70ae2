/** Sequences with some elements left out. */
module Subsequence {

  /** `p` is `t` with some elements left out. */
  predicate Subseq<T(==)>(p: seq<T>, t: seq<T>)
    decreases |t|
  {
    p == [] ||
    (t != [] && if p[|p| - 1] == t[|t| - 1] then Subseq(p[..|p| - 1], t[..|t| - 1]) else Subseq(p, t[..|t| - 1]))
  }

  /** Leaving out the last element of the pattern, or adding one to the text, keeps the relation. */
  lemma {:induction false} SubseqWeaken<T>(p: seq<T>, t: seq<T>, x: T)
    requires Subseq(p, t)
    ensures p != [] ==> Subseq(p[..|p| - 1], t)
    ensures Subseq(p, t + [x])
    decreases |t|
  {
    if p != [] {
      var p', t' := p[..|p| - 1], t[..|t| - 1];
      assert (t + [x])[..|t|] == t;
      if p[|p| - 1] == t[|t| - 1] {
        SubseqWeaken(p', t', t[|t| - 1]);
        assert t' + [t[|t| - 1]] == t;
      } else {
        SubseqWeaken(p, t', t[|t| - 1]);
        assert t' + [t[|t| - 1]] == t;
        SubseqWeaken(p', t', t[|t| - 1]);
      }
    }
  }

  lemma SubseqSnoc<T>(p: seq<T>, t: seq<T>, x: T)
    requires Subseq(p, t)
    ensures Subseq(p + [x], t + [x])
  {
    assert (p + [x])[..|p|] == p && (t + [x])[..|t|] == t;
  }

  lemma {:induction false} SubseqReflexive<T>(t: seq<T>)
    ensures Subseq(t, t)
  {
    if t != [] { SubseqReflexive(t[..|t| - 1]); }
  }

  lemma {:induction false} SubseqTransitive<T>(p: seq<T>, q: seq<T>, t: seq<T>)
    requires Subseq(p, q) && Subseq(q, t)
    ensures Subseq(p, t)
    decreases |t|
  {
    if p != [] {
      var q', t' := q[..|q| - 1], t[..|t| - 1];
      if q[|q| - 1] != t[|t| - 1] {
        SubseqTransitive(p, q, t');
        SubseqWeaken(p, t', t[|t| - 1]);
        assert t' + [t[|t| - 1]] == t;
      } else if p[|p| - 1] == q[|q| - 1] {
        SubseqTransitive(p[..|p| - 1], q', t');
      } else {
        SubseqTransitive(p, q', t');
      }
    }
  }

  lemma {:induction false} SubseqAppend<T>(p: seq<T>, t: seq<T>, x: seq<T>)
    requires Subseq(p, t)
    ensures Subseq(p + x, t + x) && Subseq(p, t + x)
  {
    if x == [] {
      assert p + x == p && t + x == t;
    } else {
      var front, last := x[..|x| - 1], x[|x| - 1];
      SubseqAppend(p, t, front);
      SubseqSnoc(p + front, t + front, last);
      SubseqWeaken(p, t + front, last);
      assert p + front + [last] == p + x && t + front + [last] == t + x;
    }
  }

  lemma {:induction false} SubseqPrefix<T>(p: seq<T>, n: nat, t: seq<T>)
    requires Subseq(p, t) && n <= |p|
    ensures Subseq(p[..n], t)
    decreases |p|
  {
    if n == |p| {
      assert p[..n] == p;
    } else {
      SubseqWeaken(p, t, p[0]);
      SubseqPrefix(p[..|p| - 1], n, t);
      assert p[..|p| - 1][..n] == p[..n];
    }
  }

  /** Dropping one element anywhere gives a subsequence. */
  lemma {:induction false} SubseqDrop<T>(a: seq<T>, x: T, b: seq<T>)
    ensures Subseq(a + b, a + [x] + b)
    decreases |b|
  {
    if b == [] {
      SubseqReflexive(a);
      SubseqWeaken(a, a, x);
      assert a + b == a && a + [x] + b == a + [x];
    } else {
      var b', y := b[..|b| - 1], b[|b| - 1];
      SubseqDrop(a, x, b');
      SubseqSnoc(a + b', a + [x] + b', y);
      assert a + b' + [y] == a + b && a + [x] + b' + [y] == a + [x] + b;
    }
  }

  lemma {:induction false} SubseqLength<T>(p: seq<T>, t: seq<T>)
    requires Subseq(p, t)
    ensures |p| <= |t| && (|p| == |t| ==> p == t)
    decreases |t|
  {
    if p != [] {
      if p[|p| - 1] == t[|t| - 1] {
        SubseqLength(p[..|p| - 1], t[..|t| - 1]);
        assert p == p[..|p| - 1] + [p[|p| - 1]] && t == t[..|t| - 1] + [t[|t| - 1]];
      } else {
        SubseqLength(p, t[..|t| - 1]);
      }
    }
  }
}
