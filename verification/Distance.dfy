/** Hamming distance: how many positions two words of one length differ in. */
module Distance {
  ghost function Differing<T>(a: seq<T>, b: seq<T>): set<nat>
    requires |a| == |b|
  {
    set i: nat | i < |a| && a[i] != b[i]
  }

  ghost function Dist<T>(a: seq<T>, b: seq<T>): nat
    requires |a| == |b|
  {
    |Differing(a, b)|
  }

  ghost predicate Distinct(w: seq<nat>) {
    forall i, j :: 0 <= i < j < |w| ==> w[i] != w[j]
  }

  /** `w` lists different positions at which `a` and `b` differ. */
  ghost predicate Witness<T>(a: seq<T>, b: seq<T>, w: seq<nat>)
    requires |a| == |b|
  {
    Distinct(w) && forall i :: 0 <= i < |w| ==> w[i] < |a| && a[w[i]] != b[w[i]]
  }

  ghost function Elements(w: seq<nat>): set<nat> {
    set i | 0 <= i < |w| :: w[i]
  }

  lemma {:induction false} DistinctSize(w: seq<nat>)
    requires Distinct(w)
    ensures |Elements(w)| == |w|
  {
    if w != [] {
      var n := |w| - 1;
      DistinctSize(w[..n]);
      assert Elements(w) == Elements(w[..n]) + {w[n]};
      assert w[n] !in Elements(w[..n]);
    }
  }

  lemma SubsetSize<T>(a: set<T>, b: set<T>)
    requires a <= b
    ensures |a| <= |b|
  {
    assert b == a + (b - a);
  }

  lemma WitnessBound<T>(a: seq<T>, b: seq<T>, w: seq<nat>)
    requires |a| == |b| && Witness(a, b, w)
    ensures Dist(a, b) >= |w|
  {
    DistinctSize(w);
    SubsetSize(Elements(w), Differing(a, b));
  }

  /** The last position holds at most one difference. */
  lemma DistInit<T>(a: seq<T>, b: seq<T>)
    requires |a| == |b| > 0
    ensures Dist(a, b) <= Dist(a[..|a| - 1], b[..|b| - 1]) + 1
  {
    var n := |a| - 1;
    SubsetSize(Differing(a, b), Differing(a[..n], b[..n]) + {n});
  }

  /** `to[p[i]] == from[i]` for every `i`, no two `i` going to one place. */
  ghost predicate Scatters<T>(p: seq<nat>, from: seq<T>, to: seq<T>) {
    && |p| == |from| && Distinct(p)
    && forall i :: 0 <= i < |p| ==> p[i] < |to| && to[p[i]] == from[i]
  }

  ghost function Images(p: seq<nat>, s: set<nat>): set<nat>
    requires forall i :: i in s ==> i < |p|
  {
    set i | i in s :: p[i]
  }

  lemma {:induction false} ImagesSize(p: seq<nat>, s: set<nat>)
    requires Distinct(p) && forall i :: i in s ==> i < |p|
    ensures |Images(p, s)| == |s|
  {
    if s != {} {
      var x :| x in s;
      var rest := s - {x};
      ImagesSize(p, rest);
      assert s == rest + {x};
      assert Images(p, s) == Images(p, rest) + {p[x]};
      assert p[x] !in Images(p, rest);
    }
  }

  /** Scattering two words with one injective table never brings them closer. */
  lemma ScatterKeepsDistance<T>(p: seq<nat>, a: seq<T>, b: seq<T>, a': seq<T>, b': seq<T>)
    requires Scatters(p, a, a') && Scatters(p, b, b') && |a'| == |b'|
    ensures Dist(a', b') >= Dist(a, b)
  {
    ImagesSize(p, Differing(a, b));
    SubsetSize(Images(p, Differing(a, b)), Differing(a', b'));
  }
}
