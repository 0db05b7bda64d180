/**
 * Faces of finite elements: the canonical rotation of a face, its opposite
 * orientation, and the per-topology face tables in ANSYS node numbering
 * (`get_faces` in import_cdb.py).
 */
module Faces {
  /** A face: the cycle of its node ids. */
  type Face = seq<int>

  /** The position of the first smallest node id, found by scanning left to right. */
  function MinIndex(f: Face): (m: nat)
    requires |f| > 0
    ensures m < |f|
  {
    if |f| == 1 then 0
    else
      var m := MinIndex(f[..|f| - 1]);
      if f[|f| - 1] < f[m] then |f| - 1 else m
  }

  /** `MinIndex` points at a minimum, and no earlier position holds the same value. */
  lemma {:induction false} MinIndexSpec(f: Face)
    requires |f| > 0
    ensures forall j :: 0 <= j < |f| ==> f[MinIndex(f)] <= f[j]
    ensures forall j :: 0 <= j < MinIndex(f) ==> f[MinIndex(f)] < f[j]
    decreases |f|
  {
    if |f| > 1 {
      MinIndexSpec(f[..|f| - 1]);
    }
  }

  /** `f` rotated left by `k` places. */
  function Rotate(f: Face, k: nat): Face
    requires k <= |f|
  {
    f[k..] + f[..k]
  }

  /** `x` taken back into `0..n` once: the index arithmetic of a rotation. */
  function Wrap(x: nat, n: nat): nat {
    if x < n then x else x - n
  }

  lemma RotateAt(f: Face, k: nat, i: nat)
    requires k < |f| && i < |f|
    ensures |Rotate(f, k)| == |f|
    ensures Rotate(f, k)[i] == f[Wrap(k + i, |f|)]
  {
  }

  /** `order_face`: the rotation of `f` that starts at its first smallest node id. */
  function OrderFace(f: Face): Face {
    if |f| == 0 then [] else Rotate(f, MinIndex(f))
  }

  /** `inverse_face`: the same cycle walked the other way, keeping the first node in place. */
  function InverseFace(f: Face): Face {
    if |f| == 0 then [] else [f[0]] + Reversed(f[1..])
  }

  function Reversed(s: seq<int>): seq<int> {
    if |s| == 0 then [] else Reversed(s[1..]) + [s[0]]
  }

  lemma {:induction false} ReversedAt(s: seq<int>, i: nat)
    requires i < |s|
    ensures |Reversed(s)| == |s| && Reversed(s)[i] == s[|s| - 1 - i]
  {
    if i < |s| - 1 {
      ReversedAt(s[1..], i);
    } else {
      ReversedLength(s[1..]);
    }
  }

  lemma {:induction false} ReversedLength(s: seq<int>)
    ensures |Reversed(s)| == |s|
  {
    if |s| > 0 {
      ReversedLength(s[1..]);
    }
  }

  lemma {:induction false} ReversedTwice(s: seq<int>)
    ensures Reversed(Reversed(s)) == s
  {
    ReversedLength(s);
    ReversedLength(Reversed(s));
    forall i | 0 <= i < |s| ensures Reversed(Reversed(s))[i] == s[i] {
      ReversedAt(Reversed(s), i);
      ReversedAt(s, |s| - 1 - i);
    }
  }

  /** A face whose node ids are pairwise different. */
  predicate Distinct(f: Face) {
    forall i, j :: 0 <= i < j < |f| ==> f[i] != f[j]
  }

  /** `order_face` only rotates: same length, same node ids, smallest id first, cyclic order kept. */
  lemma OrderFaceIsRotation(f: Face)
    requires |f| > 0
    ensures |OrderFace(f)| == |f|
    ensures multiset(OrderFace(f)) == multiset(f)
    ensures forall j :: 0 <= j < |f| ==> OrderFace(f)[0] <= f[j]
    ensures forall i :: 0 <= i < |f| ==> OrderFace(f)[i] == f[Wrap(MinIndex(f) + i, |f|)]
  {
    var m := MinIndex(f);
    var g := Rotate(f, m);
    assert OrderFace(f) == g;
    MinIndexSpec(f);
    RotateMultiset(f, m);
    RotateAt(f, m, 0);
    forall i | 0 <= i < |f| ensures g[i] == f[Wrap(m + i, |f|)] {
      RotateAt(f, m, i);
    }
  }

  lemma RotateMultiset(f: Face, k: nat)
    requires k <= |f|
    ensures multiset(Rotate(f, k)) == multiset(f)
  {
    calc {
      multiset(Rotate(f, k));
      multiset(f[k..]) + multiset(f[..k]);
      multiset(f[..k] + f[k..]);
      { assert f[..k] + f[k..] == f; }
      multiset(f);
    }
  }

  /** In a face with distinct ids, the smallest id is at exactly one position. */
  lemma MinIndexUnique(f: Face, j: nat)
    requires Distinct(f) && j < |f|
    requires forall i :: 0 <= i < |f| ==> f[j] <= f[i]
    ensures MinIndex(f) == j
  {
    MinIndexSpec(f);
  }

  /** Rotating twice is one rotation by the sum of the amounts. */
  lemma RotateRotate(f: Face, k: nat, j: nat)
    requires k < |f| && j < |f|
    ensures Rotate(Rotate(f, k), j) == Rotate(f, Wrap(k + j, |f|))
  {
    var n := |f|;
    var g := Rotate(f, k);
    RotateAt(f, k, 0);
    forall i | 0 <= i < n ensures Rotate(g, j)[i] == Rotate(f, Wrap(k + j, n))[i] {
      RotateAt(g, j, i);
      RotateAt(f, k, Wrap(j + i, n));
      RotateAt(f, Wrap(k + j, n), i);
    }
  }

  /** A rotation of a face with distinct ids still has distinct ids. */
  lemma RotateDistinct(f: Face, k: nat)
    requires Distinct(f) && k < |f|
    ensures Distinct(Rotate(f, k))
  {
    var n := |f|;
    var g := Rotate(f, k);
    forall a, b | 0 <= a < b < n ensures g[a] != g[b] {
      RotateAt(f, k, a);
      RotateAt(f, k, b);
      var x, y := Wrap(k + a, n), Wrap(k + b, n);
      assert x < y ==> f[x] != f[y];
      assert y < x ==> f[y] != f[x];
    }
  }

  /** Canonical form: every rotation of a face with distinct ids orders to the same tuple. */
  lemma OrderFaceCanonical(f: Face, k: nat)
    requires Distinct(f) && k < |f|
    ensures OrderFace(Rotate(f, k)) == OrderFace(f)
  {
    var n := |f|;
    var g := Rotate(f, k);
    var m := MinIndex(f);
    MinIndexSpec(f);
    var j := Wrap(m + n - k, n);
    RotateAt(f, k, 0);
    assert Wrap(k + j, n) == m;
    assert g[j] == f[m] by { RotateAt(f, k, j); }
    RotateDistinct(f, k);
    forall i | 0 <= i < n ensures g[j] <= g[i] {
      RotateAt(f, k, i);
    }
    MinIndexUnique(g, j);
    RotateRotate(f, k, j);
  }

  /** `inverse_face` keeps the first node, reverses the rest, and undoes itself. */
  lemma InverseFaceInvolution(f: Face)
    ensures |InverseFace(f)| == |f|
    ensures |f| > 0 ==> InverseFace(f)[0] == f[0]
    ensures forall i :: 0 < i < |f| ==> InverseFace(f)[i] == f[|f| - i]
    ensures InverseFace(InverseFace(f)) == f
  {
    if |f| > 0 {
      var r := Reversed(f[1..]);
      ReversedLength(f[1..]);
      forall i | 0 < i < |f| ensures InverseFace(f)[i] == f[|f| - i] {
        ReversedAt(f[1..], i - 1);
      }
      assert InverseFace(f)[1..] == r;
      ReversedTwice(f[1..]);
      assert f == [f[0]] + f[1..];
    }
  }

  /** A face of at most two nodes is its own inverse. */
  lemma InverseOfShortFace(f: Face)
    requires |f| <= 2
    ensures InverseFace(f) == f
  {
    if |f| == 2 {
      assert f[1..] == [f[1]];
      assert Reversed([f[1]]) == Reversed([f[1]][1..]) + [f[1]];
    } else if |f| == 1 {
      assert f[1..] == [];
    }
  }

  /** The loop of `order_face`: find the first minimum, then copy from there with wrap-around. */
  method OrderFaceScan(f: Face) returns (r: Face)
    ensures r == OrderFace(f)
  {
    if |f| == 0 {
      return [];
    }
    var minIndex := 0;
    for i := 0 to |f| - 1
      invariant minIndex == MinIndex(f[..i + 1])
    {
      assert f[..i + 2][..i + 1] == f[..i + 1];
      if f[i + 1] < f[minIndex] {
        minIndex := i + 1;
      }
    }
    assert f[..|f|] == f;
    r := [];
    for i := 0 to |f|
      invariant |r| == i
      invariant forall k :: 0 <= k < i ==> r[k] == f[Wrap(minIndex + k, |f|)]
    {
      var index := minIndex + i;
      if index >= |f| {
        index := index - |f|;
      }
      r := r + [f[index]];
    }
    forall k | 0 <= k < |f| ensures r[k] == OrderFace(f)[k] {
      RotateAt(f, minIndex, k);
    }
  }

  /** The loop of `inverse_face`: the first node, then the others from the last one back. */
  method InverseFaceScan(f: Face) returns (r: Face)
    ensures r == InverseFace(f)
  {
    if |f| == 0 {
      return [];
    }
    r := [f[0]];
    for i := 0 to |f| - 1
      invariant |r| == i + 1 && r[0] == f[0]
      invariant forall k :: 0 < k <= i ==> r[k] == f[|f| - k]
    {
      r := r + [f[|f| - i - 1]];
    }
    InverseFaceInvolution(f);
  }

  /** `order_face` introduces no node: every node of the result was a node of `f`. */
  lemma OrderFaceMembers()
    ensures forall f: Face, x :: x in OrderFace(f) ==> x in f
  {
    forall f: Face, x | x in OrderFace(f) ensures x in f {
      OrderFaceIsRotation(f);
      assert x in multiset(OrderFace(f));
    }
  }
}
