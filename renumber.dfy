/**
 * `renumber` (import_cdb.py:715-740): per (material, real constant) group,
 * the node ids of the outer faces are replaced by dense 0-based indices into
 * a list of vertex coordinates.  Vertices are keyed by their coordinates, so
 * two nodes at the same place share one index.
 */
module Renumbering {
  import opened Faults
  import opened Faces
  import opened OrderedMaps

  /** The vertices of one group so far (`verts[face_type]`) and the index of each coordinate (`vert_coords`). */
  datatype Table<C> = Table(verts: seq<C>, index: map<C, nat>)

  /** One group's output: its vertex coordinates and its faces as vertex indices. */
  datatype Mesh<C> = Mesh(verts: seq<C>, faces: seq<seq<nat>>)

  /** `index` and `verts` describe each other: the next index handed out is always `|verts|`. */
  predicate Dense<C(==)>(t: Table<C>) {
    (forall c :: c in t.index ==> t.index[c] < |t.verts| && t.verts[t.index[c]] == c)
    && (forall i :: 0 <= i < |t.verts| ==> t.verts[i] in t.index && t.index[t.verts[i]] == i)
  }

  /** Indices once handed out stay as they are. */
  predicate Extends<C(==)>(t: Table<C>, t': Table<C>) {
    forall c :: c in t.index ==> c in t'.index && t'.index[c] == t.index[c]
  }

  /** The index of node `v`: an existing one for a known coordinate, otherwise the next one. */
  function Visit<C(==)>(nodes: map<int, C>, t: Table<C>, v: int): Outcome<(Table<C>, nat)> {
    if v !in nodes then Failed(NodeMissing(v))
    else
      var coord := nodes[v];
      if coord in t.index then Ok((t, t.index[coord]))
      else Ok((Table(t.verts + [coord], t.index[coord := |t.verts|]), |t.verts|))
  }

  function RenumberFace<C(==)>(nodes: map<int, C>, t: Table<C>, f: Face): Outcome<(Table<C>, seq<nat>)>
    decreases |f|
  {
    if |f| == 0 then Ok((t, []))
    else
      match RenumberFace(nodes, t, f[..|f| - 1])
      case Failed(fault) => Failed(fault)
      case Ok((t1, face)) =>
        match Visit(nodes, t1, f[|f| - 1])
        case Failed(fault) => Failed(fault)
        case Ok((t2, i)) => Ok((t2, face + [i]))
  }

  function RenumberFaces<C(==)>(nodes: map<int, C>, faces: seq<Face>): Outcome<(Table<C>, seq<seq<nat>>)>
    decreases |faces|
  {
    if |faces| == 0 then Ok((Table([], map[]), []))
    else
      match RenumberFaces(nodes, faces[..|faces| - 1])
      case Failed(fault) => Failed(fault)
      case Ok((t, out)) =>
        match RenumberFace(nodes, t, faces[|faces| - 1])
        case Failed(fault) => Failed(fault)
        case Ok((t', face)) => Ok((t', out + [face]))
  }

  /** One group of `renumber`. */
  function RenumberGroup<C(==)>(nodes: map<int, C>, faces: seq<Face>): Outcome<Mesh<C>> {
    match RenumberFaces(nodes, faces)
    case Failed(fault) => Failed(fault)
    case Ok((t, out)) => Ok(Mesh(t.verts, out))
  }

  // ----- a reference definition of the vertex list -----

  /** `p` followed by the elements of `s` it does not hold yet, each at its first occurrence. */
  function Extend<C(==)>(p: seq<C>, s: seq<C>): seq<C>
    decreases |s|
  {
    if |s| == 0 then p
    else
      var q := Extend(p, s[..|s| - 1]);
      if s[|s| - 1] in q then q else q + [s[|s| - 1]]
  }

  /** The distinct elements of `s` in the order they first occur. */
  function FirstSeen<C(==)>(s: seq<C>): seq<C> {
    Extend([], s)
  }

  lemma {:induction false} ExtendAppend<C>(p: seq<C>, a: seq<C>, b: seq<C>)
    ensures Extend(p, a + b) == Extend(Extend(p, a), b)
    decreases |b|
  {
    if |b| == 0 {
      assert a + b == a;
    } else {
      ExtendAppend(p, a, b[..|b| - 1]);
      assert (a + b)[..|a + b| - 1] == a + b[..|b| - 1];
    }
  }

  lemma {:induction false} FirstSeenSpec<C>(s: seq<C>)
    ensures forall x :: x in FirstSeen(s) <==> x in s
    ensures forall i, j :: 0 <= i < j < |FirstSeen(s)| ==> FirstSeen(s)[i] != FirstSeen(s)[j]
    decreases |s|
  {
    if |s| > 0 {
      FirstSeenSpec(s[..|s| - 1]);
      assert s == s[..|s| - 1] + [s[|s| - 1]];
    }
  }

  /** The coordinates of a face's nodes. */
  function FaceCoords<C(==)>(nodes: map<int, C>, f: Face): seq<C>
    requires forall j :: 0 <= j < |f| ==> f[j] in nodes
  {
    seq(|f|, j requires 0 <= j < |f| => nodes[f[j]])
  }

  /** Every node of every face is in the node table. */
  predicate Known<C(==)>(nodes: map<int, C>, faces: seq<Face>) {
    forall k, j :: 0 <= k < |faces| && 0 <= j < |faces[k]| ==> faces[k][j] in nodes
  }

  /** The coordinates of all faces' nodes, face after face. */
  function Coords<C(==)>(nodes: map<int, C>, faces: seq<Face>): seq<C>
    requires Known(nodes, faces)
    decreases |faces|
  {
    if |faces| == 0 then []
    else Coords(nodes, faces[..|faces| - 1]) + FaceCoords(nodes, faces[|faces| - 1])
  }

  // ----- proofs -----

  lemma VisitSpec<C>(nodes: map<int, C>, t: Table<C>, v: int)
    requires Dense(t) && v in nodes
    ensures Visit(nodes, t, v).Ok?
    ensures Dense(Visit(nodes, t, v).value.0) && Extends(t, Visit(nodes, t, v).value.0)
    ensures Visit(nodes, t, v).value.1 == Visit(nodes, t, v).value.0.index[nodes[v]]
    ensures Visit(nodes, t, v).value.0.verts == Extend(t.verts, [nodes[v]])
  {
    var coord := nodes[v];
    assert [coord][..0] == [];
    if coord !in t.index {
      assert coord !in t.verts;
      var t' := Visit(nodes, t, v).value.0;
      assert forall i :: 0 <= i < |t.verts| ==> t'.verts[i] == t.verts[i];
    } else {
      assert coord in t.verts;
    }
  }

  /** A face renumbers without a fault exactly when all its nodes are known. */
  lemma {:induction false} RenumberFaceOk<C>(nodes: map<int, C>, t: Table<C>, f: Face)
    ensures RenumberFace(nodes, t, f).Ok? <==> forall j :: 0 <= j < |f| ==> f[j] in nodes
    decreases |f|
  {
    if |f| > 0 {
      var init := f[..|f| - 1];
      RenumberFaceOk(nodes, t, init);
      assert forall j :: 0 <= j < |init| ==> init[j] == f[j];
    }
  }

  /** The last node of a face, visited after the others. */
  lemma RenumberFaceStep<C>(nodes: map<int, C>, t: Table<C>, f: Face, t1: Table<C>, face: seq<nat>,
                            t2: Table<C>, i: nat)
    requires |f| > 0 && forall j :: 0 <= j < |f| ==> f[j] in nodes
    requires Extends(t, t1) && |face| == |f| - 1
    requires forall j :: 0 <= j < |f| - 1 ==> nodes[f[j]] in t1.index && face[j] == t1.index[nodes[f[j]]]
    requires t1.verts == Extend(t.verts, FaceCoords(nodes, f[..|f| - 1]))
    requires Extends(t1, t2) && nodes[f[|f| - 1]] in t2.index && i == t2.index[nodes[f[|f| - 1]]]
    requires t2.verts == Extend(t1.verts, [nodes[f[|f| - 1]]])
    ensures Extends(t, t2) && |face + [i]| == |f|
    ensures forall j :: 0 <= j < |f| ==> nodes[f[j]] in t2.index && (face + [i])[j] == t2.index[nodes[f[j]]]
    ensures t2.verts == Extend(t.verts, FaceCoords(nodes, f))
  {
    var init := f[..|f| - 1];
    assert FaceCoords(nodes, f) == FaceCoords(nodes, init) + [nodes[f[|f| - 1]]];
    ExtendAppend(t.verts, FaceCoords(nodes, init), [nodes[f[|f| - 1]]]);
    forall j | 0 <= j < |f|
      ensures nodes[f[j]] in t2.index && (face + [i])[j] == t2.index[nodes[f[j]]]
    {
      if j < |f| - 1 {
        assert nodes[f[j]] in t1.index;
      }
    }
  }

  /**
   * A face whose nodes are all known renumbers into one index per node, each
   * the index of that node's coordinates, and extends the vertex list by the
   * coordinates not seen before.
   */
  lemma {:induction false} RenumberFaceSpec<C>(nodes: map<int, C>, t: Table<C>, f: Face)
    requires Dense(t) && forall j :: 0 <= j < |f| ==> f[j] in nodes
    ensures RenumberFace(nodes, t, f).Ok?
    ensures var (t', face) := RenumberFace(nodes, t, f).value;
      Dense(t') && Extends(t, t') && |face| == |f|
      && (forall j :: 0 <= j < |f| ==> nodes[f[j]] in t'.index && face[j] == t'.index[nodes[f[j]]])
      && t'.verts == Extend(t.verts, FaceCoords(nodes, f))
    decreases |f|
  {
    RenumberFaceOk(nodes, t, f);
    if |f| > 0 {
      var init := f[..|f| - 1];
      assert forall j :: 0 <= j < |init| ==> init[j] == f[j];
      RenumberFaceSpec(nodes, t, init);
      var (t1, face) := RenumberFace(nodes, t, init).value;
      VisitSpec(nodes, t1, f[|f| - 1]);
      var (t2, i) := Visit(nodes, t1, f[|f| - 1]).value;
      RenumberFaceStep(nodes, t, f, t1, face, t2, i);
    } else {
      assert FaceCoords(nodes, f) == [];
    }
  }

  lemma {:induction false} RenumberFacesOk<C>(nodes: map<int, C>, faces: seq<Face>)
    ensures RenumberFaces(nodes, faces).Ok? <==> Known(nodes, faces)
    ensures RenumberFaces(nodes, faces).Ok? ==> Dense(RenumberFaces(nodes, faces).value.0)
    decreases |faces|
  {
    if |faces| > 0 {
      var init := faces[..|faces| - 1];
      var f := faces[|faces| - 1];
      var before := RenumberFaces(nodes, init);
      RenumberFacesOk(nodes, init);
      assert faces == init + [f];
      KnownSnoc(nodes, faces, init, f);
      if before.Ok? {
        var t := before.value.0;
        var step := RenumberFace(nodes, t, f);
        assert RenumberFaces(nodes, faces)
          == if step.Failed? then Failed(step.fault) else Ok((step.value.0, before.value.1 + [step.value.1]));
        RenumberFaceOk(nodes, t, f);
        if step.Ok? {
          RenumberFaceSpec(nodes, t, f);
        }
      } else {
        assert RenumberFaces(nodes, faces) == Failed(before.fault);
      }
    }
  }

  /** All nodes of the faces are known exactly when those of all but the last face are, and the last face's are. */
  lemma KnownSnoc<C>(nodes: map<int, C>, faces: seq<Face>, init: seq<Face>, f: Face)
    requires faces == init + [f]
    ensures Known(nodes, faces) <==> Known(nodes, init) && forall j :: 0 <= j < |f| ==> f[j] in nodes
  {
    if !Known(nodes, init) {
      var k, j :| 0 <= k < |init| && 0 <= j < |init[k]| && init[k][j] !in nodes;
      assert faces[k][j] !in nodes;
    }
    if !(forall j :: 0 <= j < |f| ==> f[j] in nodes) {
      var j :| 0 <= j < |f| && f[j] !in nodes;
      assert faces[|init|][j] !in nodes;
    }
    if Known(nodes, init) && forall j :: 0 <= j < |f| ==> f[j] in nodes {
      forall k, j | 0 <= k < |faces| && 0 <= j < |faces[k]| ensures faces[k][j] in nodes {
        if k < |init| {
          assert faces[k] == init[k];
        } else {
          assert faces[k] == f;
        }
      }
    }
  }

  /** What the output of a successful pass over `faces` looks like. */
  predicate Renumbered<C>(nodes: map<int, C>, faces: seq<Face>, t: Table<C>, out: seq<seq<nat>>)
    requires Known(nodes, faces)
  {
    Dense(t) && |out| == |faces|
    && (forall k :: 0 <= k < |faces| ==> |out[k]| == |faces[k]|)
    && (forall k, j :: 0 <= k < |faces| && 0 <= j < |faces[k]| ==>
          nodes[faces[k][j]] in t.index && out[k][j] == t.index[nodes[faces[k][j]]])
    && t.verts == FirstSeen(Coords(nodes, faces))
  }

  lemma {:induction false} RenumberFacesSpec<C>(nodes: map<int, C>, faces: seq<Face>)
    requires Known(nodes, faces)
    ensures RenumberFaces(nodes, faces).Ok?
    ensures Renumbered(nodes, faces, RenumberFaces(nodes, faces).value.0, RenumberFaces(nodes, faces).value.1)
    decreases |faces|
  {
    RenumberFacesOk(nodes, faces);
    if |faces| > 0 {
      var init := faces[..|faces| - 1];
      var f := faces[|faces| - 1];
      assert forall k :: 0 <= k < |init| ==> init[k] == faces[k];
      RenumberFacesSpec(nodes, init);
      var (t, out) := RenumberFaces(nodes, init).value;
      RenumberFaceSpec(nodes, t, f);
      var (t', face) := RenumberFace(nodes, t, f).value;
      RenumberFacesStep(nodes, faces, t, out, f, t', face);
    }
  }

  lemma RenumberFacesStep<C>(nodes: map<int, C>, faces: seq<Face>, t: Table<C>, out: seq<seq<nat>>,
                             f: Face, t': Table<C>, face: seq<nat>)
    requires |faces| > 0 && f == faces[|faces| - 1] && Known(nodes, faces)
    requires Known(nodes, faces[..|faces| - 1])
    requires Renumbered(nodes, faces[..|faces| - 1], t, out)
    requires Dense(t') && Extends(t, t') && |face| == |f|
    requires forall j :: 0 <= j < |f| ==> nodes[f[j]] in t'.index && face[j] == t'.index[nodes[f[j]]]
    requires t'.verts == Extend(t.verts, FaceCoords(nodes, f))
    ensures Renumbered(nodes, faces, t', out + [face])
  {
    var init := faces[..|faces| - 1];
    ExtendAppend([], Coords(nodes, init), FaceCoords(nodes, f));
    var out' := out + [face];
    forall k, j | 0 <= k < |faces| && 0 <= j < |faces[k]|
      ensures nodes[faces[k][j]] in t'.index && out'[k][j] == t'.index[nodes[faces[k][j]]]
    {
      if k < |init| {
        assert out'[k] == out[k] && faces[k] == init[k];
        assert nodes[init[k][j]] in t.index && out[k][j] == t.index[nodes[init[k][j]]];
        assert nodes[faces[k][j]] in t'.index;
        assert out'[k][j] == t'.index[nodes[faces[k][j]]];
      } else {
        assert k == |faces| - 1 && j < |face|;
        assert out'[k] == face;
      }
    }
  }

  /**
   * `renumber` on one group succeeds exactly when every node is known, and
   * then: one output face per input face with the same arity, every index in
   * range and pointing at the node's coordinates, and the vertices are the
   * distinct coordinates in first-seen order.
   */
  lemma RenumberGroupSpec<C>(nodes: map<int, C>, faces: seq<Face>)
    ensures RenumberGroup(nodes, faces).Ok? <==> Known(nodes, faces)
    ensures RenumberGroup(nodes, faces).Ok? ==>
      var m := RenumberGroup(nodes, faces).value;
      |m.faces| == |faces|
      && (forall k :: 0 <= k < |faces| ==> |m.faces[k]| == |faces[k]|)
      && (forall k, j :: 0 <= k < |faces| && 0 <= j < |faces[k]| ==>
            m.faces[k][j] < |m.verts| && m.verts[m.faces[k][j]] == nodes[faces[k][j]])
      && m.verts == FirstSeen(Coords(nodes, faces))
  {
    RenumberFacesOk(nodes, faces);
    if Known(nodes, faces) {
      RenumberFacesSpec(nodes, faces);
    }
  }

  /** Two face corners share an index exactly when their nodes have equal coordinates. */
  lemma SharedIndex<C>(nodes: map<int, C>, faces: seq<Face>, k1: nat, j1: nat, k2: nat, j2: nat)
    requires Known(nodes, faces)
    requires k1 < |faces| && j1 < |faces[k1]| && k2 < |faces| && j2 < |faces[k2]|
    ensures RenumberGroup(nodes, faces).Ok?
    ensures |RenumberGroup(nodes, faces).value.faces| == |faces|
    ensures |RenumberGroup(nodes, faces).value.faces[k1]| == |faces[k1]|
    ensures |RenumberGroup(nodes, faces).value.faces[k2]| == |faces[k2]|
    ensures RenumberGroup(nodes, faces).value.faces[k1][j1] == RenumberGroup(nodes, faces).value.faces[k2][j2]
      <==> nodes[faces[k1][j1]] == nodes[faces[k2][j2]]
  {
    RenumberFacesSpec(nodes, faces);
  }

  /** A group renumbers exactly when every node of its faces is known. */
  lemma RenumberGroupOk<C>(nodes: map<int, C>, faces: seq<Face>)
    ensures RenumberGroup(nodes, faces).Ok? <==> Known(nodes, faces)
  {
    RenumberFacesOk(nodes, faces);
  }

  // ----- all groups -----

  /**
   * The first `n` entries of `results`, stored under their `keys` in order;
   * the first failure stops the whole pass.
   */
  function Collect<K(==), M>(keys: seq<K>, results: seq<Outcome<M>>, n: nat): Outcome<OMap<K, M>>
    requires |results| == |keys| && n <= |keys|
  {
    if n == 0 then Ok(Empty())
    else
      match Collect(keys, results, n - 1)
      case Failed(fault) => Failed(fault)
      case Ok(done) =>
        match results[n - 1]
        case Failed(fault) => Failed(fault)
        case Ok(m) => Ok(done.Put(keys[n - 1], m))
  }

  /** The outcome of `renumber` for each of the first `n` groups, in group order. */
  function GroupResults<C(==)>(nodes: map<int, C>, outer: OMap<(int, int), seq<Face>>, n: nat): (r: seq<Outcome<Mesh<C>>>)
    requires outer.Valid() && n <= |outer.keys|
    ensures |r| == n
  {
    if n == 0 then [] else GroupResults(nodes, outer, n - 1) + [RenumberGroup(nodes, outer.values[outer.keys[n - 1]])]
  }

  lemma {:induction false} GroupResultsAt<C>(nodes: map<int, C>, outer: OMap<(int, int), seq<Face>>, n: nat, i: nat)
    requires outer.Valid() && i < n <= |outer.keys|
    ensures GroupResults(nodes, outer, n)[i] == RenumberGroup(nodes, outer.values[outer.keys[i]])
  {
    if i < n - 1 {
      GroupResultsAt(nodes, outer, n - 1, i);
    }
  }

  /** `renumber`: one mesh per group of outer faces. */
  function RenumberAll<C(==)>(nodes: map<int, C>, outer: OMap<(int, int), seq<Face>>): Outcome<OMap<(int, int), Mesh<C>>>
    requires outer.Valid()
  {
    Collect(outer.keys, GroupResults(nodes, outer, |outer.keys|), |outer.keys|)
  }

  lemma {:induction false} CollectOk<K, M>(keys: seq<K>, results: seq<Outcome<M>>, n: nat)
    requires |results| == |keys| && n <= |keys|
    ensures Collect(keys, results, n).Ok? <==> forall i :: 0 <= i < n ==> results[i].Ok?
  {
    if n > 0 {
      CollectOk(keys, results, n - 1);
      if Collect(keys, results, n - 1).Failed? {
        var i :| 0 <= i < n - 1 && results[i].Failed?;
      } else if results[n - 1].Ok? {
        forall i | 0 <= i < n ensures results[i].Ok? {
          if i < n - 1 { }
        }
      }
    }
  }

  /** `done` holds, in key order, the successful results of the first `n` entries. */
  predicate StoredAt<K(==), M(==)>(keys: seq<K>, results: seq<Outcome<M>>, n: nat, done: OMap<K, M>)
    requires |results| == |keys| && n <= |keys|
  {
    done.Valid() && done.keys == keys[..n]
    && forall i :: 0 <= i < n ==> keys[i] in done.values && Ok(done.values[keys[i]]) == results[i]
  }

  lemma StoredAtPut<K, M>(keys: seq<K>, results: seq<Outcome<M>>, n: nat, done: OMap<K, M>)
    requires |results| == |keys| && n < |keys| && StoredAt(keys, results, n, done) && results[n].Ok?
    requires forall i, j :: 0 <= i < j < |keys| ==> keys[i] != keys[j]
    ensures StoredAt(keys, results, n + 1, done.Put(keys[n], results[n].value))
  {
    var k := keys[n];
    var next := done.Put(k, results[n].value);
    assert keys[..n + 1] == keys[..n] + [k];
    assert k !in done.values by {
      assert k !in keys[..n];
    }
    forall i | 0 <= i < n + 1 ensures keys[i] in next.values && Ok(next.values[keys[i]]) == results[i] {
      if i < n {
        assert keys[i] != k;
      }
    }
  }

  /** With distinct keys, a successful pass stores each result under its own key. */
  lemma {:induction false} CollectSpec<K, M>(keys: seq<K>, results: seq<Outcome<M>>, n: nat)
    requires |results| == |keys| && n <= |keys| && Collect(keys, results, n).Ok?
    requires forall i, j :: 0 <= i < j < |keys| ==> keys[i] != keys[j]
    ensures StoredAt(keys, results, n, Collect(keys, results, n).value)
  {
    if n > 0 {
      var before := Collect(keys, results, n - 1);
      CollectStep(keys, results, n - 1, before);
      assert before.Ok? && results[n - 1].Ok?;
      CollectSpec(keys, results, n - 1);
      var prev := before.value;
      assert StoredAt(keys, results, n - 1, prev);
      StoredAtPut(keys, results, n - 1, prev);
    }
  }

  /** One more entry: the pass fails with the entry's fault or stores the entry. */
  lemma CollectStep<K, M>(keys: seq<K>, results: seq<Outcome<M>>, n: nat, before: Outcome<OMap<K, M>>)
    requires |results| == |keys| && n < |keys| && before == Collect(keys, results, n)
    ensures Collect(keys, results, n + 1) ==
      if before.Failed? then before
      else if results[n].Failed? then Failed(results[n].fault)
      else Ok(before.value.Put(keys[n], results[n].value))
  {
  }

  /** The pass over the groups of outer faces succeeds exactly when no face names a missing node. */
  lemma RenumberAllOk<C>(nodes: map<int, C>, outer: OMap<(int, int), seq<Face>>)
    requires outer.Valid()
    ensures RenumberAll(nodes, outer).Ok? <==> forall g :: g in outer.values ==> Known(nodes, outer.values[g])
  {
    var n := |outer.keys|;
    var results := GroupResults(nodes, outer, n);
    CollectOk(outer.keys, results, n);
    forall i | 0 <= i < n ensures results[i].Ok? <==> Known(nodes, outer.values[outer.keys[i]]) {
      GroupResultsAt(nodes, outer, n, i);
      RenumberGroupOk(nodes, outer.values[outer.keys[i]]);
    }
    if !RenumberAll(nodes, outer).Ok? {
      var i :| 0 <= i < n && !results[i].Ok?;
      assert outer.keys[i] in outer.values;
    }
    if forall g :: g in outer.values ==> Known(nodes, outer.values[g]) {
      forall i | 0 <= i < n ensures results[i].Ok? {
        assert outer.keys[i] in outer.values;
      }
    }
  }

  /** A successful pass keeps the order of the groups and stores each group's own mesh. */
  lemma RenumberAllSpec<C>(nodes: map<int, C>, outer: OMap<(int, int), seq<Face>>)
    requires outer.Valid() && RenumberAll(nodes, outer).Ok?
    ensures RenumberAll(nodes, outer).value.keys == outer.keys
    ensures forall g :: g in outer.values ==>
      g in RenumberAll(nodes, outer).value.values
      && Ok(RenumberAll(nodes, outer).value.values[g]) == RenumberGroup(nodes, outer.values[g])
  {
    var n := |outer.keys|;
    var results := GroupResults(nodes, outer, n);
    var meshes := RenumberAll(nodes, outer).value;
    CollectSpec(outer.keys, results, n);
    assert outer.keys[..n] == outer.keys;
    forall g | g in outer.values
      ensures g in meshes.values && Ok(meshes.values[g]) == RenumberGroup(nodes, outer.values[g])
    {
      var i :| 0 <= i < n && outer.keys[i] == g;
      GroupResultsAt(nodes, outer, n, i);
    }
  }

  // ----- the loops of `renumber` -----

  lemma {:induction false} FaceFailureSticks<C>(nodes: map<int, C>, t: Table<C>, f: Face, j: nat)
    requires j <= |f| && RenumberFace(nodes, t, f[..j]).Failed?
    ensures RenumberFace(nodes, t, f) == RenumberFace(nodes, t, f[..j])
    decreases |f| - j
  {
    if j < |f| {
      assert f[..j + 1][..j] == f[..j];
      FaceFailureSticks(nodes, t, f, j + 1);
    } else {
      assert f[..j] == f;
    }
  }

  lemma {:induction false} FacesFailureSticks<C>(nodes: map<int, C>, faces: seq<Face>, k: nat)
    requires k <= |faces| && RenumberFaces(nodes, faces[..k]).Failed?
    ensures RenumberFaces(nodes, faces) == RenumberFaces(nodes, faces[..k])
    decreases |faces| - k
  {
    if k < |faces| {
      assert faces[..k + 1][..k] == faces[..k];
      FacesFailureSticks(nodes, faces, k + 1);
    } else {
      assert faces[..k] == faces;
    }
  }

  /** The loop over one face's nodes; `indexNumber` is the source's running counter. */
  method RenumberFaceLoop<C(==)>(nodes: map<int, C>, t0: Table<C>, indexNumber0: nat, f: Face)
    returns (r: Outcome<(Table<C>, seq<nat>)>, indexNumber: nat)
    requires indexNumber0 == |t0.verts|
    ensures r == RenumberFace(nodes, t0, f)
    ensures r.Ok? ==> indexNumber == |r.value.0.verts|
  {
    var verts, vertCoords := t0.verts, t0.index;
    indexNumber := indexNumber0;
    var face := [];
    for j := 0 to |f|
      invariant RenumberFace(nodes, t0, f[..j]) == Ok((Table(verts, vertCoords), face))
      invariant indexNumber == |verts|
    {
      assert f[..j + 1][..j] == f[..j];
      var v := f[j];
      if v !in nodes {
        FaceFailureSticks(nodes, t0, f, j + 1);
        return Failed(NodeMissing(v)), indexNumber;
      }
      var coord := nodes[v];
      var index;
      if coord in vertCoords {
        index := vertCoords[coord];
      } else {
        index := indexNumber;
        vertCoords := vertCoords[coord := index];
        indexNumber := indexNumber + 1;
        verts := verts + [coord];
      }
      face := face + [index];
    }
    assert f[..|f|] == f;
    r := Ok((Table(verts, vertCoords), face));
  }

  /** One group of `renumber`: the loop over its faces. */
  method RenumberGroupLoop<C(==)>(nodes: map<int, C>, faces: seq<Face>) returns (r: Outcome<Mesh<C>>)
    ensures r == RenumberGroup(nodes, faces)
  {
    var t := Table([], map[]);
    var indexNumber := 0;
    var out := [];
    for k := 0 to |faces|
      invariant RenumberFaces(nodes, faces[..k]) == Ok((t, out))
      invariant indexNumber == |t.verts|
    {
      assert faces[..k + 1][..k] == faces[..k];
      var step;
      step, indexNumber := RenumberFaceLoop(nodes, t, indexNumber, faces[k]);
      if step.Failed? {
        FacesFailureSticks(nodes, faces, k + 1);
        return Failed(step.fault);
      }
      t := step.value.0;
      out := out + [step.value.1];
    }
    assert faces[..|faces|] == faces;
    r := Ok(Mesh(t.verts, out));
  }

  /** `renumber`: the loop over the groups of outer faces. */
  method Renumber<C(==)>(nodes: map<int, C>, outer: OMap<(int, int), seq<Face>>)
    returns (r: Outcome<OMap<(int, int), Mesh<C>>>)
    requires outer.Valid()
    ensures r == RenumberAll(nodes, outer)
  {
    var meshes := Empty();
    for n := 0 to |outer.keys|
      invariant Collect(outer.keys, GroupResults(nodes, outer, |outer.keys|), n) == Ok(meshes)
    {
      var next := RenumberNext(nodes, outer, n, meshes);
      if next.Failed? {
        return next;
      }
      meshes := next.value;
    }
    r := Ok(meshes);
  }

  /** One pass of the loop of `renumber`: group `n` is renumbered, and stored unless a node is missing. */
  method RenumberNext<C(==)>(nodes: map<int, C>, outer: OMap<(int, int), seq<Face>>, n: nat,
                             meshes: OMap<(int, int), Mesh<C>>)
    returns (next: Outcome<OMap<(int, int), Mesh<C>>>)
    requires outer.Valid() && n < |outer.keys|
    requires Collect(outer.keys, GroupResults(nodes, outer, |outer.keys|), n) == Ok(meshes)
    ensures next.Failed? ==> next == RenumberAll(nodes, outer)
    ensures next.Ok? ==> Collect(outer.keys, GroupResults(nodes, outer, |outer.keys|), n + 1) == next
  {
    var g := outer.keys[n];
    var mesh := RenumberGroupLoop(nodes, outer.values[g]);
    RenumberStep(nodes, outer, n, meshes, mesh);
    if mesh.Failed? {
      return Failed(mesh.fault);
    }
    next := Ok(meshes.Put(g, mesh.value));
  }

  /** One pass of the loop of `renumber`: the group's outcome either ends the pass or is stored. */
  lemma RenumberStep<C>(nodes: map<int, C>, outer: OMap<(int, int), seq<Face>>, n: nat,
                        meshes: OMap<(int, int), Mesh<C>>, mesh: Outcome<Mesh<C>>)
    requires outer.Valid() && n < |outer.keys|
    requires Collect(outer.keys, GroupResults(nodes, outer, |outer.keys|), n) == Ok(meshes)
    requires mesh == RenumberGroup(nodes, outer.values[outer.keys[n]])
    ensures mesh.Failed? ==> RenumberAll(nodes, outer) == Failed(mesh.fault)
    ensures mesh.Ok? ==>
      Collect(outer.keys, GroupResults(nodes, outer, |outer.keys|), n + 1) == Ok(meshes.Put(outer.keys[n], mesh.value))
  {
    var results := GroupResults(nodes, outer, |outer.keys|);
    GroupResultsAt(nodes, outer, |outer.keys|, n);
    CollectNext(outer.keys, results, n, meshes, mesh);
  }

  /** The entry after a successful prefix either fails the whole pass or is stored next. */
  lemma CollectNext<K, M>(keys: seq<K>, results: seq<Outcome<M>>, n: nat, done: OMap<K, M>, m: Outcome<M>)
    requires |results| == |keys| && n < |keys| && Collect(keys, results, n) == Ok(done) && results[n] == m
    ensures m.Failed? ==> Collect(keys, results, |keys|) == Failed(m.fault)
    ensures m.Ok? ==> Collect(keys, results, n + 1) == Ok(done.Put(keys[n], m.value))
  {
    CollectStep(keys, results, n, Ok(done));
    if m.Failed? {
      CollectFailureSticks(keys, results, n + 1);
    }
  }

  lemma {:induction false} CollectFailureSticks<K, M>(keys: seq<K>, results: seq<Outcome<M>>, n: nat)
    requires |results| == |keys| && n <= |keys| && Collect(keys, results, n).Failed?
    ensures Collect(keys, results, |keys|) == Collect(keys, results, n)
    decreases |keys| - n
  {
    if n < |keys| {
      CollectFailureSticks(keys, results, n + 1);
    }
  }
}
