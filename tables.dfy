/**
 * The face tables of `get_faces` (import_cdb.py:511-621): for each element
 * topology, its faces in ANSYS node numbering, each put in canonical
 * rotation by `order_face`.  Parameter names follow the source: `v12` is the
 * mid-side node between corners 1 and 2.
 */
module FaceTables {
  import opened Faces

  function Hex8(v1: int, v2: int, v3: int, v4: int, v5: int, v6: int, v7: int, v8: int): seq<Face> {
    [ OrderFace([v1, v4, v3, v2]),
      OrderFace([v1, v2, v6, v5]),
      OrderFace([v2, v3, v7, v6]),
      OrderFace([v3, v4, v8, v7]),
      OrderFace([v4, v1, v5, v8]),
      OrderFace([v5, v6, v7, v8]) ]
  }

  function Wedge6(v1: int, v2: int, v3: int, v4: int, v5: int, v6: int): seq<Face> {
    [ OrderFace([v1, v3, v2]),
      OrderFace([v1, v2, v5, v4]),
      OrderFace([v2, v3, v6, v5]),
      OrderFace([v3, v1, v4, v6]),
      OrderFace([v4, v5, v6]) ]
  }

  function Pyramid5(v1: int, v2: int, v3: int, v4: int, v5: int): seq<Face> {
    [ OrderFace([v1, v4, v3, v2]),
      OrderFace([v1, v2, v5]),
      OrderFace([v2, v3, v5]),
      OrderFace([v3, v4, v5]),
      OrderFace([v4, v1, v5]) ]
  }

  function Tet4(v1: int, v2: int, v3: int, v4: int): seq<Face> {
    [ OrderFace([v1, v3, v2]),
      OrderFace([v1, v2, v4]),
      OrderFace([v2, v3, v4]),
      OrderFace([v3, v1, v4]) ]
  }

  function Hex20(v1: int, v2: int, v3: int, v4: int, v5: int, v6: int, v7: int, v8: int,
                 v12: int, v23: int, v34: int, v14: int, v56: int, v67: int, v78: int, v58: int,
                 v15: int, v26: int, v37: int, v48: int): seq<Face> {
    [ OrderFace([v1, v14, v4, v34, v3, v23, v2, v12]),
      OrderFace([v1, v12, v2, v26, v6, v56, v5, v15]),
      OrderFace([v2, v23, v3, v37, v7, v67, v6, v26]),
      OrderFace([v3, v34, v4, v48, v8, v78, v7, v37]),
      OrderFace([v4, v14, v1, v15, v5, v58, v8, v48]),
      OrderFace([v5, v56, v6, v67, v7, v78, v8, v58]) ]
  }

  /**
   * The 15-node wedge with its first two faces written with the parameter
   * names they evidently mean (`v23`, `v12`, `v45`, `v14` where the source
   * has the undefined names `v32`, `v21`, `v54`, `v41`).
   */
  function Wedge15(v1: int, v2: int, v3: int, v4: int, v5: int, v6: int,
                   v12: int, v23: int, v13: int, v45: int, v56: int, v46: int,
                   v14: int, v25: int, v36: int): seq<Face> {
    [ OrderFace([v1, v13, v3, v23, v2, v12]),
      OrderFace([v1, v12, v2, v25, v5, v45, v4, v14]),
      OrderFace([v2, v23, v3, v36, v6, v56, v5, v25]),
      OrderFace([v3, v13, v1, v14, v4, v46, v6, v36]),
      OrderFace([v4, v45, v5, v56, v6, v46]) ]
  }

  function Pyramid13(v1: int, v2: int, v3: int, v4: int, v5: int,
                     v12: int, v23: int, v34: int, v14: int,
                     v15: int, v25: int, v35: int, v45: int): seq<Face> {
    [ OrderFace([v1, v14, v4, v34, v3, v23, v2, v12]),
      OrderFace([v1, v12, v2, v25, v5, v15]),
      OrderFace([v2, v23, v3, v35, v5, v25]),
      OrderFace([v3, v34, v4, v45, v5, v35]),
      OrderFace([v4, v14, v1, v15, v5, v45]) ]
  }

  function Tet10(v1: int, v2: int, v3: int, v4: int,
                 v12: int, v23: int, v13: int, v14: int, v24: int, v34: int): seq<Face> {
    [ OrderFace([v1, v13, v3, v23, v2, v12]),
      OrderFace([v1, v12, v2, v24, v4, v14]),
      OrderFace([v2, v23, v3, v34, v4, v24]),
      OrderFace([v3, v13, v1, v14, v4, v34]) ]
  }

  function Rect4(v1: int, v2: int, v3: int, v4: int): seq<Face> {
    [ OrderFace([v1, v2, v3, v4]) ]
  }

  function Tri3(v1: int, v2: int, v3: int): seq<Face> {
    [ OrderFace([v1, v2, v3]) ]
  }

  function Rect8(v1: int, v2: int, v3: int, v4: int, v12: int, v23: int, v34: int, v14: int): seq<Face> {
    [ OrderFace([v1, v12, v2, v23, v3, v34, v4, v14]) ]
  }

  function Tri6(v1: int, v12: int, v2: int, v23: int, v3: int, v13: int): seq<Face> {
    [ OrderFace([v1, v12, v2, v23, v3, v13]) ]
  }

  /** A face in canonical rotation has no node its raw form does not have. */
  lemma FaceWithin(raw: Face, all: seq<int>)
    requires forall x :: x in raw ==> x in all
    ensures forall x :: x in OrderFace(raw) ==> x in all
  {
    OrderFaceMembers();
  }

  /** Each table only refers to the nodes it is given. */
  lemma Hex8Nodes(v1: int, v2: int, v3: int, v4: int, v5: int, v6: int, v7: int, v8: int)
    ensures forall f, x :: f in Hex8(v1, v2, v3, v4, v5, v6, v7, v8) && x in f ==> x in [v1, v2, v3, v4, v5, v6, v7, v8]
  {
    var all := [v1, v2, v3, v4, v5, v6, v7, v8];
    FaceWithin([v1, v4, v3, v2], all);
    FaceWithin([v1, v2, v6, v5], all);
    FaceWithin([v2, v3, v7, v6], all);
    FaceWithin([v3, v4, v8, v7], all);
    FaceWithin([v4, v1, v5, v8], all);
    FaceWithin([v5, v6, v7, v8], all);
  }

  lemma Wedge6Nodes(v1: int, v2: int, v3: int, v4: int, v5: int, v6: int)
    ensures forall f, x :: f in Wedge6(v1, v2, v3, v4, v5, v6) && x in f ==> x in [v1, v2, v3, v4, v5, v6]
  {
    var all := [v1, v2, v3, v4, v5, v6];
    FaceWithin([v1, v3, v2], all);
    FaceWithin([v1, v2, v5, v4], all);
    FaceWithin([v2, v3, v6, v5], all);
    FaceWithin([v3, v1, v4, v6], all);
    FaceWithin([v4, v5, v6], all);
  }

  lemma Pyramid5Nodes(v1: int, v2: int, v3: int, v4: int, v5: int)
    ensures forall f, x :: f in Pyramid5(v1, v2, v3, v4, v5) && x in f ==> x in [v1, v2, v3, v4, v5]
  {
    var all := [v1, v2, v3, v4, v5];
    FaceWithin([v1, v4, v3, v2], all);
    FaceWithin([v1, v2, v5], all);
    FaceWithin([v2, v3, v5], all);
    FaceWithin([v3, v4, v5], all);
    FaceWithin([v4, v1, v5], all);
  }

  lemma Tet4Nodes(v1: int, v2: int, v3: int, v4: int)
    ensures forall f, x :: f in Tet4(v1, v2, v3, v4) && x in f ==> x in [v1, v2, v3, v4]
  {
    var all := [v1, v2, v3, v4];
    FaceWithin([v1, v3, v2], all);
    FaceWithin([v1, v2, v4], all);
    FaceWithin([v2, v3, v4], all);
    FaceWithin([v3, v1, v4], all);
  }

  lemma Hex20Nodes(v1: int, v2: int, v3: int, v4: int, v5: int, v6: int, v7: int, v8: int, v12: int, v23: int, v34: int, v14: int, v56: int, v67: int, v78: int, v58: int, v15: int, v26: int, v37: int, v48: int)
    ensures forall f, x :: f in Hex20(v1, v2, v3, v4, v5, v6, v7, v8, v12, v23, v34, v14, v56, v67, v78, v58, v15, v26, v37, v48) && x in f ==> x in [v1, v2, v3, v4, v5, v6, v7, v8, v12, v23, v34, v14, v56, v67, v78, v58, v15, v26, v37, v48]
  {
    var all := [v1, v2, v3, v4, v5, v6, v7, v8, v12, v23, v34, v14, v56, v67, v78, v58, v15, v26, v37, v48];
    FaceWithin([v1, v14, v4, v34, v3, v23, v2, v12], all);
    FaceWithin([v1, v12, v2, v26, v6, v56, v5, v15], all);
    FaceWithin([v2, v23, v3, v37, v7, v67, v6, v26], all);
    FaceWithin([v3, v34, v4, v48, v8, v78, v7, v37], all);
    FaceWithin([v4, v14, v1, v15, v5, v58, v8, v48], all);
    FaceWithin([v5, v56, v6, v67, v7, v78, v8, v58], all);
  }

  lemma Wedge15Nodes(v1: int, v2: int, v3: int, v4: int, v5: int, v6: int, v12: int, v23: int, v13: int, v45: int, v56: int, v46: int, v14: int, v25: int, v36: int)
    ensures forall f, x :: f in Wedge15(v1, v2, v3, v4, v5, v6, v12, v23, v13, v45, v56, v46, v14, v25, v36) && x in f ==> x in [v1, v2, v3, v4, v5, v6, v12, v23, v13, v45, v56, v46, v14, v25, v36]
  {
    var all := [v1, v2, v3, v4, v5, v6, v12, v23, v13, v45, v56, v46, v14, v25, v36];
    FaceWithin([v1, v13, v3, v23, v2, v12], all);
    FaceWithin([v1, v12, v2, v25, v5, v45, v4, v14], all);
    FaceWithin([v2, v23, v3, v36, v6, v56, v5, v25], all);
    FaceWithin([v3, v13, v1, v14, v4, v46, v6, v36], all);
    FaceWithin([v4, v45, v5, v56, v6, v46], all);
  }

  lemma Pyramid13Nodes(v1: int, v2: int, v3: int, v4: int, v5: int, v12: int, v23: int, v34: int, v14: int, v15: int, v25: int, v35: int, v45: int)
    ensures forall f, x :: f in Pyramid13(v1, v2, v3, v4, v5, v12, v23, v34, v14, v15, v25, v35, v45) && x in f ==> x in [v1, v2, v3, v4, v5, v12, v23, v34, v14, v15, v25, v35, v45]
  {
    var all := [v1, v2, v3, v4, v5, v12, v23, v34, v14, v15, v25, v35, v45];
    FaceWithin([v1, v14, v4, v34, v3, v23, v2, v12], all);
    FaceWithin([v1, v12, v2, v25, v5, v15], all);
    FaceWithin([v2, v23, v3, v35, v5, v25], all);
    FaceWithin([v3, v34, v4, v45, v5, v35], all);
    FaceWithin([v4, v14, v1, v15, v5, v45], all);
  }

  lemma Tet10Nodes(v1: int, v2: int, v3: int, v4: int, v12: int, v23: int, v13: int, v14: int, v24: int, v34: int)
    ensures forall f, x :: f in Tet10(v1, v2, v3, v4, v12, v23, v13, v14, v24, v34) && x in f ==> x in [v1, v2, v3, v4, v12, v23, v13, v14, v24, v34]
  {
    var all := [v1, v2, v3, v4, v12, v23, v13, v14, v24, v34];
    FaceWithin([v1, v13, v3, v23, v2, v12], all);
    FaceWithin([v1, v12, v2, v24, v4, v14], all);
    FaceWithin([v2, v23, v3, v34, v4, v24], all);
    FaceWithin([v3, v13, v1, v14, v4, v34], all);
  }

  lemma Rect4Nodes(v1: int, v2: int, v3: int, v4: int)
    ensures forall f, x :: f in Rect4(v1, v2, v3, v4) && x in f ==> x in [v1, v2, v3, v4]
  {
    var all := [v1, v2, v3, v4];
    FaceWithin([v1, v2, v3, v4], all);
  }

  lemma Tri3Nodes(v1: int, v2: int, v3: int)
    ensures forall f, x :: f in Tri3(v1, v2, v3) && x in f ==> x in [v1, v2, v3]
  {
    var all := [v1, v2, v3];
    FaceWithin([v1, v2, v3], all);
  }

  lemma Rect8Nodes(v1: int, v2: int, v3: int, v4: int, v12: int, v23: int, v34: int, v14: int)
    ensures forall f, x :: f in Rect8(v1, v2, v3, v4, v12, v23, v34, v14) && x in f ==> x in [v1, v2, v3, v4, v12, v23, v34, v14]
  {
    var all := [v1, v2, v3, v4, v12, v23, v34, v14];
    FaceWithin([v1, v12, v2, v23, v3, v34, v4, v14], all);
  }

  lemma Tri6Nodes(v1: int, v12: int, v2: int, v23: int, v3: int, v13: int)
    ensures forall f, x :: f in Tri6(v1, v12, v2, v23, v3, v13) && x in f ==> x in [v1, v12, v2, v23, v3, v13]
  {
    var all := [v1, v12, v2, v23, v3, v13];
    FaceWithin([v1, v12, v2, v23, v3, v13], all);
  }
}
