/**
 * `get_all_faces` and `get_outer_faces` (import_cdb.py:623-706): every
 * element is turned into faces by its element family and shape, the faces
 * are counted per (material, real constant) group, and a face is kept as
 * "outer" when its opposite orientation was never seen in its group.
 */
module FaceExtraction {
  import opened Wrappers
  import opened Faults
  import opened Faces
  import opened FaceTables
  import opened OrderedMaps

  /** (material, real constant): the key that separates output objects. */
  type Group = (int, int)

  /** How often each face was produced in one group, in first-seen order. */
  type Counts = OMap<Face, nat>

  type Counted = OMap<Group, Counts>

  /** The element families the extractor knows, by their group of the source's `if` chain. */
  predicate IsShell(family: int) { family == 28 || family == 63 || family == 152 }
  predicate IsMidsideShell(family: int) { family == 93 || family == 281 }
  predicate IsSolid8(family: int) { family == 45 || family == 185 }
  predicate IsSolid20(family: int) { family == 95 || family == 186 }
  predicate IsTet10(family: int) { family == 92 || family == 187 }

  predicate Known(family: int) {
    IsShell(family) || IsMidsideShell(family) || IsSolid8(family) || IsSolid20(family) || IsTet10(family)
  }

  /** The minimum tuple length `get_all_faces` needs for a family. */
  function MinLength(family: int): nat {
    if IsShell(family) then 7
    else if IsMidsideShell(family) then 11
    else if IsSolid8(family) then 11
    else if IsSolid20(family) then 23
    else 13
  }

  /** Element tuple `e` = [mat, real, type, node1, node2, ...]; the degenerate-shape tests read nodes 3..8. */
  predicate TetShaped(e: seq<int>)
    requires |e| >= 11
  {
    e[5] == e[6] && e[7] == e[8] && e[7] == e[9] && e[7] == e[10]
  }

  predicate WedgeShaped(e: seq<int>)
    requires |e| >= 11
  {
    e[5] == e[6] && e[9] == e[10]
  }

  predicate PyramidShaped(e: seq<int>)
    requires |e| >= 11
  {
    e[7] == e[8] && e[7] == e[9] && e[7] == e[10]
  }

  function ShellFaces(e: seq<int>): seq<Face>
    requires |e| >= 7
  {
    if e[5] == e[6] then Tri3(e[3], e[4], e[5]) else Rect4(e[3], e[4], e[5], e[6])
  }

  /** The degenerate branch closes the triangle with `v14`, the mid-side node from corner 3 back to 1. */
  function MidsideShellFaces(e: seq<int>): seq<Face>
    requires |e| >= 11
  {
    if e[5] == e[6] then Tri6(e[3], e[7], e[4], e[8], e[5], e[10])
    else Rect8(e[3], e[4], e[5], e[6], e[7], e[8], e[9], e[10])
  }

  function Tet10Faces(e: seq<int>): seq<Face>
    requires |e| >= 13
  {
    Tet10(e[3], e[4], e[5], e[6], e[7], e[8], e[9], e[10], e[11], e[12])
  }

  function Corner8Faces(e: seq<int>): seq<Face>
    requires |e| >= 11
  {
    var v1, v2, v3, v4, v5, v6, v7, v8 := e[3], e[4], e[5], e[6], e[7], e[8], e[9], e[10];
    if TetShaped(e) then Tet4(v1, v2, v3, v5)
    else if WedgeShaped(e) then Wedge6(v1, v2, v3, v5, v6, v7)
    else if PyramidShaped(e) then Pyramid5(v1, v2, v3, v4, v5)
    else Hex8(v1, v2, v3, v4, v5, v6, v7, v8)
  }

  function Midside20Faces(e: seq<int>): seq<Face>
    requires |e| >= 23
  {
    var v1, v2, v3, v4, v5, v6, v7, v8 := e[3], e[4], e[5], e[6], e[7], e[8], e[9], e[10];
    var v12, v23, v34, v14, v56, v67, v78, v58 := e[11], e[12], e[13], e[14], e[15], e[16], e[17], e[18];
    var v15, v26, v37, v48 := e[19], e[20], e[21], e[22];
    if TetShaped(e) then Tet10(v1, v2, v3, v5, v12, v23, v14, v15, v26, v37)
    else if WedgeShaped(e) then Wedge15(v1, v2, v3, v5, v6, v7, v12, v23, v14, v56, v67, v58, v15, v26, v37)
    else if PyramidShaped(e) then Pyramid13(v1, v2, v3, v4, v5, v12, v23, v34, v14, v15, v26, v37, v48)
    else Hex20(v1, v2, v3, v4, v5, v6, v7, v8, v12, v23, v34, v14, v56, v67, v78, v58, v15, v26, v37, v48)
  }

  /**
   * The faces of one element, or None where `get_all_faces` continues with
   * the next element.  This is the repaired dispatch: the tetrahedron test
   * comes before the wedge test, the degenerate 8-node shell uses its own
   * `v14`, and the 15-node wedge's faces are kept.
   */
  function ElementFaces(e: seq<int>, et: map<int, int>): Option<seq<Face>> {
    if |e| < 3 || e[2] !in et then None
    else
      var family := et[e[2]];
      if !Known(family) || |e| < MinLength(family) then None
      else if IsShell(family) then Some(ShellFaces(e))
      else if IsMidsideShell(family) then Some(MidsideShellFaces(e))
      else if IsSolid8(family) then Some(Corner8Faces(e))
      else if IsSolid20(family) then Some(Midside20Faces(e))
      else Some(Tet10Faces(e))
  }

  /** The reasons an element contributes no faces, and only those. */
  lemma ElementSkipped(e: seq<int>, et: map<int, int>)
    ensures ElementFaces(e, et).None? <==>
      (|e| < 3 || e[2] !in et || !Known(et[e[2]]) || |e| < MinLength(et[e[2]]))
  {
  }

  /** A tetrahedron-shaped 8-node solid yields the four triangles of `faces_on_4tetrahedral`. */
  lemma DegenerateTetrahedron(e: seq<int>, et: map<int, int>)
    requires |e| >= 11 && e[2] in et && IsSolid8(et[e[2]]) && TetShaped(e)
    ensures ElementFaces(e, et) == Some(Tet4(e[3], e[4], e[5], e[7]))
    ensures forall f :: f in ElementFaces(e, et).value ==> |f| == 3
  {
  }

  // ----- the dispatch as written -----

  /** What `get_all_faces` does with one element: skip it, count its faces, or raise. */
  datatype Step = Skip | Emit(faces: seq<Face>) | Raise(fault: Fault)

  /**
   * The dispatch exactly as written.  `v13` is the value the local `v13` of
   * `get_all_faces` holds when the element is reached: set only by the
   * 10-node tetrahedron branch, so None until such an element was seen.
   */
  function ElementFacesAsWritten(e: seq<int>, et: map<int, int>, v13: Option<int>): Step {
    if |e| < 3 || e[2] !in et then Skip
    else
      var family := et[e[2]];
      if !Known(family) || |e| < MinLength(family) then Skip
      else if IsShell(family) then Emit(ShellFaces(e))
      else if IsMidsideShell(family) then
        if e[5] == e[6] then
          if v13.None? then Raise(MidsideUnbound) else Emit(Tri6(e[3], e[7], e[4], e[8], e[5], v13.value))
        else Emit(Rect8(e[3], e[4], e[5], e[6], e[7], e[8], e[9], e[10]))
      else if IsSolid8(family) then
        var v1, v2, v3, v4, v5, v6, v7, v8 := e[3], e[4], e[5], e[6], e[7], e[8], e[9], e[10];
        if WedgeShaped(e) then Emit(Wedge6(v1, v2, v3, v5, v6, v7))
        else if PyramidShaped(e) then Emit(Pyramid5(v1, v2, v3, v4, v5))
        else if TetShaped(e) then Emit(Tet4(v1, v2, v3, v5))
        else Emit(Hex8(v1, v2, v3, v4, v5, v6, v7, v8))
      else if IsSolid20(family) then
        if WedgeShaped(e) then Raise(WedgeNamesUndefined)
        else if PyramidShaped(e) then
          Emit(Pyramid13(e[3], e[4], e[5], e[6], e[7], e[11], e[12], e[13], e[14], e[19], e[20], e[21], e[22]))
        else if TetShaped(e) then
          Emit(Tet10(e[3], e[4], e[5], e[7], e[11], e[12], e[14], e[19], e[20], e[21]))
        else Emit(Midside20Faces(e))
      else Emit(Tet10Faces(e))
  }

  /** The local `v13` after the element: the 10-node tetrahedron branch unpacks it from `e[9]`. */
  function V13After(e: seq<int>, et: map<int, int>, v13: Option<int>): Option<int> {
    if |e| >= 13 && e[2] in et && IsTet10(et[e[2]]) then Some(e[9]) else v13
  }

  /** For 8-node solids the wedge test comes first, so a tetrahedron shape is treated as a wedge. */
  lemma TetrahedronUnreachable(e: seq<int>, et: map<int, int>, v13: Option<int>)
    requires |e| >= 11 && e[2] in et && IsSolid8(et[e[2]]) && TetShaped(e)
    ensures ElementFacesAsWritten(e, et, v13) == Emit(Wedge6(e[3], e[4], e[5], e[7], e[8], e[9]))
    ensures ElementFacesAsWritten(e, et, v13) != Emit(Tet4(e[3], e[4], e[5], e[7]))
  {
    var w := Wedge6(e[3], e[4], e[5], e[7], e[8], e[9]);
    assert |w| == 5;
  }

  /** Away from the three defects, the dispatch as written and the repaired one agree. */
  lemma AsWrittenAgrees(e: seq<int>, et: map<int, int>, v13: Option<int>)
    requires |e| >= 3 && e[2] in et
    requires IsMidsideShell(et[e[2]]) && |e| >= 11 ==> e[5] != e[6]
    requires (IsSolid8(et[e[2]]) && |e| >= 11) || (IsSolid20(et[e[2]]) && |e| >= 23) ==> !WedgeShaped(e)
    ensures ElementFacesAsWritten(e, et, v13) ==
      (if ElementFaces(e, et).None? then Skip else Emit(ElementFaces(e, et).value))
  {
  }

  // ----- counting -----

  function CountOf(c: Counts, f: Face): nat {
    if f in c.values then c.values[f] else 0
  }

  /** `counted_faces[element_id][face] = face_count + 1` for each face in turn. */
  function CountFaces(c: Counts, faces: seq<Face>): Counts
    decreases |faces|
  {
    if |faces| == 0 then c
    else
      var c' := CountFaces(c, faces[..|faces| - 1]);
      var f := faces[|faces| - 1];
      c'.Put(f, CountOf(c', f) + 1)
  }

  /** Multisets and key sets of a face list grown by one face. */
  lemma FacesSnoc(init: seq<Face>, last: Face)
    ensures multiset(init + [last]) == multiset(init) + multiset{last}
    ensures (set f | f in init + [last]) == (set f | f in init) + {last}
  {
  }

  lemma {:induction false} CountFacesValid(c: Counts, faces: seq<Face>)
    requires c.Valid()
    ensures CountFaces(c, faces).Valid()
    decreases |faces|
  {
    if |faces| > 0 {
      CountFacesValid(c, faces[..|faces| - 1]);
    }
  }

  lemma {:induction false} CountFacesCounts(c: Counts, faces: seq<Face>)
    ensures forall f :: CountOf(CountFaces(c, faces), f) == CountOf(c, f) + multiset(faces)[f]
    decreases |faces|
  {
    if |faces| > 0 {
      var init := faces[..|faces| - 1];
      var last := faces[|faces| - 1];
      CountFacesCounts(c, init);
      assert faces == init + [last];
      FacesSnoc(init, last);
    }
  }

  lemma {:induction false} CountFacesKeys(c: Counts, faces: seq<Face>)
    ensures CountFaces(c, faces).values.Keys == c.values.Keys + set f | f in faces
    decreases |faces|
  {
    if |faces| > 0 {
      var init := faces[..|faces| - 1];
      var last := faces[|faces| - 1];
      CountFacesKeys(c, init);
      assert faces == init + [last];
      FacesSnoc(init, last);
    }
  }

  /** Each produced face raises its own count by exactly one; no other face is touched. */
  lemma CountFacesSpec(c: Counts, faces: seq<Face>)
    requires c.Valid()
    ensures CountFaces(c, faces).Valid()
    ensures forall f :: CountOf(CountFaces(c, faces), f) == CountOf(c, f) + multiset(faces)[f]
    ensures CountFaces(c, faces).values.Keys == c.values.Keys + set f | f in faces
  {
    CountFacesValid(c, faces);
    CountFacesCounts(c, faces);
    CountFacesKeys(c, faces);
  }

  /** The group entry is created before counting, so even a face-less element creates it. */
  function AddElement(counted: Counted, e: seq<int>, et: map<int, int>): Counted {
    match ElementFaces(e, et)
    case None => counted
    case Some(faces) =>
      var g := (e[0], e[1]);
      var c := if g in counted.values then counted.values[g] else Empty();
      counted.Put(g, CountFaces(c, faces))
  }

  /** `get_all_faces` (repaired) over the elements in table order. */
  function CountAll(elements: seq<seq<int>>, et: map<int, int>): Counted
    decreases |elements|
  {
    if |elements| == 0 then Empty()
    else AddElement(CountAll(elements[..|elements| - 1], et), elements[|elements| - 1], et)
  }

  /** The element table's tuples in insertion order. */
  function ElementList(table: OMap<int, seq<int>>): seq<seq<int>>
    requires table.Valid()
  {
    seq(|table.keys|, i requires 0 <= i < |table.keys| => table.values[table.keys[i]])
  }

  /** Element `e` yields faces and belongs to group `g`. */
  predicate Yields(e: seq<int>, et: map<int, int>, g: Group) {
    ElementFaces(e, et).Some? && |e| >= 2 && g == (e[0], e[1])
  }

  /** One element keeps the tables well formed and adds at most its own group. */
  lemma AddElementSpec(counted: Counted, e: seq<int>, et: map<int, int>)
    requires counted.Valid() && forall g :: g in counted.values ==> counted.values[g].Valid()
    ensures AddElement(counted, e, et).Valid()
    ensures forall g :: g in AddElement(counted, e, et).values ==> AddElement(counted, e, et).values[g].Valid()
    ensures forall g :: g in AddElement(counted, e, et).values <==> g in counted.values || Yields(e, et, g)
  {
    match ElementFaces(e, et)
    case None =>
    case Some(faces) =>
      var g := (e[0], e[1]);
      var c := if g in counted.values then counted.values[g] else Empty();
      CountFacesSpec(c, faces);
  }

  /** Every count table is well formed, and a group exists exactly when an element of it yields faces. */
  lemma {:induction false} CountAllGroups(elements: seq<seq<int>>, et: map<int, int>)
    ensures CountAll(elements, et).Valid()
    ensures forall g :: g in CountAll(elements, et).values ==> CountAll(elements, et).values[g].Valid()
    ensures forall g :: g in CountAll(elements, et).values <==> SomeYields(elements, et, g)
    decreases |elements|
  {
    if |elements| > 0 {
      var init := elements[..|elements| - 1];
      var e := elements[|elements| - 1];
      var prev := CountAll(init, et);
      CountAllGroups(init, et);
      AddElementSpec(prev, e, et);
      assert CountAll(elements, et) == AddElement(prev, e, et);
      forall g ensures g in CountAll(elements, et).values <==> SomeYields(elements, et, g) {
        YieldsSnoc(elements, init, e, et, g);
      }
    }
  }

  /** Some element of `elements` yields faces in group `g`. */
  predicate SomeYields(elements: seq<seq<int>>, et: map<int, int>, g: Group) {
    exists i :: 0 <= i < |elements| && Yields(elements[i], et, g)
  }

  /** Some element of `init + [e]` yields group `g` iff one of `init` does or `e` does. */
  lemma YieldsSnoc(elements: seq<seq<int>>, init: seq<seq<int>>, e: seq<int>, et: map<int, int>, g: Group)
    requires elements == init + [e]
    ensures SomeYields(elements, et, g) <==> SomeYields(init, et, g) || Yields(e, et, g)
  {
    if SomeYields(init, et, g) {
      var i :| 0 <= i < |init| && Yields(init[i], et, g);
      assert elements[i] == init[i];
    }
    if Yields(e, et, g) {
      assert elements[|init|] == e;
    }
    if SomeYields(elements, et, g) {
      var i :| 0 <= i < |elements| && Yields(elements[i], et, g);
      if i < |init| { assert init[i] == elements[i]; }
    }
  }

  // ----- outer faces -----

  /** The test of `get_outer_faces`, line 704. */
  predicate IsOuter(c: Counts, f: Face, removeDuplicates: bool) {
    InverseFace(f) !in c.values && (!removeDuplicates || CountOf(c, f) == 1)
  }

  /** The outer faces of one group, in the order the faces were first counted. */
  function OuterOf(c: Counts, removeDuplicates: bool): seq<Face> {
    Outer(c.keys, c, removeDuplicates)
  }

  function Outer(keys: seq<Face>, c: Counts, removeDuplicates: bool): seq<Face>
    decreases |keys|
  {
    if |keys| == 0 then []
    else
      var rest := Outer(keys[..|keys| - 1], c, removeDuplicates);
      var f := keys[|keys| - 1];
      if IsOuter(c, f, removeDuplicates) then rest + [f] else rest
  }

  lemma {:induction false} OuterMembers(keys: seq<Face>, c: Counts, removeDuplicates: bool)
    ensures forall f :: f in Outer(keys, c, removeDuplicates) <==> f in keys && IsOuter(c, f, removeDuplicates)
    decreases |keys|
  {
    if |keys| > 0 {
      OuterMembers(keys[..|keys| - 1], c, removeDuplicates);
      assert keys == keys[..|keys| - 1] + [keys[|keys| - 1]];
    }
  }

  lemma {:induction false} OuterDistinct(keys: seq<Face>, c: Counts, removeDuplicates: bool)
    requires forall i, j :: 0 <= i < j < |keys| ==> keys[i] != keys[j]
    ensures forall i, j :: 0 <= i < j < |Outer(keys, c, removeDuplicates)| ==>
      Outer(keys, c, removeDuplicates)[i] != Outer(keys, c, removeDuplicates)[j]
    decreases |keys|
  {
    if |keys| > 0 {
      var init := keys[..|keys| - 1];
      OuterDistinct(init, c, removeDuplicates);
      OuterMembers(init, c, removeDuplicates);
    }
  }

  /** A face is outer exactly when it was counted and passes the test; each appears once. */
  lemma OuterSpec(c: Counts, removeDuplicates: bool)
    requires c.Valid()
    ensures forall f :: f in OuterOf(c, removeDuplicates) <==> f in c.values && IsOuter(c, f, removeDuplicates)
    ensures forall i, j :: 0 <= i < j < |OuterOf(c, removeDuplicates)| ==>
      OuterOf(c, removeDuplicates)[i] != OuterOf(c, removeDuplicates)[j]
  {
    OuterMembers(c.keys, c, removeDuplicates);
    OuterDistinct(c.keys, c, removeDuplicates);
    forall f ensures f in c.keys <==> f in c.values {
      if f in c.values {
        var i :| 0 <= i < |c.keys| && c.keys[i] == f;
      }
    }
  }

  /** A face equal to its own inverse (for instance one of at most two nodes) is never outer. */
  lemma SelfInverseNeverOuter(c: Counts, f: Face, removeDuplicates: bool)
    requires c.Valid() && InverseFace(f) == f
    ensures f !in OuterOf(c, removeDuplicates)
  {
    OuterSpec(c, removeDuplicates);
  }

  /** Two elements of one group that share a face with opposite windings lose it from the outer set. */
  lemma SharedFaceNotOuter(c: Counts, f: Face, removeDuplicates: bool)
    requires c.Valid() && f in c.values && InverseFace(f) in c.values
    ensures f !in OuterOf(c, removeDuplicates)
    ensures InverseFace(f) !in OuterOf(c, removeDuplicates)
  {
    OuterSpec(c, removeDuplicates);
    InverseFaceInvolution(f);
  }

  /** Removing duplicates can only drop faces. */
  lemma RemoveDuplicatesShrinks(c: Counts)
    requires c.Valid()
    ensures forall f :: f in OuterOf(c, true) ==> f in OuterOf(c, false)
  {
    OuterSpec(c, true);
    OuterSpec(c, false);
  }

  /** `get_outer_faces`: every counted group gets an entry, possibly empty, in the same order. */
  function OuterFaces(counted: Counted, removeDuplicates: bool): OMap<Group, seq<Face>> {
    OMap(counted.keys, map g | g in counted.values :: OuterOf(counted.values[g], removeDuplicates))
  }

  lemma OuterFacesGroups(counted: Counted, removeDuplicates: bool)
    requires counted.Valid()
    ensures OuterFaces(counted, removeDuplicates).Valid()
    ensures OuterFaces(counted, removeDuplicates).keys == counted.keys
    ensures forall g :: g in counted.values ==>
      OuterFaces(counted, removeDuplicates).values[g] == OuterOf(counted.values[g], removeDuplicates)
  {
  }

  // ----- the whole pass -----

  /** `get_all_faces` as written, carrying the local `v13` from element to element. */
  function CountAllAsWritten(elements: seq<seq<int>>, et: map<int, int>): Outcome<(Counted, Option<int>)>
    decreases |elements|
  {
    if |elements| == 0 then Ok((Empty(), None))
    else
      match CountAllAsWritten(elements[..|elements| - 1], et)
      case Failed(fault) => Failed(fault)
      case Ok((counted, v13)) =>
        var e := elements[|elements| - 1];
        match ElementFacesAsWritten(e, et, v13)
        case Skip => Ok((counted, V13After(e, et, v13)))
        case Raise(fault) => Failed(fault)
        case Emit(faces) =>
          var g := (e[0], e[1]);
          var c := if g in counted.values then counted.values[g] else Empty();
          Ok((counted.Put(g, CountFaces(c, faces)), V13After(e, et, v13)))
  }

  /** The inner loop of `get_all_faces`: one increment per produced face. */
  method CountEach(c0: Counts, faces: seq<Face>) returns (c: Counts)
    ensures c == CountFaces(c0, faces)
  {
    c := c0;
    for j := 0 to |faces|
      invariant c == CountFaces(c0, faces[..j])
    {
      assert faces[..j + 1][..j] == faces[..j];
      var f := faces[j];
      var count := if f in c.values then c.values[f] else 0;
      c := c.Put(f, count + 1);
    }
    assert faces[..|faces|] == faces;
  }

  /** One pass of the loop of `get_all_faces`: the group entry first, then the counts. */
  method AddElementFaces(counted: Counted, e: seq<int>, et: map<int, int>) returns (r: Counted)
    ensures r == AddElement(counted, e, et)
  {
    r := counted;
    var yielded := ElementFaces(e, et);
    if yielded.Some? {
      var g := (e[0], e[1]);
      if g !in r.values {
        r := r.Put(g, Empty());
      }
      var c := CountEach(r.values[g], yielded.value);
      r := r.Put(g, c);
    }
  }

  /** The loop of `get_all_faces` (repaired), over the element table in insertion order. */
  method GetAllFaces(table: OMap<int, seq<int>>, et: map<int, int>) returns (counted: Counted)
    requires table.Valid()
    ensures counted == CountAll(ElementList(table), et)
  {
    var elements := ElementList(table);
    counted := Empty();
    for i := 0 to |table.keys|
      invariant counted == CountAll(elements[..i], et)
    {
      assert elements[..i + 1][..i] == elements[..i];
      counted := AddElementFaces(counted, table.values[table.keys[i]], et);
    }
    assert elements[..|table.keys|] == elements;
  }

  /** The inner loop of `get_outer_faces`: the test of line 704 on each counted face in turn. */
  method GroupOuterFaces(c: Counts, removeDuplicates: bool) returns (faces: seq<Face>)
    ensures faces == OuterOf(c, removeDuplicates)
  {
    faces := [];
    for j := 0 to |c.keys|
      invariant faces == Outer(c.keys[..j], c, removeDuplicates)
    {
      assert c.keys[..j + 1][..j] == c.keys[..j];
      var f := c.keys[j];
      if InverseFace(f) !in c.values && (!removeDuplicates || CountOf(c, f) == 1) {
        faces := faces + [f];
      }
    }
    assert c.keys[..|c.keys|] == c.keys;
  }

  /** One more group of the outer-face table. */
  lemma OuterTableStep(counted: Counted, removeDuplicates: bool, i: nat)
    requires counted.Valid() && i < |counted.keys|
    ensures counted.keys[i] !in counted.keys[..i]
    ensures counted.keys[..i + 1] == counted.keys[..i] + [counted.keys[i]]
    ensures (map g | g in counted.keys[..i] :: OuterOf(counted.values[g], removeDuplicates))
              [counted.keys[i] := OuterOf(counted.values[counted.keys[i]], removeDuplicates)]
            == map g | g in counted.keys[..i + 1] :: OuterOf(counted.values[g], removeDuplicates)
  {
    assert counted.keys[..i + 1] == counted.keys[..i] + [counted.keys[i]];
  }

  /** The outer loop of `get_outer_faces`: one entry per counted group, in group order. */
  method GetOuterFaces(counted: Counted, removeDuplicates: bool) returns (outer: OMap<Group, seq<Face>>)
    requires counted.Valid()
    ensures outer == OuterFaces(counted, removeDuplicates)
  {
    outer := Empty();
    for i := 0 to |counted.keys|
      invariant outer.keys == counted.keys[..i]
      invariant outer.values == map g | g in counted.keys[..i] :: OuterOf(counted.values[g], removeDuplicates)
    {
      var g := counted.keys[i];
      var faces := GroupOuterFaces(counted.values[g], removeDuplicates);
      OuterTableStep(counted, removeDuplicates, i);
      outer := outer.Put(g, faces);
    }
    assert counted.keys[..|counted.keys|] == counted.keys;
  }

  /** `get_faces`: count all faces, then keep the outer ones. */
  method GetFaces(table: OMap<int, seq<int>>, et: map<int, int>, removeDuplicates: bool)
    returns (outer: OMap<Group, seq<Face>>)
    requires table.Valid()
    ensures outer == OuterFaces(CountAll(ElementList(table), et), removeDuplicates)
  {
    var counted := GetAllFaces(table, et);
    CountAllGroups(ElementList(table), et);
    outer := GetOuterFaces(counted, removeDuplicates);
  }

  // ----- the defects of the dispatch as written -----

  /** Node `x` is one of the element's own nodes, `e[3..]`. */
  predicate NodeOf(e: seq<int>, x: int) {
    exists j :: 3 <= j < |e| && e[j] == x
  }

  /** The repaired dispatch only ever refers to nodes of the element itself. */
  lemma ElementFacesOwnNodes(e: seq<int>, et: map<int, int>)
    requires ElementFaces(e, et).Some?
    ensures forall f, x :: f in ElementFaces(e, et).value && x in f ==> NodeOf(e, x)
  {
    var family := et[e[2]];
    forall f, x | f in ElementFaces(e, et).value && x in f ensures NodeOf(e, x) {
      if IsShell(family) {
        ShellOwnNodes(e, f, x);
      } else if IsMidsideShell(family) {
        MidsideShellOwnNodes(e, f, x);
      } else if IsSolid8(family) {
        Corner8OwnNodes(e, f, x);
      } else if IsSolid20(family) {
        Midside20OwnNodes(e, f, x);
      } else {
        Tet10Nodes(e[3], e[4], e[5], e[6], e[7], e[8], e[9], e[10], e[11], e[12]);
        assert x in [e[3], e[4], e[5], e[6], e[7], e[8], e[9], e[10], e[11], e[12]];
      }
    }
  }

  lemma ShellOwnNodes(e: seq<int>, f: Face, x: int)
    requires |e| >= 7 && f in ShellFaces(e) && x in f
    ensures NodeOf(e, x)
  {
    if e[5] == e[6] {
      Tri3Nodes(e[3], e[4], e[5]);
      assert x in [e[3], e[4], e[5]];
    } else {
      Rect4Nodes(e[3], e[4], e[5], e[6]);
      assert x in [e[3], e[4], e[5], e[6]];
    }
  }

  lemma MidsideShellOwnNodes(e: seq<int>, f: Face, x: int)
    requires |e| >= 11 && f in MidsideShellFaces(e) && x in f
    ensures NodeOf(e, x)
  {
    if e[5] == e[6] {
      Tri6Nodes(e[3], e[7], e[4], e[8], e[5], e[10]);
      assert x in [e[3], e[7], e[4], e[8], e[5], e[10]];
    } else {
      Rect8Nodes(e[3], e[4], e[5], e[6], e[7], e[8], e[9], e[10]);
      assert x in [e[3], e[4], e[5], e[6], e[7], e[8], e[9], e[10]];
    }
  }

  lemma Corner8OwnNodes(e: seq<int>, f: Face, x: int)
    requires |e| >= 11 && f in Corner8Faces(e) && x in f
    ensures NodeOf(e, x)
  {
    var v1, v2, v3, v4, v5, v6, v7, v8 := e[3], e[4], e[5], e[6], e[7], e[8], e[9], e[10];
    if TetShaped(e) {
      Tet4Nodes(v1, v2, v3, v5);
      assert x in [v1, v2, v3, v5];
    } else if WedgeShaped(e) {
      Wedge6Nodes(v1, v2, v3, v5, v6, v7);
      assert x in [v1, v2, v3, v5, v6, v7];
    } else if PyramidShaped(e) {
      Pyramid5Nodes(v1, v2, v3, v4, v5);
      assert x in [v1, v2, v3, v4, v5];
    } else {
      Hex8Nodes(v1, v2, v3, v4, v5, v6, v7, v8);
      assert x in [v1, v2, v3, v4, v5, v6, v7, v8];
    }
  }

  lemma Midside20OwnNodes(e: seq<int>, f: Face, x: int)
    requires |e| >= 23 && f in Midside20Faces(e) && x in f
    ensures NodeOf(e, x)
  {
    var v1, v2, v3, v4, v5, v6, v7, v8 := e[3], e[4], e[5], e[6], e[7], e[8], e[9], e[10];
    var v12, v23, v34, v14, v56, v67, v78, v58 := e[11], e[12], e[13], e[14], e[15], e[16], e[17], e[18];
    var v15, v26, v37, v48 := e[19], e[20], e[21], e[22];
    if TetShaped(e) {
      Tet10Nodes(v1, v2, v3, v5, v12, v23, v14, v15, v26, v37);
      assert x in [v1, v2, v3, v5, v12, v23, v14, v15, v26, v37];
    } else if WedgeShaped(e) {
      Wedge15Nodes(v1, v2, v3, v5, v6, v7, v12, v23, v14, v56, v67, v58, v15, v26, v37);
      assert x in [v1, v2, v3, v5, v6, v7, v12, v23, v14, v56, v67, v58, v15, v26, v37];
    } else if PyramidShaped(e) {
      Pyramid13Nodes(v1, v2, v3, v4, v5, v12, v23, v34, v14, v15, v26, v37, v48);
      assert x in [v1, v2, v3, v4, v5, v12, v23, v34, v14, v15, v26, v37, v48];
    } else {
      Hex20Nodes(v1, v2, v3, v4, v5, v6, v7, v8, v12, v23, v34, v14, v56, v67, v78, v58, v15, v26, v37, v48);
      assert x in [v1, v2, v3, v4, v5, v6, v7, v8, v12, v23, v34, v14, v56, v67, v78, v58, v15, v26, v37, v48];
    }
  }

  // ----- concrete inputs that show the defects -----

  /** A degenerate 8-node shell met before any 10-node tetrahedron stops `get_all_faces` with an unbound `v13`. */
  lemma MidsideShellUnbound()
    ensures CountAllAsWritten([[1, 1, 7, 10, 20, 30, 30, 40, 50, 60, 70]], map[7 := 93]) == Failed(MidsideUnbound)
    ensures ElementFaces([1, 1, 7, 10, 20, 30, 30, 40, 50, 60, 70], map[7 := 93])
      == Some([OrderFace([10, 40, 20, 50, 30, 70])])
  {
    var es := [[1, 1, 7, 10, 20, 30, 30, 40, 50, 60, 70]];
    assert es[..0] == [];
  }

  /**
   * After a 10-node tetrahedron, the same shell's triangle closes on the
   * tetrahedron's node 7, which is not a node of the shell.
   */
  lemma MidsideShellStale()
    ensures V13After([1, 1, 5, 1, 2, 3, 4, 5, 6, 7, 8, 9, 10], map[5 := 187], None) == Some(7)
    ensures ElementFacesAsWritten([1, 1, 7, 10, 20, 30, 30, 40, 50, 60, 70], map[7 := 93], Some(7))
      == Emit(Tri6(10, 40, 20, 50, 30, 7))
    ensures !NodeOf([1, 1, 7, 10, 20, 30, 30, 40, 50, 60, 70], 7)
  {
  }

  /** A wedge-shaped 20-node solid stops `get_all_faces` with a NameError. */
  lemma Midside20Wedge()
    ensures ElementFacesAsWritten(Wedge20Example(), map[3 := 186], None) == Raise(WedgeNamesUndefined)
  {
  }

  /**
   * Repaired, a wedge-shaped 20-node solid has the five faces of the 15-node
   * wedge, where as written it stops the pass.
   */
  lemma Midside20WedgeRepaired(e: seq<int>, et: map<int, int>, v13: Option<int>)
    requires |e| >= 23 && e[2] in et && IsSolid20(et[e[2]]) && WedgeShaped(e) && !TetShaped(e)
    ensures ElementFacesAsWritten(e, et, v13) == Raise(WedgeNamesUndefined)
    ensures ElementFaces(e, et)
            == Some(Wedge15(e[3], e[4], e[5], e[7], e[8], e[9], e[11], e[12], e[14], e[15], e[16], e[18], e[19], e[20], e[21]))
    ensures |ElementFaces(e, et).value| == 5
  {
  }

  function Wedge20Example(): seq<int> {
    [1, 1, 3, 1, 2, 3, 3, 5, 6, 7, 7, 11, 12, 13, 14, 15, 16, 17, 18, 19, 20, 21, 22]
  }

  /** As written, a tetrahedron-shaped 8-node solid gets the faces of a wedge ... */
  lemma DegenerateWedgeFace()
    ensures ElementFacesAsWritten(TetShapedExample(), map[2 := 185], None) == Emit(Wedge6(1, 2, 3, 4, 4, 4))
  {
    TetrahedronUnreachable(TetShapedExample(), map[2 := 185], None);
  }

  function TetShapedExample(): seq<int> {
    [1, 1, 2, 1, 2, 3, 3, 4, 4, 4, 4]
  }

  /** ... one of which is a degenerate triangle that has one node three times. */
  lemma DegenerateTriangle()
    ensures [4, 4, 4] in Wedge6(1, 2, 3, 4, 4, 4)
  {
    assert OrderFace([4, 4, 4]) == [4, 4, 4];
  }
}
