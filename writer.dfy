/**
 * The CDB exporter (export_cdb.py:68-156): every face of the exported
 * objects becomes a SHELL63 (four nodes) or SHELL93 (eight nodes) element.
 * The file is a header, two `ET` commands, an `NBLOCK` with the nodes, an
 * `EBLOCK` with one SOLID record per element, and `FINISH`.
 *
 * The pure functions describe the lines the exporter writes; the methods
 * write them into a `CdbFile` step by step, as the source does.
 */
module CdbWriter {
  import opened Wrappers
  import opened PyText
  import opened OrderedMaps
  import opened CdbCommands

  /** `four_noded_shell` and `eight_noded_shell`: (type number, ANSYS family). */
  const FourNodedType := 1
  const FourNodedFamily := 63
  const EightNodedType := 2
  const EightNodedFamily := 93

  /** The shell element a face is written as: its type number and its four or eight nodes. */
  datatype Shell = Shell(typ: int, nodes: seq<int>)

  /**
   * Quadrilaterals are written as they are; a triangle repeats its last
   * corner; a six-node triangle becomes a degenerate eight-node
   * quadrilateral; any other face is skipped.
   */
  function ShellOf(face: seq<int>): Option<Shell> {
    if |face| == 4 then Some(Shell(FourNodedType, face))
    else if |face| == 8 then Some(Shell(EightNodedType, face))
    else if |face| == 3 then Some(Shell(FourNodedType, [face[0], face[1], face[2], face[2]]))
    else if |face| == 6 then Some(Shell(EightNodedType, [face[0], face[2], face[4], face[4], face[1], face[3], face[4], face[5]]))
    else None
  }

  /** The faces the exporter can write. */
  predicate Writable(face: seq<int>) {
    |face| == 3 || |face| == 4 || |face| == 6 || |face| == 8
  }

  /**
   * Exactly the faces of three, four, six or eight nodes are written; the
   * element has four nodes and type 1 for up to four, eight nodes and type 2
   * otherwise; it uses exactly the face's nodes, and a quadrilateral keeps
   * its node order.
   */
  lemma ShellOfSpec(face: seq<int>)
    ensures ShellOf(face).Some? <==> Writable(face)
    ensures ShellOf(face).Some? ==>
      var s := ShellOf(face).value;
      && |s.nodes| == (if |face| <= 4 then 4 else 8)
      && s.typ == (if |face| <= 4 then FourNodedType else EightNodedType)
      && (forall x :: x in s.nodes <==> x in face)
      && (|face| == 4 || |face| == 8 ==> s.nodes == face)
  {
    if |face| == 3 {
      var s := ShellOf(face).value;
      forall x | x in face ensures x in s.nodes {
        var k :| 0 <= k < 3 && face[k] == x;
        assert s.nodes[k] == x;
      }
    } else if |face| == 6 {
      var s := ShellOf(face).value;
      forall x | x in face ensures x in s.nodes {
        var k :| 0 <= k < 6 && face[k] == x;
        if k == 0 { assert s.nodes[0] == x; }
        else if k == 1 { assert s.nodes[4] == x; }
        else if k == 2 { assert s.nodes[1] == x; }
        else if k == 3 { assert s.nodes[5] == x; }
        else if k == 4 { assert s.nodes[2] == x; }
        else { assert s.nodes[7] == x; }
      }
    }
  }

  /** One element record: number, material, type, real constant and nodes. */
  datatype ShellRecord = ShellRecord(number: int, mat: int, typ: int, realConst: int, nodes: seq<int>)

  /** The records of one object's faces; element numbers go on from `number`. */
  function ObjectRecords(faces: seq<seq<int>>, mat: int, realConst: int, number: int): seq<ShellRecord>
    decreases |faces|
  {
    if |faces| == 0 then []
    else
      match ShellOf(faces[0])
      case None => ObjectRecords(faces[1..], mat, realConst, number)
      case Some(s) => [ShellRecord(number, mat, s.typ, realConst, s.nodes)] + ObjectRecords(faces[1..], mat, realConst, number + 1)
  }

  /** `v`, or `v + k` when the increment flag is set. */
  function Bump(v: int, inc: bool, k: nat): int {
    if inc then v + k else v
  }

  /** The records of all objects: the material and the real constant step by one per object when their flags are set. */
  function Records(objects: seq<seq<seq<int>>>, mat: int, realConst: int, incMat: bool, incReal: bool, number: int): seq<ShellRecord>
    decreases |objects|
  {
    if |objects| == 0 then []
    else
      var first := ObjectRecords(objects[0], mat, realConst, number);
      first + Records(objects[1..], Bump(mat, incMat, 1), Bump(realConst, incReal, 1), incMat, incReal, number + |first|)
  }

  /** The number of writable faces of one object. */
  function ShellCount(faces: seq<seq<int>>): nat
    decreases |faces|
  {
    if |faces| == 0 then 0 else (if Writable(faces[0]) then 1 else 0) + ShellCount(faces[1..])
  }

  /** The number of writable faces of all objects. */
  function TotalShells(objects: seq<seq<seq<int>>>): nat
    decreases |objects|
  {
    if |objects| == 0 then 0 else ShellCount(objects[0]) + TotalShells(objects[1..])
  }

  /** `face_count` as written: every face, writable or not. */
  function FaceCount(objects: seq<seq<seq<int>>>): nat
    decreases |objects|
  {
    if |objects| == 0 then 0 else |objects[0]| + FaceCount(objects[1..])
  }

  /**
   * One object's records: one per writable face, in face order, numbered on
   * from `number`, each with the object's material and real constant and the
   * face's shell.
   */
  lemma {:induction false} ObjectRecordsSpec(faces: seq<seq<int>>, mat: int, realConst: int, number: int)
    ensures |ObjectRecords(faces, mat, realConst, number)| == ShellCount(faces)
    ensures forall k :: 0 <= k < |ObjectRecords(faces, mat, realConst, number)| ==>
      var r := ObjectRecords(faces, mat, realConst, number)[k];
      r.number == number + k && r.mat == mat && r.realConst == realConst
    decreases |faces|
  {
    if |faces| > 0 {
      ObjectRecordsSpec(faces[1..], mat, realConst, number + 1);
      ObjectRecordsSpec(faces[1..], mat, realConst, number);
      ShellOfSpec(faces[0]);
    }
  }

  /** One record per writable face of every object. */
  lemma {:induction false} RecordsCount(objects: seq<seq<seq<int>>>, mat: int, realConst: int,
                                        incMat: bool, incReal: bool, number: int)
    ensures |Records(objects, mat, realConst, incMat, incReal, number)| == TotalShells(objects)
    decreases |objects|
  {
    if |objects| > 0 {
      var first := ObjectRecords(objects[0], mat, realConst, number);
      ObjectRecordsSpec(objects[0], mat, realConst, number);
      RecordsCount(objects[1..], Bump(mat, incMat, 1), Bump(realConst, incReal, 1), incMat, incReal, number + |first|);
    }
  }

  /** Element numbers run on without a gap from the first: record `k` is element `number + k`. */
  lemma {:induction false} RecordsNumbered(objects: seq<seq<seq<int>>>, mat: int, realConst: int,
                                           incMat: bool, incReal: bool, number: int)
    ensures forall k :: 0 <= k < |Records(objects, mat, realConst, incMat, incReal, number)| ==>
      Records(objects, mat, realConst, incMat, incReal, number)[k].number == number + k
    decreases |objects|
  {
    if |objects| > 0 {
      var first := ObjectRecords(objects[0], mat, realConst, number);
      ObjectRecordsSpec(objects[0], mat, realConst, number);
      RecordsNumbered(objects[1..], Bump(mat, incMat, 1), Bump(realConst, incReal, 1), incMat, incReal, number + |first|);
    }
  }

  /**
   * Exporting one more object appends its records: its material and real
   * constant are stepped once per earlier object, and its element numbers go
   * on after theirs.
   */
  lemma {:induction false} RecordsAppendObject(objects: seq<seq<seq<int>>>, faces: seq<seq<int>>, mat: int, realConst: int,
                                               incMat: bool, incReal: bool, number: int)
    ensures var before := Records(objects, mat, realConst, incMat, incReal, number);
      Records(objects + [faces], mat, realConst, incMat, incReal, number)
        == before + ObjectRecords(faces, Bump(mat, incMat, |objects|), Bump(realConst, incReal, |objects|), number + |before|)
    decreases |objects|
  {
    var all := objects + [faces];
    if |objects| == 0 {
      assert all[1..] == [];
      AppendNil(ObjectRecords(faces, mat, realConst, number));
      NilAppend(ObjectRecords(faces, mat, realConst, number));
    } else {
      var first := ObjectRecords(objects[0], mat, realConst, number);
      var mat1, real1, number1 := Bump(mat, incMat, 1), Bump(realConst, incReal, 1), number + |first|;
      assert all[0] == objects[0];
      assert all[1..] == objects[1..] + [faces];
      RecordsAppendObject(objects[1..], faces, mat1, real1, incMat, incReal, number1);
      var rest := Records(objects[1..], mat1, real1, incMat, incReal, number1);
      var mine := ObjectRecords(faces, Bump(mat1, incMat, |objects| - 1), Bump(real1, incReal, |objects| - 1), number1 + |rest|);
      assert Records(all, mat, realConst, incMat, incReal, number) == first + (rest + mine);
      assert Records(objects, mat, realConst, incMat, incReal, number) == first + rest;
      assert Bump(mat1, incMat, |objects| - 1) == Bump(mat, incMat, |objects|);
      assert Bump(real1, incReal, |objects| - 1) == Bump(realConst, incReal, |objects|);
      assert number1 + |rest| == number + |first + rest|;
      Assoc(first, rest, mine);
    }
  }

  /** Only writable faces count: the records are at most the faces, and as many exactly when every face is writable. */
  lemma {:induction false} ShellCountBound(faces: seq<seq<int>>)
    ensures ShellCount(faces) <= |faces|
    ensures ShellCount(faces) == |faces| <==> forall k :: 0 <= k < |faces| ==> Writable(faces[k])
    decreases |faces|
  {
    if |faces| > 0 {
      ShellCountBound(faces[1..]);
      assert forall k :: 1 <= k < |faces| ==> faces[k] == faces[1..][k - 1];
    }
  }

  lemma {:induction false} TotalShellsBound(objects: seq<seq<seq<int>>>)
    ensures TotalShells(objects) <= FaceCount(objects)
    ensures TotalShells(objects) == FaceCount(objects) <==>
      forall i, k :: 0 <= i < |objects| && 0 <= k < |objects[i]| ==> Writable(objects[i][k])
    decreases |objects|
  {
    if |objects| > 0 {
      TotalShellsBound(objects[1..]);
      ShellCountBound(objects[0]);
      assert forall i :: 1 <= i < |objects| ==> objects[i] == objects[1..][i - 1];
    }
  }

  /** A pentagon is counted in the `EBLOCK` header as written, but no record is written for it. */
  lemma PentagonCounted()
    ensures FaceCount([[[1, 2, 3, 4, 5]]]) == 1
    ensures Records([[[1, 2, 3, 4, 5]]], 1, 1, false, false, 1) == []
  {
  }

  /** As written, a lone pentagon announces one element and writes none; repaired, it announces none. */
  lemma PentagonBlock()
    ensures WrittenElementBlock([[[1, 2, 3, 4, 5]]], 1, false, 1, false)
            == ["EBLOCK,19,SOLID,1\n", "(19i8)\n", "-1,\n"]
    ensures RepairedElementBlock([[[1, 2, 3, 4, 5]]], 1, false, 1, false)
            == ["EBLOCK,19,SOLID,0\n", "(19i8)\n", "-1,\n"]
  {
    PentagonCounted();
    assert IntToStr(1) == "1" && IntToStr(0) == "0";
    assert ElementBlockCommand(1) == "EBLOCK,19,SOLID,1\n";
    assert ElementBlockCommand(0) == "EBLOCK,19,SOLID,0\n";
    assert RecordLines([]) == [];
    assert WrittenElementBlock([[[1, 2, 3, 4, 5]]], 1, false, 1, false) == ElementBlockLines([], 1);
    assert RepairedElementBlock([[[1, 2, 3, 4, 5]]], 1, false, 1, false) == ElementBlockLines([], 0);
  }

  // ----- the text -----

  const PrepLine: string := "/PREP7\n"
  const TitleLine: string := "/TITLE,\n"
  const NodeBlockCommand: string := "NBLOCK,6,SOLID\n"
  const NodeFormatLine: string := "(3i8,6g16.9)\n"
  const NodeBlockEnd: string := "N,R5.3,LOC,-1,\n"
  const ElementBlockPrefix: string := "EBLOCK,19,SOLID,"
  const ElementFormatLine: string := "(19i8)\n"
  const ElementBlockEnd: string := "-1,\n"
  const FinishLine: string := "FINISH\n"
  const Newline: string := "\n"

  /** `f` applied to each element, in order. */
  function MapSeq<A, B>(f: A -> B, xs: seq<A>): seq<B> {
    seq(|xs|, k requires 0 <= k < |xs| => f(xs[k]))
  }

  /** `"%8i" * len(vs) % vs`. */
  function Cols(vs: seq<int>): string {
    Concat(MapSeq(Col8, vs))
  }

  /**
   * The SOLID record fields: material, type, real constant, section 1, four
   * zero flags, the node count, exclude key 0, the element number, the nodes.
   */
  function RecordFields(r: ShellRecord): seq<int> {
    [r.mat, r.typ, r.realConst, 1, 0, 0, 0, 0, |r.nodes|, 0, r.number] + r.nodes
  }

  /** One record line. */
  function RecordLine(r: ShellRecord): string {
    Cols(RecordFields(r)) + Newline
  }

  function RecordLines(rs: seq<ShellRecord>): seq<string> {
    MapSeq(RecordLine, rs)
  }

  /** `"%8i%8i%8i%16.9g%16.9g%16.9g\n"`; `formatCoord` is `"%16.9g"`. */
  function NodeLine<C>(number: int, p: Point<C>, formatCoord: C -> string): string {
    Col8(number) + Col8(0) + Col8(0) + formatCoord(p.x) + formatCoord(p.y) + formatCoord(p.z) + Newline
  }

  function NodeLines<C>(keys: seq<int>, nodes: map<int, Point<C>>, formatCoord: C -> string): seq<string>
    requires forall k :: 0 <= k < |keys| ==> keys[k] in nodes
  {
    seq(|keys|, k requires 0 <= k < |keys| => NodeLine(keys[k], nodes[keys[k]], formatCoord))
  }

  /** The lines written, one after the other, as one text. */
  function Concat(lines: seq<string>): string
    decreases |lines|
  {
    if |lines| == 0 then "" else Concat(lines[..|lines| - 1]) + lines[|lines| - 1]
  }

  function HeaderLines(): seq<string> {
    [PrepLine, TitleLine]
  }

  /** `"ET,%i,%i\n"`. */
  function ETLine(typ: int, family: int): string {
    "ET," + IntToStr(typ) + "," + IntToStr(family) + Newline
  }

  function ETLines(): seq<string> {
    [ETLine(FourNodedType, FourNodedFamily), ETLine(EightNodedType, EightNodedFamily)]
  }

  /** The node block: the command, the format line, one line per node in table order, the closing `N` command. */
  function NodeBlockLines<C>(nodes: OMap<int, Point<C>>, formatCoord: C -> string): seq<string>
    requires nodes.Valid()
  {
    assert forall k :: 0 <= k < |nodes.keys| ==> nodes.keys[k] in nodes.values;
    [NodeBlockCommand, NodeFormatLine] + NodeLines(nodes.keys, nodes.values, formatCoord) + [NodeBlockEnd]
  }

  /** `"EBLOCK,19,SOLID," + str(count) + "\n"`. */
  function ElementBlockCommand(count: int): string {
    ElementBlockPrefix + IntToStr(count) + Newline
  }

  /** The element block: the command with the element count, the format line, the records, the closing `-1`. */
  function ElementBlockLines(records: seq<ShellRecord>, count: int): seq<string> {
    [ElementBlockCommand(count), ElementFormatLine] + RecordLines(records) + [ElementBlockEnd]
  }

  /** The element block as `writeEBLOCK` writes it: the header counts every face, including those no record is written for. */
  function WrittenElementBlock(objects: seq<seq<seq<int>>>, initMat: int, incMat: bool, initReal: int, incReal: bool): seq<string> {
    ElementBlockLines(Records(objects, initMat, initReal, incMat, incReal, 1), FaceCount(objects))
  }

  /** `write`: the whole file, with the element block as written. */
  function Output<C>(nodes: OMap<int, Point<C>>, objects: seq<seq<seq<int>>>, formatCoord: C -> string,
                     initMat: int, incMat: bool, initReal: int, incReal: bool): seq<string>
    requires nodes.Valid()
  {
    HeaderLines() + ETLines() + NodeBlockLines(nodes, formatCoord)
      + WrittenElementBlock(objects, initMat, incMat, initReal, incReal) + [FinishLine]
  }

  /**
   * The element block with the header evidently meant: the command announces
   * exactly as many records as lie between the format line and the `-1,`.
   */
  function RepairedElementBlock(objects: seq<seq<seq<int>>>, initMat: int, incMat: bool, initReal: int, incReal: bool)
    : (lines: seq<string>)
    ensures |lines| == TotalShells(objects) + 3
    ensures lines[0] == ElementBlockCommand(|lines| - 3)
    ensures lines[1] == ElementFormatLine && lines[|lines| - 1] == ElementBlockEnd
    ensures lines[2..|lines| - 1] == RecordLines(Records(objects, initMat, initReal, incMat, incReal, 1))
  {
    var records := Records(objects, initMat, initReal, incMat, incReal, 1);
    RecordsCount(objects, initMat, initReal, incMat, incReal, 1);
    ElementBlockLines(records, |records|)
  }

  /**
   * The element block as written is the repaired one exactly when every
   * face is writable; otherwise only its header differs.
   */
  lemma HeaderCount(objects: seq<seq<seq<int>>>, initMat: int, incMat: bool, initReal: int, incReal: bool)
    ensures var written := WrittenElementBlock(objects, initMat, incMat, initReal, incReal);
      var repaired := RepairedElementBlock(objects, initMat, incMat, initReal, incReal);
      |written| == |repaired| && written[1..] == repaired[1..]
      && (written == repaired
          <==> forall i, k :: 0 <= i < |objects| && 0 <= k < |objects[i]| ==> Writable(objects[i][k]))
  {
    var records := Records(objects, initMat, initReal, incMat, incReal, 1);
    RecordsCount(objects, initMat, initReal, incMat, incReal, 1);
    TotalShellsBound(objects);
    var written := WrittenElementBlock(objects, initMat, incMat, initReal, incReal);
    var repaired := RepairedElementBlock(objects, initMat, incMat, initReal, incReal);
    if written == repaired {
      assert written[0] == repaired[0];
      CommandNumber(FaceCount(objects), |records|);
    }
  }

  /** Two `EBLOCK` commands that are equal carry the same count. */
  lemma CommandNumber(a: int, b: int)
    requires ElementBlockCommand(a) == ElementBlockCommand(b)
    ensures a == b
  {
    var s := ElementBlockCommand(a);
    var n := |ElementBlockPrefix|;
    assert IntToStr(a) == s[n..|s| - 1];
    assert IntToStr(b) == s[n..|s| - 1];
    ParseIntToStr(a);
    ParseIntToStr(b);
  }

  // ----- writing -----

  /** The open output file: what has been written to it so far. */
  class CdbFile {
    var text: string

    constructor ()
      ensures text == ""
    {
      text := "";
    }

    /** `fhandle.write(s)`. */
    method Write(s: string)
      modifies this
      ensures text == old(text) + s
    {
      text := text + s;
    }
  }

  /** Writing lines one after the other writes their concatenation. */
  lemma ConcatAppend(a: seq<string>, b: seq<string>)
    ensures Concat(a + b) == Concat(a) + Concat(b)
    decreases |b|
  {
    if |b| > 0 {
      ConcatAppend(a, b[..|b| - 1]);
      assert (a + b)[..|a + b| - 1] == a + b[..|b| - 1];
    } else {
      assert a + b == a;
    }
  }

  lemma ConcatOne(x: string)
    ensures Concat([x]) == x
  {
    assert [x][..0] == [];
  }

  lemma ConcatPair(x: string, y: string)
    ensures Concat([x, y]) == x + y
  {
    assert [x, y][..1] == [x];
    ConcatOne(x);
  }

  /** A block written as two opening lines, the body and one closing line, after what the file already holds. */
  lemma ConcatBlock(prefix: string, a: string, b: string, body: seq<string>, e: string)
    ensures prefix + Concat([a, b] + body + [e]) == prefix + (a + b) + Concat(body) + e
  {
    ConcatPair(a, b);
    ConcatOne(e);
    ConcatAppend([a, b], body);
    ConcatAppend([a, b] + body, [e]);
  }

  /** One more line written after the others. */
  lemma ConcatSnoc(prefix: string, lines: seq<string>, x: string)
    ensures prefix + Concat(lines + [x]) == prefix + Concat(lines) + x
  {
    assert (lines + [x])[..|lines|] == lines;
  }

  /** More lines written after the others. */
  lemma ConcatThen(prefix: string, a: seq<string>, b: seq<string>)
    ensures prefix + Concat(a + b) == prefix + Concat(a) + Concat(b)
  {
    ConcatAppend(a, b);
  }

  lemma Assoc<T>(x: seq<T>, y: seq<T>, z: seq<T>)
    ensures x + (y + z) == x + y + z
  {
  }

  lemma TakeSnoc<T>(s: seq<T>, i: nat)
    requires i < |s|
    ensures s[..i + 1] == s[..i] + [s[i]]
  {
  }

  lemma TakeDrop<T>(s: seq<T>, k: nat)
    requires k <= |s|
    ensures s[..k] + s[k..] == s
  {
  }

  lemma TakeAll<T>(s: seq<T>)
    ensures s[..|s|] == s
  {
  }

  lemma MapAppend<A, B>(f: A -> B, a: seq<A>, b: seq<A>)
    ensures MapSeq(f, a + b) == MapSeq(f, a) + MapSeq(f, b)
  {
  }

  lemma MapSnoc<A, B>(f: A -> B, a: seq<A>, x: A)
    ensures MapSeq(f, a + [x]) == MapSeq(f, a) + [f(x)]
  {
  }

  lemma AppendNil<T>(s: seq<T>)
    ensures s + [] == s
  {
  }

  lemma NilAppend<T>(s: seq<T>)
    ensures [] + s == s
  {
  }

  /** Columns of two runs of values, one after the other. */
  lemma ColsAppend(a: seq<int>, b: seq<int>)
    ensures Cols(a + b) == Cols(a) + Cols(b)
  {
    MapAppend(Col8, a, b);
    ConcatAppend(MapSeq(Col8, a), MapSeq(Col8, b));
  }

  /** `writeHeader`. */
  method WriteHeader(f: CdbFile)
    modifies f
    ensures f.text == old(f.text) + Concat(HeaderLines())
  {
    f.Write(PrepLine + TitleLine);
    ConcatPair(PrepLine, TitleLine);
  }

  /** `writeET`. */
  method WriteET(f: CdbFile)
    modifies f
    ensures f.text == old(f.text) + Concat(ETLines())
  {
    var four := ETLine(FourNodedType, FourNodedFamily);
    var eight := ETLine(EightNodedType, EightNodedFamily);
    f.Write(four + eight);
    ConcatPair(four, eight);
  }

  /** `writeNBLOCK`: one line per node, in the order of the node table. */
  method WriteNBLOCK<C>(f: CdbFile, nodes: OMap<int, Point<C>>, formatCoord: C -> string)
    requires nodes.Valid()
    modifies f
    ensures f.text == old(f.text) + Concat(NodeBlockLines(nodes, formatCoord))
  {
    assert forall k :: 0 <= k < |nodes.keys| ==> nodes.keys[k] in nodes.values;
    f.Write(NodeBlockCommand + NodeFormatLine);
    WriteNodeLines(f, nodes.keys, nodes.values, formatCoord);
    f.Write(NodeBlockEnd);
    ConcatBlock(old(f.text), NodeBlockCommand, NodeFormatLine, NodeLines(nodes.keys, nodes.values, formatCoord), NodeBlockEnd);
  }

  /** The loop of `writeNBLOCK`: one line per node, in the order of `keys`. */
  method WriteNodeLines<C>(f: CdbFile, keys: seq<int>, values: map<int, Point<C>>, formatCoord: C -> string)
    requires forall k :: 0 <= k < |keys| ==> keys[k] in values
    modifies f
    ensures f.text == old(f.text) + Concat(NodeLines(keys, values, formatCoord))
  {
    ghost var all := NodeLines(keys, values, formatCoord);
    for i := 0 to |keys|
      invariant f.text == old(f.text) + Concat(all[..i])
    {
      var node := keys[i];
      var p := values[node];
      f.Write(NodeLine(node, p, formatCoord));
      TakeSnoc(all, i);
      ConcatSnoc(old(f.text), all[..i], all[i]);
    }
    TakeAll(all);
  }

  /** One record: fifteen columns, then the last four nodes of an eight-node shell, then the line end. */
  method WriteRecord(f: CdbFile, r: ShellRecord)
    requires |r.nodes| == 4 || |r.nodes| == 8
    modifies f
    ensures f.text == old(f.text) + RecordLine(r)
  {
    var fields := RecordFields(r);
    f.Write(Cols(fields[..15]));
    if |r.nodes| > 4 {
      f.Write(Cols(fields[15..]) + Newline);
      RecordText(old(f.text), fields, 15, Newline);
    } else {
      f.Write(Newline);
      TakeAll(fields);
    }
  }

  /** A record written in two parts. */
  lemma RecordText(prefix: string, fields: seq<int>, k: nat, nl: string)
    requires k <= |fields|
    ensures prefix + (Cols(fields) + nl) == prefix + Cols(fields[..k]) + (Cols(fields[k..]) + nl)
  {
    TakeDrop(fields, k);
    ColsAppend(fields[..k], fields[k..]);
    Assoc(Cols(fields[..k]), Cols(fields[k..]), nl);
    Assoc(prefix, Cols(fields[..k]), Cols(fields[k..]) + nl);
  }

  /** The records of `faces[j..]`: the one of `faces[j]`, if it is writable, then those of the rest. */
  lemma ObjectRecordsStep(faces: seq<seq<int>>, j: nat, mat: int, realConst: int, number: int)
    requires j < |faces|
    ensures ObjectRecords(faces[j..], mat, realConst, number)
      == match ShellOf(faces[j])
         case None => ObjectRecords(faces[j + 1..], mat, realConst, number)
         case Some(s) => [ShellRecord(number, mat, s.typ, realConst, s.nodes)] + ObjectRecords(faces[j + 1..], mat, realConst, number + 1)
  {
    assert faces[j..][1..] == faces[j + 1..];
  }

  /** The inner loop of `writeEBLOCK` over one object's faces. */
  method WriteObject(f: CdbFile, faces: seq<seq<int>>, mat: int, realConst: int, number: int) returns (next: int)
    modifies f
    ensures f.text == old(f.text) + Concat(RecordLines(ObjectRecords(faces, mat, realConst, number)))
    ensures next == number + |ObjectRecords(faces, mat, realConst, number)|
  {
    ghost var all := ObjectRecords(faces, mat, realConst, number);
    ghost var done: seq<ShellRecord> := [];
    next := number;
    for j := 0 to |faces|
      invariant f.text == old(f.text) + Concat(RecordLines(done))
      invariant done + ObjectRecords(faces[j..], mat, realConst, next) == all
      invariant next + |ObjectRecords(faces[j..], mat, realConst, next)| == number + |all|
    {
      ObjectRecordsStep(faces, j, mat, realConst, next);
      var shell := ShellOf(faces[j]);
      if shell.None? {
        continue;
      }
      var r := ShellRecord(next, mat, shell.value.typ, realConst, shell.value.nodes);
      WriteRecord(f, r);
      Assoc(done, [r], ObjectRecords(faces[j + 1..], mat, realConst, next + 1));
      MapSnoc(RecordLine, done, r);
      ConcatSnoc(old(f.text), RecordLines(done), RecordLine(r));
      done := done + [r];
      next := next + 1;
    }
    AppendNil(done);
  }

  /** The records of `objects[i..]`: those of `objects[i]`, then those of the rest with the next material and real constant. */
  lemma RecordsStep(objects: seq<seq<seq<int>>>, i: nat, mat: int, realConst: int, incMat: bool, incReal: bool, number: int)
    requires i < |objects|
    ensures Records(objects[i..], mat, realConst, incMat, incReal, number)
      == ObjectRecords(objects[i], mat, realConst, number)
         + Records(objects[i + 1..], Bump(mat, incMat, 1), Bump(realConst, incReal, 1), incMat, incReal,
                   number + |ObjectRecords(objects[i], mat, realConst, number)|)
  {
    assert objects[i..][1..] == objects[i + 1..];
  }

  /** The records still to write after object `i`, once its own are written. */
  lemma RecordsDone(done: seq<ShellRecord>, objects: seq<seq<seq<int>>>, i: nat, mat: int, realConst: int,
                    incMat: bool, incReal: bool, number: int, all: seq<ShellRecord>,
                    mat': int, realConst': int, number': int)
    requires i < |objects|
    requires done + Records(objects[i..], mat, realConst, incMat, incReal, number) == all
    requires mat' == Bump(mat, incMat, 1) && realConst' == Bump(realConst, incReal, 1)
    requires number' == number + |ObjectRecords(objects[i], mat, realConst, number)|
    ensures (done + ObjectRecords(objects[i], mat, realConst, number))
            + Records(objects[i + 1..], mat', realConst', incMat, incReal, number') == all
  {
    RecordsStep(objects, i, mat, realConst, incMat, incReal, number);
    var mine := ObjectRecords(objects[i], mat, realConst, number);
    Assoc(done, mine, Records(objects[i + 1..], mat', realConst', incMat, incReal, number'));
  }

  /** The first loop of `writeEBLOCK`, adding up `len(face_list)`: every face, writable or not. */
  method CountFaces(objects: seq<seq<seq<int>>>) returns (count: nat)
    ensures count == FaceCount(objects)
    ensures count >= TotalShells(objects)
  {
    count := 0;
    for i := 0 to |objects|
      invariant count + FaceCount(objects[i..]) == FaceCount(objects)
    {
      assert objects[i..][1..] == objects[i + 1..];
      count := count + |objects[i]|;
    }
    assert objects[|objects|..] == [];
    TotalShellsBound(objects);
  }

  /** The outer loop of `writeEBLOCK`: the records of every object, the material and real constant stepped after each. */
  method WriteObjects(f: CdbFile, objects: seq<seq<seq<int>>>, initMat: int, incMat: bool, initReal: int, incReal: bool)
    modifies f
    ensures f.text == old(f.text) + Concat(RecordLines(Records(objects, initMat, initReal, incMat, incReal, 1)))
  {
    ghost var all := Records(objects, initMat, initReal, incMat, incReal, 1);
    var number := 1;
    var mat := initMat;
    var realConst := initReal;
    ghost var done: seq<ShellRecord> := [];
    for i := 0 to |objects|
      invariant f.text == old(f.text) + Concat(RecordLines(done))
      invariant done + Records(objects[i..], mat, realConst, incMat, incReal, number) == all
    {
      ghost var mine := ObjectRecords(objects[i], mat, realConst, number);
      ghost var mat0, realConst0, number0 := mat, realConst, number;
      mat, realConst, number := WriteObjectAndStep(f, objects[i], mat, incMat, realConst, incReal, number);
      RecordsDone(done, objects, i, mat0, realConst0, incMat, incReal, number0, all, mat, realConst, number);
      MapAppend(RecordLine, done, mine);
      ConcatThen(old(f.text), RecordLines(done), RecordLines(mine));
      done := done + mine;
    }
    AppendNil(done);
  }

  /** One pass of the outer loop of `writeEBLOCK`: the object's records, then the material and real constant stepped. */
  method WriteObjectAndStep(f: CdbFile, faces: seq<seq<int>>, mat: int, incMat: bool, realConst: int, incReal: bool,
                            number: int)
    returns (mat': int, realConst': int, next: int)
    modifies f
    ensures f.text == old(f.text) + Concat(RecordLines(ObjectRecords(faces, mat, realConst, number)))
    ensures next == number + |ObjectRecords(faces, mat, realConst, number)|
    ensures mat' == Bump(mat, incMat, 1) && realConst' == Bump(realConst, incReal, 1)
  {
    next := WriteObject(f, faces, mat, realConst, number);
    mat', realConst' := mat, realConst;
    if incMat {
      mat' := mat + 1;
    }
    if incReal {
      realConst' := realConst + 1;
    }
  }

  /**
   * `writeEBLOCK`: the header counts every face, the element numbers start
   * at 1, and the material and real constant step per object when their
   * flags are set.
   */
  method WriteEBLOCK(f: CdbFile, objects: seq<seq<seq<int>>>, initMat: int, incMat: bool, initReal: int, incReal: bool)
    modifies f
    ensures f.text == old(f.text) + Concat(WrittenElementBlock(objects, initMat, incMat, initReal, incReal))
  {
    var count := CountFaces(objects);
    ghost var records := Records(objects, initMat, initReal, incMat, incReal, 1);
    var command := ElementBlockCommand(count);
    f.Write(command + ElementFormatLine);
    WriteObjects(f, objects, initMat, incMat, initReal, incReal);
    f.Write(ElementBlockEnd);
    ConcatBlock(old(f.text), command, ElementFormatLine, RecordLines(records), ElementBlockEnd);
  }

  /** `writeFINISH`. */
  method WriteFINISH(f: CdbFile)
    modifies f
    ensures f.text == old(f.text) + Concat([FinishLine])
  {
    f.Write(FinishLine);
    ConcatOne(FinishLine);
  }

  /** The file's text is the text of its parts, one after the other. */
  lemma ConcatParts(a: seq<string>, b: seq<string>, c: seq<string>, d: seq<string>, e: seq<string>)
    ensures Concat(a + b + c + d + e) == Concat(a) + Concat(b) + Concat(c) + Concat(d) + Concat(e)
  {
    ConcatAppend(a, b);
    ConcatAppend(a + b, c);
    ConcatAppend(a + b + c, d);
    ConcatAppend(a + b + c + d, e);
  }

  /** `write`, given the nodes and faces of the selected objects: the parts of the file in order. */
  method WriteCdb<C>(nodes: OMap<int, Point<C>>, objects: seq<seq<seq<int>>>, formatCoord: C -> string,
                     initMat: int, incMat: bool, initReal: int, incReal: bool) returns (text: string)
    requires nodes.Valid()
    ensures text == Concat(Output(nodes, objects, formatCoord, initMat, incMat, initReal, incReal))
  {
    var f := new CdbFile();
    WriteHeader(f);
    WriteET(f);
    WriteNBLOCK(f, nodes, formatCoord);
    WriteEBLOCK(f, objects, initMat, incMat, initReal, incReal);
    WriteFINISH(f);
    text := f.text;
    ConcatParts(HeaderLines(), ETLines(), NodeBlockLines(nodes, formatCoord),
                WrittenElementBlock(objects, initMat, incMat, initReal, incReal), [FinishLine]);
    NilAppend(Concat(HeaderLines()));
  }
}
