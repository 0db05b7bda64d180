/**
 * What the reader makes of what the writer writes: a shell record line
 * written by `writeEBLOCK` (export_cdb.py:96-137) is read back by the SOLID
 * branch of `readEBLOCK` (import_cdb.py:317-350) as the element it
 * describes, and a node line written by `writeNBLOCK` (export_cdb.py:87-94)
 * is read back by `readNBLOCK` (import_cdb.py:208-254) as the node.
 */
module CdbRoundTrip {
  import opened Wrappers
  import opened PyText
  import opened OrderedMaps
  import opened Faults
  import opened CdbFormat
  import opened CdbCommands
  import opened CdbBlocks
  import opened CdbWriter

  // ----- eight-column fields -----

  /** A format of nineteen eight-column fields, such as `(19i8)`. */
  predicate EightColumns(forms: seq<FieldSpec>) {
    |forms| == 19 && forall k :: 0 <= k < |forms| ==> forms[k].width == 8
  }

  /** The element format line the writer writes is such a format. */
  lemma ElementFormat()
    ensures EightColumns(FormatOf(ElementFormatLine))
  {
    ElementDescriptorForms();
  }

  /** In a format of eight-column fields, field `j` starts at column `8 * j`. */
  lemma {:induction false} OffsetEight(forms: seq<FieldSpec>, j: nat)
    requires j <= |forms|
    requires forall k :: 0 <= k < |forms| ==> forms[k].width == 8
    ensures Offset(forms, j) == 8 * j
  {
    if j > 0 {
      OffsetEight(forms, j - 1);
    }
  }

  /** Lines of eight characters each, one after the other: line `j` sits at `8 * j`. */
  lemma {:induction false} ConcatEights(lines: seq<string>, rest: string, j: nat)
    requires forall k :: 0 <= k < |lines| ==> |lines[k]| == 8
    requires j < |lines|
    ensures |Concat(lines)| == 8 * |lines|
    ensures Slice(Concat(lines) + rest, 8 * j, 8 * j + 8) == lines[j]
    decreases |lines|
  {
    var n := |lines| - 1;
    var init := lines[..n];
    assert Concat(lines) == Concat(init) + lines[n];
    if j < n {
      ConcatEights(init, lines[n] + rest, j);
      Assoc(Concat(init), lines[n], rest);
      assert init[j] == lines[j];
    } else {
      if n > 0 {
        ConcatEights(init, "", 0);
      }
      SliceOfPart(Concat(init), lines[n], rest);
    }
  }

  lemma ColsOne(v: int)
    ensures Cols([v]) == Col8(v)
  {
    assert MapSeq(Col8, [v]) == [Col8(v)];
    ConcatOne(Col8(v));
  }

  /** Columns `8 * j` to `8 * j + 8` of the written fields hold value `j`, whatever follows them. */
  lemma ColsColumn(vs: seq<int>, rest: string, j: nat)
    requires forall k :: 0 <= k < |vs| ==> Fits8(vs[k])
    requires j < |vs|
    ensures |Cols(vs)| == 8 * |vs|
    ensures Slice(Cols(vs) + rest, 8 * j, 8 * j + 8) == Col8(vs[j])
  {
    var cs := MapSeq(Col8, vs);
    forall k | 0 <= k < |cs|
      ensures |cs[k]| == 8
    {
      Col8RoundTrip(vs[k]);
    }
    ConcatEights(cs, rest, j);
  }

  /** The first visible character of a line that starts with a written integer is a sign or a digit. */
  lemma LeadsWithNumber(v: int, rest: string)
    ensures |Strip(Col8(v) + rest)| > 0
    ensures var c := Strip(Col8(v) + rest)[0];
      (v < 0 ==> c == '-') && (v >= 0 ==> IsDigit(c))
  {
    var s := IntToStr(v);
    IntToStrFirst(v);
    var pre := if |s| < 8 then Spaces(8 - |s|) else "";
    assert AllSpaces(pre);
    if |s| >= 8 {
      NilAppend(s);
    }
    assert Col8(v) == pre + s;
    Assoc(pre, s, rest);
    StripFirst(pre, s + rest);
  }

  // ----- one element record -----

  /** A record the reader can read back: a four- or eight-node shell whose numbers fit their columns. */
  predicate Readable(r: ShellRecord) {
    && (|r.nodes| == 4 || |r.nodes| == 8)
    && r.mat >= 0
    && Fits8(r.mat) && Fits8(r.typ) && Fits8(r.realConst) && Fits8(r.number)
    && (forall k :: 0 <= k < |r.nodes| ==> Fits8(r.nodes[k]))
  }

  /**
   * The 19 field values the SOLID loop reads from a record line: the written
   * fields, and for a four-node shell the last node four more times (the
   * empty columns repeat the field before them).
   */
  function FieldsRead(r: ShellRecord): seq<int>
    requires |r.nodes| == 4 || |r.nodes| == 8
  {
    if |r.nodes| == 4 then RecordFields(r) + [r.nodes[3], r.nodes[3], r.nodes[3], r.nodes[3]]
    else RecordFields(r)
  }

  /** The element the reader stores for a record: material, real constant, type, then eight nodes. */
  function ElementRead(r: ShellRecord): seq<int> {
    [r.mat, r.realConst, r.typ]
      + (if |r.nodes| == 4 then r.nodes + [r.nodes[3], r.nodes[3], r.nodes[3], r.nodes[3]] else r.nodes)
  }

  lemma FieldsFit(r: ShellRecord)
    requires Readable(r)
    ensures forall k :: 0 <= k < |RecordFields(r)| ==> Fits8(RecordFields(r)[k])
  {
    Fits8Range(0);
    Fits8Range(1);
    Fits8Range(|r.nodes|);
    var fs := RecordFields(r);
    forall k | 0 <= k < |fs|
      ensures Fits8(fs[k])
    {
      if k >= 11 {
        assert fs[k] == r.nodes[k - 11];
      }
    }
  }

  /** Field `j` of an element line reads as `vs[j]`: its column parses to it, or it fails and repeats the field before. */
  predicate ColumnGives(line: string, j: nat, vs: seq<int>) {
    j < |vs| &&
    var p := ParseInt(Slice(line, 8 * j, 8 * j + 8));
    p == Some(vs[j]) || (p.None? && j > 0 && vs[j] == vs[j - 1])
  }

  /** The SOLID loop's state after reading the first `i` fields of `vs` from eight-column fields. */
  function ScanState(vs: seq<int>, i: nat, last: Option<int>): Scanned
    requires i <= |vs|
  {
    Scanned(vs[..i], 8 * i, if i == 0 then last else Some(vs[i - 1]))
  }

  /** Field `k - 1` of the SOLID loop, an eight-column field that gives `vs[k - 1]`. */
  lemma SolidStepGives(line: string, forms: seq<FieldSpec>, k: nat, last: Option<int>, vs: seq<int>)
    requires EightColumns(forms) && 0 < k <= |forms| && |vs| == |forms|
    requires ColumnGives(line, k - 1, vs)
    ensures SolidStep(line, forms, k - 1, ScanState(vs, k - 1, last)) == Some(ScanState(vs, k, last))
  {
    assert forms[k - 1].width == 8;
    TakeSnoc(vs, k - 1);
  }

  /** The first `i` steps of the SOLID loop over a line whose columns give `vs`. */
  lemma {:induction false} SolidScanOf(line: string, forms: seq<FieldSpec>, i: nat, last: Option<int>, vs: seq<int>)
    requires EightColumns(forms) && i <= |forms| && |vs| == |forms|
    requires forall j :: 0 <= j < i ==> ColumnGives(line, j, vs)
    ensures SolidScan(line, forms, i, last) == Some(ScanState(vs, i, last))
  {
    if i > 0 {
      SolidScanOf(line, forms, i - 1, last, vs);
      SolidStepGives(line, forms, i, last, vs);
    }
  }

  lemma RecordColumn(r: ShellRecord, j: nat)
    requires Readable(r) && j < 19
    ensures ColumnGives(RecordLine(r), j, FieldsRead(r))
  {
    var vs := FieldsRead(r);
    if j < |RecordFields(r)| {
      WrittenColumn(r, j);
      assert vs[j] == RecordFields(r)[j];
      GivesParsed(RecordLine(r), j, vs, RecordFields(r)[j]);
    } else {
      PastColumn(r, j);
      assert vs[j] == vs[j - 1];
      GivesRepeated(RecordLine(r), j, vs);
    }
  }

  lemma GivesParsed(line: string, j: nat, vs: seq<int>, v: int)
    requires j < |vs| && vs[j] == v && ParseInt(Slice(line, 8 * j, 8 * j + 8)) == Some(v)
    ensures ColumnGives(line, j, vs)
  {
  }

  lemma GivesRepeated(line: string, j: nat, vs: seq<int>)
    requires 0 < j < |vs| && vs[j] == vs[j - 1] && ParseInt(Slice(line, 8 * j, 8 * j + 8)).None?
    ensures ColumnGives(line, j, vs)
  {
  }

  /** A written field of a record line reads back as itself. */
  lemma WrittenColumn(r: ShellRecord, j: nat)
    requires Readable(r) && j < |RecordFields(r)|
    ensures ParseInt(Slice(RecordLine(r), 8 * j, 8 * j + 8)) == Some(RecordFields(r)[j])
  {
    var fs := RecordFields(r);
    FieldsFit(r);
    ColsColumn(fs, Newline, j);
    Col8RoundTrip(fs[j]);
  }

  /** Past the written fields of a four-node record line there is only the newline, which does not parse. */
  lemma PastColumn(r: ShellRecord, j: nat)
    requires Readable(r) && |RecordFields(r)| <= j < 19
    ensures ParseInt(Slice(RecordLine(r), 8 * j, 8 * j + 8)).None?
  {
    var fs := RecordFields(r);
    FieldsFit(r);
    ColsColumn(fs, Newline, 0);
    var line := Cols(fs) + Newline;
    assert |fs| == 15 && |line| == 121;
    if j == 15 {
      assert Slice(line, 8 * j, 8 * j + 8) == line[120..121] == Newline;
      assert Strip(Newline) == "";
    } else {
      assert Slice(line, 8 * j, 8 * j + 8) == "";
    }
  }

  /** A record line with a non-negative material does not look like the closing `-1`. */
  lemma RecordNotEnd(r: ShellRecord)
    requires Readable(r)
    ensures !EndsElementBlock(RecordLine(r))
  {
    var fs := RecordFields(r);
    var x := Cols(fs[1..]);
    assert fs == [r.mat] + fs[1..];
    ColsAppend([r.mat], fs[1..]);
    ColsOne(r.mat);
    Assoc(Col8(r.mat), x, Newline);
    LeadsWithNumber(r.mat, x + Newline);
  }

  /** The SOLID loop reads all nineteen fields of a record line. */
  lemma RecordScan(r: ShellRecord, forms: seq<FieldSpec>, last: Option<int>)
    requires Readable(r) && EightColumns(forms)
    ensures SolidScan(RecordLine(r), forms, |forms|, last)
            == Some(Scanned(FieldsRead(r), 8 * 19, Some(FieldsRead(r)[18])))
  {
    var vs := FieldsRead(r);
    forall j | 0 <= j < 19
      ensures ColumnGives(RecordLine(r), j, vs)
    {
      RecordColumn(r, j);
    }
    SolidScanOf(RecordLine(r), forms, 19, last, vs);
    TakeAll(vs);
  }

  /** A SOLID record whose nineteen fields hold a node count of four or eight is stored. */
  lemma SolidRecordOf(line: string, forms: seq<FieldSpec>, last: Option<int>, vs: seq<int>)
    requires |forms| == 19 && |vs| == 19 && (vs[8] == 4 || vs[8] == 8)
    requires SolidScan(line, forms, |forms|, last) == Some(Scanned(vs, 8 * 19, Some(vs[18])))
    ensures SolidRecord(line, forms, |forms|, last) == (Store(vs[10], [vs[0], vs[2], vs[1]] + vs[11..]), Some(vs[18]))
  {
  }

  /** The fields read give the element's material, real constant, type and nodes. */
  lemma FieldsElement(r: ShellRecord)
    requires |r.nodes| == 4 || |r.nodes| == 8
    ensures var vs := FieldsRead(r);
      && |vs| == 19 && vs[8] == |r.nodes| && vs[10] == r.number && vs[18] == r.nodes[|r.nodes| - 1]
      && [vs[0], vs[2], vs[1]] + vs[11..] == ElementRead(r)
  {
    var vs := FieldsRead(r);
    assert vs[11..] == ElementRead(r)[3..];
  }

  /**
   * The record round trip: the SOLID branch reads a written record line, with
   * the `(19i8)` format and field count 19, as element `r.number` holding
   * material, real constant, type and eight nodes (a four-node shell's last
   * node repeated), and leaves `field` at the last node whatever it held
   * before.
   */
  lemma RecordReadBack(r: ShellRecord, forms: seq<FieldSpec>, last: Option<int>)
    requires Readable(r) && EightColumns(forms)
    ensures !EndsElementBlock(RecordLine(r))
    ensures SolidRecord(RecordLine(r), forms, |forms|, last)
            == (Store(r.number, ElementRead(r)), Some(r.nodes[|r.nodes| - 1]))
  {
    RecordNotEnd(r);
    RecordScan(r, forms, last);
    FieldsElement(r);
    SolidRecordOf(RecordLine(r), forms, last, FieldsRead(r));
  }

  // ----- one node line -----

  /** Where `readNBLOCK` finds the number and the coordinates under the `(3i8,6g16.9)` format. */
  function NodeCols(): NodeColumns {
    NodeColumns(8, 24, 40, 56, 72)
  }

  /** The node format line the writer writes gives those columns. */
  lemma NodeFormat()
    ensures |FormatOf(NodeFormatLine)| >= 6
    ensures NodeColumnsOf(FormatOf(NodeFormatLine)) == NodeCols()
  {
    NodeDescriptorForms();
    var forms := FormatOf(NodeFormatLine);
    assert forms[..3] == Repeat(FieldSpec("i", 8, 0), 3);
    assert forms[0].width == 8 && forms[1].width == 8 && forms[2].width == 8;
    assert forms[3].width == 16 && forms[4].width == 16 && forms[5].width == 16;
  }

  lemma SevenParts(a: string, b: string, c: string, d: string, e: string, f: string, g: string)
    requires |a| == 8 && |b| == 8 && |c| == 8 && |d| == 16 && |e| == 16 && |f| == 16
    ensures Slice(a + b + c + d + e + f + g, 0, 8) == a
    ensures Slice(a + b + c + d + e + f + g, 24, 40) == d
    ensures Slice(a + b + c + d + e + f + g, 40, 56) == e
    ensures Slice(a + b + c + d + e + f + g, 56, 72) == f
    ensures a + b + c + d + e + f + g == a + (b + c + d + e + f + g)
  {
    var s := a + b + c + d + e + f + g;
    assert s[0..8] == a;
    assert s[24..40] == d;
    assert s[40..56] == e;
    assert s[56..72] == f;
  }

  /**
   * The node round trip: a written node line is node data, its first
   * column reads back as the node number, and each coordinate is what
   * `float()` makes of the sixteen characters written for it.
   */
  lemma NodeLineReadBack<C>(number: int, p: Point<C>, formatCoord: C -> string,
                            parseFloat: string -> Option<C>, zero: C)
    requires Fits8(number)
    requires |formatCoord(p.x)| == 16 && |formatCoord(p.y)| == 16 && |formatCoord(p.z)| == 16
    ensures NodeData(NodeLine(number, p, formatCoord))
    ensures NodeNumber(NodeLine(number, p, formatCoord), NodeCols()) == Some(number)
    ensures NodePoint(NodeLine(number, p, formatCoord), NodeCols(), parseFloat, zero)
            == Point(parseFloat(formatCoord(p.x)).GetOr(zero), parseFloat(formatCoord(p.y)).GetOr(zero),
                     parseFloat(formatCoord(p.z)).GetOr(zero))
  {
    Col8RoundTrip(number);
    Fits8Range(0);
    Col8RoundTrip(0);
    var a := Col8(number);
    var rest := Col8(0) + Col8(0) + formatCoord(p.x) + formatCoord(p.y) + formatCoord(p.z) + Newline;
    SevenParts(a, Col8(0), Col8(0), formatCoord(p.x), formatCoord(p.y), formatCoord(p.z), Newline);
    LeadsWithNumber(number, rest);
  }

  // ----- block ends -----

  /** The closing `-1` ends the element block, and the closing `N` command ends the node block. */
  lemma BlockEnds()
    ensures EndsElementBlock(ElementBlockEnd)
    ensures EndsNodeBlock(NodeBlockEnd)
  {
    StripFirst("", ElementBlockEnd);
    assert "" + ElementBlockEnd == ElementBlockEnd;
    StripFirst("", NodeBlockEnd);
    assert "" + NodeBlockEnd == NodeBlockEnd;
  }

  // ----- the element block -----

  /** The element table after storing each record's element in turn, later numbers overwriting earlier ones. */
  function StoreRecords(elements: OMap<int, seq<int>>, rs: seq<ShellRecord>): OMap<int, seq<int>>
    decreases |rs|
  {
    if |rs| == 0 then elements else StoreRecords(elements.Put(rs[0].number, ElementRead(rs[0])), rs[1..])
  }

  /** The element numbers of the records, in order. */
  function Numbers(rs: seq<ShellRecord>): seq<int> {
    seq(|rs|, k requires 0 <= k < |rs| => rs[k].number)
  }

  /** Storing records keeps the element table well formed. */
  lemma {:induction false} StoreRecordsValid(elements: OMap<int, seq<int>>, rs: seq<ShellRecord>)
    requires elements.Valid()
    ensures StoreRecords(elements, rs).Valid()
    decreases |rs|
  {
    if |rs| > 0 {
      StoreRecordsValid(elements.Put(rs[0].number, ElementRead(rs[0])), rs[1..]);
    }
  }

  /**
   * Records with distinct new numbers add their elements after the existing
   * ones, in record order, and leave the existing elements alone.
   */
  lemma {:induction false} StoreRecordsFresh(elements: OMap<int, seq<int>>, rs: seq<ShellRecord>)
    requires forall k :: 0 <= k < |rs| ==> rs[k].number !in elements.values
    requires forall i, j :: 0 <= i < j < |rs| ==> rs[i].number != rs[j].number
    ensures StoreRecords(elements, rs).keys == elements.keys + Numbers(rs)
    ensures forall k :: 0 <= k < |rs| ==>
      rs[k].number in StoreRecords(elements, rs).values
      && StoreRecords(elements, rs).values[rs[k].number] == ElementRead(rs[k])
    ensures forall id :: id in elements.values ==>
      id in StoreRecords(elements, rs).values && StoreRecords(elements, rs).values[id] == elements.values[id]
    decreases |rs|
  {
    if |rs| > 0 {
      var e' := elements.Put(rs[0].number, ElementRead(rs[0]));
      var rest := rs[1..];
      forall k | 0 <= k < |rest|
        ensures rest[k].number !in e'.values
      {
        assert rest[k] == rs[k + 1];
      }
      StoreRecordsFresh(e', rest);
      assert Numbers(rs) == [rs[0].number] + Numbers(rest);
      Assoc(elements.keys, [rs[0].number], Numbers(rest));
      var got := StoreRecords(elements, rs);
      forall k | 0 <= k < |rs|
        ensures rs[k].number in got.values && got.values[rs[k].number] == ElementRead(rs[k])
      {
        if k > 0 {
          assert rs[k] == rest[k - 1];
        }
      }
    } else {
      AppendNil(elements.keys);
    }
  }

  /** A record that the SOLID branch stores moves the block on to the next line. */
  lemma SolidLinesStep(elements: OMap<int, seq<int>>, lines: seq<string>, c: nat, forms: seq<FieldSpec>,
                       n: int, last: Option<int>, number: int, data: seq<int>, field: Option<int>)
    requires c < |lines| && !EndsElementBlock(lines[c])
    requires SolidRecord(lines[c], forms, n, last) == (Store(number, data), field)
    ensures SolidLines(elements, lines, c, forms, n, last)
            == SolidLines(elements.Put(number, data), lines, c + 1, forms, n, field)
  {
  }

  /** A written record line is stored, and the block goes on at the next line. */
  lemma RecordStep(elements: OMap<int, seq<int>>, lines: seq<string>, c: nat, forms: seq<FieldSpec>,
                   last: Option<int>, r: ShellRecord)
    requires EightColumns(forms) && Readable(r)
    requires c < |lines| && lines[c] == RecordLine(r)
    ensures SolidLines(elements, lines, c, forms, |forms|, last)
            == SolidLines(elements.Put(r.number, ElementRead(r)), lines, c + 1, forms, |forms|, Some(r.nodes[|r.nodes| - 1]))
  {
    RecordReadBack(r, forms, last);
    SolidLinesStep(elements, lines, c, forms, |forms|, last, r.number, ElementRead(r), Some(r.nodes[|r.nodes| - 1]));
  }

  /** Lines `c`, `c + 1`, ... hold the record lines of `rs`, each of a record the reader can read back. */
  predicate RecordsAt(lines: seq<string>, c: nat, rs: seq<ShellRecord>)
    decreases |rs|
  {
    |rs| == 0 || (c < |lines| && Readable(rs[0]) && lines[c] == RecordLine(rs[0]) && RecordsAt(lines, c + 1, rs[1..]))
  }

  /** The `-1` line ends the SOLID loop, and reading goes on after it. */
  lemma SolidLinesAtEnd(elements: OMap<int, seq<int>>, lines: seq<string>, e: nat, forms: seq<FieldSpec>,
                        n: int, last: Option<int>)
    requires e < |lines| && EndsElementBlock(lines[e])
    ensures SolidLines(elements, lines, e, forms, n, last) == Ok((elements, Next(lines, e)))
  {
  }

  /** The element table once record `r` is stored. */
  function Stored(elements: OMap<int, seq<int>>, r: ShellRecord): OMap<int, seq<int>> {
    elements.Put(r.number, ElementRead(r))
  }

  /** The field the SOLID loop carries on from record `r`: its last node. */
  function LastField(r: ShellRecord): Option<int> {
    if |r.nodes| == 0 then None else Some(r.nodes[|r.nodes| - 1])
  }

  /** The first of the records at `c` is stored, and the rest are at `c + 1`. */
  lemma RecordsAtHead(elements: OMap<int, seq<int>>, lines: seq<string>, c: nat, forms: seq<FieldSpec>,
                      last: Option<int>, rs: seq<ShellRecord>)
    requires EightColumns(forms) && RecordsAt(lines, c, rs) && |rs| > 0
    ensures SolidLines(elements, lines, c, forms, |forms|, last)
            == SolidLines(Stored(elements, rs[0]), lines, c + 1, forms, |forms|, LastField(rs[0]))
    ensures RecordsAt(lines, c + 1, rs[1..])
  {
    RecordStep(elements, lines, c, forms, last, rs[0]);
  }

  /** Each line from `c` on stores one of `rs` and hands the SOLID loop on to the next line. */
  predicate SolidSteps(elements: OMap<int, seq<int>>, lines: seq<string>, c: nat, forms: seq<FieldSpec>,
                       last: Option<int>, rs: seq<ShellRecord>)
    decreases |rs|
  {
    |rs| == 0 ||
    (SolidLines(elements, lines, c, forms, |forms|, last)
       == SolidLines(Stored(elements, rs[0]), lines, c + 1, forms, |forms|, LastField(rs[0])) &&
     SolidSteps(Stored(elements, rs[0]), lines, c + 1, forms, LastField(rs[0]), rs[1..]))
  }

  /** Written record lines are steps of the SOLID loop. */
  lemma {:induction false} RecordsSteps(elements: OMap<int, seq<int>>, lines: seq<string>, c: nat, forms: seq<FieldSpec>,
                                        last: Option<int>, rs: seq<ShellRecord>)
    requires EightColumns(forms) && RecordsAt(lines, c, rs)
    ensures SolidSteps(elements, lines, c, forms, last, rs)
    decreases |rs|
  {
    if |rs| > 0 {
      RecordsAtHead(elements, lines, c, forms, last, rs);
      RecordsSteps(Stored(elements, rs[0]), lines, c + 1, forms, LastField(rs[0]), rs[1..]);
    }
  }

  /** The first step of a run hands the SOLID loop on to the rest of the run. */
  lemma StepsCons(elements: OMap<int, seq<int>>, lines: seq<string>, c: nat, forms: seq<FieldSpec>,
                  last: Option<int>, rs: seq<ShellRecord>)
    requires |rs| > 0 && SolidSteps(elements, lines, c, forms, last, rs)
    ensures SolidLines(elements, lines, c, forms, |forms|, last)
            == SolidLines(Stored(elements, rs[0]), lines, c + 1, forms, |forms|, LastField(rs[0]))
    ensures SolidSteps(Stored(elements, rs[0]), lines, c + 1, forms, LastField(rs[0]), rs[1..])
  {
  }

  lemma StoreRecordsCons(elements: OMap<int, seq<int>>, rs: seq<ShellRecord>)
    requires |rs| > 0
    ensures StoreRecords(elements, rs) == StoreRecords(Stored(elements, rs[0]), rs[1..])
  {
  }

  /** A run of steps closed by a `-1` line stores every record and goes on after the `-1`. */
  lemma {:induction false} StepsReadBack(elements: OMap<int, seq<int>>, lines: seq<string>, c: nat, e: nat,
                                         forms: seq<FieldSpec>, last: Option<int>, rs: seq<ShellRecord>)
    requires SolidSteps(elements, lines, c, forms, last, rs)
    requires e == c + |rs| && e < |lines| && EndsElementBlock(lines[e])
    ensures SolidLines(elements, lines, c, forms, |forms|, last) == Ok((StoreRecords(elements, rs), Next(lines, e)))
    decreases |rs|
  {
    if |rs| == 0 {
      SolidLinesAtEnd(elements, lines, c, forms, |forms|, last);
    } else {
      var stored, field := Stored(elements, rs[0]), LastField(rs[0]);
      StepsCons(elements, lines, c, forms, last, rs);
      StepsReadBack(stored, lines, c + 1, e, forms, field, rs[1..]);
      StoreRecordsCons(elements, rs);
    }
  }

  /**
   * The SOLID records of a written element block, from line `c` up to the
   * closing `-1` on line `e`, are stored one after the other, and reading
   * goes on after the `-1`.
   */
  lemma SolidLinesReadBack(elements: OMap<int, seq<int>>, lines: seq<string>, c: nat, e: nat,
                           forms: seq<FieldSpec>, last: Option<int>, rs: seq<ShellRecord>)
    requires EightColumns(forms) && RecordsAt(lines, c, rs)
    requires e == c + |rs| && e < |lines| && EndsElementBlock(lines[e])
    ensures SolidLines(elements, lines, c, forms, |forms|, last) == Ok((StoreRecords(elements, rs), Next(lines, e)))
  {
    RecordsSteps(elements, lines, c, forms, last, rs);
    StepsReadBack(elements, lines, c, e, forms, last, rs);
  }

  /** The words of the written `EBLOCK` command. */
  lemma SplitElementCommand(x: string)
    ensures Split(ElementBlockPrefix + x, ',') == ["EBLOCK", "19", "SOLID"] + Split(x, ',')
  {
    assert ElementBlockPrefix + x == "EBLOCK" + [','] + ("19" + [','] + ("SOLID" + [','] + x));
    SplitPrefix("SOLID", x, ',');
    SplitPrefix("19", "SOLID" + [','] + x, ',');
    SplitPrefix("EBLOCK", "19" + [','] + ("SOLID" + [','] + x), ',');
  }

  lemma CommandWords()
    ensures Lower(Strip("EBLOCK")) == "eblock"
    ensures Lower(Strip("19")) == "19" && ParseInt("19") == Some(19)
    ensures Lower(Strip("SOLID")) == "solid"
  {
    StripWord("EBLOCK");
    StripWord("19");
    StripWord("SOLID");
    ParseDigits("19");
    assert DigitsValue("19") == 19 by { assert "19"[..1] == "1"; }
  }

  /** `"EBLOCK,19,SOLID,<count>"` asks for 19 fields of SOLID records. */
  lemma ElementCommandTokens(count: int)
    ensures var tokens := Tokenize(ElementBlockCommand(count));
      |tokens| >= 3 && tokens[0] == "eblock" && ParseInt(tokens[1]) == Some(19) && tokens[2] == "solid"
  {
    var x := IntToStr(count) + Newline;
    Assoc(ElementBlockPrefix, IntToStr(count), Newline);
    SplitElementCommand(x);
    CommandWords();
  }

  /** A SOLID `EBLOCK` whose records are all read stores them and goes on where they end. */
  lemma EBlockSolid<C>(t: Tables<C>, tokens: seq<string>, lines: seq<string>, c: nat,
                       elements: OMap<int, seq<int>>, c': nat)
    requires |tokens| >= 3 && tokens[2] == "solid"
    requires c < |lines| && EightColumns(FormatOf(lines[c])) && ParseInt(tokens[1]) == Some(|FormatOf(lines[c])|)
    requires SolidLines(t.elements, lines, c + 1, FormatOf(lines[c]), |FormatOf(lines[c])|, None) == Ok((elements, c'))
    ensures EBlock(t, tokens, lines, c) == Ok((t.(elements := elements), c'))
  {
  }

  /**
   * The element block round trip: the reader, given the tokens of a written
   * `EBLOCK` command, the `(19i8)` line at `c`, the record lines and the
   * closing `-1` at `e`, stores every record's element and goes on after
   * the `-1`.
   */
  lemma ElementBlockReadBack<C>(t: Tables<C>, count: int, lines: seq<string>, c: nat, e: nat, rs: seq<ShellRecord>)
    requires c < |lines| && lines[c] == ElementFormatLine && RecordsAt(lines, c + 1, rs)
    requires e == c + 1 + |rs| && e < |lines| && lines[e] == ElementBlockEnd
    ensures EBlock(t, Tokenize(ElementBlockCommand(count)), lines, c)
            == Ok((t.(elements := StoreRecords(t.elements, rs)), Next(lines, e)))
  {
    ElementCommandTokens(count);
    ElementFormat();
    BlockEnds();
    SolidLinesReadBack(t.elements, lines, c + 1, e, FormatOf(lines[c]), None, rs);
    EBlockSolid(t, Tokenize(ElementBlockCommand(count)), lines, c, StoreRecords(t.elements, rs), Next(lines, e));
  }

  // ----- the node block -----

  /** What the reader makes of a written point: `float()` of each written coordinate, or `zero`. */
  function Reread<C>(p: Point<C>, formatCoord: C -> string, parseFloat: string -> Option<C>, zero: C): Point<C> {
    Point(parseFloat(formatCoord(p.x)).GetOr(zero), parseFloat(formatCoord(p.y)).GetOr(zero),
          parseFloat(formatCoord(p.z)).GetOr(zero))
  }

  function RereadAll<C>(nodes: map<int, Point<C>>, formatCoord: C -> string,
                        parseFloat: string -> Option<C>, zero: C): map<int, Point<C>> {
    map id | id in nodes :: Reread(nodes[id], formatCoord, parseFloat, zero)
  }

  /** Node numbers and coordinates that fit their columns. */
  predicate NodesFit<C>(nodes: map<int, Point<C>>, formatCoord: C -> string) {
    forall id :: id in nodes ==>
      Fits8(id) && |formatCoord(nodes[id].x)| == 16 && |formatCoord(nodes[id].y)| == 16 && |formatCoord(nodes[id].z)| == 16
  }

  /**
   * Node lines that define distinct numbers `keys[k]` with points `pts[keys[k]]`
   * give exactly those nodes over whatever was there before.
   */
  lemma StoreAllDistinct<C>(base: map<int, Point<C>>, data: seq<string>, cols: NodeColumns, keys: seq<int>,
                            pts: map<int, Point<C>>, parseFloat: string -> Option<C>, zero: C)
    requires |data| == |keys| && (forall i, j :: 0 <= i < j < |keys| ==> keys[i] != keys[j])
    requires pts.Keys == set k | 0 <= k < |keys| :: keys[k]
    requires forall k :: 0 <= k < |data| ==>
      NodeNumber(data[k], cols) == Some(keys[k]) && NodePoint(data[k], cols, parseFloat, zero) == pts[keys[k]]
    ensures StoreAll(base, data, cols, parseFloat, zero) == base + pts
  {
    var got := StoreAll(base, data, cols, parseFloat, zero);
    var want := base + pts;
    forall id
      ensures id in got <==> id in want
      ensures id in got ==> got[id] == want[id]
    {
      StoreAllKeys(base, data, cols, parseFloat, zero, id);
      if id in pts {
        var j :| 0 <= j < |keys| && keys[j] == id;
        assert Defines(data[j], cols, id);
        StoreAllLast(base, data, cols, parseFloat, zero, id, j);
      } else {
        forall j | 0 <= j < |data|
          ensures !Defines(data[j], cols, id)
        {
          assert keys[j] in pts;
        }
        StoreAllOthers(base, data, cols, parseFloat, zero, id);
      }
    }
  }

  /** The written node lines are node data and read back as the written nodes with reread points. */
  lemma NodeLinesReadBack<C>(data: seq<string>, nodes: OMap<int, Point<C>>, formatCoord: C -> string,
                             parseFloat: string -> Option<C>, zero: C)
    requires nodes.Valid() && NodesFit(nodes.values, formatCoord)
    requires |data| == |nodes.keys|
    requires forall k :: 0 <= k < |data| ==>
      nodes.keys[k] in nodes.values && data[k] == NodeLine(nodes.keys[k], nodes.values[nodes.keys[k]], formatCoord)
    ensures forall k :: 0 <= k < |data| ==> NodeData(data[k])
    ensures forall k :: 0 <= k < |data| ==>
      && NodeNumber(data[k], NodeCols()) == Some(nodes.keys[k])
      && NodePoint(data[k], NodeCols(), parseFloat, zero)
         == RereadAll(nodes.values, formatCoord, parseFloat, zero)[nodes.keys[k]]
  {
    forall k | 0 <= k < |data|
      ensures NodeData(data[k])
      ensures NodeNumber(data[k], NodeCols()) == Some(nodes.keys[k])
      ensures NodePoint(data[k], NodeCols(), parseFloat, zero)
              == RereadAll(nodes.values, formatCoord, parseFloat, zero)[nodes.keys[k]]
    {
      var id := nodes.keys[k];
      NodeLineReadBack(id, nodes.values[id], formatCoord, parseFloat, zero);
    }
  }

  /** A node data run followed by an end line stores the run's nodes over the old ones. */
  lemma NodeDataReadBack<C>(base: map<int, Point<C>>, data: seq<string>, nodes: OMap<int, Point<C>>,
                            formatCoord: C -> string, parseFloat: string -> Option<C>, zero: C)
    requires nodes.Valid() && NodesFit(nodes.values, formatCoord)
    requires |data| == |nodes.keys|
    requires forall k :: 0 <= k < |data| ==>
      nodes.keys[k] in nodes.values && data[k] == NodeLine(nodes.keys[k], nodes.values[nodes.keys[k]], formatCoord)
    ensures forall k :: 0 <= k < |data| ==> NodeData(data[k])
    ensures StoreAll(base, data, NodeCols(), parseFloat, zero) == base + RereadAll(nodes.values, formatCoord, parseFloat, zero)
  {
    NodeLinesReadBack(data, nodes, formatCoord, parseFloat, zero);
    StoreAllDistinct(base, data, NodeCols(), nodes.keys, RereadAll(nodes.values, formatCoord, parseFloat, zero),
                     parseFloat, zero);
  }

  /** An `NBLOCK` whose node lines are all read stores them and goes on where they end. */
  lemma NBlockOf<C>(t: Tables<C>, lines: seq<string>, c: nat, parseFloat: string -> Option<C>, zero: C,
                    cols: NodeColumns, nodes: map<int, Point<C>>, c': nat)
    requires c < |lines| && |FormatOf(lines[c])| >= 6 && NodeColumnsOf(FormatOf(lines[c])) == cols
    requires CdbBlocks.NodeLines(t.nodes, lines, c + 1, cols, parseFloat, zero) == Ok((nodes, c'))
    ensures NBlock(t, lines, c, parseFloat, zero) == Ok((t.(nodes := nodes), c'))
  {
  }

  /** Node data lines up to an end line `e` are stored in order, and reading goes on after `e`. */
  lemma NodeLinesToEnd<C>(nodes: map<int, Point<C>>, lines: seq<string>, c: nat, e: nat, cols: NodeColumns,
                          parseFloat: string -> Option<C>, zero: C)
    requires c <= e < |lines|
    requires forall j :: c <= j < e ==> NodeData(lines[j])
    requires EndsNodeBlock(lines[e])
    ensures CdbBlocks.NodeLines(nodes, lines, c, cols, parseFloat, zero)
            == Ok((StoreAll(nodes, lines[c..e], cols, parseFloat, zero), Next(lines, e)))
  {
    NodeBlockRun(nodes, lines, c, e, cols, parseFloat, zero);
  }

  /** Lines `c`, `c + 1`, ... hold the node lines of `keys`, in that order. */
  predicate NodeLinesAt<C>(lines: seq<string>, c: nat, keys: seq<int>, values: map<int, Point<C>>,
                           formatCoord: C -> string)
    decreases |keys|
  {
    |keys| == 0 ||
    (c < |lines| && keys[0] in values && lines[c] == NodeLine(keys[0], values[keys[0]], formatCoord)
     && NodeLinesAt(lines, c + 1, keys[1..], values, formatCoord))
  }

  lemma {:induction false} NodeLinesAtEach<C>(lines: seq<string>, c: nat, keys: seq<int>, values: map<int, Point<C>>,
                                              formatCoord: C -> string)
    requires NodeLinesAt(lines, c, keys, values, formatCoord)
    ensures forall k :: 0 <= k < |keys| ==>
      keys[k] in values && c + k < |lines| && lines[c + k] == NodeLine(keys[k], values[keys[k]], formatCoord)
    decreases |keys|
  {
    if |keys| > 0 {
      NodeLinesAtEach(lines, c + 1, keys[1..], values, formatCoord);
      forall k | 0 < k < |keys|
        ensures keys[k] in values && c + k < |lines| && lines[c + k] == NodeLine(keys[k], values[keys[k]], formatCoord)
      {
        assert keys[k] == keys[1..][k - 1];
      }
    }
  }

  /** The written node lines from `c` to `e` are node data and store the written nodes with reread points. */
  lemma NodeRunData<C>(base: map<int, Point<C>>, lines: seq<string>, c: nat, e: nat, nodes: OMap<int, Point<C>>,
                       formatCoord: C -> string, parseFloat: string -> Option<C>, zero: C)
    requires nodes.Valid() && NodesFit(nodes.values, formatCoord)
    requires e == c + |nodes.keys| && e <= |lines|
    requires NodeLinesAt(lines, c, nodes.keys, nodes.values, formatCoord)
    ensures forall j :: c <= j < e ==> NodeData(lines[j])
    ensures StoreAll(base, lines[c..e], NodeCols(), parseFloat, zero)
            == base + RereadAll(nodes.values, formatCoord, parseFloat, zero)
  {
    NodeLinesAtEach(lines, c, nodes.keys, nodes.values, formatCoord);
    var data := lines[c..e];
    assert forall k :: 0 <= k < |data| ==> data[k] == lines[c + k];
    NodeDataReadBack(base, data, nodes, formatCoord, parseFloat, zero);
    forall j | c <= j < e
      ensures NodeData(lines[j])
    {
      assert lines[j] == data[j - c];
    }
  }

  /** The written node lines up to the closing `N` line at `e` are read back as the written nodes. */
  lemma NodeRunReadBack<C>(base: map<int, Point<C>>, lines: seq<string>, c: nat, e: nat, nodes: OMap<int, Point<C>>,
                           formatCoord: C -> string, parseFloat: string -> Option<C>, zero: C)
    requires nodes.Valid() && NodesFit(nodes.values, formatCoord)
    requires e == c + |nodes.keys| && e < |lines|
    requires NodeLinesAt(lines, c, nodes.keys, nodes.values, formatCoord)
    requires lines[e] == NodeBlockEnd
    ensures CdbBlocks.NodeLines(base, lines, c, NodeCols(), parseFloat, zero)
            == Ok((base + RereadAll(nodes.values, formatCoord, parseFloat, zero), Next(lines, e)))
  {
    NodeRunData(base, lines, c, e, nodes, formatCoord, parseFloat, zero);
    BlockEnds();
    NodeLinesToEnd(base, lines, c, e, NodeCols(), parseFloat, zero);
  }

  /**
   * The node block round trip: after the written `NBLOCK` command the reader
   * takes the `(3i8,6g16.9)` line at `c`, the node lines and the closing `N`
   * command at `e`, adds every written node with its reread point, and goes
   * on after the `N` line.
   */
  lemma NodeBlockReadBack<C>(t: Tables<C>, lines: seq<string>, c: nat, e: nat, nodes: OMap<int, Point<C>>,
                             formatCoord: C -> string, parseFloat: string -> Option<C>, zero: C)
    requires nodes.Valid() && NodesFit(nodes.values, formatCoord)
    requires e == c + 1 + |nodes.keys| && e < |lines| && lines[c] == NodeFormatLine
    requires NodeLinesAt(lines, c + 1, nodes.keys, nodes.values, formatCoord)
    requires lines[e] == NodeBlockEnd
    ensures NBlock(t, lines, c, parseFloat, zero)
            == Ok((t.(nodes := t.nodes + RereadAll(nodes.values, formatCoord, parseFloat, zero)), Next(lines, e)))
  {
    NodeFormat();
    assert |FormatOf(lines[c])| >= 6 && NodeColumnsOf(FormatOf(lines[c])) == NodeCols();
    var stored := t.nodes + RereadAll(nodes.values, formatCoord, parseFloat, zero);
    NodeRunReadBack(t.nodes, lines, c + 1, e, nodes, formatCoord, parseFloat, zero);
    NBlockOf(t, lines, c, parseFloat, zero, NodeCols(), stored, Next(lines, e));
  }
}
