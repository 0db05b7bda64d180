/**
 * The two block commands of the CDB reader (import_cdb.py:208-372):
 * `NBLOCK`, a format line followed by fixed-column node lines, and `EBLOCK`,
 * a format line followed by fixed-column element records.  Both read further
 * lines of the input; `lines` is what `readline()` returns line by line
 * (each with its "\n"), and `cursor` is the index of the next one.
 */
module CdbBlocks {
  import opened Wrappers
  import opened PyText
  import opened OrderedMaps
  import opened Faults
  import opened CdbFormat
  import opened CdbCommands

  /** `filehandle.readline()`: the next line, or "" past the end of the input. */
  function LineAt(lines: seq<string>, cursor: nat): string {
    if cursor < |lines| then lines[cursor] else ""
  }

  /** The cursor after one `readline()`: it does not move past the end. */
  function Next(lines: seq<string>, cursor: nat): nat {
    if cursor < |lines| then cursor + 1 else cursor
  }

  /** Where field `j` of a format starts: the sum of the widths before it. */
  function Offset(forms: seq<FieldSpec>, j: nat): nat
    requires j <= |forms|
  {
    if j == 0 then 0 else Offset(forms, j - 1) + forms[j - 1].width
  }

  /** The text of field `j` of a fixed-column line. */
  function Column(line: string, forms: seq<FieldSpec>, j: nat): string
    requires j < |forms|
  {
    Slice(line, Offset(forms, j), Offset(forms, j + 1))
  }

  // ----- NBLOCK -----

  /** The columns of a node line: the node number, then x, y and z after two skipped fields. */
  datatype NodeColumns = NodeColumns(idEnd: nat, x: nat, y: nat, z: nat, zEnd: nat)

  function NodeColumnsOf(forms: seq<FieldSpec>): (cols: NodeColumns)
    requires |forms| >= 6
    ensures cols.idEnd == Offset(forms, 1) && cols.x == Offset(forms, 3)
    ensures cols.y == Offset(forms, 4) && cols.z == Offset(forms, 5) && cols.zEnd == Offset(forms, 6)
  {
    var x := forms[0].width + forms[1].width + forms[2].width;
    NodeColumns(forms[0].width, x, x + forms[3].width, x + forms[3].width + forms[4].width,
                x + forms[3].width + forms[4].width + forms[5].width)
  }

  /** A line on which the node block ends: end of input, or a line starting with `n` or `N` (the closing `N` command). */
  predicate EndsNodeBlock(line: string) {
    |line| == 0 || (|Strip(line)| > 0 && LowerChar(Strip(line)[0]) == 'n')
  }

  /** A line the node block reads as node data: neither blank nor an end. */
  predicate NodeData(line: string) {
    |line| > 0 && |Strip(line)| > 0 && LowerChar(Strip(line)[0]) != 'n'
  }

  /** The node number of a node line, if its first column parses. */
  function NodeNumber(line: string, cols: NodeColumns): Option<int> {
    ParseInt(Slice(line, 0, cols.idEnd))
  }

  /** The coordinates of a node line; a column that does not parse reads as `zero`. */
  function NodePoint<C>(line: string, cols: NodeColumns, parseFloat: string -> Option<C>, zero: C): Point<C> {
    Point(parseFloat(Slice(line, cols.x, cols.y)).GetOr(zero),
          parseFloat(Slice(line, cols.y, cols.z)).GetOr(zero),
          parseFloat(Slice(line, cols.z, cols.zEnd)).GetOr(zero))
  }

  /** One node line: a line whose number does not parse is skipped; otherwise the node is (re)defined. */
  function StoreNode<C>(nodes: map<int, Point<C>>, line: string, cols: NodeColumns,
                        parseFloat: string -> Option<C>, zero: C): map<int, Point<C>> {
    match NodeNumber(line, cols)
    case None => nodes
    case Some(id) => nodes[id := NodePoint(line, cols, parseFloat, zero)]
  }

  /** The node lines from `cursor` on, up to the end of the block. */
  function NodeLines<C>(nodes: map<int, Point<C>>, lines: seq<string>, cursor: nat, cols: NodeColumns,
                        parseFloat: string -> Option<C>, zero: C): Outcome<(map<int, Point<C>>, nat)>
    decreases |lines| - cursor
  {
    var line := LineAt(lines, cursor);
    var next := Next(lines, cursor);
    if |line| == 0 then Ok((nodes, next))
    else if |Strip(line)| == 0 then Failed(BlankLineInNodeBlock)
    else if LowerChar(Strip(line)[0]) == 'n' then Ok((nodes, next))
    else NodeLines(StoreNode(nodes, line, cols, parseFloat, zero), lines, next, cols, parseFloat, zero)
  }

  /** `readNBLOCK`: the format line, then the node lines; a format with fewer than six fields ends the command. */
  function NBlock<C>(t: Tables<C>, lines: seq<string>, cursor: nat,
                     parseFloat: string -> Option<C>, zero: C): Outcome<(Tables<C>, nat)> {
    var forms := FormatOf(LineAt(lines, cursor));
    var next := Next(lines, cursor);
    if |forms| < 6 then Ok((t, next))
    else
      match NodeLines(t.nodes, lines, next, NodeColumnsOf(forms), parseFloat, zero)
      case Failed(f) => Failed(f)
      case Ok((nodes, c)) => Ok((t.(nodes := nodes), c))
  }

  /** Reference definition: the node lines of a block applied one after another. */
  function StoreAll<C>(nodes: map<int, Point<C>>, data: seq<string>, cols: NodeColumns,
                       parseFloat: string -> Option<C>, zero: C): map<int, Point<C>>
    decreases |data|
  {
    if |data| == 0 then nodes
    else StoreAll(StoreNode(nodes, data[0], cols, parseFloat, zero), data[1..], cols, parseFloat, zero)
  }

  /** A run of node data lines is applied in order, and the block goes on after it. */
  lemma {:induction false} NodeLinesRun<C>(nodes: map<int, Point<C>>, lines: seq<string>, c: nat, k: nat,
                                           cols: NodeColumns, parseFloat: string -> Option<C>, zero: C)
    requires c <= k <= |lines|
    requires forall j :: c <= j < k ==> NodeData(lines[j])
    ensures NodeLines(nodes, lines, c, cols, parseFloat, zero)
         == NodeLines(StoreAll(nodes, lines[c..k], cols, parseFloat, zero), lines, k, cols, parseFloat, zero)
    decreases k - c
  {
    if c < k {
      var nodes' := StoreNode(nodes, lines[c], cols, parseFloat, zero);
      NodeLinesRun(nodes', lines, c + 1, k, cols, parseFloat, zero);
      assert lines[c..k][1..] == lines[c + 1..k];
    }
  }

  /**
   * A block of node data lines from `c` to `k` ends at line `k`: with the
   * lines applied in order and the cursor after line `k` if that line ends
   * the block, with a fault if it is blank.
   */
  lemma NodeBlockRun<C>(nodes: map<int, Point<C>>, lines: seq<string>, c: nat, k: nat,
                        cols: NodeColumns, parseFloat: string -> Option<C>, zero: C)
    requires c <= k <= |lines|
    requires forall j :: c <= j < k ==> NodeData(lines[j])
    ensures EndsNodeBlock(LineAt(lines, k)) ==>
      NodeLines(nodes, lines, c, cols, parseFloat, zero)
        == Ok((StoreAll(nodes, lines[c..k], cols, parseFloat, zero), Next(lines, k)))
    ensures !EndsNodeBlock(LineAt(lines, k)) && !NodeData(LineAt(lines, k)) ==>
      NodeLines(nodes, lines, c, cols, parseFloat, zero) == Failed(BlankLineInNodeBlock)
  {
    NodeLinesRun(nodes, lines, c, k, cols, parseFloat, zero);
  }

  /** The lines of a block that define node `id`. */
  predicate Defines(line: string, cols: NodeColumns, id: int) {
    NodeNumber(line, cols) == Some(id)
  }

  /** A node no line defines keeps what it had before the block. */
  lemma {:induction false} StoreAllOthers<C>(nodes: map<int, Point<C>>, data: seq<string>, cols: NodeColumns,
                                             parseFloat: string -> Option<C>, zero: C, id: int)
    requires forall j :: 0 <= j < |data| ==> !Defines(data[j], cols, id)
    ensures id in StoreAll(nodes, data, cols, parseFloat, zero) <==> id in nodes
    ensures id in nodes ==> StoreAll(nodes, data, cols, parseFloat, zero)[id] == nodes[id]
    decreases |data|
  {
    if |data| > 0 {
      var nodes' := StoreNode(nodes, data[0], cols, parseFloat, zero);
      assert !Defines(data[0], cols, id);
      StoreAllOthers(nodes', data[1..], cols, parseFloat, zero, id);
    }
  }

  /** The last line of a block that defines a node decides its coordinates: later lines overwrite earlier ones. */
  lemma {:induction false} StoreAllLast<C>(nodes: map<int, Point<C>>, data: seq<string>, cols: NodeColumns,
                                           parseFloat: string -> Option<C>, zero: C, id: int, j: nat)
    requires j < |data| && Defines(data[j], cols, id)
    requires forall i :: j < i < |data| ==> !Defines(data[i], cols, id)
    ensures id in StoreAll(nodes, data, cols, parseFloat, zero)
    ensures StoreAll(nodes, data, cols, parseFloat, zero)[id] == NodePoint(data[j], cols, parseFloat, zero)
    decreases |data|
  {
    var nodes' := StoreNode(nodes, data[0], cols, parseFloat, zero);
    if j == 0 {
      assert nodes'[id] == NodePoint(data[0], cols, parseFloat, zero);
      StoreAllOthers(nodes', data[1..], cols, parseFloat, zero, id);
    } else {
      StoreAllLast(nodes', data[1..], cols, parseFloat, zero, id, j - 1);
    }
  }

  /** The nodes a block defines are those before it plus the numbers its lines parse to. */
  lemma {:induction false} StoreAllKeys<C>(nodes: map<int, Point<C>>, data: seq<string>, cols: NodeColumns,
                                           parseFloat: string -> Option<C>, zero: C, id: int)
    ensures id in StoreAll(nodes, data, cols, parseFloat, zero)
        <==> id in nodes || exists j :: 0 <= j < |data| && Defines(data[j], cols, id)
    decreases |data|
  {
    if |data| > 0 {
      var nodes' := StoreNode(nodes, data[0], cols, parseFloat, zero);
      StoreAllKeys(nodes', data[1..], cols, parseFloat, zero, id);
      if exists j :: 0 <= j < |data| && Defines(data[j], cols, id) {
        var j :| 0 <= j < |data| && Defines(data[j], cols, id);
        if j > 0 {
          assert Defines(data[1..][j - 1], cols, id);
        }
      }
      if exists j :: 0 <= j < |data[1..]| && Defines(data[1..][j], cols, id) {
        var j :| 0 <= j < |data[1..]| && Defines(data[1..][j], cols, id);
        assert Defines(data[j + 1], cols, id);
      }
    }
  }

  /** NBLOCK changes the node table only, and never moves the cursor back. */
  lemma NBlockOnlyNodes<C>(t: Tables<C>, lines: seq<string>, cursor: nat,
                           parseFloat: string -> Option<C>, zero: C)
    requires NBlock(t, lines, cursor, parseFloat, zero).Ok?
    ensures NBlock(t, lines, cursor, parseFloat, zero).value.0 == t.(nodes := NBlock(t, lines, cursor, parseFloat, zero).value.0.nodes)
    ensures NBlock(t, lines, cursor, parseFloat, zero).value.1 > cursor || cursor >= |lines|
  {
    var forms := FormatOf(LineAt(lines, cursor));
    if |forms| >= 6 {
      NodeLinesAdvance(t.nodes, lines, Next(lines, cursor), NodeColumnsOf(forms), parseFloat, zero);
    }
  }

  lemma {:induction false} NodeLinesAdvance<C>(nodes: map<int, Point<C>>, lines: seq<string>, cursor: nat,
                                               cols: NodeColumns, parseFloat: string -> Option<C>, zero: C)
    requires NodeLines(nodes, lines, cursor, cols, parseFloat, zero).Ok?
    ensures NodeLines(nodes, lines, cursor, cols, parseFloat, zero).value.1 >= cursor
    decreases |lines| - cursor
  {
    var line := LineAt(lines, cursor);
    if NodeData(line) {
      NodeLinesAdvance(StoreNode(nodes, line, cols, parseFloat, zero), lines, Next(lines, cursor), cols, parseFloat, zero);
    }
  }

  // ----- EBLOCK -----

  /** A line on which the element block ends: its stripped text starts with `-` (the closing `-1`). */
  predicate EndsElementBlock(line: string) {
    |Strip(line)| > 0 && Strip(line)[0] == '-'
  }

  /** What one element record does to the block. */
  datatype Record = Stop | Raise(fault: Fault) | Store(number: int, data: seq<int>)

  /** `fields[k:]` on a list of integers. */
  function Tail(fields: seq<int>, k: nat): seq<int> {
    if k <= |fields| then fields[k..] else []
  }

  /**
   * The SOLID field loop after `i` fields: the fields so far, where the next
   * field starts, and the variable `field`.  A field past the end of the
   * format or one whose column does not parse repeats the value `field`
   * still holds (`last` at the start, carried from the previous record);
   * None is the unbound `field` of the first record.
   */
  datatype Scanned = Scanned(fields: seq<int>, start: nat, field: Option<int>)

  /**
   * One field of the SOLID loop: `end` moves on only while the format has a
   * field `j`, and a column that does not parse leaves `field` as it was.
   */
  function SolidStep(line: string, forms: seq<FieldSpec>, j: nat, s: Scanned): Option<Scanned> {
    var end := if j < |forms| then s.start + forms[j].width else s.start;
    var parsed := if j < |forms| then ParseInt(Slice(line, s.start, end)) else None;
    var field := if parsed.Some? then parsed else s.field;
    if field.None? then None else Some(Scanned(s.fields + [field.value], end, field))
  }

  function SolidScan(line: string, forms: seq<FieldSpec>, i: nat, last: Option<int>): Option<Scanned>
    decreases i
  {
    if i == 0 then Some(Scanned([], 0, last))
    else
      match SolidScan(line, forms, i - 1, last)
      case None => None
      case Some(s) => SolidStep(line, forms, i - 1, s)
  }

  /** Field `j` of a SOLID record reads its column if it parses, and otherwise repeats `prev`. */
  predicate FieldRead(line: string, forms: seq<FieldSpec>, j: nat, prev: Option<int>, v: int) {
    if j < |forms| && ParseInt(Column(line, forms, j)).Some? then Some(v) == ParseInt(Column(line, forms, j))
    else prev == Some(v)
  }

  function Min(a: nat, b: nat): nat {
    if a <= b then a else b
  }

  /** The SOLID field loop reads column after column, and a column that fails repeats the field before it. */
  lemma {:induction false} SolidScanSpec(line: string, forms: seq<FieldSpec>, i: nat, last: Option<int>)
    ensures SolidScan(line, forms, i, last).None? ==> last.None?
    ensures SolidScan(line, forms, i, last).Some? ==>
      var s := SolidScan(line, forms, i, last).value;
      && |s.fields| == i
      && s.start == Offset(forms, Min(i, |forms|))
      && s.field == (if i == 0 then last else Some(s.fields[i - 1]))
      && (i > 0 ==> FieldRead(line, forms, 0, last, s.fields[0]))
      && (forall j :: 0 < j < i ==> FieldRead(line, forms, j, Some(s.fields[j - 1]), s.fields[j]))
  {
    if i > 0 {
      SolidScanSpec(line, forms, i - 1, last);
      var r := SolidScan(line, forms, i - 1, last);
      if r.Some? {
        SolidStepColumn(line, forms, i - 1, r.value);
      }
    }
  }

  /** A SOLID field read where the loop stands reads the field's column, or repeats `field`. */
  lemma SolidStepColumn(line: string, forms: seq<FieldSpec>, j: nat, s: Scanned)
    requires s.start == Offset(forms, Min(j, |forms|))
    ensures SolidStep(line, forms, j, s).None? ==> s.field.None?
    ensures SolidStep(line, forms, j, s).Some? ==>
      var s' := SolidStep(line, forms, j, s).value;
      && |s'.fields| == |s.fields| + 1 && s'.fields[..|s.fields|] == s.fields
      && s'.start == Offset(forms, Min(j + 1, |forms|))
      && s'.field == Some(s'.fields[|s.fields|])
      && FieldRead(line, forms, j, s.field, s'.fields[|s.fields|])
  {
    if j < |forms| {
      assert Column(line, forms, j) == Slice(line, s.start, s.start + forms[j].width);
    }
  }

  /**
   * One SOLID record (`isSOLID` branch, 317-350): fewer than eight fields end
   * the block; exactly eight crash on `fields[8]`; a node count that the
   * first line does not hold loops for ever; fewer than eleven fields end the
   * block; otherwise field 11 is the element number and the element is
   * [mat, real, type] followed by fields 12 onwards.  The second component is
   * the value of `field` afterwards.
   */
  function SolidRecord(line: string, forms: seq<FieldSpec>, n: int, last: Option<int>): (Record, Option<int>) {
    var count: nat := if n < 0 then 0 else n;
    match SolidScan(line, forms, count, last)
    case None => (Raise(FieldUnbound), last)
    case Some(s) =>
      var fs := s.fields;
      var r :=
        if |fs| < 8 then Stop
        else if |fs| == 8 then Raise(NodeCountMissing)
        else if |fs| < fs[8] + 11 then Raise(ContinuationLoops)
        else if |fs| <= 10 then Stop
        else Store(fs[10], [fs[0], fs[2], fs[1]] + fs[11..]);
      (r, s.field)
  }

  /**
   * The SOLID records from `cursor` on.  At the end of the input the empty
   * line is parsed like any other; if it would be stored, the loop re-reads
   * the same empty line for ever.
   */
  function SolidLines(elements: OMap<int, seq<int>>, lines: seq<string>, cursor: nat, forms: seq<FieldSpec>,
                      n: int, last: Option<int>): Outcome<(OMap<int, seq<int>>, nat)>
    decreases |lines| - cursor
  {
    var line := LineAt(lines, cursor);
    var next := Next(lines, cursor);
    if EndsElementBlock(line) then Ok((elements, next))
    else
      var (r, field) := SolidRecord(line, forms, n, last);
      match r
      case Stop => Ok((elements, next))
      case Raise(f) => Failed(f)
      case Store(k, data) =>
        if cursor < |lines| then SolidLines(elements.Put(k, data), lines, next, forms, n, field)
        else Failed(EndOfInputLoops)
  }

  /**
   * One field of the non-SOLID loop: it must lie in the format and its
   * column must parse.  `start` runs along the columns, so the column read
   * here is `Column(line, forms, j)` (PlainScanStart).
   */
  function PlainStep(line: string, forms: seq<FieldSpec>, j: nat, fs: seq<int>, start: nat): Option<(seq<int>, nat)> {
    if j >= |forms| then None
    else
      match ParseInt(Slice(line, start, start + forms[j].width))
      case None => None
      case Some(v) => Some((fs + [v], start + forms[j].width))
  }

  /** The non-SOLID field loop after `i` fields: the fields and where the next one starts, or None once the block ends. */
  function PlainScan(line: string, forms: seq<FieldSpec>, i: nat): Option<(seq<int>, nat)>
    decreases i
  {
    if i == 0 then Some(([], 0))
    else
      match PlainScan(line, forms, i - 1)
      case None => None
      case Some(s) => PlainStep(line, forms, i - 1, s.0, s.1)
  }

  /** The non-SOLID field loop succeeds exactly when each of its columns lies in the format and parses. */
  lemma PlainScanSucceeds(line: string, forms: seq<FieldSpec>, i: nat)
    ensures PlainScan(line, forms, i).Some? <==>
      (i <= |forms| && forall j :: 0 <= j < i ==> ParseInt(Column(line, forms, j)).Some?)
  {
    if PlainScan(line, forms, i).Some? {
      PlainScanFields(line, forms, i);
    } else if i <= |forms| && forall j :: 0 <= j < i ==> ParseInt(Column(line, forms, j)).Some? {
      PlainScanParses(line, forms, i);
    }
  }

  lemma {:induction false} PlainScanParses(line: string, forms: seq<FieldSpec>, i: nat)
    requires i <= |forms|
    requires forall j :: 0 <= j < i ==> ParseInt(Column(line, forms, j)).Some?
    ensures PlainScan(line, forms, i).Some?
  {
    if i > 0 {
      PlainScanParses(line, forms, i - 1);
      var prev := PlainScan(line, forms, i - 1).value;
      PlainScanStart(line, forms, i - 1);
      PlainStepParses(line, forms, i - 1, prev.0, prev.1);
    }
  }

  /** A non-SOLID field read at the start of a column that parses succeeds. */
  lemma PlainStepParses(line: string, forms: seq<FieldSpec>, j: nat, fs: seq<int>, start: nat)
    requires j < |forms| && start == Offset(forms, j) && ParseInt(Column(line, forms, j)).Some?
    ensures PlainStep(line, forms, j, fs, start).Some?
  {
  }

  /** A successful non-SOLID field loop has read one field per column, and ends where the last column ends. */
  lemma {:induction false} PlainScanStart(line: string, forms: seq<FieldSpec>, i: nat)
    ensures PlainScan(line, forms, i).Some? ==>
      i <= |forms| && |PlainScan(line, forms, i).value.0| == i && PlainScan(line, forms, i).value.1 == Offset(forms, i)
  {
    if i > 0 {
      PlainScanStart(line, forms, i - 1);
    }
  }

  /** Each of `fs` is what its column of a fixed-column line parses to. */
  predicate ReadsColumns(line: string, forms: seq<FieldSpec>, fs: seq<int>) {
    |fs| <= |forms| && forall j :: 0 <= j < |fs| ==> ParseInt(Column(line, forms, j)) == Some(fs[j])
  }

  /** One non-SOLID field read at the start of its column extends the fields read from their columns. */
  lemma PlainStepReads(line: string, forms: seq<FieldSpec>, j: nat, fs: seq<int>, start: nat, out: (seq<int>, nat))
    requires ReadsColumns(line, forms, fs) && |fs| == j && start == Offset(forms, j)
    requires PlainStep(line, forms, j, fs, start) == Some(out)
    ensures ReadsColumns(line, forms, out.0) && |out.0| == j + 1 && out.1 == Offset(forms, j + 1)
  {
    var v := ParseInt(Column(line, forms, j)).value;
    assert out.0 == fs + [v];
    forall k | 0 <= k < |out.0|
      ensures ParseInt(Column(line, forms, k)) == Some(out.0[k])
    {
      if k < j {
        assert out.0[k] == fs[k];
      }
    }
  }

  /** A successful non-SOLID field loop reads each field from its column. */
  lemma {:induction false} PlainScanFields(line: string, forms: seq<FieldSpec>, i: nat)
    requires PlainScan(line, forms, i).Some?
    ensures |PlainScan(line, forms, i).value.0| == i
    ensures ReadsColumns(line, forms, PlainScan(line, forms, i).value.0)
  {
    if i > 0 {
      var prev := PlainScan(line, forms, i - 1).value;
      PlainScanFields(line, forms, i - 1);
      PlainScanStart(line, forms, i - 1);
      PlainStepReads(line, forms, i - 1, prev.0, prev.1, PlainScan(line, forms, i).value);
    }
  }

  /**
   * One non-SOLID record (351-368): the element number, type, real and
   * material are fields 1 to 4 and the nodes start at field 6; fewer than
   * four fields end the block.
   */
  function PlainRecord(line: string, forms: seq<FieldSpec>, n: int): Record {
    var count: nat := if n < 0 then 0 else n;
    match PlainScan(line, forms, count)
    case None => Stop
    case Some((fs, _)) =>
      if |fs| < 4 then Stop
      else Store(fs[0], [fs[3], fs[2], fs[1]] + Tail(fs, 5))
  }

  /** The non-SOLID records from `cursor` on. */
  function PlainLines(elements: OMap<int, seq<int>>, lines: seq<string>, cursor: nat, forms: seq<FieldSpec>,
                      n: int): Outcome<(OMap<int, seq<int>>, nat)>
    decreases |lines| - cursor
  {
    var line := LineAt(lines, cursor);
    var next := Next(lines, cursor);
    if EndsElementBlock(line) then Ok((elements, next))
    else
      match PlainRecord(line, forms, n)
      case Stop => Ok((elements, next))
      case Raise(f) => Failed(f)
      case Store(k, data) =>
        if cursor < |lines| then PlainLines(elements.Put(k, data), lines, next, forms, n)
        else Failed(EndOfInputLoops)
  }

  /** The records of an element block, SOLID or not; `last` is the SOLID loop's `field`. */
  function ElementLines(elements: OMap<int, seq<int>>, lines: seq<string>, cursor: nat, forms: seq<FieldSpec>,
                        n: int, solid: bool, last: Option<int>): Outcome<(OMap<int, seq<int>>, nat)> {
    if solid then SolidLines(elements, lines, cursor, forms, n, last) else PlainLines(elements, lines, cursor, forms, n)
  }

  /**
   * `readEBLOCK`: without a field count the command does nothing and reads no
   * further line; otherwise the format line follows, and a format too short
   * for the record kind ends the command.
   */
  function EBlock<C>(t: Tables<C>, tokens: seq<string>, lines: seq<string>, cursor: nat): Outcome<(Tables<C>, nat)> {
    if |tokens| < 3 then Ok((t, cursor))
    else
      match ParseInt(tokens[1])
      case None => Ok((t, cursor))
      case Some(n) =>
        var solid := tokens[2] == "solid";
        var forms := FormatOf(LineAt(lines, cursor));
        var next := Next(lines, cursor);
        if (solid && |forms| < 12) || |forms| < 6 then Ok((t, next))
        else
          match ElementLines(t.elements, lines, next, forms, n, solid, None)
          case Failed(f) => Failed(f)
          case Ok((elements, c)) => Ok((t.(elements := elements), c))
  }

  /** A non-SOLID block never stores the empty line of the end of input: at the end it stops. */
  lemma PlainAtEnd(forms: seq<FieldSpec>, n: int)
    ensures PlainRecord("", forms, n) == Stop
  {
    var count: nat := if n < 0 then 0 else n;
    PlainScanSucceeds("", forms, count);
    if count > 0 && 0 < |forms| {
      assert Column("", forms, 0) == "";
    }
  }

  /** The SOLID records keep the element table well formed and do not move the cursor back. */
  lemma {:induction false} SolidLinesValid(elements: OMap<int, seq<int>>, lines: seq<string>, cursor: nat,
                                           forms: seq<FieldSpec>, n: int, last: Option<int>)
    requires elements.Valid()
    requires SolidLines(elements, lines, cursor, forms, n, last).Ok?
    ensures SolidLines(elements, lines, cursor, forms, n, last).value.0.Valid()
    ensures SolidLines(elements, lines, cursor, forms, n, last).value.1 >= cursor
    decreases |lines| - cursor
  {
    var line := LineAt(lines, cursor);
    if !EndsElementBlock(line) {
      var (r, field) := SolidRecord(line, forms, n, last);
      if r.Store? && cursor < |lines| {
        SolidLinesValid(elements.Put(r.number, r.data), lines, Next(lines, cursor), forms, n, field);
      }
    }
  }

  /** The non-SOLID records keep the element table well formed and do not move the cursor back. */
  lemma {:induction false} PlainLinesValid(elements: OMap<int, seq<int>>, lines: seq<string>, cursor: nat,
                                           forms: seq<FieldSpec>, n: int)
    requires elements.Valid()
    requires PlainLines(elements, lines, cursor, forms, n).Ok?
    ensures PlainLines(elements, lines, cursor, forms, n).value.0.Valid()
    ensures PlainLines(elements, lines, cursor, forms, n).value.1 >= cursor
    decreases |lines| - cursor
  {
    var line := LineAt(lines, cursor);
    if !EndsElementBlock(line) {
      var r := PlainRecord(line, forms, n);
      if r.Store? && cursor < |lines| {
        PlainLinesValid(elements.Put(r.number, r.data), lines, Next(lines, cursor), forms, n);
      }
    }
  }

  /** EBLOCK changes the element table only, keeps it well formed, and never moves the cursor back. */
  lemma EBlockOnlyElements<C>(t: Tables<C>, tokens: seq<string>, lines: seq<string>, cursor: nat)
    requires t.Valid()
    requires EBlock(t, tokens, lines, cursor).Ok?
    ensures EBlock(t, tokens, lines, cursor).value.0 == t.(elements := EBlock(t, tokens, lines, cursor).value.0.elements)
    ensures EBlock(t, tokens, lines, cursor).value.0.Valid()
    ensures EBlock(t, tokens, lines, cursor).value.1 >= cursor
  {
    if |tokens| >= 3 && ParseInt(tokens[1]).Some? {
      var n := ParseInt(tokens[1]).value;
      var forms := FormatOf(LineAt(lines, cursor));
      var next := Next(lines, cursor);
      if !((tokens[2] == "solid" && |forms| < 12) || |forms| < 6) {
        if tokens[2] == "solid" {
          SolidLinesValid(t.elements, lines, next, forms, n, None);
        } else {
          PlainLinesValid(t.elements, lines, next, forms, n);
        }
      }
    }
  }
}
