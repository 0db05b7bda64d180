/**
 * `read3DMesh` (import_cdb.py:27-451): the input is read line by line, each
 * line is handed to `parseCommand`, and a block command reads the lines of
 * its block itself.  The pure functions here say what reading does; the
 * class `Reader` does it step by step, as the source does, and each of its
 * methods is proved to end in the state the functions describe.
 */
module CdbReader {
  import opened Wrappers
  import opened PyText
  import opened OrderedMaps
  import opened Faults
  import opened CdbFormat
  import opened CdbCommands
  import opened CdbBlocks

  /** The command words `parseCommand` knows. */
  predicate IsCommand(word: string) {
    word in ["n", "en", "nblock", "eblock", "et", "type", "mat", "real"]
  }

  /** The one-line commands: the handler the first token selects; any other word does nothing. */
  function OneLine<C>(t: Tables<C>, tokens: seq<string>, parseFloat: string -> Option<C>, zero: C): Tables<C>
    requires |tokens| >= 1
  {
    var word := tokens[0];
    if word == "n" then ApplyN(t, tokens, parseFloat, zero)
    else if word == "en" then ApplyEN(t, tokens)
    else if word == "et" then ApplyET(t, tokens)
    else if word == "type" then ApplyTYPE(t, tokens)
    else if word == "mat" then ApplyMAT(t, tokens)
    else if word == "real" then ApplyREAL(t, tokens)
    else t
  }

  /**
   * `parseCommand`: the first token selects the handler.  The result is the
   * new tables and the index of the next line to read; only the two block
   * commands read further lines.
   */
  function Command<C>(t: Tables<C>, line: string, lines: seq<string>, cursor: nat,
                      parseFloat: string -> Option<C>, zero: C): Outcome<(Tables<C>, nat)> {
    var tokens := Tokenize(line);
    if tokens[0] == "nblock" then NBlock(t, lines, cursor, parseFloat, zero)
    else if tokens[0] == "eblock" then EBlock(t, tokens, lines, cursor)
    else Ok((OneLine(t, tokens, parseFloat, zero), cursor))
  }

  lemma OneLineValid<C>(t: Tables<C>, tokens: seq<string>, parseFloat: string -> Option<C>, zero: C)
    requires |tokens| >= 1 && t.Valid()
    ensures OneLine(t, tokens, parseFloat, zero).Valid()
  {
    CommandsKeepValid(t, tokens, parseFloat, zero);
  }

  /** A line whose first token is not a command word changes nothing and reads no further line. */
  lemma OtherLinesIgnored<C>(t: Tables<C>, line: string, lines: seq<string>, cursor: nat,
                             parseFloat: string -> Option<C>, zero: C)
    ensures !IsCommand(Tokenize(line)[0]) ==> Command(t, line, lines, cursor, parseFloat, zero) == Ok((t, cursor))
  {
  }

  /** Every command keeps the tables well formed and never moves the cursor back. */
  lemma CommandAdvances<C>(t: Tables<C>, line: string, lines: seq<string>, cursor: nat,
                           parseFloat: string -> Option<C>, zero: C)
    requires t.Valid()
    requires Command(t, line, lines, cursor, parseFloat, zero).Ok?
    ensures Command(t, line, lines, cursor, parseFloat, zero).value.0.Valid()
    ensures Command(t, line, lines, cursor, parseFloat, zero).value.1 >= cursor
  {
    var tokens := Tokenize(line);
    if tokens[0] == "nblock" {
      NBlockOnlyNodes(t, lines, cursor, parseFloat, zero);
    } else if tokens[0] == "eblock" {
      EBlockOnlyElements(t, tokens, lines, cursor);
    } else {
      OneLineValid(t, tokens, parseFloat, zero);
    }
  }

  /** The main loop `while line: parseCommand(line, filehandle)` from line `cursor` on. */
  function Commands<C>(t: Tables<C>, lines: seq<string>, cursor: nat,
                       parseFloat: string -> Option<C>, zero: C): Outcome<Tables<C>>
    requires t.Valid()
    decreases |lines| - cursor
  {
    var line := LineAt(lines, cursor);
    if |line| == 0 then Ok(t)
    else
      var next := Next(lines, cursor);
      match Command(t, line, lines, next, parseFloat, zero)
      case Failed(f) => Failed(f)
      case Ok(r) =>
        CommandAdvances(t, line, lines, next, parseFloat, zero);
        Commands(r.0, lines, r.1, parseFloat, zero)
  }

  /** `read3DMesh`: all commands of the input, starting from empty tables and selectors at 1. */
  function ReadMesh<C>(lines: seq<string>, parseFloat: string -> Option<C>, zero: C): Outcome<Tables<C>> {
    Commands(Initial(), lines, 0, parseFloat, zero)
  }

  /** Whatever the reader produces is well formed: each element and type number is listed once. */
  lemma {:induction false} CommandsValid<C>(t: Tables<C>, lines: seq<string>, cursor: nat,
                                            parseFloat: string -> Option<C>, zero: C)
    requires t.Valid()
    requires Commands(t, lines, cursor, parseFloat, zero).Ok?
    ensures Commands(t, lines, cursor, parseFloat, zero).value.Valid()
    decreases |lines| - cursor
  {
    var line := LineAt(lines, cursor);
    if |line| > 0 {
      var next := Next(lines, cursor);
      CommandAdvances(t, line, lines, next, parseFloat, zero);
      var r := Command(t, line, lines, next, parseFloat, zero).value;
      CommandsValid(r.0, lines, r.1, parseFloat, zero);
    }
  }

  lemma ReadMeshValid<C>(lines: seq<string>, parseFloat: string -> Option<C>, zero: C)
    requires ReadMesh(lines, parseFloat, zero).Ok?
    ensures ReadMesh(lines, parseFloat, zero).value.Valid()
  {
    CommandsValid(Initial(), lines, 0, parseFloat, zero);
  }

  /** A line that is not a command is skipped, whatever follows it. */
  lemma SkipOtherLine<C>(t: Tables<C>, lines: seq<string>, cursor: nat,
                         parseFloat: string -> Option<C>, zero: C)
    requires t.Valid()
    requires cursor < |lines| && |lines[cursor]| > 0 && !IsCommand(Tokenize(lines[cursor])[0])
    ensures Commands(t, lines, cursor, parseFloat, zero) == Commands(t, lines, cursor + 1, parseFloat, zero)
  {
  }

  /** Reading stops at the first fault, and an input with no more lines leaves the tables as they are. */
  lemma CommandsAtEnd<C>(t: Tables<C>, lines: seq<string>, cursor: nat,
                         parseFloat: string -> Option<C>, zero: C)
    requires t.Valid() && cursor < |lines| && |lines[cursor]| > 0
    requires Command(t, lines[cursor], lines, cursor + 1, parseFloat, zero).Failed?
    ensures Commands(t, lines, cursor, parseFloat, zero) == Failed(Command(t, lines[cursor], lines, cursor + 1, parseFloat, zero).fault)
    ensures Commands(t, lines, |lines|, parseFloat, zero) == Ok(t)
  {
  }

  /**
   * The reader's state: the input and the two coordinate parameters, the
   * index of the next line, and the tables `global_n`, `global_e`,
   * `global_et` with the four `current_*` selectors.
   */
  class Reader<C> {
    const lines: seq<string>
    const parseFloat: string -> Option<C>
    const zero: C
    var cursor: nat
    var nodes: map<int, Point<C>>
    var elements: OMap<int, seq<int>>
    var et: OMap<int, int>
    var sel: Selectors

    function State(): Tables<C>
      reads this
    {
      Tables(nodes, elements, et, sel)
    }

    /** A step ended as `r` says: with its tables and next line, or with its fault. */
    ghost predicate Reached(r: Outcome<(Tables<C>, nat)>, fault: Option<Fault>)
      reads this
    {
      match r
      case Ok((t, c)) => fault == None && State() == t && cursor == c
      case Failed(f) => fault == Some(f)
    }

    constructor (lines: seq<string>, parseFloat: string -> Option<C>, zero: C)
      ensures this.lines == lines && this.parseFloat == parseFloat && this.zero == zero
      ensures cursor == 0 && State() == Initial()
    {
      this.lines := lines;
      this.parseFloat := parseFloat;
      this.zero := zero;
      cursor := 0;
      nodes := map[];
      elements := Empty();
      et := Empty();
      sel := Selectors(1, 1, 1, 1);
    }

    /** `filehandle.readline()`. */
    method ReadLine() returns (line: string)
      modifies this
      ensures line == LineAt(lines, old(cursor)) && cursor == Next(lines, old(cursor))
      ensures State() == old(State())
    {
      if cursor < |lines| {
        line := lines[cursor];
        cursor := cursor + 1;
      } else {
        line := "";
      }
    }

    /** `readN`. */
    method ReadN(tokens: seq<string>)
      modifies this
      ensures State() == ApplyN(old(State()), tokens, parseFloat, zero) && cursor == old(cursor)
    {
      if |tokens| < 4 {
        return;
      }
      if tokens[2] != "loc" {
        return;
      }
      var number := ParseInt(tokens[3]);
      if number.None? || number.value <= 0 {
        return;
      }
      var x := CoordAt(tokens, 6, parseFloat, zero);
      var y := CoordAt(tokens, 7, parseFloat, zero);
      var z := CoordAt(tokens, 8, parseFloat, zero);
      nodes := nodes[number.value := Point(x, y, z)];
    }

    /** `readEN`: one `ATTR` record, or the node numbers of a `NODE` record appended one by one. */
    method ReadEN(tokens: seq<string>)
      modifies this
      ensures State() == ApplyEN(old(State()), tokens) && cursor == old(cursor)
    {
      if |tokens| < 4 {
        return;
      }
      if tokens[2] == "attr" {
        var mat := IntAt(tokens, 4).GetOr(sel.mat);
        var typ := IntAt(tokens, 5).GetOr(sel.typ);
        var realConst := IntAt(tokens, 6).GetOr(sel.realConst);
        var number := sel.element;
        var parsed := IntAt(tokens, 9);
        if parsed.Some? {
          number := parsed.value;
          sel := sel.(element := number);
        }
        var data := [mat, realConst, typ];
        if number in elements.values && |elements.values[number]| >= 3 {
          data := [mat, realConst, typ] + elements.values[number][3..];
        }
        elements := elements.Put(number, data);
      } else if tokens[2] == "node" {
        ReadENNodes(tokens);
      }
    }

    /** The `NODE` branch of `readEN`: the node numbers are appended one by one; the first that fails to parse ends the command. */
    method ReadENNodes(tokens: seq<string>)
      requires |tokens| >= 4 && tokens[2] == "node"
      modifies this
      ensures State() == ApplyEN(old(State()), tokens) && cursor == old(cursor)
    {
      var base := [sel.mat, sel.realConst, sel.typ];
      if sel.element in elements.values {
        base := elements.values[sel.element];
      }
      var ids := ReadNodeNumbers(tokens[4..]);
      if ids.None? {
        return;
      }
      elements := elements.Put(sel.element, base + ids.value);
    }

    /** `readET`, as repaired: an empty type number takes `max(global_et) + 1`. */
    method ReadET(tokens: seq<string>)
      modifies this
      ensures State() == ApplyET(old(State()), tokens) && cursor == old(cursor)
    {
      if |tokens| < 3 {
        return;
      }
      var number: int;
      var family: int;
      if tokens[1] == "" {
        var parsed := ParseInt(tokens[2]);
        if parsed.None? {
          return;
        }
        number := NextTypeNumber(et);
        family := parsed.value;
      } else {
        var id := ParseInt(tokens[1]);
        var parsed := ParseInt(tokens[2]);
        if id.None? || parsed.None? {
          return;
        }
        number := id.value;
        family := parsed.value;
      }
      et := et.Put(number, family);
      sel := sel.(typ := number);
    }

    /** `readTYPE`, `readMAT` and `readREAL`. */
    method ReadSelector(tokens: seq<string>, word: string)
      requires word == "type" || word == "mat" || word == "real"
      modifies this
      ensures word == "type" ==> State() == ApplyTYPE(old(State()), tokens)
      ensures word == "mat" ==> State() == ApplyMAT(old(State()), tokens)
      ensures word == "real" ==> State() == ApplyREAL(old(State()), tokens)
      ensures cursor == old(cursor)
    {
      var v := IntAt(tokens, 1);
      if v.None? {
        return;
      }
      if word == "type" {
        sel := sel.(typ := v.value);
      } else if word == "mat" {
        sel := sel.(mat := v.value);
      } else {
        sel := sel.(realConst := v.value);
      }
    }

    /** `readNBLOCK`: the format line, then node lines until the closing `N` line or the end of the input. */
    method ReadNBLOCK() returns (fault: Option<Fault>)
      modifies this
      ensures Reached(NBlock(old(State()), lines, old(cursor), parseFloat, zero), fault)
    {
      ghost var target := NBlock(State(), lines, cursor, parseFloat, zero);
      var formatLine := ReadLine();
      var forms := DetectFormat(formatLine);
      if |forms| < 6 {
        return None;
      }
      var startX := forms[0].width + forms[1].width + forms[2].width;
      var startY := startX + forms[3].width;
      var startZ := startY + forms[4].width;
      var endZ := startZ + forms[5].width;
      var cols := NodeColumns(forms[0].width, startX, startY, startZ, endZ);
      assert cols == NodeColumnsOf(forms);
      ghost var run := NodeLines(nodes, lines, cursor, cols, parseFloat, zero);
      assert target == (match run case Failed(f) => Failed(f) case Ok((m, c)) => Ok((State().(nodes := m), c)));
      while true
        invariant NodeLines(nodes, lines, cursor, cols, parseFloat, zero) == run
        invariant elements == old(elements) && et == old(et) && sel == old(sel)
        decreases |lines| - cursor
      {
        var nodeLine := ReadLine();
        if |nodeLine| == 0 {
          return None;
        }
        var stripped := Strip(nodeLine);
        if |stripped| == 0 {
          return Some(BlankLineInNodeBlock);
        }
        if LowerChar(stripped[0]) == 'n' {
          return None;
        }
        nodes := ReadNodeLine(nodes, nodeLine, cols, parseFloat, zero);
      }
    }

    /** `readEBLOCK`: the format line, then element records until a line starting with `-`. */
    method ReadEBLOCK(tokens: seq<string>) returns (fault: Option<Fault>)
      modifies this
      ensures Reached(EBlock(old(State()), tokens, lines, old(cursor)), fault)
    {
      if |tokens| < 3 {
        return None;
      }
      var count := ParseInt(tokens[1]);
      if count.None? {
        return None;
      }
      var numFields := count.value;
      var isSolid := tokens[2] == "solid";
      ghost var target := EBlock(State(), tokens, lines, cursor);
      var formatLine := ReadLine();
      var forms := DetectFormat(formatLine);
      if (isSolid && |forms| < 12) || |forms| < 6 {
        return None;
      }
      fault := ReadElementLines(forms, numFields, isSolid);
    }

    /** The `while True` loop of `readEBLOCK`: one record per line until a line starting with `-`. */
    method ReadElementLines(forms: seq<FieldSpec>, numFields: int, isSolid: bool) returns (fault: Option<Fault>)
      modifies this
      ensures match ElementLines(old(elements), lines, old(cursor), forms, numFields, isSolid, None)
              case Ok((m, c)) => fault == None && State() == old(State()).(elements := m) && cursor == c
              case Failed(f) => fault == Some(f)
    {
      var field: Option<int> := None;
      ghost var run := ElementLines(elements, lines, cursor, forms, numFields, isSolid, field);
      while true
        invariant ElementLines(elements, lines, cursor, forms, numFields, isSolid, field) == run
        invariant nodes == old(nodes) && et == old(et) && sel == old(sel)
        decreases |lines| - cursor
      {
        var atEnd := cursor >= |lines|;
        var elementLine := ReadLine();
        var stripped := Strip(elementLine);
        if |stripped| > 0 && stripped[0] == '-' {
          return None;
        }
        var record: Record;
        if isSolid {
          record, field := ReadSolidRecord(elementLine, forms, numFields, field);
        } else {
          record := ReadPlainRecord(elementLine, forms, numFields);
        }
        if record.Stop? {
          return None;
        }
        if record.Raise? {
          return Some(record.fault);
        }
        if atEnd {
          // the source re-reads the empty line of the end of the input for ever
          return Some(EndOfInputLoops);
        }
        elements := elements.Put(record.number, record.data);
      }
    }

    /** `parseCommand`. */
    method ParseCommand(line: string) returns (fault: Option<Fault>)
      modifies this
      ensures Reached(Command(old(State()), line, lines, old(cursor), parseFloat, zero), fault)
    {
      var tokens := SplitTokens(line);
      var word := tokens[0];
      fault := None;
      if word == "n" {
        ReadN(tokens);
      } else if word == "en" {
        ReadEN(tokens);
      } else if word == "nblock" {
        fault := ReadNBLOCK();
      } else if word == "eblock" {
        fault := ReadEBLOCK(tokens);
      } else if word == "et" {
        ReadET(tokens);
      } else if word == "type" || word == "mat" || word == "real" {
        ReadSelector(tokens, word);
      }
    }

    /** The main loop: every line is parsed as a command until the end of the input or a fault. */
    method Run() returns (fault: Option<Fault>)
      requires State().Valid()
      modifies this
      ensures match Commands(old(State()), lines, old(cursor), parseFloat, zero)
              case Ok(t) => fault == None && State() == t
              case Failed(f) => fault == Some(f)
    {
      ghost var goal := Commands(State(), lines, cursor, parseFloat, zero);
      ghost var at := cursor;
      var line := ReadLine();
      while |line| > 0
        invariant State().Valid()
        invariant line == LineAt(lines, at) && cursor == Next(lines, at)
        invariant Commands(State(), lines, at, parseFloat, zero) == goal
        decreases if at <= |lines| then |lines| - at else 0
      {
        ghost var before := State();
        fault := ParseCommand(line);
        if fault.Some? {
          return;
        }
        CommandAdvances(before, line, lines, Next(lines, at), parseFloat, zero);
        at := cursor;
        line := ReadLine();
      }
      fault := None;
    }
  }

  /** `first_line.split(',')`, then every token stripped and lower-cased in place. */
  method SplitTokens(line: string) returns (tokens: seq<string>)
    ensures tokens == Tokenize(line)
  {
    var parts := Split(line, ',');
    tokens := parts;
    for i := 0 to |tokens|
      invariant |tokens| == |parts|
      invariant forall j :: 0 <= j < i ==> tokens[j] == Lower(Strip(parts[j]))
      invariant forall j :: i <= j < |tokens| ==> tokens[j] == parts[j]
    {
      tokens := tokens[i := Lower(Strip(tokens[i]))];
    }
  }

  /** One node line of `readNBLOCK`: a line whose number does not parse is skipped, otherwise the node is stored. */
  method ReadNodeLine<C>(nodes: map<int, Point<C>>, line: string, cols: NodeColumns,
                         parseFloat: string -> Option<C>, zero: C) returns (r: map<int, Point<C>>)
    ensures r == StoreNode(nodes, line, cols, parseFloat, zero)
  {
    var number := ParseInt(Slice(line, 0, cols.idEnd));
    if number.None? {
      return nodes;
    }
    var x := parseFloat(Slice(line, cols.x, cols.y)).GetOr(zero);
    var y := parseFloat(Slice(line, cols.y, cols.z)).GetOr(zero);
    var z := parseFloat(Slice(line, cols.z, cols.zEnd)).GetOr(zero);
    r := nodes[number.value := Point(x, y, z)];
  }

  /** The loop of the `NODE` branch of `readEN` over the node numbers: the first that fails to parse ends it. */
  method ReadNodeNumbers(rest: seq<string>) returns (ids: Option<seq<int>>)
    ensures ids == AllInts(rest)
  {
    var vs: seq<int> := [];
    for i := 0 to |rest|
      invariant AllInts(rest[..i]) == Some(vs)
    {
      var v := ParseInt(rest[i]);
      AllIntsNext(rest, i, vs);
      if v.None? {
        AllIntsOk(rest);
        return None;
      }
      vs := vs + [v.value];
    }
    assert rest[..|rest|] == rest;
    ids := Some(vs);
  }

  /** One more token of the node numbers: it is appended if it parses, and otherwise the run fails. */
  lemma AllIntsNext(tokens: seq<string>, i: nat, vs: seq<int>)
    requires i < |tokens| && AllInts(tokens[..i]) == Some(vs)
    ensures AllInts(tokens[..i + 1]) == if ParseInt(tokens[i]).None? then None else Some(vs + [ParseInt(tokens[i]).value])
  {
    assert tokens[..i + 1][..i] == tokens[..i];
  }

  /** The SOLID field loop, as the source's `for i in range(Num_fields)` loop reads it. */
  method ScanSolidFields(line: string, forms: seq<FieldSpec>, count: nat, last: Option<int>)
    returns (scan: Option<Scanned>)
    ensures scan == SolidScan(line, forms, count, last)
  {
    var s := Scanned([], 0, last);
    for i := 0 to count
      invariant SolidScan(line, forms, i, last) == Some(s)
    {
      SolidScanNext(line, forms, i, last, s);
      var next := ReadSolidField(line, forms, i, s);
      if next.None? {
        SolidScanFailureSticks(line, forms, i + 1, count, last);
        return None;
      }
      s := next.value;
    }
    scan := Some(s);
  }

  /**
   * One pass of the SOLID field loop: `end` moves on by the field's width
   * while the format has field `i`, a column that parses replaces `field`,
   * and `field` is appended; with no field read yet the pass raises.
   */
  method ReadSolidField(line: string, forms: seq<FieldSpec>, i: nat, s: Scanned) returns (next: Option<Scanned>)
    ensures next == SolidStep(line, forms, i, s)
  {
    var end := s.start;
    var field := s.field;
    if i < |forms| {
      end := s.start + forms[i].width;
      var parsed := ParseInt(Slice(line, s.start, end));
      if parsed.Some? {
        field := parsed;
      }
    }
    if field.None? {
      return None;
    }
    next := Some(Scanned(s.fields + [field.value], end, field));
  }

  /** One SOLID record: the field loop, then the checks on the fields it read. */
  method ReadSolidRecord(line: string, forms: seq<FieldSpec>, n: int, last: Option<int>)
    returns (record: Record, field: Option<int>)
    ensures (record, field) == SolidRecord(line, forms, n, last)
  {
    var count: nat := if n < 0 then 0 else n;
    var scan := ScanSolidFields(line, forms, count, last);
    if scan.None? {
      return Raise(FieldUnbound), last;
    }
    var fields := scan.value.fields;
    field := scan.value.field;
    if |fields| < 8 {
      return Stop, field;
    }
    if |fields| == 8 {
      return Raise(NodeCountMissing), field;
    }
    if |fields| < fields[8] + 11 {
      return Raise(ContinuationLoops), field;
    }
    if |fields| <= 10 {
      return Stop, field;
    }
    record := Store(fields[10], [fields[0], fields[2], fields[1]] + fields[11..]);
  }

  /** The non-SOLID field loop: the first field that is missing or does not parse ends it. */
  method ScanPlainFields(line: string, forms: seq<FieldSpec>, count: nat) returns (scan: Option<(seq<int>, nat)>)
    ensures scan == PlainScan(line, forms, count)
  {
    var fields: seq<int> := [];
    var start: nat := 0;
    for i := 0 to count
      invariant PlainScan(line, forms, i) == Some((fields, start))
    {
      PlainScanNext(line, forms, i, fields, start);
      var next := ReadPlainField(line, forms, i, fields, start);
      if next.None? {
        PlainScanFailureSticks(line, forms, i + 1, count);
        return None;
      }
      fields, start := next.value.0, next.value.1;
    }
    scan := Some((fields, start));
  }

  /** One pass of the non-SOLID field loop: a missing field or one that does not parse ends the record. */
  method ReadPlainField(line: string, forms: seq<FieldSpec>, i: nat, fields: seq<int>, start: nat)
    returns (next: Option<(seq<int>, nat)>)
    ensures next == PlainStep(line, forms, i, fields, start)
  {
    if i >= |forms| {
      return None;
    }
    var end := start + forms[i].width;
    var parsed := ParseInt(Slice(line, start, end));
    if parsed.None? {
      return None;
    }
    next := Some((fields + [parsed.value], end));
  }

  /** One non-SOLID record: the field loop, then fewer than four fields end the block. */
  method ReadPlainRecord(line: string, forms: seq<FieldSpec>, n: int) returns (record: Record)
    ensures record == PlainRecord(line, forms, n)
  {
    var count: nat := if n < 0 then 0 else n;
    var scan := ScanPlainFields(line, forms, count);
    if scan.None? || |scan.value.0| < 4 {
      return Stop;
    }
    var fields := scan.value.0;
    record := Store(fields[0], [fields[3], fields[2], fields[1]] + Tail(fields, 5));
  }

  /** Once the SOLID field loop has raised, reading more fields does not help. */
  lemma {:induction false} SolidScanFailureSticks(line: string, forms: seq<FieldSpec>, i: nat, k: nat, last: Option<int>)
    requires i <= k && SolidScan(line, forms, i, last).None?
    ensures SolidScan(line, forms, k, last).None?
    decreases k - i
  {
    if i < k {
      SolidScanFailureSticks(line, forms, i + 1, k, last);
    }
  }

  /** The SOLID field loop after `i + 1` fields is one more step after `i`. */
  lemma SolidScanNext(line: string, forms: seq<FieldSpec>, i: nat, last: Option<int>, s: Scanned)
    requires SolidScan(line, forms, i, last) == Some(s)
    ensures SolidScan(line, forms, i + 1, last) == SolidStep(line, forms, i, s)
  {
  }

  /** The non-SOLID field loop after `i + 1` fields is one more step after `i`. */
  lemma PlainScanNext(line: string, forms: seq<FieldSpec>, i: nat, fields: seq<int>, start: nat)
    requires PlainScan(line, forms, i) == Some((fields, start))
    ensures PlainScan(line, forms, i + 1) == PlainStep(line, forms, i, fields, start)
  {
  }

  /** Once the non-SOLID field loop has failed, reading more fields does not help. */
  lemma {:induction false} PlainScanFailureSticks(line: string, forms: seq<FieldSpec>, i: nat, k: nat)
    requires i <= k && PlainScan(line, forms, i).None?
    ensures PlainScan(line, forms, k).None?
    decreases k - i
  {
    if i < k {
      PlainScanFailureSticks(line, forms, i + 1, k);
    }
  }

  /** `read3DMesh(cdbfilename)`, on the lines of the file. */
  method Read3DMesh<C>(lines: seq<string>, parseFloat: string -> Option<C>, zero: C) returns (r: Outcome<Tables<C>>)
    ensures r == ReadMesh(lines, parseFloat, zero)
  {
    var reader := new Reader(lines, parseFloat, zero);
    var fault := reader.Run();
    if fault.Some? {
      r := Failed(fault.value);
    } else {
      r := Ok(reader.State());
    }
  }
}
