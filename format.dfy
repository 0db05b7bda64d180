/**
 * Fortran column descriptors such as `(3i8,6e16.9)`, the line that follows
 * every NBLOCK and EBLOCK command, expanded into one field spec per column.
 */
module CdbFormat {
  import opened Wrappers
  import opened PyText

  /** One column: its kind letters, its width in characters and its decimals. */
  datatype FieldSpec = FieldSpec(kind: string, width: nat, decimals: int)

  /** The four buffers the descriptor scanner fills: `3`, `e`, `16` and `.9` in `3e16.9`. */
  datatype Scan = Scan(count: string, kind: string, width: string, dec: string)

  const NoScan := Scan("", "", "", "")

  /** `str.find`: the first index holding `c`, or -1. */
  function Find(s: string, c: char): int
    decreases |s|
  {
    if |s| == 0 then -1
    else if s[0] == c then 0
    else
      var k := Find(s[1..], c);
      if k < 0 then -1 else k + 1
  }

  /** `Find` gives the position of the first `c`, and -1 exactly when there is none. */
  lemma {:induction false} FindSpec(s: string, c: char)
    ensures -1 <= Find(s, c) < |s|
    ensures Find(s, c) >= 0 ==> s[Find(s, c)] == c && c !in s[..Find(s, c)]
    ensures Find(s, c) == -1 ==> c !in s
    decreases |s|
  {
    if |s| > 0 && s[0] != c {
      FindSpec(s[1..], c);
      var k := Find(s[1..], c);
      assert s == [s[0]] + s[1..];
      if k >= 0 {
        assert s[..k + 1] == [s[0]] + s[1..][..k];
      }
    }
  }

  /** `str.rfind`: the last index holding `c`, or -1. */
  function RFind(s: string, c: char): int
    decreases |s|
  {
    if |s| == 0 then -1
    else if s[|s| - 1] == c then |s| - 1
    else RFind(s[..|s| - 1], c)
  }

  /** `RFind` gives the position of the last `c`, and -1 exactly when there is none. */
  lemma {:induction false} RFindSpec(s: string, c: char)
    ensures -1 <= RFind(s, c) < |s|
    ensures RFind(s, c) >= 0 ==> s[RFind(s, c)] == c && c !in s[RFind(s, c) + 1..]
    ensures RFind(s, c) == -1 ==> c !in s
    decreases |s|
  {
    if |s| > 0 && s[|s| - 1] != c {
      var init := s[..|s| - 1];
      RFindSpec(init, c);
      var k := RFind(init, c);
      assert s == init + [s[|s| - 1]];
      if k >= 0 {
        assert s[k + 1..] == init[k + 1..] + [s[|s| - 1]];
      }
    }
  }

  /** How the scanner files one character of a group. */
  function ScanChar(sc: Scan, c: char): Scan {
    if |sc.kind| == 0 && IsDigit(c) then sc.(count := sc.count + [c])
    else if |sc.width| == 0 && !IsDigit(c) then sc.(kind := sc.kind + [c])
    else if |sc.dec| == 0 && c != '.' then sc.(width := sc.width + [c])
    else sc.(dec := sc.dec + [c])
  }

  /** The scanner after reading all of `s`, left to right. */
  function ScanFrom(sc: Scan, s: string): Scan
    decreases |s|
  {
    if |s| == 0 then sc else ScanFrom(ScanChar(sc, s[0]), s[1..])
  }

  /** What the scanner guarantees: the count holds digits only, a width starts with a digit. */
  predicate ScanShape(sc: Scan) {
    AllDigits(sc.count) && (|sc.width| > 0 ==> IsDigit(sc.width[0]) && |sc.kind| > 0)
  }

  lemma {:induction false} ScanFromShape(sc: Scan, s: string)
    requires ScanShape(sc)
    ensures ScanShape(ScanFrom(sc, s))
    decreases |s|
  {
    if |s| > 0 {
      ScanFromShape(ScanChar(sc, s[0]), s[1..]);
    }
  }

  /** `s.strip(c)`: `s` without the copies of `c` at either end. */
  function StripChar(s: string, c: char): string
    decreases |s|
  {
    if |s| > 0 && s[0] == c then StripChar(s[1..], c)
    else if |s| > 0 && s[|s| - 1] == c then StripChar(s[..|s| - 1], c)
    else s
  }

  /** `[x] * n`. */
  function Repeat(x: FieldSpec, n: int): (r: seq<FieldSpec>)
    ensures |r| == if n <= 0 then 0 else n
    ensures forall i :: 0 <= i < |r| ==> r[i] == x
  {
    seq(if n <= 0 then 0 else n, _ => x)
  }

  /** A width read from a buffer that starts with a digit is never negative. */
  lemma WidthUnsigned(w: string)
    requires |w| > 0 && IsDigit(w[0])
    ensures ParseInt(w).Some? ==> ParseInt(w).value >= 0
  {
    TrimLeftOf("", w);
    assert "" + w == w;
    TrimRightPrefix(w);
    ParseIntUnsigned(w);
  }

  /**
   * The field specs of one comma group: `count` copies of `(kind, width, dec)`
   * when count, width and decimals all parse, nothing otherwise.
   */
  function GroupForms(raw: string): seq<FieldSpec> {
    var sc := ScanFrom(NoScan, raw);
    var count := ParseInt(sc.count);
    var width := ParseInt(sc.width);
    var dec := if |sc.dec| > 0 then ParseInt(StripChar(sc.dec, '.')) else Some(0);
    if count.Some? && width.Some? && dec.Some? then
      ScanFromShape(NoScan, raw);
      WidthUnsigned(sc.width);
      Repeat(FieldSpec(sc.kind, width.value, dec.value), count.value)
    else []
  }

  /** The groups' field specs, in order. */
  function FlatGroups(groups: seq<string>): seq<FieldSpec> {
    if |groups| == 0 then [] else FlatGroups(groups[..|groups| - 1]) + GroupForms(groups[|groups| - 1])
  }

  /** The comma groups between the first `(` and the last `)` (or the end of the line). */
  function Groups(line: string): seq<string> {
    var r1 := Find(line, '(');
    var k := RFind(line, ')');
    var r2 := if k < 0 then |line| else k;
    FindSpec(line, '(');
    Split(Slice(line, r1 + 1, r2), ',')
  }

  /** `detectFormat(line)`, as a value. */
  function FormatOf(line: string): seq<FieldSpec> {
    if |line| < 3 then [] else FlatGroups(Groups(line))
  }

  /** The character loop of `detectFormat` over one comma group. */
  method ScanGroup(raw: string) returns (sc: Scan)
    ensures sc == ScanFrom(NoScan, raw)
  {
    var rawCount, strType, raw1, raw2 := "", "", "", "";
    for i := 0 to |raw|
      invariant ScanFrom(Scan(rawCount, strType, raw1, raw2), raw[i..]) == ScanFrom(NoScan, raw)
    {
      var c := raw[i];
      assert raw[i..] == [c] + raw[i + 1..];
      if |strType| == 0 && IsDigit(c) {
        rawCount := rawCount + [c];
      } else if |raw1| == 0 && !IsDigit(c) {
        strType := strType + [c];
      } else if |raw2| == 0 && c != '.' {
        raw1 := raw1 + [c];
      } else {
        raw2 := raw2 + [c];
      }
    }
    assert raw[|raw|..] == [];
    sc := Scan(rawCount, strType, raw1, raw2);
  }

  /** `for i in range(count): forms.append(spec)`. */
  method AppendCopies(forms: seq<FieldSpec>, spec: FieldSpec, count: int) returns (r: seq<FieldSpec>)
    ensures r == forms + Repeat(spec, count)
  {
    r := forms;
    var k := 0;
    while k < count
      invariant 0 <= k <= (if count <= 0 then 0 else count)
      invariant r == forms + Repeat(spec, k)
    {
      assert Repeat(spec, k + 1) == Repeat(spec, k) + [spec];
      r := r + [spec];
      k := k + 1;
    }
  }

  /** One pass of `detectFormat`'s group loop: scan the group, then append its copies. */
  method AppendGroup(forms: seq<FieldSpec>, raw: string) returns (r: seq<FieldSpec>)
    ensures r == forms + GroupForms(raw)
  {
    var sc := ScanGroup(raw);
    var count := ParseInt(sc.count);
    var width := ParseInt(sc.width);
    var dec := if |sc.dec| > 0 then ParseInt(StripChar(sc.dec, '.')) else Some(0);
    r := forms;
    if count.Some? && width.Some? && dec.Some? {
      ScanFromShape(NoScan, raw);
      WidthUnsigned(sc.width);
      r := AppendCopies(forms, FieldSpec(sc.kind, width.value, dec.value), count.value);
    }
  }

  /** `detectFormat`: the groups between the parentheses, each expanded in order. */
  method DetectFormat(line: string) returns (forms: seq<FieldSpec>)
    ensures forms == FormatOf(line)
  {
    if |line| < 3 {
      return [];
    }
    var r1 := Find(line, '(');
    var r2 := RFind(line, ')');
    FindSpec(line, '(');
    if r2 < 0 {
      r2 := |line|;
    }
    var lineSplit := Split(Slice(line, r1 + 1, r2), ',');
    forms := ExpandGroups(lineSplit);
  }

  /** The group loop of `detectFormat`. */
  method ExpandGroups(lineSplit: seq<string>) returns (forms: seq<FieldSpec>)
    ensures forms == FlatGroups(lineSplit)
  {
    forms := [];
    for g := 0 to |lineSplit|
      invariant forms == FlatGroups(lineSplit[..g])
    {
      assert lineSplit[..g + 1][..g] == lineSplit[..g];
      forms := AppendGroup(forms, lineSplit[g]);
    }
    assert lineSplit[..|lineSplit|] == lineSplit;
  }

  lemma {:induction false} ScanConcat(sc: Scan, a: string, b: string)
    ensures ScanFrom(sc, a + b) == ScanFrom(ScanFrom(sc, a), b)
    decreases |a|
  {
    if |a| > 0 {
      assert (a + b)[1..] == a[1..] + b;
      ScanConcat(ScanChar(sc, a[0]), a[1..], b);
    } else {
      assert a + b == b;
    }
  }

  /** Leading digits go to the repeat count. */
  lemma {:induction false} ScanCountRun(sc: Scan, d: string)
    requires |sc.kind| == 0 && AllDigits(d)
    ensures ScanFrom(sc, d) == sc.(count := sc.count + d)
    decreases |d|
  {
    if |d| > 0 {
      ScanCountRun(sc.(count := sc.count + [d[0]]), d[1..]);
      assert sc.count + [d[0]] + d[1..] == sc.count + d;
    } else {
      assert sc.count + d == sc.count;
    }
  }

  /** Non-digits before the width go to the kind. */
  lemma {:induction false} ScanKindRun(sc: Scan, k: string)
    requires |sc.width| == 0 && forall i :: 0 <= i < |k| ==> !IsDigit(k[i])
    ensures ScanFrom(sc, k) == sc.(kind := sc.kind + k)
    decreases |k|
  {
    if |k| > 0 {
      ScanKindRun(sc.(kind := sc.kind + [k[0]]), k[1..]);
      assert sc.kind + [k[0]] + k[1..] == sc.kind + k;
    } else {
      assert sc.kind + k == sc.kind;
    }
  }

  /** Digits after the kind go to the width. */
  lemma {:induction false} ScanWidthRun(sc: Scan, w: string)
    requires |sc.kind| > 0 && |sc.dec| == 0 && AllDigits(w)
    ensures ScanFrom(sc, w) == sc.(width := sc.width + w)
    decreases |w|
  {
    if |w| > 0 {
      ScanWidthRun(sc.(width := sc.width + [w[0]]), w[1..]);
      assert sc.width + [w[0]] + w[1..] == sc.width + w;
    } else {
      assert sc.width + w == sc.width;
    }
  }

  /** Once the decimals have started, everything goes to them. */
  lemma {:induction false} ScanDecRun(sc: Scan, d: string)
    requires |sc.kind| > 0 && |sc.width| > 0 && |sc.dec| > 0
    ensures ScanFrom(sc, d) == sc.(dec := sc.dec + d)
    decreases |d|
  {
    if |d| > 0 {
      ScanDecRun(sc.(dec := sc.dec + [d[0]]), d[1..]);
      assert sc.dec + [d[0]] + d[1..] == sc.dec + d;
    } else {
      assert sc.dec + d == sc.dec;
    }
  }

  /** The buffers a well-formed group `<count><kind><width>` fills. */
  lemma ScanGroupShape(cs: string, k: string, ws: string)
    requires AllDigits(cs) && |k| > 0 && (forall i :: 0 <= i < |k| ==> !IsDigit(k[i])) && AllDigits(ws)
    ensures ScanFrom(NoScan, cs + k + ws) == Scan(cs, k, ws, "")
  {
    ScanConcat(NoScan, cs + k, ws);
    ScanConcat(NoScan, cs, k);
    ScanCountRun(NoScan, cs);
    assert "" + cs == cs;
    ScanKindRun(Scan(cs, "", "", ""), k);
    assert "" + k == k;
    ScanWidthRun(Scan(cs, k, "", ""), ws);
    assert "" + ws == ws;
  }

  /** A group `<count><kind><width>` expands to `count` copies of `(kind, width, 0)`. */
  lemma GroupExpands(cs: string, k: string, ws: string)
    requires |cs| > 0 && AllDigits(cs) && |ws| > 0 && AllDigits(ws)
    requires |k| > 0 && forall i :: 0 <= i < |k| ==> !IsDigit(k[i])
    ensures GroupForms(cs + k + ws) == Repeat(FieldSpec(k, DigitsValue(ws), 0), DigitsValue(cs))
  {
    ScanGroupShape(cs, k, ws);
    ParseDigits(cs);
    ParseDigits(ws);
  }

  lemma ScanGroupShapeWithDecimals(cs: string, k: string, ws: string, ds: string)
    requires AllDigits(cs) && |k| > 0 && (forall i :: 0 <= i < |k| ==> !IsDigit(k[i])) && |ws| > 0 && AllDigits(ws)
    ensures ScanFrom(NoScan, cs + k + ws + "." + ds) == Scan(cs, k, ws, "." + ds)
  {
    var head := cs + k + ws;
    var tail := ['.'] + ds;
    assert cs + k + ws + "." + ds == head + tail;
    ScanGroupShape(cs, k, ws);
    ScanConcat(NoScan, head, tail);
    var sc := Scan(cs, k, ws, "");
    assert ScanChar(sc, '.') == Scan(cs, k, ws, ['.']);
    assert tail[1..] == ds;
    assert ScanFrom(sc, tail) == ScanFrom(Scan(cs, k, ws, ['.']), ds);
    ScanDecRun(Scan(cs, k, ws, ['.']), ds);
    assert "." + ds == tail;
  }

  lemma StripDotOfDigits(ds: string)
    requires |ds| > 0 && AllDigits(ds)
    ensures StripChar("." + ds, '.') == ds
  {
    assert ("." + ds)[1..] == ds;
    assert IsDigit(ds[0]) && IsDigit(ds[|ds| - 1]);
  }

  /** A group `<count><kind><width>.<decimals>` expands to `count` copies of `(kind, width, decimals)`. */
  lemma GroupExpandsWithDecimals(cs: string, k: string, ws: string, ds: string)
    requires |cs| > 0 && AllDigits(cs) && |ws| > 0 && AllDigits(ws) && |ds| > 0 && AllDigits(ds)
    requires |k| > 0 && forall i :: 0 <= i < |k| ==> !IsDigit(k[i])
    ensures GroupForms(cs + k + ws + "." + ds) == Repeat(FieldSpec(k, DigitsValue(ws), DigitsValue(ds)), DigitsValue(cs))
  {
    ScanGroupShapeWithDecimals(cs, k, ws, ds);
    StripDotOfDigits(ds);
    ParseDigits(cs);
    ParseDigits(ws);
    ParseDigits(ds);
  }

  /** Once a kind letter has been read, the count buffer no longer grows. */
  lemma {:induction false} ScanKeepsCount(sc: Scan, s: string)
    requires |sc.kind| > 0
    ensures ScanFrom(sc, s).count == sc.count
    decreases |s|
  {
    if |s| > 0 {
      ScanKeepsCount(ScanChar(sc, s[0]), s[1..]);
    }
  }

  /** A group that does not start with a repeat count contributes no field. */
  lemma GroupWithoutCount(raw: string)
    requires |raw| > 0 && !IsDigit(raw[0])
    ensures GroupForms(raw) == []
  {
    var sc := Scan("", [raw[0]], "", "");
    assert "" + [raw[0]] == [raw[0]];
    assert ScanChar(NoScan, raw[0]) == sc;
    assert ScanFrom(NoScan, raw) == ScanFrom(sc, raw[1..]);
    ScanKeepsCount(sc, raw[1..]);
    assert Strip("") == "";
  }

  /** A group with a count and a kind but no width contributes no field. */
  lemma GroupWithoutWidth(cs: string, k: string)
    requires AllDigits(cs) && |k| > 0 && forall i :: 0 <= i < |k| ==> !IsDigit(k[i])
    ensures GroupForms(cs + k) == []
  {
    ScanGroupShape(cs, k, "");
    assert cs + k + "" == cs + k;
  }

  /** `FlatGroups` distributes over concatenation of group lists. */
  lemma {:induction false} FlatGroupsAppend(a: seq<string>, b: seq<string>)
    ensures FlatGroups(a + b) == FlatGroups(a) + FlatGroups(b)
    decreases |b|
  {
    if |b| == 0 {
      assert a + b == a;
    } else {
      var b' := b[..|b| - 1];
      assert (a + b)[..|a + b| - 1] == a + b';
      FlatGroupsAppend(a, b');
    }
  }

  /** Lines shorter than three characters describe no field. */
  lemma ShortLineNoFields(line: string)
    requires |line| < 3
    ensures FormatOf(line) == []
  {
  }

  /** A line `(<body>)` followed by a line break holds the comma groups of `body`. */
  lemma BracketedGroups(body: string)
    ensures Groups(['('] + body + [')', '\n']) == Split(body, ',')
  {
    var line := ['('] + body + [')', '\n'];
    var init := line[..|line| - 1];
    assert init == ['('] + body + [')'];
    assert RFind(line, ')') == RFind(init, ')') == |line| - 2;
    assert Find(line, '(') == 0;
    assert Slice(line, 1, |line| - 2) == body;
  }

  /** A list of one group expands to that group's field specs. */
  lemma FlatGroupsOne(g: string)
    ensures FlatGroups([g]) == GroupForms(g)
  {
    assert [g][..0] == [];
  }

  /** A list of two groups expands to the first group's field specs, then the second's. */
  lemma FlatGroupsTwo(g1: string, g2: string)
    ensures FlatGroups([g1, g2]) == GroupForms(g1) + GroupForms(g2)
  {
    assert [g1, g2][..1] == [g1];
    FlatGroupsOne(g1);
  }

  /** A descriptor `(<c1><c2><k><w>)`: one group of a two-digit count, a kind letter and a one-digit width. */
  lemma OneGroupLine(c1: char, c2: char, k: char, w: char)
    requires IsDigit(c1) && IsDigit(c2) && !IsDigit(k) && k != ',' && IsDigit(w)
    ensures FormatOf(['(', c1, c2, k, w, ')', '\n']) ==
      Repeat(FieldSpec([k], DigitValue(w), 0), 10 * DigitValue(c1) + DigitValue(c2))
  {
    var body := [c1, c2, k, w];
    assert ['(', c1, c2, k, w, ')', '\n'] == ['('] + body + [')', '\n'];
    BracketedGroups(body);
    SplitWord(body, ',');
    FlatGroupsOne(body);
    assert body == [c1, c2] + [k] + [w];
    TwoDigits(c1, c2);
    OneDigit(w);
    GroupExpands([c1, c2], [k], [w]);
  }

  /** A group `<c><k><w>`: one-digit count, one kind letter, one-digit width. */
  lemma ShortGroup(c: char, k: char, w: char)
    requires IsDigit(c) && !IsDigit(k) && IsDigit(w)
    ensures GroupForms([c, k, w]) == Repeat(FieldSpec([k], DigitValue(w), 0), DigitValue(c))
  {
    assert [c, k, w] == [c] + [k] + [w];
    OneDigit(c);
    OneDigit(w);
    GroupExpands([c], [k], [w]);
  }

  /** A group `<c><k><w1><w2>.<d>`: one-digit count, one kind letter, two-digit width, one decimal. */
  lemma DecimalGroup(c: char, k: char, w1: char, w2: char, d: char)
    requires IsDigit(c) && !IsDigit(k) && IsDigit(w1) && IsDigit(w2) && IsDigit(d)
    ensures GroupForms([c, k, w1, w2, '.', d]) ==
      Repeat(FieldSpec([k], 10 * DigitValue(w1) + DigitValue(w2), DigitValue(d)), DigitValue(c))
  {
    assert [c, k, w1, w2, '.', d] == [c] + [k] + [w1, w2] + "." + [d];
    OneDigit(c);
    OneDigit(d);
    TwoDigits(w1, w2);
    GroupExpandsWithDecimals([c], [k], [w1, w2], [d]);
  }

  /** A line `(<g1>,<g2>)` whose groups hold no comma has exactly those two groups. */
  lemma TwoGroups(g1: string, g2: string)
    requires ',' !in g1 && ',' !in g2
    ensures FormatOf(['('] + g1 + [','] + g2 + [')', '\n']) == GroupForms(g1) + GroupForms(g2)
  {
    var body := g1 + [','] + g2;
    assert ['('] + g1 + [','] + g2 + [')', '\n'] == ['('] + body + [')', '\n'];
    BracketedGroups(body);
    assert [g1, g2][1..] == [g2];
    assert Join([g1, g2], ',') == body;
    SplitJoin([g1, g2], ',');
    FlatGroupsTwo(g1, g2);
  }

  /**
   * A descriptor `(<c><k><w>,<c2><k2><w1><w2>.<d>)`: a group of one-digit
   * count and width, then a group of one-digit count, two-digit width and
   * one decimal.
   */
  lemma TwoGroupLine(c: char, k: char, w: char, c2: char, k2: char, w1: char, w2: char, d: char)
    requires IsDigit(c) && !IsDigit(k) && k != ',' && IsDigit(w)
    requires IsDigit(c2) && !IsDigit(k2) && k2 != ',' && IsDigit(w1) && IsDigit(w2) && IsDigit(d)
    ensures FormatOf(['(', c, k, w, ',', c2, k2, w1, w2, '.', d, ')', '\n']) ==
      Repeat(FieldSpec([k], DigitValue(w), 0), DigitValue(c))
      + Repeat(FieldSpec([k2], 10 * DigitValue(w1) + DigitValue(w2), DigitValue(d)), DigitValue(c2))
  {
    var g1 := [c, k, w];
    var g2 := [c2, k2, w1, w2, '.', d];
    assert ['(', c, k, w, ',', c2, k2, w1, w2, '.', d, ')', '\n'] == ['('] + g1 + [','] + g2 + [')', '\n'];
    TwoGroups(g1, g2);
    ShortGroup(c, k, w);
    DecimalGroup(c2, k2, w1, w2, d);
  }

  lemma ElementDescriptorForms()
    ensures FormatOf("(19i8)\n") == Repeat(FieldSpec("i", 8, 0), 19)
  {
    OneGroupLine('1', '9', 'i', '8');
  }

  /** The element-block descriptor written by the exporter: nineteen columns of width 8. */
  lemma ElementDescriptor()
    ensures |FormatOf("(19i8)\n")| == 19
    ensures forall i :: 0 <= i < 19 ==> FormatOf("(19i8)\n")[i].width == 8
  {
    ElementDescriptorForms();
  }

  lemma NodeDescriptorForms()
    ensures FormatOf("(3i8,6g16.9)\n") == Repeat(FieldSpec("i", 8, 0), 3) + Repeat(FieldSpec("g", 16, 9), 6)
  {
    TwoGroupLine('3', 'i', '8', '6', 'g', '1', '6', '9');
  }

  /** The node-block descriptor written by the exporter: three columns of 8, then six of 16. */
  lemma NodeDescriptor()
    ensures |FormatOf("(3i8,6g16.9)\n")| == 9
    ensures forall i :: 0 <= i < 3 ==> FormatOf("(3i8,6g16.9)\n")[i].width == 8
    ensures forall i :: 3 <= i < 9 ==> FormatOf("(3i8,6g16.9)\n")[i].width == 16
  {
    NodeDescriptorForms();
    var a := Repeat(FieldSpec("i", 8, 0), 3);
    var b := Repeat(FieldSpec("g", 16, 9), 6);
    assert forall i :: 3 <= i < 9 ==> (a + b)[i] == b[i - 3];
  }
}
