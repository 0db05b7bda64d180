/**
 * The one-line commands of the CDB reader (import_cdb.py:40-166, 374-441):
 * splitting a command line into tokens, and the effect of `N`, `EN`, `ET`,
 * `TYPE`, `MAT` and `REAL` on the reader's tables and selectors.
 */
module CdbCommands {
  import opened Wrappers
  import opened PyText
  import opened OrderedMaps
  import opened Faults

  /** A node's coordinates; `C` is the coordinate type, which the reader only copies. */
  datatype Point<C> = Point(x: C, y: C, z: C)

  /**
   * The current element, material, real constant and type: the defaults an
   * `EN` command takes for what it does not say.
   */
  datatype Selectors = Selectors(element: int, mat: int, realConst: int, typ: int)

  /**
   * What the reader builds: nodes by number, elements by number as
   * [mat, real, type, node1, node2, ...] in insertion order, element types
   * (type number to element family), and the selectors.
   */
  datatype Tables<C> = Tables(
    nodes: map<int, Point<C>>,
    elements: OMap<int, seq<int>>,
    et: OMap<int, int>,
    sel: Selectors)
  {
    predicate Valid() {
      elements.Valid() && et.Valid()
    }
  }

  /** All four selectors start at 1. */
  function Initial<C>(): (t: Tables<C>)
    ensures t.Valid()
  {
    Tables(map[], Empty(), Empty(), Selectors(1, 1, 1, 1))
  }

  /** `first_line.split(',')` with every token stripped and lower-cased. */
  function Tokenize(line: string): (tokens: seq<string>)
    ensures |tokens| == |Split(line, ',')| >= 1
  {
    var parts := Split(line, ',');
    seq(|parts|, i requires 0 <= i < |parts| => Lower(Strip(parts[i])))
  }

  /** A line written as comma-separated bare lower-case words tokenizes back to those words. */
  lemma TokenizeJoin(words: seq<string>)
    requires |words| >= 1
    requires forall i :: 0 <= i < |words| ==> ',' !in words[i] && Strip(words[i]) == words[i] && Lower(words[i]) == words[i]
    ensures Tokenize(Join(words, ',')) == words
  {
    SplitJoin(words, ',');
  }

  /** `int(tokens[i])`, where a missing token fails like an unparsable one. */
  function IntAt(tokens: seq<string>, i: nat): Option<int> {
    if i < |tokens| then ParseInt(tokens[i]) else None
  }

  /** `float(tokens[i])`, falling back to `zero` when the token is missing or does not parse. */
  function CoordAt<C>(tokens: seq<string>, i: nat, parseFloat: string -> Option<C>, zero: C): C {
    if i < |tokens| then parseFloat(tokens[i]).GetOr(zero) else zero
  }

  // ----- N -----

  /** `readN`: `N, R5.3, LOC, node, solid, parm, x, y, z`. */
  function ApplyN<C>(t: Tables<C>, tokens: seq<string>, parseFloat: string -> Option<C>, zero: C): Tables<C> {
    if |tokens| < 4 || tokens[2] != "loc" then t
    else
      match ParseInt(tokens[3])
      case None => t
      case Some(id) =>
        if id <= 0 then t
        else
          var p := Point(CoordAt(tokens, 6, parseFloat, zero), CoordAt(tokens, 7, parseFloat, zero), CoordAt(tokens, 8, parseFloat, zero));
          t.(nodes := t.nodes[id := p])
  }

  /**
   * `N` writes node `tokens[3]` exactly when there are four tokens, the third
   * is `loc` and the fourth is a positive integer; nothing else changes.
   */
  lemma NWritesOnlyValidNode<C>(t: Tables<C>, tokens: seq<string>, parseFloat: string -> Option<C>, zero: C)
    ensures var r := ApplyN(t, tokens, parseFloat, zero);
      r.elements == t.elements && r.et == t.et && r.sel == t.sel
      && (r.nodes != t.nodes ==>
            (|tokens| >= 4 && tokens[2] == "loc" && ParseInt(tokens[3]).Some? && ParseInt(tokens[3]).value > 0))
      && (|tokens| >= 4 && tokens[2] == "loc" && ParseInt(tokens[3]).Some? && ParseInt(tokens[3]).value > 0 ==>
            var id := ParseInt(tokens[3]).value;
            r.nodes.Keys == t.nodes.Keys + {id}
            && (forall k :: k in t.nodes && k != id ==> r.nodes[k] == t.nodes[k]))
  {
  }

  /** Each coordinate is the parsed token at positions 6, 7, 8, and 0 when that token is missing or not a number. */
  lemma NCoordinates<C>(t: Tables<C>, tokens: seq<string>, parseFloat: string -> Option<C>, zero: C, id: int)
    requires |tokens| >= 4 && tokens[2] == "loc" && ParseInt(tokens[3]) == Some(id) && id > 0
    ensures id in ApplyN(t, tokens, parseFloat, zero).nodes
    ensures var p := ApplyN(t, tokens, parseFloat, zero).nodes[id];
      (p.x == if |tokens| > 6 && parseFloat(tokens[6]).Some? then parseFloat(tokens[6]).value else zero)
      && (p.y == if |tokens| > 7 && parseFloat(tokens[7]).Some? then parseFloat(tokens[7]).value else zero)
      && (p.z == if |tokens| > 8 && parseFloat(tokens[8]).Some? then parseFloat(tokens[8]).value else zero)
  {
  }

  // ----- EN -----

  /** `int()` of every token, or None as soon as one fails. */
  function AllInts(tokens: seq<string>): Option<seq<int>>
    decreases |tokens|
  {
    if |tokens| == 0 then Some([])
    else
      match AllInts(tokens[..|tokens| - 1])
      case None => None
      case Some(init) =>
        match ParseInt(tokens[|tokens| - 1])
        case None => None
        case Some(v) => Some(init + [v])
  }

  lemma {:induction false} AllIntsOk(tokens: seq<string>)
    ensures AllInts(tokens).Some? <==> forall i :: 0 <= i < |tokens| ==> ParseInt(tokens[i]).Some?
    decreases |tokens|
  {
    if |tokens| > 0 {
      var init := tokens[..|tokens| - 1];
      AllIntsOk(init);
      if AllInts(init).None? {
        var i :| 0 <= i < |init| && ParseInt(init[i]).None?;
        assert tokens[i] == init[i];
      } else if ParseInt(tokens[|tokens| - 1]).Some? {
        forall i | 0 <= i < |tokens| ensures ParseInt(tokens[i]).Some? {
          if i < |init| {
            assert tokens[i] == init[i];
          }
        }
      }
    }
  }

  lemma {:induction false} AllIntsValues(tokens: seq<string>)
    requires AllInts(tokens).Some?
    ensures |AllInts(tokens).value| == |tokens|
    ensures forall i :: 0 <= i < |tokens| ==> Some(AllInts(tokens).value[i]) == ParseInt(tokens[i])
    decreases |tokens|
  {
    if |tokens| > 0 {
      var init := tokens[..|tokens| - 1];
      var vs := AllInts(init).value;
      var v := ParseInt(tokens[|tokens| - 1]).value;
      assert AllInts(tokens).value == vs + [v];
      AllIntsValues(init);
      forall i | 0 <= i < |tokens| ensures Some(AllInts(tokens).value[i]) == ParseInt(tokens[i]) {
        if i < |init| {
          assert tokens[i] == init[i];
        }
      }
    }
  }

  /** `AllInts` succeeds exactly when every token parses, and then holds each token's value in order. */
  lemma AllIntsSpec(tokens: seq<string>)
    ensures AllInts(tokens).Some? <==> forall i :: 0 <= i < |tokens| ==> ParseInt(tokens[i]).Some?
    ensures AllInts(tokens).Some? ==>
      |AllInts(tokens).value| == |tokens|
      && forall i :: 0 <= i < |tokens| ==> Some(AllInts(tokens).value[i]) == ParseInt(tokens[i])
  {
    AllIntsOk(tokens);
    if AllInts(tokens).Some? {
      AllIntsValues(tokens);
    }
  }

  /** `readEN`: `EN, R5.5, ATTR, n, mat, type, real, secnum, esys, element...` or `EN, R5.5, NODE, n, node...`. */
  function ApplyEN<C>(t: Tables<C>, tokens: seq<string>): Tables<C> {
    if |tokens| < 4 then t
    else if tokens[2] == "attr" then
      var mat := IntAt(tokens, 4).GetOr(t.sel.mat);
      var typ := IntAt(tokens, 5).GetOr(t.sel.typ);
      var realConst := IntAt(tokens, 6).GetOr(t.sel.realConst);
      var number := IntAt(tokens, 9).GetOr(t.sel.element);
      var data :=
        if number in t.elements.values && |t.elements.values[number]| >= 3
        then [mat, realConst, typ] + t.elements.values[number][3..]
        else [mat, realConst, typ];
      t.(elements := t.elements.Put(number, data), sel := t.sel.(element := number))
    else if tokens[2] == "node" then
      var base :=
        if t.sel.element in t.elements.values then t.elements.values[t.sel.element]
        else [t.sel.mat, t.sel.realConst, t.sel.typ];
      match AllInts(tokens[4..])
      case None => t
      case Some(ids) => t.(elements := t.elements.Put(t.sel.element, base + ids))
    else t
  }

  /**
   * `EN, NODE` appends all of `tokens[4:]` to the current element, or to
   * [mat, real, type] from the selectors when the element is new; if any
   * token fails to parse nothing changes.
   */
  lemma ENNodeAppends<C>(t: Tables<C>, tokens: seq<string>)
    requires |tokens| >= 4 && tokens[2] == "node"
    ensures var r := ApplyEN(t, tokens);
      r.nodes == t.nodes && r.et == t.et && r.sel == t.sel
      && ((exists i :: 4 <= i < |tokens| && ParseInt(tokens[i]).None?) ==> r == t)
      && ((forall i :: 4 <= i < |tokens| ==> ParseInt(tokens[i]).Some?) ==>
            var e := t.sel.element;
            var base := if e in t.elements.values then t.elements.values[e] else [t.sel.mat, t.sel.realConst, t.sel.typ];
            e in r.elements.values
            && |r.elements.values[e]| == |base| + |tokens| - 4
            && r.elements.values[e][..|base|] == base
            && (forall i :: 4 <= i < |tokens| ==> Some(r.elements.values[e][|base| + i - 4]) == ParseInt(tokens[i]))
            && (forall k :: k in t.elements.values && k != e ==> k in r.elements.values && r.elements.values[k] == t.elements.values[k]))
  {
    var rest := tokens[4..];
    AllIntsSpec(rest);
    assert forall i :: 4 <= i < |tokens| ==> tokens[i] == rest[i - 4];
    if exists i :: 4 <= i < |tokens| && ParseInt(tokens[i]).None? {
      var i :| 4 <= i < |tokens| && ParseInt(tokens[i]).None?;
      assert ParseInt(rest[i - 4]).None?;
    }
  }

  /**
   * `EN, ATTR` replaces only the first three entries (mat, realConst, type) of an
   * existing element and keeps its nodes, and gives any other element exactly
   * those three entries; an attribute that does not parse
   * is taken from the selectors, and a parsable `tokens[9]` becomes the
   * current element.
   */
  lemma ENAttrReplaces<C>(t: Tables<C>, tokens: seq<string>)
    requires |tokens| >= 4 && tokens[2] == "attr"
    ensures var r := ApplyEN(t, tokens);
      var number := if IntAt(tokens, 9).Some? then IntAt(tokens, 9).value else t.sel.element;
      r.nodes == t.nodes && r.et == t.et
      && r.sel == t.sel.(element := number)
      && number in r.elements.values
      && r.elements.values[number][..3] == [
           if IntAt(tokens, 4).Some? then IntAt(tokens, 4).value else t.sel.mat,
           if IntAt(tokens, 6).Some? then IntAt(tokens, 6).value else t.sel.realConst,
           if IntAt(tokens, 5).Some? then IntAt(tokens, 5).value else t.sel.typ]
      && (number in t.elements.values && |t.elements.values[number]| >= 3 ==>
            r.elements.values[number][3..] == t.elements.values[number][3..])
      && (!(number in t.elements.values && |t.elements.values[number]| >= 3) ==>
            |r.elements.values[number]| == 3)
      && (forall k :: k in t.elements.values && k != number ==> k in r.elements.values && r.elements.values[k] == t.elements.values[k])
  {
  }

  /**
   * `readEN` as written.  Its `global current_element` names a module-level
   * variable, which `current` holds (None until an `EN, ATTR` with a number
   * assigns it), while `current_mat`, `current_real` and `current_type` are
   * read from the enclosing `read3DMesh`, where they stay 1: `readMAT`,
   * `readREAL`, `readTYPE` and `readET` assign module-level variables of the
   * same names instead.
   */
  function ApplyENAsWritten<C>(t: Tables<C>, current: Option<int>, tokens: seq<string>): Outcome<(Tables<C>, Option<int>)> {
    if |tokens| < 4 then Ok((t, current))
    else if tokens[2] == "attr" then
      var mat := IntAt(tokens, 4).GetOr(1);
      var typ := IntAt(tokens, 5).GetOr(1);
      var realConst := IntAt(tokens, 6).GetOr(1);
      var current' := if IntAt(tokens, 9).Some? then IntAt(tokens, 9) else current;
      if current'.None? then Failed(ElementUndefined)
      else
        var number := current'.value;
        var data :=
          if number in t.elements.values && |t.elements.values[number]| >= 3
          then [mat, realConst, typ] + t.elements.values[number][3..]
          else [mat, realConst, typ];
        Ok((t.(elements := t.elements.Put(number, data)), current'))
    else if tokens[2] == "node" then
      if current.None? then Failed(ElementUndefined)
      else
        var e := current.value;
        var base := if e in t.elements.values then t.elements.values[e] else [1, 1, 1];
        match AllInts(tokens[4..])
        case None => Ok((t, current))
        case Some(ids) => Ok((t.(elements := t.elements.Put(e, base + ids)), current))
    else Ok((t, current))
  }

  /**
   * While the selectors hold their initial 1 and the module-level current
   * element is the selected one, the written `EN` does what the repaired one
   * does to the tables.
   */
  lemma ENAsWrittenAgrees<C>(t: Tables<C>, tokens: seq<string>)
    requires t.sel.mat == 1 && t.sel.realConst == 1 && t.sel.typ == 1
    ensures ApplyENAsWritten(t, Some(t.sel.element), tokens)
         == Ok((ApplyEN(t, tokens).(sel := t.sel), Some(ApplyEN(t, tokens).sel.element)))
  {
  }

  /**
   * the tokens of `MAT,5` and then `EN,R5.5,ATTR,0,,,,,,7`: repaired, element 7 gets
   * material 5; as written it gets material 1, and an `EN, NODE` before any
   * numbered `EN, ATTR` raises.
   */
  lemma MaterialIgnored<C>(t: Tables<C>)
    requires t == Initial()
    ensures var tokens := ["en", "r5.5", "attr", "0", "", "", "", "", "", "7"];
      var repaired := ApplyEN(ApplyMAT(t, ["mat", "5"]), tokens);
      var written := ApplyENAsWritten(ApplyMAT(t, ["mat", "5"]), None, tokens);
      && 7 in repaired.elements.values && repaired.elements.values[7] == [5, 1, 1]
      && written.Ok? && 7 in written.value.0.elements.values && written.value.0.elements.values[7] == [1, 1, 1]
    ensures ApplyENAsWritten(t, None, ["en", "r5.5", "node", "0", "3"]) == Failed(ElementUndefined)
  {
    ParseDigits("5");
    ParseDigits("7");
    assert DigitsValue("5") == 5 && DigitsValue("7") == 7 by {
      assert "5"[..0] == "" && "7"[..0] == "";
    }
    assert ParseInt("") == None;
  }

  // ----- ET -----

  /** The largest of a non-empty list of numbers. */
  function MaxOf(keys: seq<int>): int
    requires |keys| > 0
  {
    if |keys| == 1 then keys[0]
    else
      var m := MaxOf(keys[..|keys| - 1]);
      if keys[|keys| - 1] > m then keys[|keys| - 1] else m
  }

  lemma {:induction false} MaxOfSpec(keys: seq<int>)
    requires |keys| > 0
    ensures MaxOf(keys) in keys
    ensures forall k :: k in keys ==> k <= MaxOf(keys)
  {
    if |keys| > 1 {
      MaxOfSpec(keys[..|keys| - 1]);
      assert keys == keys[..|keys| - 1] + [keys[|keys| - 1]];
    }
  }

  /** `max(global_et) + 1`, or 1 for an empty table: the number `ET` takes when it names none. */
  function NextTypeNumber(et: OMap<int, int>): int {
    if |et.keys| == 0 then 1 else MaxOf(et.keys) + 1
  }

  /** The default number is new: no type number in the table is as large. */
  lemma NextTypeNumberFresh(et: OMap<int, int>)
    requires et.Valid()
    ensures NextTypeNumber(et) !in et.values
    ensures forall k :: k in et.values ==> k < NextTypeNumber(et)
  {
    if |et.keys| > 0 {
      MaxOfSpec(et.keys);
    }
    forall k | k in et.values ensures k < NextTypeNumber(et) {
      var i :| 0 <= i < |et.keys| && et.keys[i] == k;
      assert et.keys[i] in et.keys;
    }
  }

  /** Defining type `id` as `family` also selects it. */
  function DefineType<C>(t: Tables<C>, id: int, family: int): Tables<C> {
    t.(et := t.et.Put(id, family), sel := t.sel.(typ := id))
  }

  /**
   * `readET` as it is evidently meant: `ET, itype, family`; an empty `itype`
   * takes the next free number.  Anything that does not parse changes nothing.
   */
  function ApplyET<C>(t: Tables<C>, tokens: seq<string>): Tables<C> {
    if |tokens| < 3 then t
    else if tokens[1] == "" then
      match ParseInt(tokens[2])
      case None => t
      case Some(family) => DefineType(t, NextTypeNumber(t.et), family)
    else
      match (ParseInt(tokens[1]), ParseInt(tokens[2]))
      case (Some(id), Some(family)) => DefineType(t, id, family)
      case _ => t
  }

  /** `readET` as written: with an empty `itype` the family is never parsed, and storing it raises. */
  function ApplyETAsWritten<C>(t: Tables<C>, tokens: seq<string>): Outcome<Tables<C>> {
    if |tokens| < 3 then Ok(t)
    else if tokens[1] == "" then Failed(TypeUnbound)
    else
      match (ParseInt(tokens[1]), ParseInt(tokens[2]))
      case (Some(id), Some(family)) => Ok(DefineType(t, id, family))
      case _ => Ok(t)
  }

  /**
   * `ET` with an integer id and an integer family sets `et[id] = family` and
   * selects type `id`; otherwise nothing changes.
   */
  lemma ETDefines<C>(t: Tables<C>, tokens: seq<string>)
    requires |tokens| >= 3 && tokens[1] != ""
    ensures var r := ApplyET(t, tokens);
      r.nodes == t.nodes && r.elements == t.elements
      && (ParseInt(tokens[1]).Some? && ParseInt(tokens[2]).Some? ==>
            r.et.values == t.et.values[ParseInt(tokens[1]).value := ParseInt(tokens[2]).value]
            && r.sel == t.sel.(typ := ParseInt(tokens[1]).value))
      && (ParseInt(tokens[1]).None? || ParseInt(tokens[2]).None? ==> r == t)
  {
  }

  /** Where the written `ET` does not raise, it does what the repaired one does. */
  lemma ETAsWrittenAgrees<C>(t: Tables<C>, tokens: seq<string>)
    requires |tokens| < 3 || tokens[1] != ""
    ensures ApplyETAsWritten(t, tokens) == Ok(ApplyET(t, tokens))
  {
  }

  /** A line of three comma-separated words tokenizes to the three words, stripped and lower-cased. */
  lemma TokenizeThreeWords(w1: string, w2: string, w3: string)
    requires ',' !in w1 && ',' !in w2 && ',' !in w3
    ensures Tokenize(w1 + [','] + w2 + [','] + w3) == [Lower(Strip(w1)), Lower(Strip(w2)), Lower(Strip(w3))]
  {
    var parts := [w1, w2, w3];
    assert parts[1..] == [w2, w3] && parts[1..][1..] == [w3];
    assert Join([w2, w3], ',') == w2 + [','] + w3;
    assert Join(parts, ',') == w1 + [','] + (w2 + [','] + w3);
    assert w1 + [','] + (w2 + [','] + w3) == w1 + [','] + w2 + [','] + w3;
    SplitJoin(parts, ',');
  }

  /** The tokens of a line `<a><b>,,<c1><c2><c3>` and its line break: a two-letter command, an empty field, a number. */
  lemma TokensOfEmptyField(a: char, b: char, c1: char, c2: char, c3: char)
    requires 'A' <= a <= 'Z' && 'A' <= b <= 'Z' && IsDigit(c1) && IsDigit(c2) && IsDigit(c3)
    ensures Tokenize([a, b, ',', ',', c1, c2, c3, '\n']) == [[LowerChar(a), LowerChar(b)], "", [c1, c2, c3]]
  {
    assert [a, b, ',', ',', c1, c2, c3, '\n'] == [a, b] + [','] + [] + [','] + [c1, c2, c3, '\n'];
    TokenizeThreeWords([a, b], [], [c1, c2, c3, '\n']);
    StripWord([a, b]);
    assert [c1, c2, c3, '\n'] == "" + [c1, c2, c3] + "\n";
    StripOf("", [c1, c2, c3], "\n");
    assert Strip([]) == [];
    assert Lower([a, b]) == [LowerChar(a), LowerChar(b)];
    assert Lower([c1, c2, c3]) == [c1, c2, c3];
    assert Lower([]) == [];
  }

  /** Three digits parse as their decimal value. */
  lemma ParseThreeDigits(c1: char, c2: char, c3: char)
    requires IsDigit(c1) && IsDigit(c2) && IsDigit(c3)
    ensures ParseInt([c1, c2, c3]) == Some(100 * DigitValue(c1) + 10 * DigitValue(c2) + DigitValue(c3))
  {
    ThreeDigits(c1, c2, c3);
    ParseDigits([c1, c2, c3]);
  }

  lemma TokensOfDefaultET()
    ensures Tokenize("ET,,186\n") == ["et", "", "186"]
  {
    TokensOfEmptyField('E', 'T', '1', '8', '6');
  }

  /** On an empty type table, `ET` without a number raises as written; repaired, two of them define types 1 and 2. */
  lemma ETDefaultTwice<C>(t: Tables<C>, tokens: seq<string>, family: int)
    requires t.Valid() && t.et == Empty()
    requires |tokens| >= 3 && tokens[1] == "" && ParseInt(tokens[2]) == Some(family)
    ensures ApplyETAsWritten(t, tokens) == Failed(TypeUnbound)
    ensures var once := ApplyET(t, tokens);
      var twice := ApplyET(once, tokens);
      once.et.values == map[1 := family] && once.sel.typ == 1
      && twice.et.values == map[1 := family, 2 := family] && twice.sel.typ == 2
  {
    var once := ApplyET(t, tokens);
    assert once.et.keys == [1];
    assert MaxOf([1]) == 1;
  }

  /** `ET,,186` on an empty table raises as written; repaired, two of them define types 1 and 2. */
  lemma ETDefaultNumbers<C>(t: Tables<C>)
    requires t.Valid() && t.et == Empty()
    ensures ApplyETAsWritten(t, Tokenize("ET,,186\n")) == Failed(TypeUnbound)
    ensures var once := ApplyET(t, Tokenize("ET,,186\n"));
      var twice := ApplyET(once, Tokenize("ET,,186\n"));
      once.et.values == map[1 := 186] && once.sel.typ == 1
      && twice.et.values == map[1 := 186, 2 := 186] && twice.sel.typ == 2
  {
    TokensOfDefaultET();
    ParseThreeDigits('1', '8', '6');
    ETDefaultTwice(t, Tokenize("ET,,186\n"), 186);
  }

  // ----- selectors -----

  /** `readTYPE`, `readMAT`, `readREAL`: the selector changes only when `tokens[1]` exists and parses. */
  function ApplyTYPE<C>(t: Tables<C>, tokens: seq<string>): Tables<C> {
    match IntAt(tokens, 1)
    case None => t
    case Some(v) => t.(sel := t.sel.(typ := v))
  }

  function ApplyMAT<C>(t: Tables<C>, tokens: seq<string>): Tables<C> {
    match IntAt(tokens, 1)
    case None => t
    case Some(v) => t.(sel := t.sel.(mat := v))
  }

  function ApplyREAL<C>(t: Tables<C>, tokens: seq<string>): Tables<C> {
    match IntAt(tokens, 1)
    case None => t
    case Some(v) => t.(sel := t.sel.(realConst := v))
  }

  /** A selector command leaves the tables alone and sets its one selector, or nothing on a parse failure. */
  lemma SelectorCommands<C>(t: Tables<C>, tokens: seq<string>)
    ensures ApplyTYPE(t, tokens).sel.typ == (if IntAt(tokens, 1).Some? then IntAt(tokens, 1).value else t.sel.typ)
    ensures ApplyMAT(t, tokens).sel.mat == (if IntAt(tokens, 1).Some? then IntAt(tokens, 1).value else t.sel.mat)
    ensures ApplyREAL(t, tokens).sel.realConst == (if IntAt(tokens, 1).Some? then IntAt(tokens, 1).value else t.sel.realConst)
    ensures ApplyTYPE(t, tokens) == t.(sel := t.sel.(typ := ApplyTYPE(t, tokens).sel.typ))
    ensures ApplyMAT(t, tokens) == t.(sel := t.sel.(mat := ApplyMAT(t, tokens).sel.mat))
    ensures ApplyREAL(t, tokens) == t.(sel := t.sel.(realConst := ApplyREAL(t, tokens).sel.realConst))
  {
  }

  /** Every one-line command keeps the tables well formed. */
  lemma CommandsKeepValid<C>(t: Tables<C>, tokens: seq<string>, parseFloat: string -> Option<C>, zero: C)
    requires t.Valid()
    ensures ApplyN(t, tokens, parseFloat, zero).Valid()
    ensures ApplyEN(t, tokens).Valid()
    ensures ApplyET(t, tokens).Valid()
    ensures ApplyTYPE(t, tokens).Valid() && ApplyMAT(t, tokens).Valid() && ApplyREAL(t, tokens).Valid()
  {
  }
}
