/**
 * The Python string and integer builtins the CDB reader and writer rely on:
 * `str.strip`, `str.lower`, `str.split`, slicing, `int()` and the `%8i` format.
 */
module PyText {
  import opened Wrappers

  /** Python's `str.isspace()` on one character (the characters `strip()` removes). */
  predicate IsSpace(c: char) {
    c == ' ' || ('\t' <= c <= '\r') || ('\U{1c}' <= c <= '\U{1f}') || c == '\U{85}' || c == '\U{a0}'
    || c == '\U{1680}' || ('\U{2000}' <= c <= '\U{200a}') || c == '\U{2028}' || c == '\U{2029}'
    || c == '\U{202f}' || c == '\U{205f}' || c == '\U{3000}'
  }

  /** An ASCII decimal digit. */
  predicate IsDigit(c: char) {
    '0' <= c <= '9'
  }

  predicate AllDigits(s: string) {
    forall i :: 0 <= i < |s| ==> IsDigit(s[i])
  }

  predicate AllSpaces(s: string) {
    forall i :: 0 <= i < |s| ==> IsSpace(s[i])
  }

  /** `s.lstrip()`: the longest suffix of `s` that does not start with white space. */
  function TrimLeft(s: string): string
    decreases |s|
  {
    if |s| > 0 && IsSpace(s[0]) then TrimLeft(s[1..]) else s
  }

  /** `s.rstrip()`: the longest prefix of `s` that does not end with white space. */
  function TrimRight(s: string): string
    decreases |s|
  {
    if |s| > 0 && IsSpace(s[|s| - 1]) then TrimRight(s[..|s| - 1]) else s
  }

  /** `rstrip` keeps a prefix, and keeps at least the first character when that is not white space. */
  lemma {:induction false} TrimRightPrefix(s: string)
    ensures |TrimRight(s)| <= |s| && TrimRight(s) == s[..|TrimRight(s)|]
    ensures |s| > 0 && !IsSpace(s[0]) ==> |TrimRight(s)| > 0
    decreases |s|
  {
    if |s| > 0 && IsSpace(s[|s| - 1]) {
      TrimRightPrefix(s[..|s| - 1]);
    }
  }

  /** `s.strip()`. */
  function Strip(s: string): string {
    TrimRight(TrimLeft(s))
  }

  lemma {:induction false} TrimLeftOf(pre: string, t: string)
    requires AllSpaces(pre)
    requires t == [] || !IsSpace(t[0])
    ensures TrimLeft(pre + t) == t
    decreases |pre|
  {
    if |pre| > 0 {
      assert (pre + t)[1..] == pre[1..] + t;
      TrimLeftOf(pre[1..], t);
    } else {
      assert pre + t == t;
    }
  }

  lemma {:induction false} TrimRightOf(t: string, post: string)
    requires AllSpaces(post)
    requires t == [] || !IsSpace(t[|t| - 1])
    ensures TrimRight(t + post) == t
    decreases |post|
  {
    if |post| > 0 {
      assert (t + post)[..|t + post| - 1] == t + post[..|post| - 1];
      TrimRightOf(t, post[..|post| - 1]);
    } else {
      assert t + post == t;
    }
  }

  /** Stripping removes exactly the white space around a word that neither starts nor ends with white space. */
  lemma StripOf(pre: string, t: string, post: string)
    requires AllSpaces(pre) && AllSpaces(post)
    requires t == [] || (!IsSpace(t[0]) && !IsSpace(t[|t| - 1]))
    ensures Strip(pre + t + post) == t
  {
    if t == [] {
      assert pre + t + post == (pre + post) + [];
      TrimLeftOf(pre + post, []);
    } else {
      assert pre + t + post == pre + (t + post);
      TrimLeftOf(pre, t + post);
      TrimRightOf(t, post);
    }
  }

  /** ASCII lower-casing of one character. */
  function LowerChar(c: char): char {
    if 'A' <= c <= 'Z' then (c as int + 32) as char else c
  }

  /** `s.lower()`, restricted to ASCII letters. */
  function Lower(s: string): string {
    seq(|s|, i requires 0 <= i < |s| => LowerChar(s[i]))
  }

  /** `sep.join(parts)`. */
  function Join(parts: seq<string>, sep: char): string {
    if |parts| == 0 then ""
    else if |parts| == 1 then parts[0]
    else parts[0] + [sep] + Join(parts[1..], sep)
  }

  /** `s.split(sep)` for a one-character separator: the pieces between separators, empty ones included. */
  function Split(s: string, sep: char): (r: seq<string>)
    ensures |r| >= 1
    decreases |s|
  {
    if |s| == 0 then [""]
    else
      var rest := Split(s[1..], sep);
      if s[0] == sep then [""] + rest
      else [[s[0]] + rest[0]] + rest[1..]
  }

  /** The pieces hold no separator, and joining them gives the text back. */
  lemma {:induction false} JoinSplit(s: string, sep: char)
    ensures forall i :: 0 <= i < |Split(s, sep)| ==> sep !in Split(s, sep)[i]
    ensures Join(Split(s, sep), sep) == s
    decreases |s|
  {
    if |s| > 0 {
      var rest := Split(s[1..], sep);
      JoinSplit(s[1..], sep);
      if s[0] == sep {
        assert Join([""] + rest, sep) == "" + [sep] + Join(rest, sep);
        assert s == [sep] + s[1..];
      } else {
        var r := [[s[0]] + rest[0]] + rest[1..];
        assert r[1..] == rest[1..];
        assert s == [s[0]] + s[1..];
        if |rest| > 1 {
          assert Join(rest, sep) == rest[0] + [sep] + Join(rest[1..], sep);
        }
      }
    }
  }

  lemma {:induction false} SplitPrefix(a: string, b: string, sep: char)
    requires sep !in a
    ensures Split(a + [sep] + b, sep) == [a] + Split(b, sep)
    decreases |a|
  {
    if |a| == 0 {
      assert (a + [sep] + b)[1..] == b;
    } else {
      assert (a + [sep] + b)[1..] == a[1..] + [sep] + b;
      SplitPrefix(a[1..], b, sep);
      assert [a[0]] + a[1..] == a;
    }
  }

  lemma {:induction false} SplitWord(a: string, sep: char)
    requires sep !in a
    ensures Split(a, sep) == [a]
    decreases |a|
  {
    if |a| > 0 {
      SplitWord(a[1..], sep);
      assert [a[0]] + a[1..] == a;
    }
  }

  /** Splitting inverts joining when no piece holds the separator. */
  lemma {:induction false} SplitJoin(parts: seq<string>, sep: char)
    requires |parts| >= 1
    requires forall i :: 0 <= i < |parts| ==> sep !in parts[i]
    ensures Split(Join(parts, sep), sep) == parts
    decreases |parts|
  {
    if |parts| == 1 {
      SplitWord(parts[0], sep);
    } else {
      SplitJoin(parts[1..], sep);
      SplitPrefix(parts[0], Join(parts[1..], sep), sep);
      assert [parts[0]] + parts[1..] == parts;
    }
  }

  /**
   * Python's `s[i:j]` for non-negative bounds: bounds past the end are clamped,
   * and an empty range gives the empty string rather than an error.
   */
  function Slice(s: string, i: nat, j: nat): string {
    var hi := if j < |s| then j else |s|;
    if hi <= i then "" else s[i..hi]
  }

  /** A slice over a part of a concatenation gives that part back. */
  lemma SliceOfPart(a: string, b: string, c: string)
    ensures Slice(a + b + c, |a|, |a| + |b|) == b
  {
    assert (a + b + c)[|a|..|a| + |b|] == b;
  }

  function DigitValue(c: char): nat
    requires IsDigit(c)
  {
    c as int - '0' as int
  }

  /** The value of a run of decimal digits (0 for the empty run). */
  function DigitsValue(s: string): nat
    requires AllDigits(s)
  {
    if |s| == 0 then 0 else 10 * DigitsValue(s[..|s| - 1]) + DigitValue(s[|s| - 1])
  }

  lemma OneDigit(a: char)
    requires IsDigit(a)
    ensures AllDigits([a]) && DigitsValue([a]) == DigitValue(a)
  {
    assert [a][..0] == [];
  }

  lemma TwoDigits(a: char, b: char)
    requires IsDigit(a) && IsDigit(b)
    ensures AllDigits([a, b]) && DigitsValue([a, b]) == 10 * DigitValue(a) + DigitValue(b)
  {
    assert [a, b][..1] == [a];
    OneDigit(a);
  }

  lemma ThreeDigits(a: char, b: char, c: char)
    requires IsDigit(a) && IsDigit(b) && IsDigit(c)
    ensures AllDigits([a, b, c]) && DigitsValue([a, b, c]) == 100 * DigitValue(a) + 10 * DigitValue(b) + DigitValue(c)
  {
    assert [a, b, c][..2] == [a, b];
    TwoDigits(a, b);
  }

  /**
   * Python's `int(s)`: white space around the number is ignored, an optional
   * sign is followed by at least one decimal digit, anything else fails.
   */
  function ParseInt(s: string): Option<int> {
    ParseNumber(Strip(s))
  }

  /** `int()` on text that has already been stripped. */
  function ParseNumber(t: string): Option<int> {
    if |t| == 0 then None
    else if t[0] == '-' || t[0] == '+' then
      var d := t[1..];
      if |d| > 0 && AllDigits(d) then Some(if t[0] == '-' then -(DigitsValue(d) as int) else DigitsValue(d) as int)
      else None
    else if AllDigits(t) then Some(DigitsValue(t) as int)
    else None
  }

  /** A non-empty run of digits parses as its decimal value. */
  lemma ParseDigits(d: string)
    requires |d| > 0 && AllDigits(d)
    ensures ParseInt(d) == Some(DigitsValue(d) as int)
  {
    assert IsDigit(d[0]) && IsDigit(d[|d| - 1]);
    StripWord(d);
  }

  /** A number written without a sign never parses negative. */
  lemma ParseIntUnsigned(s: string)
    requires |Strip(s)| > 0 && IsDigit(Strip(s)[0])
    ensures ParseInt(s).Some? ==> ParseInt(s).value >= 0
  {
  }

  function DigitChar(d: nat): (c: char)
    requires d < 10
    ensures IsDigit(c) && DigitValue(c) == d
  {
    ('0' as int + d) as char
  }

  /** `str(n)` for a natural number: its decimal digits, without leading zeros. */
  function NatToStr(n: nat): (r: string)
    ensures |r| >= 1
    decreases n
  {
    if n < 10 then [DigitChar(n)] else NatToStr(n / 10) + [DigitChar(n % 10)]
  }

  /** `str(n)` is a run of decimal digits whose value is `n`. */
  lemma {:induction false} NatToStrDigits(n: nat)
    ensures AllDigits(NatToStr(n)) && DigitsValue(NatToStr(n)) == n
    decreases n
  {
    if n >= 10 {
      NatToStrDigits(n / 10);
      var r := NatToStr(n);
      assert r[..|r| - 1] == NatToStr(n / 10);
    }
  }

  /** `str(v)` / `%i` for an integer. */
  function IntToStr(v: int): string {
    if v < 0 then "-" + NatToStr(-v) else NatToStr(v)
  }

  /** A word that neither starts nor ends with white space is its own stripped form. */
  lemma StripWord(d: string)
    requires |d| > 0 && !IsSpace(d[0]) && !IsSpace(d[|d| - 1])
    ensures Strip(d) == d
  {
    StripOf("", d, "");
    assert "" + d + "" == d;
  }

  lemma ParseNatToStr(n: nat)
    ensures ParseNumber(NatToStr(n)) == Some(n)
    ensures ParseNumber("-" + NatToStr(n)) == Some(-(n as int))
  {
    NatToStrDigits(n);
    var d := NatToStr(n);
    assert IsDigit(d[0]);
    assert ("-" + d)[1..] == d;
  }

  /** Python reads back what `%i` writes. */
  lemma ParseIntToStr(v: int)
    ensures ParseInt(IntToStr(v)) == Some(v)
  {
    var n: nat := if v < 0 then -v else v;
    NatToStrDigits(n);
    var d := NatToStr(n);
    var s := IntToStr(v);
    assert IsDigit(d[0]) && IsDigit(d[|d| - 1]);
    if v < 0 {
      assert s == "-" + d;
      assert s[|s| - 1] == d[|d| - 1];
    } else {
      assert s == d;
    }
    StripWord(s);
    ParseNatToStr(n);
  }

  function Spaces(n: nat): (r: string)
    ensures |r| == n
  {
    seq(n, i => ' ')
  }

  /** `"%8i" % v`: the number right-justified in eight columns (wider when it does not fit). */
  function Col8(v: int): string {
    var s := IntToStr(v);
    if |s| < 8 then Spaces(8 - |s|) + s else s
  }

  /** An integer whose decimal form fits in eight columns. */
  predicate Fits8(v: int) {
    |IntToStr(v)| <= 8
  }

  /** Every eight-column value occupies exactly eight columns and reads back as itself. */
  lemma Col8RoundTrip(v: int)
    requires Fits8(v)
    ensures |Col8(v)| == 8
    ensures ParseInt(Col8(v)) == Some(v)
  {
    var s := IntToStr(v);
    var c := Col8(v);
    var pad := Spaces(8 - |s|);
    assert AllSpaces(pad);
    assert c == pad + s + "";
    IntToStrEnds(v);
    StripOf(pad, s, "");
    assert Strip(c) == s;
    ParseIntToStr(v);
    assert ParseInt(s) == ParseNumber(Strip(s));
    StripWord(s);
  }

  /** The decimal form of an integer starts with a sign or digit and ends with a digit. */
  lemma IntToStrEnds(v: int)
    ensures |IntToStr(v)| > 0
    ensures !IsSpace(IntToStr(v)[0]) && IsDigit(IntToStr(v)[|IntToStr(v)| - 1])
  {
    var n: nat := if v < 0 then -v else v;
    NatToStrDigits(n);
    var d := NatToStr(n);
    assert IsDigit(d[0]) && IsDigit(d[|d| - 1]);
    if v < 0 {
      assert IntToStr(v) == "-" + d;
      assert IntToStr(v)[|IntToStr(v)| - 1] == d[|d| - 1];
    }
  }

  /** `str(v)` starts with a minus sign exactly when `v` is negative, and with a digit otherwise. */
  lemma IntToStrFirst(v: int)
    ensures |IntToStr(v)| > 0
    ensures v < 0 ==> IntToStr(v)[0] == '-'
    ensures v >= 0 ==> IsDigit(IntToStr(v)[0])
  {
    var n: nat := if v < 0 then -v else v;
    NatToStrDigits(n);
    if v >= 0 {
      assert IsDigit(NatToStr(n)[0]);
    }
  }

  /** A line made of white space and then a word starting with a visible character strips to that character first. */
  lemma StripFirst(pre: string, t: string)
    requires AllSpaces(pre) && |t| > 0 && !IsSpace(t[0])
    ensures |Strip(pre + t)| > 0 && Strip(pre + t)[0] == t[0]
  {
    TrimLeftOf(pre, t);
    TrimRightPrefix(t);
  }

  lemma {:induction false} NatToStrShort(n: nat, k: nat)
    requires n < Pow10(k) && k >= 1
    ensures |NatToStr(n)| <= k
    decreases n
  {
    if n >= 10 {
      assert 10 * (n / 10) <= n;
      assert Pow10(k) == 10 * Pow10(k - 1);
      NatToStrShort(n / 10, k - 1);
    }
  }

  function Pow10(k: nat): nat {
    if k == 0 then 1 else 10 * Pow10(k - 1)
  }

  /** The integers that `%8i` writes in eight columns: -9999999 .. 99999999. */
  lemma Fits8Range(v: int)
    requires -9999999 <= v <= 99999999
    ensures Fits8(v)
  {
    assert Pow10(8) == 100000000;
    assert Pow10(7) == 10000000;
    if v < 0 { NatToStrShort(-v, 7); } else { NatToStrShort(v, 8); }
  }
}
