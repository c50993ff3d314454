/**
 * How `load` turns the lines of a program file into the words it writes
 * to RAM: the text before the first `#` of a line is kept, a line whose
 * kept text is empty or whitespace contributes nothing, and any other line
 * contributes the value of Python's `int(text, 2)`, or stops the load with
 * a ValueError when that text is not a base-2 literal.
 */
module LineParsing {
  import opened Wrappers

  /** The characters Python's `str.isspace` accepts, which `str.strip` removes. */
  predicate IsSpace(c: char) {
    || c == ' '
    || '\t' <= c <= '\r'
    || '\U{1C}' <= c <= '\U{1F}'
    || c == '\U{85}' || c == '\U{A0}' || c == '\U{1680}'
    || '\U{2000}' <= c <= '\U{200A}'
    || c == '\U{2028}' || c == '\U{2029}' || c == '\U{202F}' || c == '\U{205F}' || c == '\U{3000}'
  }

  /**
   * The characters `int` skips around a literal. It maps every non-ASCII
   * space to `' '` but keeps ASCII as it is, and then skips only the C
   * whitespace characters, so the separators U+001C to U+001F are not among them.
   */
  predicate IsIntSpace(c: char) {
    IsSpace(c) && !('\U{1C}' <= c <= '\U{1F}')
  }

  /** `line.split('#', 1)[0]`: the text before the first `#`, or the whole line if it has none. */
  function BeforeHash(line: string): (r: string)
    ensures r <= line && '#' !in r
    ensures |r| < |line| ==> line[|r|] == '#'
  {
    if line == [] || line[0] == '#' then [] else [line[0]] + BeforeHash(line[1..])
  }

  /** `s` without its leading characters that `space` accepts. */
  function TrimStart(space: char -> bool, s: string): (r: string) {
    if s != [] && space(s[0]) then TrimStart(space, s[1..]) else s
  }

  /** `s` without its trailing characters that `space` accepts. */
  function TrimEnd(space: char -> bool, s: string): (r: string) {
    if s != [] && space(s[|s| - 1]) then TrimEnd(space, s[..|s| - 1]) else s
  }

  /** TrimStart removes a run of `space` characters, and only that, from the front. */
  lemma {:induction false} TrimStartSpec(space: char -> bool, s: string)
    ensures var r := TrimStart(space, s);
      && |r| <= |s| && r == s[|s| - |r|..]
      && (r == [] || !space(r[0]))
      && forall i :: 0 <= i < |s| - |r| ==> space(s[i])
  {
    if s != [] && space(s[0]) {
      var t := s[1..];
      TrimStartSpec(space, t);
      var r := TrimStart(space, t);
      assert TrimStart(space, s) == r;
      assert t[|t| - |r|..] == s[|s| - |r|..];
      forall i | 0 <= i < |s| - |r|
        ensures space(s[i])
      {
        if i > 0 {
          assert s[i] == t[i - 1];
        }
      }
    }
  }

  /** TrimEnd removes a run of `space` characters, and only that, from the back. */
  lemma {:induction false} TrimEndSpec(space: char -> bool, s: string)
    ensures var r := TrimEnd(space, s);
      && r <= s
      && (r == [] || !space(r[|r| - 1]))
      && forall i :: |r| <= i < |s| ==> space(s[i])
  {
    if s != [] && space(s[|s| - 1]) {
      var t := s[..|s| - 1];
      TrimEndSpec(space, t);
      assert TrimEnd(space, s) == TrimEnd(space, t);
      forall i | |TrimEnd(space, t)| <= i < |s|
        ensures space(s[i])
      {
        if i < |t| {
          assert s[i] == t[i];
        }
      }
    }
  }

  /**
   * Both ends of `s` stripped of the characters `space` accepts: nothing is
   * left exactly when all of `s` is such characters, and every other
   * character of `s` is kept.
   */
  function StripBy(space: char -> bool, s: string): (r: string)
    ensures r == [] <==> forall i :: 0 <= i < |s| ==> space(s[i])
    ensures forall i :: 0 <= i < |s| && !space(s[i]) ==> s[i] in r
  {
    StripKeeps(space, s);
    TrimEnd(space, TrimStart(space, s))
  }

  lemma StripKeeps(space: char -> bool, s: string)
    ensures var r := TrimEnd(space, TrimStart(space, s));
      && (r == [] <==> forall i :: 0 <= i < |s| ==> space(s[i]))
      && forall i :: 0 <= i < |s| && !space(s[i]) ==> s[i] in r
  {
    TrimStartSpec(space, s);
    var t := TrimStart(space, s);
    TrimEndSpec(space, t);
    var r := TrimEnd(space, t);
    forall i | 0 <= i < |s| && !space(s[i])
      ensures s[i] in r
    {
      var k := i - (|s| - |t|);
      assert s[i] == t[k];
      assert r[k] == t[k];
    }
  }

  /** `s.strip()`; it is empty exactly when `s` is all whitespace. */
  function Strip(s: string): (r: string)
    ensures r == [] <==> forall i :: 0 <= i < |s| ==> IsSpace(s[i])
  {
    StripBy(IsSpace, s)
  }

  /**
   * The digits of a base-2 literal after the sign and the optional prefix:
   * ones and zeros, where a single `_` may stand between two digits.
   */
  predicate WellFormedDigits(d: string) {
    && |d| > 0
    && d[0] != '_' && d[|d| - 1] != '_'
    && (forall i :: 0 <= i < |d| ==> d[i] == '0' || d[i] == '1' || d[i] == '_')
    && (forall i :: 0 <= i < |d| - 1 ==> d[i] == '_' ==> d[i + 1] != '_')
  }

  /** The value of a string of binary digits, ignoring `_` separators. */
  function DigitsValue(d: string): (n: nat) {
    if d == [] then 0
    else
      var init, last := d[..|d| - 1], d[|d| - 1];
      if last == '_' then DigitsValue(init)
      else 2 * DigitsValue(init) + (if last == '1' then 1 else 0)
  }

  /** Removes a leading `0b` or `0B` and, after it, at most one `_`. */
  function WithoutPrefix(u: string): (d: string) {
    if |u| >= 2 && u[0] == '0' && (u[1] == 'b' || u[1] == 'B') then
      var d := u[2..];
      if d != [] && d[0] == '_' then d[1..] else d
    else
      u
  }

  /**
   * `int(text, 2)` on text already stripped of the whitespace `int` skips
   * (None where Python raises ValueError): an accepted literal ends in a binary digit, and its
   * value is negative only after a leading `-`.
   */
  function ParseBinary(text: string): (r: Option<int>)
    ensures r.Some? ==> text != [] && (text[|text| - 1] == '0' || text[|text| - 1] == '1')
    ensures r.Some? && r.value < 0 ==> text[0] == '-'
  {
    var signed := text != [] && (text[0] == '-' || text[0] == '+');
    var digits := WithoutPrefix(if signed then text[1..] else text);
    if WellFormedDigits(digits) then
      var magnitude: int := DigitsValue(digits);
      Some(if signed && text[0] == '-' then -magnitude else magnitude)
    else
      None
  }

  /** The characters a base-2 literal may hold: digits, `_`, a sign and the `b` of a prefix. */
  predicate LiteralChar(c: char) {
    c == '0' || c == '1' || c == '_' || c == '-' || c == '+' || c == 'b' || c == 'B'
  }

  /** WithoutPrefix drops a front part made of literal characters. */
  lemma WithoutPrefixShape(u: string)
    ensures var d := WithoutPrefix(u);
      && |d| <= |u| && d == u[|u| - |d|..]
      && forall j :: 0 <= j < |u| - |d| ==> LiteralChar(u[j])
  {
  }

  /** Digits that are well formed are literal characters. */
  lemma DigitsAlphabet(d: string, u: string)
    requires WellFormedDigits(d) && |d| <= |u| && d == u[|u| - |d|..]
    ensures forall j :: |u| - |d| <= j < |u| ==> LiteralChar(u[j])
  {
    forall j | |u| - |d| <= j < |u|
      ensures LiteralChar(u[j])
    {
      assert u[j] == d[j - (|u| - |d|)];
    }
  }

  /** An accepted literal is made of literal characters only. */
  lemma ParseBinaryAlphabet(text: string)
    ensures ParseBinary(text).Some? ==> forall i :: 0 <= i < |text| ==> LiteralChar(text[i])
  {
    var signed := text != [] && (text[0] == '-' || text[0] == '+');
    var u := if signed then text[1..] else text;
    var d := WithoutPrefix(u);
    if WellFormedDigits(d) {
      WithoutPrefixShape(u);
      DigitsAlphabet(d, u);
      assert forall j :: 0 <= j < |u| ==> LiteralChar(u[j]);
      if signed {
        forall i | 0 <= i < |text|
          ensures LiteralChar(text[i])
        {
          if i > 0 {
            assert text[i] == u[i - 1];
          }
        }
      }
    }
  }

  /**
   * `int(num, 2)`: the literal between the whitespace `int` skips. A value
   * comes only from text made of that whitespace and literal characters.
   */
  function IntBase2(num: string): (r: Option<int>)
    ensures r.Some? ==> forall i :: 0 <= i < |num| ==> IsIntSpace(num[i]) || LiteralChar(num[i])
  {
    var text := StripBy(IsIntSpace, num);
    ParseBinaryAlphabet(text);
    ParseBinary(text)
  }

  /** What one line of a program file contributes. */
  datatype Line = Blank | Word(value: int) | Malformed

  /**
   * What one line of a program file contributes: nothing when its text
   * before `#` is all whitespace (so a comment-only line contributes
   * nothing), otherwise the value `int` reads from that text, or Malformed
   * where `int` would raise.
   */
  function Classify(line: string): (k: Line)
    ensures |line| > 0 && line[0] == '#' ==> k == Blank
  {
    var num := BeforeHash(line);
    if Strip(num) == [] then Blank
    else match IntBase2(num)
      case Some(v) => Word(v)
      case None => Malformed
  }

  /** A line contributes nothing exactly when its text before the first `#` is all whitespace. */
  lemma ClassifyBlank(line: string)
    ensures Classify(line) == Blank <==> forall i :: 0 <= i < |BeforeHash(line)| ==> IsSpace(BeforeHash(line)[i])
  {
    assert Classify(line) == Blank <==> Strip(BeforeHash(line)) == [];
  }

  /**
   * A line whose text before `#` is not all whitespace but holds one of the
   * separators U+001C to U+001F stops the load: `str.strip` counts them as
   * whitespace, `int` does not.
   */
  lemma ClassifySeparator(line: string, i: nat)
    requires i < |BeforeHash(line)| && '\U{1C}' <= BeforeHash(line)[i] <= '\U{1F}'
    requires !forall j :: 0 <= j < |BeforeHash(line)| ==> IsSpace(BeforeHash(line)[j])
    ensures Classify(line) == Malformed
  {
    var num := BeforeHash(line);
    assert Strip(num) != [];
    assert !IsIntSpace(num[i]) && !LiteralChar(num[i]);
    assert IntBase2(num) == None;
  }

  /**
   * The words of a program file, in order, up to its first malformed line;
   * `malformed` says whether there was one (where `load` raises ValueError).
   */
  datatype Parsed = Parsed(words: seq<int>, malformed: bool)

  /** `f` applied to each element of `xs`. */
  function MapSeq<A, B>(f: A -> B, xs: seq<A>): (ys: seq<B>)
    ensures |ys| == |xs|
  {
    if xs == [] then [] else [f(xs[0])] + MapSeq(f, xs[1..])
  }

  lemma {:induction false} MapSeqAppend<A, B>(f: A -> B, a: seq<A>, b: seq<A>)
    ensures MapSeq(f, a + b) == MapSeq(f, a) + MapSeq(f, b)
  {
    if a == [] {
      assert a + b == b;
    } else {
      assert (a + b)[0] == a[0];
      assert (a + b)[1..] == a[1..] + b;
      MapSeqAppend(f, a[1..], b);
    }
  }

  /** What each line of a file contributes. */
  function Kinds(lines: seq<string>): (ks: seq<Line>)
    ensures |ks| == |lines|
  {
    MapSeq(Classify, lines)
  }

  /** The words of classified lines, up to the first malformed one. */
  function Collect(ks: seq<Line>): (p: Parsed)
    ensures |p.words| <= |ks|
  {
    if ks == [] then Parsed([], false)
    else match ks[0]
      case Blank => Collect(ks[1..])
      case Malformed => Parsed([], true)
      case Word(v) =>
        var rest := Collect(ks[1..]);
        Parsed([v] + rest.words, rest.malformed)
  }

  lemma {:induction false} MapSeqAt<A, B>(f: A -> B, xs: seq<A>, i: nat)
    requires i < |xs|
    ensures MapSeq(f, xs)[i] == f(xs[i])
  {
    if i > 0 {
      MapSeqAt(f, xs[1..], i - 1);
    }
  }

  function Parse(lines: seq<string>): (p: Parsed)
    ensures |p.words| <= |lines|
  {
    Collect(Kinds(lines))
  }

  /** Parsing a file in two pieces: the second piece counts only if the first had no malformed line. */
  function Then(p: Parsed, q: Parsed): (r: Parsed) {
    if p.malformed then p else Parsed(p.words + q.words, q.malformed)
  }

  lemma {:induction false} CollectAppend(a: seq<Line>, b: seq<Line>)
    ensures Collect(a + b) == Then(Collect(a), Collect(b))
  {
    if a == [] {
      assert a + b == b;
    } else {
      assert (a + b)[0] == a[0];
      assert (a + b)[1..] == a[1..] + b;
      CollectAppend(a[1..], b);
    }
  }

  /**
   * Reading one more classified line after a prefix that yielded `words`:
   * a blank line adds nothing, a word is appended (so the whole file has
   * more words than the prefix), and a malformed line ends the file's words.
   */
  lemma CollectNext(ks: seq<Line>, i: nat, words: seq<int>)
    requires i < |ks| && Collect(ks[..i]) == Parsed(words, false)
    ensures ks[i] == Blank ==> Collect(ks[..i + 1]) == Parsed(words, false)
    ensures ks[i].Word? ==> Collect(ks[..i + 1]) == Parsed(words + [ks[i].value], false)
    ensures ks[i].Word? ==> |Collect(ks).words| > |words| && Collect(ks).words[..|words|] == words
    ensures ks[i] == Malformed ==> Collect(ks) == Parsed(words, true)
  {
    assert ks[..i + 1] == ks[..i] + [ks[i]];
    CollectAppend(ks[..i], [ks[i]]);
    CollectSingle(ks[i]);
    assert ks == ks[..i] + ks[i..];
    CollectAppend(ks[..i], ks[i..]);
    assert ks[i..][0] == ks[i];
    assert ks[i].Word? ==> Collect(ks).words == words + Collect(ks[i..]).words;
  }

  lemma ParseAppend(a: seq<string>, b: seq<string>)
    ensures Parse(a + b) == Then(Parse(a), Parse(b))
  {
    MapSeqAppend(Classify, a, b);
    CollectAppend(Kinds(a), Kinds(b));
  }

  lemma CollectSingle(k: Line)
    ensures Collect([k]) == match k
      case Blank => Parsed([], false)
      case Word(v) => Parsed([v], false)
      case Malformed => Parsed([], true)
  {
    assert [k][1..] == [];
  }

  /** What a file of one line parses to. */
  lemma ParseSingle(line: string)
    ensures Parse([line]) == match Classify(line)
      case Blank => Parsed([], false)
      case Word(v) => Parsed([v], false)
      case Malformed => Parsed([], true)
  {
    assert [line][1..] == [];
    assert Kinds([line]) == [Classify(line)];
    CollectSingle(Classify(line));
  }

  lemma ParseBlankLine(line: string)
    requires Classify(line) == Blank
    ensures Parse([line]) == Parsed([], false)
  {
    assert [line][1..] == [];
    assert Kinds([line]) == [Blank];
    CollectSingle(Blank);
  }

  lemma ParseWordLine(line: string, v: int)
    requires Classify(line) == Word(v)
    ensures Parse([line]) == Parsed([v], false)
  {
    assert [line][1..] == [];
    assert Kinds([line]) == [Word(v)];
    CollectSingle(Word(v));
  }

  /** Removing a line whose text before `#` is blank leaves the words of a file unchanged. */
  lemma ParseSkipsBlank(lines: seq<string>, i: nat)
    requires i < |lines| && Classify(lines[i]) == Blank
    ensures Parse(lines[..i] + lines[i + 1..]) == Parse(lines)
  {
    var before, after := lines[..i], lines[i + 1..];
    assert lines == before + ([lines[i]] + after);
    ParseAppend(before, [lines[i]] + after);
    ParseAppend([lines[i]], after);
    ParseBlankLine(lines[i]);
    ParseAppend(before, after);
  }

  /** The text `bin(n)` shows after its `0b`: binary digits without leading zeros. */
  function Binary(n: nat): (s: string)
    ensures s != [] && (forall i :: 0 <= i < |s| ==> s[i] == '0' || s[i] == '1')
    ensures s[0] == '0' ==> n == 0
  {
    (if n < 2 then [] else Binary(n / 2)) + [if n % 2 == 0 then '0' else '1']
  }

  /** A program word written as a base-2 literal, with a `-` when negative. */
  function Render(v: int): (text: string) {
    if v < 0 then "-" + Binary(-v) else Binary(v)
  }

  lemma {:induction false} BinaryValue(n: nat)
    ensures WellFormedDigits(Binary(n)) && DigitsValue(Binary(n)) == n
  {
    var s := Binary(n);
    assert s[..|s| - 1] == if n < 2 then [] else Binary(n / 2);
    if n >= 2 {
      BinaryValue(n / 2);
    }
  }

  /** Well-formed digits without a sign or prefix read as their value. */
  lemma ParseUnsigned(d: string)
    requires WellFormedDigits(d)
    ensures ParseBinary(d) == Some(DigitsValue(d))
  {
    assert d[0] == '0' || d[0] == '1';
    assert |d| < 2 || d[1] == '0' || d[1] == '1' || d[1] == '_';
  }

  /** Well-formed digits after a `-` read as the negated value. */
  lemma ParseNegative(d: string)
    requires WellFormedDigits(d)
    ensures ParseBinary("-" + d) == Some(-(DigitsValue(d) as int))
  {
    assert ("-" + d)[0] == '-' && ("-" + d)[1..] == d;
    assert d[0] == '0' || d[0] == '1';
  }

  /** `int(text, 2)` reads back every rendered word. */
  lemma RenderRoundTrip(v: int)
    ensures ParseBinary(Render(v)) == Some(v)
  {
    var m: nat := if v < 0 then -v else v;
    BinaryValue(m);
    if v < 0 {
      assert Render(v) == "-" + Binary(m);
      ParseNegative(Binary(m));
    } else {
      assert Render(v) == Binary(m);
      ParseUnsigned(Binary(m));
    }
  }

  lemma {:induction false} BeforeHashAppend(x: string, y: string)
    requires '#' !in x
    ensures BeforeHash(x + y) == x + BeforeHash(y)
  {
    if x == [] {
      assert x + y == y;
    } else {
      assert (x + y)[0] == x[0];
      assert (x + y)[1..] == x[1..] + y;
      assert BeforeHash(x + y) == [x[0]] + BeforeHash(x[1..] + y);
      BeforeHashAppend(x[1..], y);
      assert x == [x[0]] + x[1..];
    }
  }

  /** `space` characters after text that ends in another character are stripped away. */
  lemma {:induction false} TrimEndSpaces(space: char -> bool, x: string, w: string)
    requires x != [] && !space(x[|x| - 1])
    requires forall i :: 0 <= i < |w| ==> space(w[i])
    ensures TrimEnd(space, x + w) == x
  {
    if w == [] {
      assert x + w == x;
    } else {
      assert (x + w)[..|x + w| - 1] == x + w[..|w| - 1];
      TrimEndSpaces(space, x, w[..|w| - 1]);
    }
  }

  /** A rendered word starts with `-` or a digit, ends in a digit and holds no `#`. */
  lemma RenderShape(v: int)
    ensures var r := Render(v);
      && r != [] && (r[0] == '-' || r[0] == '0' || r[0] == '1')
      && (r[|r| - 1] == '0' || r[|r| - 1] == '1')
      && forall i :: 0 <= i < |r| ==> r[i] != '#'
  {
    var m: nat := if v < 0 then -v else v;
    BinaryValue(m);
    var b := Binary(m);
    var r := Render(v);
    if v < 0 {
      assert r == "-" + b;
      forall i | 0 <= i < |r|
        ensures r[i] != '#'
      {
        if i > 0 {
          assert r[i] == b[i - 1];
        }
      }
    } else {
      assert r == b;
    }
  }

  /** `int` reads a rendered word back through any whitespace it skips after it. */
  lemma IntBase2Rendered(v: int, h: string)
    requires forall i :: 0 <= i < |h| ==> IsIntSpace(h[i])
    ensures IntBase2(Render(v) + h) == Some(v)
  {
    var r := Render(v);
    RenderShape(v);
    assert (r + h)[0] == r[0];
    assert TrimStart(IsIntSpace, r + h) == r + h;
    TrimEndSpaces(IsIntSpace, r, h);
    assert StripBy(IsIntSpace, r + h) == r;
    RenderRoundTrip(v);
  }

  /**
   * A line holding a rendered word followed by whitespace that `int` skips
   * and then, optionally, a `#` comment contributes exactly that word.
   */
  lemma ClassifyRendered(v: int, tail: string)
    requires forall i :: 0 <= i < |BeforeHash(tail)| ==> IsIntSpace(BeforeHash(tail)[i])
    ensures Classify(Render(v) + tail) == Word(v)
  {
    var r := Render(v);
    var h := BeforeHash(tail);
    assert BeforeHash(r + tail) == r + h by {
      RenderShape(v);
      BeforeHashAppend(r, tail);
    }
    assert Strip(r + h) != [] by {
      RenderShape(v);
      assert (r + h)[|r| - 1] == r[|r| - 1];
    }
    IntBase2Rendered(v, h);
  }

  /** A program file written one word per line. */
  function ProgramText(words: seq<int>): (lines: seq<string>)
    ensures |lines| == |words|
  {
    if words == [] then [] else [Render(words[0])] + ProgramText(words[1..])
  }

  /** The line of one rendered word loads as exactly that word. */
  lemma ParseRenderedLine(v: int)
    ensures Parse([Render(v)]) == Parsed([v], false)
  {
    ClassifyRendered(v, "");
    assert Render(v) + "" == Render(v);
    ParseWordLine(Render(v), v);
  }

  /** Loading the text of a program gives back its words, in order. */
  lemma {:induction false} ParseProgramText(words: seq<int>)
    ensures Parse(ProgramText(words)) == Parsed(words, false)
  {
    if words != [] {
      var line := Render(words[0]);
      var rest := ProgramText(words[1..]);
      ParseRenderedLine(words[0]);
      ParseProgramText(words[1..]);
      ParseAppend([line], rest);
      assert ProgramText(words) == [line] + rest;
      assert words == [words[0]] + words[1..];
    }
  }
}
