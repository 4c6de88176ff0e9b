/**
 Python strings as sequences of code points, with the character classes and
 string operations the script language and the naming templates rely on.

 Code points are integers rather than Dafny characters: Python strings may hold
 lone surrogates, and the script evaluator explicitly rejects them.
 */
module Texts {

  type Code = int

  type Text = seq<Code>

  const NEWLINE: Code := 10
  const BACKSLASH: Code := 92
  const SPACE: Code := 32

  /** The code points of an ASCII literal. */
  function A(s: string): Text {
    seq(|s|, i requires 0 <= i < |s| => s[i] as int)
  }

  // ---------------------------------------------------------------- classes

  /** `str.isspace` of a single character (complete Unicode table). */
  predicate IsSpace(c: Code) {
    || 9 <= c <= 13
    || 28 <= c <= 32
    || c == 0x85 || c == 0xA0 || c == 0x1680
    || 0x2000 <= c <= 0x200A
    || c == 0x2028 || c == 0x2029 || c == 0x202F || c == 0x205F || c == 0x3000
  }

  /** The characters at which `str.splitlines` ends a line. */
  predicate IsLineBreak(c: Code) {
    || 10 <= c <= 13
    || 28 <= c <= 30
    || c == 0x85 || c == 0x2028 || c == 0x2029
  }

  /** `str.isdigit`, restricted to ASCII. */
  predicate IsDigit(c: Code) {
    48 <= c <= 57
  }

  predicate IsLetter(c: Code) {
    65 <= c <= 90 || 97 <= c <= 122
  }

  predicate AllSpace(t: Text) {
    forall i | 0 <= i < |t| :: IsSpace(t[i])
  }

  /** `str.casefold` on ASCII text: upper-case letters are lowered, all else kept. */
  function LowerAscii(t: Text): (r: Text) {
    seq(|t|, i requires 0 <= i < |t| => if 65 <= t[i] <= 90 then t[i] + 32 else t[i])
  }

  // ------------------------------------------------------------------ strip

  /** `str.lstrip()`. */
  function LStrip(t: Text): (r: Text)
    ensures |r| <= |t| && r == t[|t| - |r|..]
    ensures AllSpace(t[..|t| - |r|])
    ensures r != [] ==> !IsSpace(r[0])
  {
    if t != [] && IsSpace(t[0]) then
      var r := LStrip(t[1..]);
      assert t[..|t| - |r|] == [t[0]] + t[1..][..|t| - 1 - |r|];
      r
    else t
  }

  /** `str.rstrip()`. */
  function RStrip(t: Text): (r: Text)
    ensures |r| <= |t| && r == t[..|r|]
    ensures AllSpace(t[|r|..])
    ensures r != [] ==> !IsSpace(r[|r| - 1])
  {
    if t != [] && IsSpace(t[|t| - 1]) then
      var r := RStrip(t[..|t| - 1]);
      assert t[|r|..] == t[..|t| - 1][|r|..] + [t[|t| - 1]];
      r
    else t
  }

  /** `str.strip()`. */
  function Strip(t: Text): (r: Text) {
    RStrip(LStrip(t))
  }

  lemma {:induction false} LStripOf(left: Text, rest: Text)
    requires AllSpace(left)
    requires rest != [] ==> !IsSpace(rest[0])
    ensures LStrip(left + rest) == rest
  {
    if left == [] {
      assert left + rest == rest;
    } else {
      assert (left + rest)[1..] == left[1..] + rest;
      LStripOf(left[1..], rest);
    }
  }

  lemma {:induction false} RStripOf(rest: Text, right: Text)
    requires AllSpace(right)
    requires rest != [] ==> !IsSpace(rest[|rest| - 1])
    ensures RStrip(rest + right) == rest
  {
    if right == [] {
      assert rest + right == rest;
    } else {
      var right' := right[..|right| - 1];
      assert (rest + right)[..|rest + right| - 1] == rest + right';
      RStripOf(rest, right');
    }
  }

  /** Stripping removes exactly the white space around a text that starts and
      ends with a visible character. */
  lemma StripOfPadded(left: Text, core: Text, right: Text)
    requires AllSpace(left) && AllSpace(right)
    requires core != [] && !IsSpace(core[0]) && !IsSpace(core[|core| - 1])
    ensures Strip(left + core + right) == core
  {
    assert left + core + right == left + (core + right);
    LStripOf(left, core + right);
    RStripOf(core, right);
  }

  lemma StripOfBlank(t: Text)
    requires Strip(t) == []
    ensures AllSpace(t)
  {
    var left := LStrip(t);
    assert left[0..] == left && t[..|t|] == t;
  }

  // -------------------------------------------------------------- positions

  datatype Place = Place(line: int, column: int)

  /** Where a reader stands after reading `t` from `start`: a newline begins the
      next line, every other character is one column. */
  function Locate(t: Text, start: Place): (p: Place) {
    if t == [] then start
    else
      var before := Locate(t[..|t| - 1], start);
      if t[|t| - 1] == NEWLINE then Place(before.line + 1, 1)
      else Place(before.line, before.column + 1)
  }

  lemma {:induction false} LocateConcat(a: Text, b: Text, start: Place)
    ensures Locate(a + b, start) == Locate(b, Locate(a, start))
  {
    if b == [] {
      assert a + b == a;
    } else {
      var b' := b[..|b| - 1];
      assert (a + b)[..|a + b| - 1] == a + b';
      LocateConcat(a, b', start);
    }
  }

  lemma {:induction false} LocateInline(t: Text, start: Place)
    requires NEWLINE !in t
    ensures Locate(t, start) == Place(start.line, start.column + |t|)
  {
    if t != [] {
      LocateInline(t[..|t| - 1], start);
    }
  }
}
