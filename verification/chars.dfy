/**
 * Character classes and string helpers with the JavaScript semantics the
 * application relies on: `toUpperCase`/`toLowerCase` (ASCII letters only),
 * `trim`, `split('\n')`, and decimal rendering of `Date.now()`.
 */
module Chars {
  import opened Seqs

  predicate IsUpper(c: char) { 'A' <= c <= 'Z' }
  predicate IsLower(c: char) { 'a' <= c <= 'z' }
  predicate IsDigit(c: char) { '0' <= c <= '9' }

  /** The class `[A-Z0-9]` of the plate patterns. */
  predicate IsPlateChar(c: char) { IsUpper(c) || IsDigit(c) }

  predicate IsNewline(c: char) { c == '\n' }

  /**
   * The characters `String.prototype.trim` removes: ECMAScript WhiteSpace and
   * LineTerminator code points.
   */
  predicate IsSpace(c: char) {
    var n := c as int;
    n == 0x09 || n == 0x0A || n == 0x0B || n == 0x0C || n == 0x0D || n == 0x20
    || n == 0xA0 || n == 0x1680 || (0x2000 <= n <= 0x200A) || n == 0x2028 || n == 0x2029
    || n == 0x202F || n == 0x205F || n == 0x3000 || n == 0xFEFF
  }

  predicate AllSpace(s: string) { forall i :: 0 <= i < |s| ==> IsSpace(s[i]) }

  function UpperChar(c: char): (d: char)
    ensures IsLower(c) ==> IsUpper(d) && d as int == c as int - 32
    ensures !IsLower(c) ==> d == c
  {
    if IsLower(c) then (c as int - 32) as char else c
  }

  function LowerChar(c: char): (d: char)
    ensures IsUpper(c) ==> IsLower(d) && d as int == c as int + 32
    ensures !IsUpper(c) ==> d == c
  {
    if IsUpper(c) then (c as int + 32) as char else c
  }

  /** `toUpperCase` on ASCII letters; every other character is kept. */
  function ToUpper(s: string): (r: string)
    ensures |r| == |s|
    ensures forall i :: 0 <= i < |s| ==> r[i] == UpperChar(s[i])
  {
    seq(|s|, i requires 0 <= i < |s| => UpperChar(s[i]))
  }

  /** `toLowerCase` on ASCII letters; every other character is kept. */
  function ToLower(s: string): (r: string)
    ensures |r| == |s|
    ensures forall i :: 0 <= i < |s| ==> r[i] == LowerChar(s[i])
  {
    seq(|s|, i requires 0 <= i < |s| => LowerChar(s[i]))
  }

  /**
   * `replace(/[^A-Z0-9]/g, '')`: keep only the plate characters, every one of
   * them, in their original order.
   */
  function KeepPlateChars(s: string): (r: string)
    ensures forall i :: 0 <= i < |r| ==> IsPlateChar(r[i])
    ensures IsSubseq(r, s) && |r| == Count(s, IsPlateChar)
    ensures |r| <= |s|
  {
    FilterIsSubseq(s, IsPlateChar);
    Filter(s, IsPlateChar)
  }

  lemma {:induction false} ToUpperIdempotent(s: string)
    ensures ToUpper(ToUpper(s)) == ToUpper(s)
  {
  }

  /** Upper-casing does not change a string made of plate characters. */
  lemma {:induction false} ToUpperPlate(s: string)
    requires forall i :: 0 <= i < |s| ==> IsPlateChar(s[i])
    ensures ToUpper(s) == s
  {
  }

  lemma {:induction false} ToUpperConcat(a: string, b: string)
    ensures ToUpper(a + b) == ToUpper(a) + ToUpper(b)
  {
  }

  /** Upper-casing keeps whitespace where it is. */
  lemma {:induction false} ToUpperKeepsSpace(s: string)
    ensures AllSpace(ToUpper(s)) <==> AllSpace(s)
  {
    forall i | 0 <= i < |s|
      ensures IsSpace(ToUpper(s)[i]) <==> IsSpace(s[i])
    {
      if IsLower(s[i]) {
        assert !IsSpace(ToUpper(s)[i]) && !IsSpace(s[i]);
      }
    }
  }

  /** Plate characters are exactly the characters that survive `KeepPlateChars`. */
  lemma {:induction false} KeepPlateCharsIdentity(s: string)
    requires forall i :: 0 <= i < |s| ==> IsPlateChar(s[i])
    ensures KeepPlateChars(s) == s
  {
    FilterAll(s, IsPlateChar);
  }

  // ----- trim -----

  /** Number of whitespace characters at the front of `s`. */
  function LeadingSpaces(s: string): (n: nat)
    ensures n <= |s|
    ensures forall i :: 0 <= i < n ==> IsSpace(s[i])
    ensures n < |s| ==> !IsSpace(s[n])
    decreases |s|
  {
    if |s| > 0 && IsSpace(s[0]) then 1 + LeadingSpaces(s[1..]) else 0
  }

  /** Length of `s` without its trailing whitespace. */
  function TrimmedEnd(s: string): (n: nat)
    ensures n <= |s|
    ensures forall i :: n <= i < |s| ==> IsSpace(s[i])
    ensures n > 0 ==> !IsSpace(s[n - 1])
    decreases |s|
  {
    if |s| > 0 && IsSpace(s[|s| - 1]) then TrimmedEnd(s[..|s| - 1]) else |s|
  }

  /** `trimStart`: `s` without its leading whitespace. */
  function TrimStart(s: string): (r: string)
    ensures |r| <= |s| && r == s[|s| - |r|..]
    ensures forall k :: 0 <= k < |s| - |r| ==> IsSpace(s[k])
    ensures |r| > 0 ==> !IsSpace(r[0])
  {
    s[LeadingSpaces(s)..]
  }

  /**
   * `String.prototype.trim`: the infix left after removing leading and
   * trailing whitespace. It is empty exactly when the string is all whitespace.
   */
  function Trim(s: string): (r: string)
    ensures var i := |s| - |TrimStart(s)|; i + |r| <= |s| && r == s[i..i + |r|]
    ensures var i := |s| - |TrimStart(s)|; forall k :: 0 <= k < i ==> IsSpace(s[k])
    ensures var i := |s| - |TrimStart(s)|; forall k :: i + |r| <= k < |s| ==> IsSpace(s[k])
    ensures |r| > 0 ==> !IsSpace(r[0]) && !IsSpace(r[|r| - 1])
    ensures |r| == 0 <==> AllSpace(s)
  {
    var t := TrimStart(s);
    TrimEmptyIffAllSpace(s);
    PrefixOfSuffix(s, |s| - |t|, t, t[..TrimmedEnd(t)]);
    t[..TrimmedEnd(t)]
  }

  lemma {:induction false} TrimEmptyIffAllSpace(s: string)
    ensures TrimmedEnd(TrimStart(s)) == 0 <==> AllSpace(s)
  {
  }

  /** A prefix of a suffix is an infix. */
  lemma {:induction false} PrefixOfSuffix<T>(s: seq<T>, i: nat, a: seq<T>, r: seq<T>)
    requires i <= |s| && a == s[i..]
    requires |r| <= |a| && r == a[..|r|]
    ensures i + |r| <= |s| && r == s[i..i + |r|]
  {
  }

  // ----- split('\n') -----

  /** Joins lines with '\n' separators; the inverse of `SplitLines`. */
  function JoinLines(lines: seq<string>): string
    requires |lines| > 0
  {
    if |lines| == 1 then lines[0] else lines[0] + "\n" + JoinLines(lines[1..])
  }

  /**
   * `split('\n')`: the maximal newline-free pieces between separators. There is
   * always at least one piece (an empty string splits to one empty line).
   */
  function SplitLines(s: string): (lines: seq<string>)
    ensures |lines| > 0
    ensures forall i :: 0 <= i < |lines| ==> '\n' !in lines[i]
    ensures JoinLines(lines) == s
    decreases |s|
  {
    var k := FindIndex(s, IsNewline);
    if k < 0 then
      NoNewlineIn(s, |s|);
      [s]
    else
      var rest := SplitLines(s[k + 1..]);
      NoNewlineIn(s, k);
      SplitAtNewline(s, k, rest);
      [s[..k]] + rest
  }

  lemma {:induction false} NoNewlineIn(s: string, k: nat)
    requires k <= |s|
    requires forall j :: 0 <= j < |s| && j < k ==> !IsNewline(s[j])
    ensures '\n' !in s[..k]
  {
    forall j | 0 <= j < k
      ensures s[..k][j] != '\n'
    {
      assert s[..k][j] == s[j];
    }
  }

  /** Cutting at a newline and joining the rest back restores the text. */
  lemma {:induction false} SplitAtNewline(s: string, k: nat, rest: seq<string>)
    requires k < |s| && s[k] == '\n'
    requires |rest| > 0 && JoinLines(rest) == s[k + 1..]
    ensures JoinLines([s[..k]] + rest) == s
  {
    var lines := [s[..k]] + rest;
    assert lines[0] == s[..k] && lines[1..] == rest;
    assert s == s[..k] + "\n" + s[k + 1..];
  }

  /** Splitting a join of newline-free lines gives the lines back. */
  lemma {:induction false} SplitJoin(lines: seq<string>)
    requires |lines| > 0
    requires forall i :: 0 <= i < |lines| ==> '\n' !in lines[i]
    ensures SplitLines(JoinLines(lines)) == lines
    decreases |lines|
  {
    var s := JoinLines(lines);
    var k := FindIndex(s, IsNewline);
    if |lines| == 1 {
      assert forall j :: 0 <= j < |s| ==> !IsNewline(s[j]);
    } else {
      var l := lines[0];
      assert s == l + "\n" + JoinLines(lines[1..]);
      assert s[|l|] == '\n';
      assert forall j :: 0 <= j < |l| ==> s[j] == l[j] && !IsNewline(s[j]);
      assert k == |l|;
      assert s[..k] == l;
      assert s[k + 1..] == JoinLines(lines[1..]);
      SplitJoin(lines[1..]);
    }
  }

  // ----- decimal numbers -----

  function DigitChar(d: nat): (c: char)
    requires d < 10
    ensures IsDigit(c)
  {
    ('0' as int + d) as char
  }

  function DigitValue(c: char): nat
    requires IsDigit(c)
  {
    c as int - '0' as int
  }

  /** Value of a string of decimal digits, most significant first. */
  function DecimalValue(ds: string): nat
    requires forall i :: 0 <= i < |ds| ==> IsDigit(ds[i])
  {
    if |ds| == 0 then 0 else 10 * DecimalValue(ds[..|ds| - 1]) + DigitValue(ds[|ds| - 1])
  }

  /** `String(n)` for a non-negative integer, e.g. `Date.now()` in an id. */
  function NatToDecimal(n: nat): (r: string)
    ensures |r| > 0
    ensures forall i :: 0 <= i < |r| ==> IsDigit(r[i])
    ensures DecimalValue(r) == n
  {
    if n < 10 then [DigitChar(n)] else NatToDecimal(n / 10) + [DigitChar(n % 10)]
  }
}
