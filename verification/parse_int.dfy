/**
 * The points input of `pages/admin/ReportReview.tsx` reads its value with
 * `parseInt(value) || 0`. `parseInt` without a radix follows ECMAScript's
 * global `parseInt` function: skip leading whitespace, take an optional sign,
 * read base 16 after a `0x`/`0X` prefix and base 10 otherwise, and convert
 * the longest run of digits; no digits gives NaN. `|| 0` then turns NaN (and
 * -0) into 0.
 */
module NumberInput {
  import opened Wrappers
  import opened Chars

  /** The value of `c` as a digit of base `radix` (10 or 16), if it is one. */
  function DigitIn(c: char, radix: nat): Option<nat> {
    if IsDigit(c) then Some(DigitValue(c))
    else if radix == 16 && 'a' <= c <= 'f' then Some(c as int - 'a' as int + 10)
    else if radix == 16 && 'A' <= c <= 'F' then Some(c as int - 'A' as int + 10)
    else None
  }

  predicate IsDigitIn(c: char, radix: nat) {
    DigitIn(c, radix).Some?
  }

  /** Length of the longest prefix of `s` made of base-`radix` digits. */
  function DigitRun(s: string, radix: nat): (n: nat)
    ensures n <= |s|
    ensures forall i :: 0 <= i < n ==> IsDigitIn(s[i], radix)
    ensures n < |s| ==> !IsDigitIn(s[n], radix)
    decreases |s|
  {
    if |s| > 0 && IsDigitIn(s[0], radix) then 1 + DigitRun(s[1..], radix) else 0
  }

  /** Value of a string of base-`radix` digits, most significant first. */
  function RadixValue(ds: string, radix: nat): nat
    requires forall i :: 0 <= i < |ds| ==> IsDigitIn(ds[i], radix)
  {
    if |ds| == 0 then 0
    else
      var last := ds[|ds| - 1];
      assert IsDigitIn(last, radix);
      radix * RadixValue(ds[..|ds| - 1], radix) + DigitIn(last, radix).value
  }

  /** The sign read from the front of the trimmed text: -1 after a '-', else 1. */
  function Sign(t: string): int {
    if |t| > 0 && t[0] == '-' then -1 else 1
  }

  /** The trimmed text with one leading '+' or '-' removed. */
  function AfterSign(t: string): string {
    if |t| > 0 && (t[0] == '-' || t[0] == '+') then t[1..] else t
  }

  predicate HasHexPrefix(u: string) {
    |u| >= 2 && u[0] == '0' && (u[1] == 'x' || u[1] == 'X')
  }

  function Radix(u: string): nat {
    if HasHexPrefix(u) then 16 else 10
  }

  /** The digits part: after a hexadecimal prefix, or the whole text. */
  function Body(u: string): string {
    if HasHexPrefix(u) then u[2..] else u
  }

  /** The number read after the sign: the longest run of digits in the radix the prefix selects. */
  function ReadUnsigned(u: string): Option<nat> {
    var body := Body(u);
    var n := DigitRun(body, Radix(u));
    if n == 0 then None else Some(RadixValue(body[..n], Radix(u)))
  }

  /** `parseInt(s)` with no radix; `None` stands for NaN. */
  function ParseInt(s: string): (r: Option<int>)
    ensures r.Some? && r.value < 0 ==> |TrimStart(s)| > 0 && TrimStart(s)[0] == '-'
  {
    var t := TrimStart(s);
    match ReadUnsigned(AfterSign(t))
    case None => None
    case Some(v) => Some(Sign(t) * v)
  }

  /** `parseInt(s) || 0`: NaN and zero both become 0. */
  function ParseIntOrZero(s: string): (v: int)
    ensures ParseInt(s).None? ==> v == 0
    ensures ParseInt(s).Some? ==> v == ParseInt(s).value
  {
    ParseInt(s).GetOr(0)
  }

  /** `String(n)` for an integer. */
  function IntToDecimal(n: int): string {
    if n < 0 then "-" + NatToDecimal(-n) else NatToDecimal(n)
  }

  /** Decimal digits read in base 10 have their decimal value. */
  lemma {:induction false} RadixValueDecimal(ds: string)
    requires forall i :: 0 <= i < |ds| ==> IsDigit(ds[i])
    ensures RadixValue(ds, 10) == DecimalValue(ds)
    decreases |ds|
  {
    if |ds| > 0 {
      RadixValueDecimal(ds[..|ds| - 1]);
    }
  }

  /** The digit run of decimal digits followed by a non-digit stops exactly at the non-digit. */
  lemma {:induction false} DigitRunOfDigits(ds: string, rest: string)
    requires forall i :: 0 <= i < |ds| ==> IsDigit(ds[i])
    requires |rest| == 0 || !IsDigitIn(rest[0], 10)
    ensures DigitRun(ds + rest, 10) == |ds|
    decreases |ds|
  {
    if |ds| > 0 {
      assert (ds + rest)[1..] == ds[1..] + rest;
      DigitRunOfDigits(ds[1..], rest);
    } else {
      assert ds + rest == rest;
    }
  }

  lemma {:induction false} TrimStartAllSpace(s: string)
    requires forall i :: 0 <= i < |s| ==> IsSpace(s[i])
    ensures TrimStart(s) == []
    decreases |s|
  {
    if |s| > 0 {
      TrimStartAllSpace(s[1..]);
    }
  }

  /** Text that starts with a non-space character is not changed by `TrimStart`. */
  lemma {:induction false} TrimStartNoSpace(s: string)
    requires |s| > 0 && !IsSpace(s[0])
    ensures TrimStart(s) == s
  {
  }

  /** The unsigned part "digits then a non-digit tail" is read in base 10 up to the tail. */
  lemma {:induction false} ReadDigits(ds: string, rest: string)
    requires |ds| > 0 && forall i :: 0 <= i < |ds| ==> IsDigit(ds[i])
    requires |rest| == 0 || (!IsDigitIn(rest[0], 10) && rest[0] != 'x' && rest[0] != 'X')
    ensures ReadUnsigned(ds + rest) == Some(DecimalValue(ds))
  {
    var u := ds + rest;
    NoHexPrefix(ds, rest);
    DigitRunOfDigits(ds, rest);
    assert u[..|ds|] == ds;
    RadixValueDecimal(ds);
  }

  /** Digits followed by a tail that does not start with 'x' never carry the hexadecimal prefix. */
  lemma {:induction false} NoHexPrefix(ds: string, rest: string)
    requires |ds| > 0 && forall i :: 0 <= i < |ds| ==> IsDigit(ds[i])
    requires |rest| == 0 || (rest[0] != 'x' && rest[0] != 'X')
    ensures !HasHexPrefix(ds + rest)
  {
    var u := ds + rest;
    if |ds| >= 2 {
      assert u[1] == ds[1];
    } else if |rest| > 0 {
      assert u[1] == rest[0];
    }
  }

  /** Reading the decimal digits of `n` followed by a non-digit tail gives `n`. */
  lemma {:induction false} DecimalPrefix(n: nat, rest: string)
    requires |rest| == 0 || (!IsDigitIn(rest[0], 10) && rest[0] != 'x' && rest[0] != 'X')
    ensures ParseInt(NatToDecimal(n) + rest) == Some(n)
  {
    var ds := NatToDecimal(n);
    var s := ds + rest;
    assert s[0] == ds[0];
    TrimStartNoSpace(s);
    ReadDigits(ds, rest);
    UnsignedDigits(s, n);
  }

  /** Text starting with a digit is read without trimming or sign. */
  lemma {:induction false} UnsignedDigits(s: string, n: nat)
    requires |s| > 0 && IsDigit(s[0]) && TrimStart(s) == s
    requires ReadUnsigned(s) == Some(n)
    ensures ParseInt(s) == Some(n)
  {
    assert AfterSign(s) == s && Sign(s) == 1;
  }

  /** Rendering an integer in decimal and reading it back with `parseInt(…) || 0` gives the integer. */
  lemma {:induction false} ParseIntOrZeroRoundTrip(n: int)
    ensures ParseIntOrZero(IntToDecimal(n)) == n
  {
    if n < 0 {
      var ds := NatToDecimal(-n);
      var s := "-" + ds;
      TrimStartNoSpace(s);
      assert AfterSign(s) == ds + "" && Sign(s) == -1;
      ReadDigits(ds, "");
    } else {
      DecimalPrefix(n, "");
      assert NatToDecimal(n) + "" == NatToDecimal(n);
    }
  }

  /** A decimal fraction is cut at the point: "12.7" reads as 12. */
  lemma {:induction false} FractionIsTruncated(n: nat, frac: string)
    ensures ParseIntOrZero(NatToDecimal(n) + "." + frac) == n
  {
    var s := NatToDecimal(n) + "." + frac;
    assert s == NatToDecimal(n) + ("." + frac);
    DecimalPrefix(n, "." + frac);
    assert ParseInt(s) == Some(n);
  }

  /** Empty or whitespace-only input reads as 0. */
  lemma {:induction false} NoDigitsIsZero(s: string)
    requires forall i :: 0 <= i < |s| ==> IsSpace(s[i])
    ensures ParseIntOrZero(s) == 0
  {
    TrimStartAllSpace(s);
  }

  /** The hexadecimal prefix is honoured: "0x1A" reads as 26. */
  lemma {:induction false} HexExample()
    ensures ParseIntOrZero("0x1A") == 26
  {
    var s := "0x1A";
    TrimStartNoSpace(s);
    assert AfterSign(s) == s;
    assert HasHexPrefix(s) && Body(s) == "1A";
    assert DigitRun("1A", 16) == 2 by {
      assert "1A"[1..] == "A" && "A"[1..] == "";
    }
    assert RadixValue("1A", 16) == 26 by {
      assert "1A"[..1] == "1" && "1"[..0] == "";
    }
    assert "1A"[..2] == "1A";
  }
}
