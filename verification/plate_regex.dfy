/**
 * Hand-coded recognisers for the regular expressions of the plate detector
 * in `pages/citizen/SubmitReport.tsx`, with JavaScript's matching rules: a
 * non-global `match` returns the leftmost match, choosing among matches at
 * that position by backtracking order (greedy quantifiers try the longer count
 * first); a global `match` returns all non-overlapping leftmost matches.
 */
module PlateRegex {
  import opened Wrappers
  import opened Seqs
  import opened Chars

  predicate UpperIn(s: string, lo: nat, hi: nat)
    requires lo <= hi <= |s|
  {
    forall k :: lo <= k < hi ==> IsUpper(s[k])
  }

  predicate DigitsIn(s: string, lo: nat, hi: nat)
    requires lo <= hi <= |s|
  {
    forall k :: lo <= k < hi ==> IsDigit(s[k])
  }

  predicate PlateCharsIn(s: string, lo: nat, hi: nat)
    requires lo <= hi <= |s|
  {
    forall k :: lo <= k < hi ==> IsPlateChar(s[k])
  }

  predicate IsPlateText(m: string) {
    forall j :: 0 <= j < |m| ==> IsPlateChar(m[j])
  }

  lemma {:induction false} PlateSlice(s: string, lo: nat, hi: nat)
    requires lo <= hi <= |s|
    requires forall k :: lo <= k < hi ==> IsPlateChar(s[k])
    ensures IsPlateText(s[lo..hi])
  {
    forall j | 0 <= j < hi - lo
      ensures IsPlateChar(s[lo..hi][j])
    {
      assert s[lo..hi][j] == s[lo + j];
    }
  }

  // ----- /[A-Z]{2}[0-9]{1,2}[A-Z]{1,2}[0-9]{3,4}/ -----

  /** Repetition counts of the three variable quantifiers of the strict pattern. */
  datatype Counts = Counts(digits1: nat, letters: nat, digits2: nat) {
    function Length(): nat { 2 + digits1 + letters + digits2 }
  }

  predicate InRange(t: Counts) {
    1 <= t.digits1 <= 2 && 1 <= t.letters <= 2 && 3 <= t.digits2 <= 4
  }

  /** The strict pattern matches at `i` with these repetition counts. */
  predicate StrictShape(s: string, i: nat, t: Counts) {
    && InRange(t)
    && i + t.Length() <= |s|
    && UpperIn(s, i, i + 2)
    && DigitsIn(s, i + 2, i + 2 + t.digits1)
    && UpperIn(s, i + 2 + t.digits1, i + 2 + t.digits1 + t.letters)
    && DigitsIn(s, i + 2 + t.digits1 + t.letters, i + t.Length())
  }

  /** `t` is tried before `u` by the backtracking engine: greedy counts, outermost first. */
  predicate TriedBefore(t: Counts, u: Counts) {
    || t.digits1 > u.digits1
    || (t.digits1 == u.digits1 && t.letters > u.letters)
    || (t.digits1 == u.digits1 && t.letters == u.letters && t.digits2 > u.digits2)
  }

  /** Number of consecutive characters of class `cls` starting at `i`, at most `cap`. */
  function Run(s: string, i: nat, cap: nat, cls: char -> bool): (n: nat)
    requires i <= |s|
    ensures n <= cap && i + n <= |s|
    ensures forall k :: i <= k < i + n ==> cls(s[k])
    ensures n < cap && i + n < |s| ==> !cls(s[i + n])
    decreases cap
  {
    if cap == 0 || i == |s| || !cls(s[i]) then 0
    else 1 + Run(s, i + 1, cap - 1, cls)
  }

  /**
   * The match of the strict pattern anchored at `i`, found by measuring the
   * digit and letter runs: letters and digits are disjoint classes, so each
   * quantifier's count is forced by the run it stands on.
   */
  function StrictAt(s: string, i: nat): (r: Option<Counts>)
    ensures r.Some? ==> StrictShape(s, i, r.value)
  {
    if i + 2 > |s| || !IsUpper(s[i]) || !IsUpper(s[i + 1]) then None
    else
      var d1 := Run(s, i + 2, 2, IsDigit);
      if d1 == 0 then None
      else
        var l := Run(s, i + 2 + d1, 2, IsUpper);
        if l == 0 then None
        else
          var d2 := Run(s, i + 2 + d1 + l, 4, IsDigit);
          if d2 < 3 then None
          else
            RunsGiveShape(s, i, d1, l, d2);
            Some(Counts(d1, l, d2))
  }

  /** Measured runs of the right lengths after two letters make a match of the strict pattern. */
  lemma {:induction false} RunsGiveShape(s: string, i: nat, d1: nat, l: nat, d2: nat)
    requires i + 2 <= |s| && IsUpper(s[i]) && IsUpper(s[i + 1])
    requires d1 == Run(s, i + 2, 2, IsDigit) && d1 > 0
    requires l == Run(s, i + 2 + d1, 2, IsUpper) && l > 0
    requires d2 == Run(s, i + 2 + d1 + l, 4, IsDigit) && d2 >= 3
    ensures StrictShape(s, i, Counts(d1, l, d2))
  {
    var t := Counts(d1, l, d2);
    assert t.Length() == 2 + d1 + l + d2;
    assert UpperIn(s, i, i + 2) by {
      forall k | i <= k < i + 2 ensures IsUpper(s[k]) {
        assert k == i || k == i + 1;
      }
    }
  }

  lemma {:induction false} RunAtLeast(s: string, i: nat, cap: nat, cls: char -> bool, m: nat)
    requires m <= cap && i + m <= |s|
    requires forall k :: i <= k < i + m ==> cls(s[k])
    ensures Run(s, i, cap, cls) >= m
    decreases cap
  {
    if m > 0 {
      RunAtLeast(s, i + 1, cap - 1, cls, m - 1);
    }
  }

  lemma {:induction false} RunAtMost(s: string, i: nat, cap: nat, cls: char -> bool, m: nat)
    requires i + m < |s| && !cls(s[i + m])
    ensures Run(s, i, cap, cls) <= m
    decreases cap
  {
    if m > 0 && cap > 0 && cls(s[i]) {
      RunAtMost(s, i + 1, cap - 1, cls, m - 1);
    }
  }

  /** Any way the pattern can match at `i` uses the measured digit and letter runs. */
  lemma {:induction false} ShapeForced(s: string, i: nat, u: Counts)
    requires StrictShape(s, i, u)
    ensures var d1 := Run(s, i + 2, 2, IsDigit);
      && u.digits1 == d1
      && var l := Run(s, i + 2 + d1, 2, IsUpper);
         && u.letters == l
         && u.digits2 <= Run(s, i + 2 + d1 + l, 4, IsDigit)
  {
    var p := i + 2 + u.digits1;
    var q := p + u.letters;
    RunForced(s, i + 2, 2, IsDigit, u.digits1);
    RunForced(s, p, 2, IsUpper, u.letters);
    RunAtLeast(s, q, 4, IsDigit, u.digits2);
  }

  /** A run of exactly `m` characters of a class, followed by one outside it, measures `m`. */
  lemma {:induction false} RunForced(s: string, i: nat, cap: nat, cls: char -> bool, m: nat)
    requires m <= cap && i + m < |s|
    requires forall k :: i <= k < i + m ==> cls(s[k])
    requires !cls(s[i + m])
    ensures Run(s, i, cap, cls) == m
  {
    RunAtLeast(s, i, cap, cls, m);
    RunAtMost(s, i, cap, cls, m);
  }

  /**
   * `StrictAt` agrees with the backtracking engine: it finds a match whenever
   * one exists at `i`, and no matching choice of counts is tried before the
   * one it picks.
   */
  lemma {:induction false} StrictAtIsFirstInBacktrackingOrder(s: string, i: nat)
    ensures StrictAt(s, i).None? ==> forall u :: !StrictShape(s, i, u)
    ensures StrictAt(s, i).Some? ==> forall u :: StrictShape(s, i, u) ==> !TriedBefore(u, StrictAt(s, i).value)
  {
    forall u | StrictShape(s, i, u)
      ensures StrictAt(s, i).Some? && !TriedBefore(u, StrictAt(s, i).value)
    {
      ShapeForced(s, i, u);
    }
  }

  predicate StrictMatchesAt(s: string, i: nat) {
    StrictAt(s, i).Some?
  }

  /** The leftmost start at or after `from` where the strict pattern matches, or -1. */
  function LeftmostStrict(s: string, from: nat): (k: int)
    requires from <= |s|
    ensures k == -1 || from <= k <= |s|
    ensures k >= 0 ==> StrictMatchesAt(s, k)
    ensures forall j :: from <= j <= |s| && (k < 0 || j < k) ==> !StrictMatchesAt(s, j)
    decreases |s| - from
  {
    if StrictMatchesAt(s, from) then from
    else if from == |s| then -1
    else LeftmostStrict(s, from + 1)
  }

  /** `s.match(/[A-Z]{2}[0-9]{1,2}[A-Z]{1,2}[0-9]{3,4}/)`, as the matched text. */
  function StrictMatch(s: string): (m: Option<string>)
    ensures m.None? <==> LeftmostStrict(s, 0) < 0
    ensures m.Some? ==>
      var i := LeftmostStrict(s, 0);
      && 0 <= i && StrictMatchesAt(s, i)
      && (forall j :: 0 <= j < i ==> !StrictMatchesAt(s, j))
      && m.value == s[i..i + StrictAt(s, i).value.Length()]
  {
    var i := LeftmostStrict(s, 0);
    if i < 0 then
      None
    else
      Some(s[i..i + StrictAt(s, i).value.Length()])
  }

  /** Text the strict pattern matches: two letters then a digit, 7 to 10 plate characters. */
  lemma {:induction false} ShapeText(s: string, i: nat, t: Counts)
    requires StrictShape(s, i, t)
    ensures var m := s[i..i + t.Length()];
      7 <= |m| <= 10 && IsUpper(m[0]) && IsUpper(m[1]) && IsDigit(m[2]) && IsPlateText(m)
  {
    forall k | i <= k < i + t.Length()
      ensures IsPlateChar(s[k])
    {
      if k < i + 2 {
        assert IsUpper(s[k]);
      } else if k < i + 2 + t.digits1 {
        assert IsDigit(s[k]);
      } else if k < i + 2 + t.digits1 + t.letters {
        assert IsUpper(s[k]);
      } else {
        assert IsDigit(s[k]);
      }
    }
    PlateSlice(s, i, i + t.Length());
    var m := s[i..i + t.Length()];
    assert m[0] == s[i] && m[1] == s[i + 1] && m[2] == s[i + 2];
  }

  /** A strict match is two letters, digits, letters, digits: 7 to 10 plate characters. */
  lemma {:induction false} StrictMatchShape(s: string)
    requires StrictMatch(s).Some?
    ensures var m := StrictMatch(s).value;
      && 7 <= |m| <= 10
      && IsUpper(m[0]) && IsUpper(m[1]) && IsDigit(m[2])
      && IsPlateText(m)
  {
    var i := LeftmostStrict(s, 0);
    var t := StrictAt(s, i).value;
    assert StrictMatch(s).value == s[i..i + t.Length()];
    ShapeText(s, i, t);
  }

  // ----- /[A-Z0-9]{6,12}/g -----

  /** All matches of `/[A-Z0-9]{6,12}/g` starting the scan at `i`. */
  function RelaxedFrom(s: string, i: nat): (ms: seq<string>)
    requires i <= |s|
    ensures forall k :: 0 <= k < |ms| ==> RelaxedText(ms[k])
    decreases |s| - i
  {
    if i == |s| then []
    else
      var n := Run(s, i, 12, IsPlateChar);
      if n >= 6 then
        PlateSlice(s, i, i + n);
        var rest := RelaxedFrom(s, i + n);
        ConsRelaxed(s[i..i + n], rest);
        [s[i..i + n]] + rest
      else RelaxedFrom(s, i + 1)
  }

  /** Text the relaxed pattern can match: 6 to 12 plate characters. */
  predicate RelaxedText(m: string) {
    6 <= |m| <= 12 && IsPlateText(m)
  }

  lemma {:induction false} ConsRelaxed(m: string, rest: seq<string>)
    requires RelaxedText(m)
    requires forall k :: 0 <= k < |rest| ==> RelaxedText(rest[k])
    ensures forall k :: 0 <= k < |[m] + rest| ==> RelaxedText(([m] + rest)[k])
  {
    forall k | 0 <= k < |[m] + rest|
      ensures RelaxedText(([m] + rest)[k])
    {
      if k > 0 {
        assert ([m] + rest)[k] == rest[k - 1];
      }
    }
  }

  /** `match(/[A-Z0-9]{6,12}/g)`: every match is 6 to 12 plate characters. */
  function RelaxedMatches(s: string): (ms: seq<string>)
    ensures forall k :: 0 <= k < |ms| ==> RelaxedText(ms[k])
  {
    RelaxedFrom(s, 0)
  }

  /**
   * On text made only of plate characters the global match cuts the text into
   * chunks of 12 from the left; the first is the first min(12, |s|) characters,
   * and there is none when the text is shorter than 6.
   */
  lemma {:induction false} RelaxedOnPlateText(s: string)
    requires forall k :: 0 <= k < |s| ==> IsPlateChar(s[k])
    ensures |s| < 6 <==> RelaxedMatches(s) == []
    ensures |s| >= 6 ==> RelaxedMatches(s)[0] == s[..if |s| < 12 then |s| else 12]
  {
    RunOfPlateText(s, 0, 12);
    if |s| < 6 {
      ShortTailHasNoMatch(s, 0);
    }
  }

  lemma {:induction false} ShortTailHasNoMatch(s: string, i: nat)
    requires i <= |s| && |s| - i < 6
    requires forall k :: 0 <= k < |s| ==> IsPlateChar(s[k])
    ensures RelaxedFrom(s, i) == []
    decreases |s| - i
  {
    if i < |s| {
      RunOfPlateText(s, i, 12);
      ShortTailHasNoMatch(s, i + 1);
    }
  }

  lemma {:induction false} RunOfPlateText(s: string, i: nat, cap: nat)
    requires i <= |s|
    requires forall k :: 0 <= k < |s| ==> IsPlateChar(s[k])
    ensures Run(s, i, cap, IsPlateChar) == if |s| - i < cap then |s| - i else cap
    decreases cap
  {
    if cap > 0 && i < |s| {
      RunOfPlateText(s, i + 1, cap - 1);
    }
  }

  /**
   * Index of the element `sort((a, b) => b.length - a.length)[0]` picks: the
   * sort is stable, so it is the first element of greatest length.
   */
  function LongestIndex(ms: seq<string>): (k: nat)
    requires |ms| > 0
    ensures k < |ms|
    ensures forall j :: 0 <= j < |ms| ==> |ms[j]| <= |ms[k]|
    ensures forall j :: 0 <= j < k ==> |ms[j]| < |ms[k]|
  {
    if |ms| == 1 then 0
    else
      var k := LongestIndex(ms[1..]);
      if |ms[1..][k]| > |ms[0]| then k + 1 else 0
  }

  /** Since every match has at most 12 characters, a first match of 12 is the longest. */
  lemma {:induction false} FirstMatchIsLongest(s: string)
    requires forall k :: 0 <= k < |s| ==> IsPlateChar(s[k])
    requires |s| >= 6
    ensures var ms := RelaxedMatches(s);
      |ms| > 0 && ms[LongestIndex(ms)] == s[..if |s| < 12 then |s| else 12]
  {
    RelaxedOnPlateText(s);
    var ms := RelaxedMatches(s);
    var k := LongestIndex(ms);
    if |s| < 12 {
      var n := Run(s, 0, 12, IsPlateChar);
      RunOfPlateText(s, 0, 12);
      assert ms == [s[0..n]] + RelaxedFrom(s, n);
      assert RelaxedFrom(s, n) == [];
    }
    assert |ms[0]| >= |ms[k]|;
  }

  // ----- prefix corrections -----

  /** `replace(/^pat/, 'TN')` for a two-character literal `pat`. */
  function RewritePrefix(s: string, pat: string): string
    requires |pat| == 2
  {
    if |s| >= 2 && s[..2] == pat then "TN" + s[2..] else s
  }

  /** The misread prefixes rewritten to "TN", in the order the chain applies them. */
  const Misreads: seq<string> := ["11", "1N", "N1", "10", "I1"]

  /**
   * The chain of five anchored `replace` calls. It keeps the length, changes
   * at most the first two characters, and amounts to one table lookup: the
   * text changes exactly when it starts with a misread, and then it starts
   * with "TN", so at most one rule ever fires.
   */
  function FixMisreads(s: string): (r: string)
    ensures |r| == |s|
    ensures |s| >= 2 ==> r[2..] == s[2..]
    ensures r == if |s| >= 2 && s[..2] in Misreads then "TN" + s[2..] else s
  {
    RewritePrefix(RewritePrefix(RewritePrefix(RewritePrefix(RewritePrefix(s, "11"), "1N"), "N1"), "10"), "I1")
  }

  // ----- /^[A-Z]{2}[0-9]{2}[A-Z]{1,2}[0-9]{4}$/ -----

  /** The final anchored validation: the whole text is a plate of the standard form. */
  predicate IsStandardPlate(s: string) {
    exists letters :: 1 <= letters <= 2 && StandardPlateWith(s, letters)
  }

  predicate StandardPlateWith(s: string, letters: nat) {
    && |s| == 8 + letters
    && UpperIn(s, 0, 2)
    && DigitsIn(s, 2, 4)
    && UpperIn(s, 4, 4 + letters)
    && DigitsIn(s, 4 + letters, |s|)
  }

  /** Decides the final validation without search: the length fixes the letter count. */
  function StandardPlate(s: string): (b: bool)
    ensures b <==> IsStandardPlate(s)
  {
    if |s| == 9 then StandardPlateWith(s, 1)
    else if |s| == 10 then StandardPlateWith(s, 2)
    else false
  }
}
