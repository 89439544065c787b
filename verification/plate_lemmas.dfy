/** Properties of the plate normaliser of `pages/citizen/SubmitReport.tsx`. */
module PlateLemmas {
  import opened Wrappers
  import opened Seqs
  import opened Chars
  import opened PlateRegex
  import opened PlateDetect

  /** Number of characters that are plate characters once upper-cased. */
  function PlateCount(s: string): nat {
    Count(ToUpper(s), IsPlateChar)
  }

  lemma {:induction false} PlateCountInfix(s: string, i: nat, j: nat)
    requires i <= j <= |s|
    ensures PlateCount(s[i..j]) <= PlateCount(s)
  {
    assert ToUpper(s[i..j]) == ToUpper(s)[i..j];
    CountInfix(ToUpper(s), i, j, IsPlateChar);
  }

  /** Each line of a text has no more plate characters than the text. */
  lemma {:induction false} LinesPlateCount(s: string)
    ensures forall k :: 0 <= k < |SplitLines(s)| ==> PlateCount(SplitLines(s)[k]) <= PlateCount(s)
    decreases |s|
  {
    var k := FindIndex(s, IsNewline);
    if k >= 0 {
      LinesPlateCount(s[k + 1..]);
      PlateCountInfix(s, 0, k);
      PlateCountInfix(s, k + 1, |s|);
      assert s[0..k] == s[..k];
      assert s[k + 1..|s|] == s[k + 1..];
    }
  }

  /** A text that is not all whitespace has a line that is not all whitespace. */
  lemma {:induction false} SomeLineNotBlank(s: string)
    requires !AllSpace(s)
    ensures exists k :: 0 <= k < |SplitLines(s)| && !AllSpace(SplitLines(s)[k])
    decreases |s|
  {
    var k := FindIndex(s, IsNewline);
    var lines := SplitLines(s);
    var j :| 0 <= j < |s| && !IsSpace(s[j]);
    if k < 0 {
      assert lines[0] == s;
    } else {
      assert IsNewline(s[k]);
      assert j != k;
      if j < k {
        assert lines[0] == s[..k];
        assert !IsSpace(s[..k][j]);
      } else {
        var rest := s[k + 1..];
        assert !IsSpace(rest[j - k - 1]);
        SomeLineNotBlank(rest);
        var m :| 0 <= m < |SplitLines(rest)| && !AllSpace(SplitLines(rest)[m]);
        assert lines[m + 1] == SplitLines(rest)[m];
      }
    }
  }

  /** Text with a non-blank character has a first non-blank line, so the "no pattern" error is unreachable. */
  lemma {:induction false} FallbackLineExists(raw: string)
    requires !AllSpace(raw)
    ensures FirstNonBlankLine(raw).Some?
  {
    SomeLineNotBlank(raw);
    var lines := SplitLines(raw);
    var k :| 0 <= k < |lines| && !AllSpace(lines[k]);
    assert NonEmpty(TrimAll(lines)[k]);
  }

  lemma {:induction false} PlateCountOfInfix(s: string, t: string, i: nat)
    requires i + |t| <= |s| && t == s[i..i + |t|]
    ensures PlateCount(t) <= PlateCount(s)
  {
    PlateCountInfix(s, i, i + |t|);
  }

  /** Trimming removes no plate characters it could add. */
  lemma {:induction false} TrimPlateCount(line: string)
    ensures PlateCount(Trim(line)) <= PlateCount(line)
  {
    PlateCountOfInfix(line, Trim(line), |line| - |TrimStart(line)|);
  }

  /** The fallback line has no more plate characters than the whole text. */
  lemma {:induction false} FallbackLineBound(raw: string)
    requires FirstNonBlankLine(raw).Some?
    ensures PlateCount(FirstNonBlankLine(raw).value) <= PlateCount(raw)
  {
    var lines := SplitLines(raw);
    var k := FirstNonBlankIndex(raw);
    assert 0 <= k < |lines|;
    TrimPlateCount(lines[k]);
    LinesPlateCount(raw);
  }

  lemma {:induction false} CleanedCount(raw: string)
    ensures |Cleaned(raw)| == PlateCount(raw)
  {
  }

  /** The normaliser never ends in the "no number-like pattern" error. */
  lemma {:induction false} NoPatternUnreachable(raw: string)
    ensures Normalise(raw) != NoPattern
  {
    if !AllSpace(raw) {
      FallbackLineExists(raw);
      CandidateExists(raw);
    }
  }

  /** A first non-blank line guarantees a candidate. */
  lemma {:induction false} CandidateExists(raw: string)
    requires FirstNonBlankLine(raw).Some?
    ensures Candidate(raw).Some?
  {
  }

  /**
   * When neither the strict nor the relaxed pattern matches, the fallback line
   * is always too short: the cleaned text has fewer than 6 characters and the
   * line has no more.
   */
  lemma {:induction false} FallbackIsTooShort(raw: string)
    requires !AllSpace(raw)
    requires StrictMatch(Cleaned(raw)).None?
    requires RelaxedMatches(Cleaned(raw)) == []
    ensures Normalise(raw) == TooShort
  {
    FallbackLineExists(raw);
    var best := ToUpper(FirstNonBlankLine(raw).value);
    assert Candidate(raw) == Some(best);
    FallbackShort(raw);
    ShortFinish(best);
  }

  /** Without any pattern match, the fallback line upper-cased has fewer than 6 plate characters. */
  lemma {:induction false} FallbackShort(raw: string)
    requires FirstNonBlankLine(raw).Some?
    requires RelaxedMatches(Cleaned(raw)) == []
    ensures |KeepPlateChars(ToUpper(FirstNonBlankLine(raw).value))| < 6
  {
    RelaxedOnPlateText(Cleaned(raw));
    FallbackLineBound(raw);
    var l := FirstNonBlankLine(raw).value;
    assert |KeepPlateChars(ToUpper(l))| == PlateCount(l);
  }

  /** A candidate with fewer than 6 plate characters is rejected as too short. */
  lemma {:induction false} ShortFinish(best: string)
    requires |KeepPlateChars(best)| < 6
    ensures Finish(best) == TooShort
  {
  }

  /** Misread prefixes start with a digit or have a digit second, so a strict match is never rewritten. */
  lemma {:induction false} StrictMatchNotRewritten(m: string)
    requires |m| >= 2 && IsUpper(m[0]) && IsUpper(m[1])
    ensures FixMisreads(m) == m
  {
    assert m[..2] !in Misreads;
  }

  lemma {:induction false} BlankHasNoPlateChars(raw: string)
    requires AllSpace(raw)
    ensures Cleaned(raw) == []
  {
    ToUpperKeepsSpace(raw);
    CountNone(ToUpper(raw), IsPlateChar);
  }

  /**
   * When the cleaned text contains the strict pattern, the plate is exactly
   * its leftmost greedy match, unaltered by the prefix corrections.
   */
  lemma {:induction false} StrictMatchIsThePlate(raw: string)
    requires StrictMatch(Cleaned(raw)).Some?
    ensures var m := StrictMatch(Cleaned(raw)).value;
      Normalise(raw) == Plate(m, StandardPlate(m))
  {
    var m := StrictMatch(Cleaned(raw)).value;
    StrictMatchShape(Cleaned(raw));
    if AllSpace(raw) {
      BlankHasNoPlateChars(raw);
    }
    ToUpperKeepsSpace(raw);
    KeepPlateCharsIdentity(m);
    ToUpperPlate(m);
    StrictMatchNotRewritten(m);
  }

  /**
   * Without a strict match, a cleaned text of 6 or more characters gives its
   * first min(12, length) characters, prefix-corrected.
   */
  lemma {:induction false} RelaxedPrefixIsThePlate(raw: string)
    requires StrictMatch(Cleaned(raw)).None?
    requires |Cleaned(raw)| >= 6
    ensures var c := Cleaned(raw);
      var p := FixMisreads(c[..if |c| < 12 then |c| else 12]);
      Normalise(raw) == Plate(p, StandardPlate(p))
  {
    var c := Cleaned(raw);
    FirstMatchIsLongest(c);
    var n := if |c| < 12 then |c| else 12;
    var best := c[..n];
    PlateSlice(c, 0, n);
    assert c[0..n] == best;
    KeepPlateCharsIdentity(best);
    ToUpperPlate(best);
    if AllSpace(raw) {
      BlankHasNoPlateChars(raw);
    }
    ToUpperKeepsSpace(raw);
  }

  /** Blank text yields an error and leaves the plate as it was. */
  lemma {:induction false} BlankTextSetsNoPlate(st: DetectState, raw: string)
    requires AllSpace(raw)
    ensures DetectPlate(st, raw).plateNumber == st.plateNumber
    ensures DetectPlate(st, raw).detectError == NoTextMessage
  {
  }

  /** A candidate shorter than 6 yields an error and leaves the plate as it was. */
  lemma {:induction false} ShortCandidateSetsNoPlate(st: DetectState, raw: string)
    requires Normalise(raw) == TooShort
    ensures DetectPlate(st, raw).plateNumber == st.plateNumber
    ensures DetectPlate(st, raw).detectError == TooShortMessage
  {
  }

  // ----- worked examples -----

  /** The text "TN10AB1234" is read as that plate, which passes the final validation. */
  lemma {:induction false} StrictExample()
    ensures Normalise("TN10AB1234") == Plate("TN10AB1234", true)
  {
    var c := "TN10AB1234";
    ExampleCleaned();
    ExampleMatch();
    ExampleStandard();
    StrictMatchIsThePlate(c);
  }

  lemma {:induction false} ExampleMatch()
    ensures StrictMatch("TN10AB1234") == Some("TN10AB1234")
  {
    var c := "TN10AB1234";
    ExampleStrictAt();
    assert StrictMatchesAt(c, 0);
    assert LeftmostStrict(c, 0) == 0;
    assert Counts(2, 2, 4).Length() == |c|;
    assert c[0..|c|] == c;
  }

  lemma {:induction false} ExampleStandard()
    ensures StandardPlate("TN10AB1234")
  {
    assert StandardPlateWith("TN10AB1234", 2);
  }

  lemma {:induction false} ExampleCleaned()
    ensures Cleaned("TN10AB1234") == "TN10AB1234"
  {
    var c := "TN10AB1234";
    ToUpperPlate(c);
    KeepPlateCharsIdentity(c);
  }

  lemma {:induction false} ExampleStrictAt()
    ensures StrictAt("TN10AB1234", 0) == Some(Counts(2, 2, 4))
  {
    var c := "TN10AB1234";
    RunForced(c, 2, 2, IsDigit, 2);
    RunForced(c, 4, 2, IsUpper, 2);
    RunAtLeast(c, 6, 4, IsDigit, 4);
  }

  /** Spaces between the groups are dropped: "TN 10 AB 1234" is read as the plate "TN10AB1234". */
  lemma {:induction false} SpacedExample(raw: string)
    requires raw == "TN 10 AB 1234"
    ensures Normalise(raw) == Plate("TN10AB1234", true)
  {
    SpacedCleaned(raw);
    ExampleMatch();
    ExampleStandard();
    StrictMatchIsThePlate(raw);
  }

  lemma {:induction false} SpacedCleaned(raw: string)
    requires raw == "TN 10 AB 1234"
    ensures Cleaned(raw) == "TN10AB1234"
  {
    forall i | 0 <= i < |raw|
      ensures ToUpper(raw)[i] == raw[i]
    {
      assert !IsLower(raw[i]);
    }
    assert ToUpper(raw) == raw;
    SpacedPieces();
    GroupsKept(raw, "TN", "10", "AB", "1234");
    JoinedPieces();
  }

  lemma {:induction false} SpacedPieces()
    ensures "TN 10 AB 1234" == "TN" + (" " + ("10" + (" " + ("AB" + (" " + "1234")))))
  {
  }

  lemma {:induction false} JoinedPieces()
    ensures "TN" + ("10" + ("AB" + "1234")) == "TN10AB1234"
  {
  }

  /** Four groups of plate characters separated by single spaces are kept and joined. */
  lemma {:induction false} GroupsKept(raw: string, a: string, b: string, c: string, d: string)
    requires raw == a + (" " + (b + (" " + (c + (" " + d)))))
    requires IsPlateText(a) && IsPlateText(b) && IsPlateText(c) && IsPlateText(d)
    ensures KeepPlateChars(raw) == a + (b + (c + d))
  {
    GapDropped(c, d);
    KeepPlateCharsIdentity(d);
    GapDropped(b, c + (" " + d));
    GapDropped(a, b + (" " + (c + (" " + d))));
  }

  /** A space after a run of plate characters is dropped and the run kept. */
  lemma {:induction false} GapDropped(x: string, y: string)
    requires IsPlateText(x)
    ensures KeepPlateChars(x + (" " + y)) == x + KeepPlateChars(y)
  {
    assert x + (" " + y) == (x + " ") + y;
    FilterConcat(x + " ", y, IsPlateChar);
    FilterConcat(x, " ", IsPlateChar);
    KeepPlateCharsIdentity(x);
    FilterNone(" ", IsPlateChar);
    assert x + [] == x;
  }

  /**
   * A misread "11" in front of a plate without a state code: the text has no
   * strict match, so the relaxed match is taken and corrected to "TNAB1234",
   * which is accepted but fails the final validation.
   */
  lemma {:induction false} MisreadThroughNormaliser(raw: string)
    requires raw == "11AB1234"
    ensures Normalise(raw) == Plate("TNAB1234", false)
  {
    MisreadCleaned(raw);
    NoStrictMatchInMisread(raw);
    RelaxedPrefixIsThePlate(raw);
    assert raw[..8] == raw;
    MisreadFixed();
  }

  lemma {:induction false} MisreadCleaned(raw: string)
    requires raw == "11AB1234"
    ensures Cleaned(raw) == raw
  {
    assert IsPlateText(raw);
    ToUpperPlate(raw);
    KeepPlateCharsIdentity(raw);
  }

  /** The corrected text has no state-code digits, so it fails the final validation. */
  lemma {:induction false} MisreadFixed()
    ensures FixMisreads("11AB1234") == "TNAB1234"
    ensures !StandardPlate("TNAB1234")
  {
    var p := "TNAB1234";
    assert !StandardPlateWith(p, 1) && !StandardPlateWith(p, 2) by {
      assert !IsDigit(p[2]);
    }
  }

  lemma {:induction false} NoStrictMatchInMisread(c: string)
    requires c == "11AB1234"
    ensures StrictMatch(c).None?
  {
    RunAtLeast(c, 4, 2, IsDigit, 2);
    assert Run(c, 6, 2, IsUpper) == 0;
    forall j | 0 <= j <= |c|
      ensures !StrictMatchesAt(c, j)
    {
      if j == 2 {
        assert StrictAt(c, 2).None?;
      }
    }
    assert LeftmostStrict(c, 0) < 0;
  }

}
