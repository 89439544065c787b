/**
 * The plate detector of `pages/citizen/SubmitReport.tsx` from the merged OCR
 * text onward: the text-to-plate normaliser and its effect on the form state.
 */
module PlateDetect {
  import opened Wrappers
  import opened Seqs
  import opened Chars
  import opened PlateRegex

  const NoTextMessage := "AI could not read any text. Try a closer, clearer number plate image or type manually."
  const NoPatternMessage := "Text was detected, but no number-like pattern was found. Please type it manually."
  const TooShortMessage := "AI detected text, but it is too short to be a valid vehicle number. Please upload a clearer, closer image."
  const LowVisibilityMessage := "Low visibility or angled plate detected. For best AI results, upload a clear, front-facing, well-lit number plate image."

  /** How the normaliser ends: one of three errors, or a plate and whether it passed the final validation. */
  datatype Outcome = NoText | NoPattern | TooShort | Plate(candidate: string, standard: bool)

  function NonEmpty(l: string): bool { |l| > 0 }

  /** `lines.map(l => l.trim())`. */
  function TrimAll(lines: seq<string>): (r: seq<string>)
    ensures |r| == |lines|
    ensures forall i :: 0 <= i < |lines| ==> r[i] == Trim(lines[i])
  {
    seq(|lines|, i requires 0 <= i < |lines| => Trim(lines[i]))
  }

  /** Index of the line `find(l => l.length > 0)` picks after trimming, or -1. */
  function FirstNonBlankIndex(raw: string): int {
    FindIndex(TrimAll(SplitLines(raw)), NonEmpty)
  }

  /** `split('\n').map(l => l.trim()).find(l => l.length > 0)`. */
  function FirstNonBlankLine(raw: string): (r: Option<string>)
    ensures r.Some? ==> |r.value| > 0
  {
    var k := FirstNonBlankIndex(raw);
    if k < 0 then None else Some(Trim(SplitLines(raw)[k]))
  }

  /** `parsedText.replace(/[^A-Z0-9]/g, '')` of the upper-cased text. */
  function Cleaned(raw: string): (c: string)
    ensures IsPlateText(c)
  {
    KeepPlateChars(ToUpper(raw))
  }

  /**
   * The best candidate before the final cleanup: the strict match, else the
   * longest relaxed match, else the first non-blank line upper-cased; none
   * when there is no such line.
   */
  function Candidate(raw: string): Option<string> {
    var cleaned := Cleaned(raw);
    match StrictMatch(cleaned)
    case Some(m) => Some(m)
    case None =>
      var relaxed := RelaxedMatches(cleaned);
      if |relaxed| > 0 then Some(relaxed[LongestIndex(relaxed)])
      else
        match FirstNonBlankLine(raw)
        case Some(l) => Some(ToUpper(l))
        case None => None
  }

  /**
   * The normaliser: text that is blank after trimming is an error; otherwise
   * the candidate is finished, and a missing candidate is the "no pattern"
   * error.
   */
  function Normalise(raw: string): (o: Outcome)
    ensures o == NoText <==> AllSpace(raw)
    ensures o.Plate? ==> |o.candidate| >= 6 && IsPlateText(o.candidate)
    ensures o.Plate? ==> (o.standard <==> IsStandardPlate(o.candidate))
  {
    ToUpperKeepsSpace(raw);
    if |Trim(ToUpper(raw))| == 0 then NoText
    else
      match Candidate(raw)
      case None => NoPattern
      case Some(best) => Finish(best)
  }

  /**
   * The final cleanup of a candidate: upper-cased, stripped of non-plate
   * characters and its misread prefix corrected; accepted when it has at
   * least 6 characters, whether or not it passes the final validation.
   */
  function Finish(best: string): (o: Outcome)
    ensures o == TooShort || o.Plate?
    ensures o.Plate? ==> |o.candidate| >= 6 && IsPlateText(o.candidate)
    ensures o.Plate? ==> (o.standard <==> IsStandardPlate(o.candidate))
  {
    var c := FixMisreads(ToUpper(KeepPlateChars(best)));
    CleanupIsPlateText(best);
    if |c| < 6 then TooShort else Plate(c, StandardPlate(c))
  }

  lemma {:induction false} CleanupIsPlateText(best: string)
    ensures IsPlateText(FixMisreads(ToUpper(KeepPlateChars(best))))
  {
    ToUpperPlate(KeepPlateChars(best));
  }

  // ----- form state -----

  /** The detector's part of the form: the message, the OCR preview, the plate and the vehicle number. */
  datatype DetectState = DetectState(detectError: string, ocrPreview: string, plateNumber: string, vehicleNumber: string)

  /**
   * The state changes of `handleExtractPlate` for merged OCR text `raw`:
   * message and preview are cleared, then the normaliser's outcome is applied.
   * An accepted plate is stored in both the plate and the vehicle number and
   * the message ends empty, since the low-visibility warning is overwritten.
   */
  function DetectPlate(st: DetectState, raw: string): (st': DetectState)
    ensures Normalise(raw).Plate? ==>
      && st'.plateNumber == Normalise(raw).candidate
      && st'.vehicleNumber == Normalise(raw).candidate
      && st'.detectError == ""
    ensures !Normalise(raw).Plate? ==>
      && st'.plateNumber == st.plateNumber
      && st'.vehicleNumber == st.vehicleNumber
      && st'.detectError != ""
    ensures AllSpace(raw) ==> st'.detectError == NoTextMessage && st'.ocrPreview == ""
    ensures !AllSpace(raw) ==> st'.ocrPreview == Trim(raw)
  {
    var cleared := st.(detectError := "", ocrPreview := "");
    match Normalise(raw)
    case NoText => cleared.(detectError := NoTextMessage)
    case NoPattern => cleared.(ocrPreview := Trim(raw), detectError := NoPatternMessage)
    case TooShort => cleared.(ocrPreview := Trim(raw), detectError := TooShortMessage)
    case Plate(c, standard) =>
      var shown := cleared.(ocrPreview := Trim(raw));
      var warned := if standard then shown else shown.(detectError := LowVisibilityMessage);
      warned.(plateNumber := c, vehicleNumber := c, detectError := "")
  }
}
