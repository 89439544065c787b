/**
 * The report form of `pages/citizen/SubmitReport.tsx`: choosing violation
 * types, editing or detecting the vehicle number, and the submit handler that
 * turns the form into the draft `addReport` receives.
 */
module SubmitForm {
  import opened Wrappers
  import opened Seqs
  import opened Chars
  import opened Types
  import opened Store
  import opened PlateDetect

  /** Shown as the evidence image when the citizen uploaded none. */
  const PlaceholderImage := "https://picsum.photos/800/600"

  /** The form state; the vehicle number and the detected plate live in `detect`. */
  datatype Form = Form(
    violationTypes: seq<string>,
    location: string,
    description: string,
    imageUrl: string,
    detect: DetectState)

  function InitialForm(): Form {
    Form([], "", "", "", DetectState("", "", "", ""))
  }

  // ----- violation types -----

  function Other(name: string): string -> bool {
    t => t != name
  }

  /**
   * `toggleViolationType`: a selected label is removed (every occurrence), an
   * unselected one is appended; no other label changes membership.
   */
  function Toggle(types: seq<string>, name: string): (r: seq<string>)
    ensures name in r <==> name !in types
    ensures forall t :: t != name ==> (t in r <==> t in types)
    ensures name !in types ==> r == types + [name]
    ensures name in types ==> IsSubseq(r, types) && |r| == |types| - Count(types, Is(name))
  {
    if name in types then
      FilterMembers(types, Other(name));
      FilterIsSubseq(types, Other(name));
      CountComplement(types, Other(name), Is(name));
      Filter(types, Other(name))
    else
      types + [name]
  }

  /** Selecting and then deselecting a label restores the list. */
  lemma {:induction false} ToggleTwiceAbsent(types: seq<string>, name: string)
    requires name !in types
    ensures Toggle(Toggle(types, name), name) == types
  {
    FilterConcat(types, [name], Other(name));
    FilterAll(types, Other(name));
    FilterNone([name], Other(name));
    assert types + [] == types;
  }

  /** Deselecting and then reselecting a label keeps the same labels but moves it to the end. */
  lemma {:induction false} ToggleTwicePresent(types: seq<string>, name: string)
    requires name in types
    ensures var r := Toggle(Toggle(types, name), name);
      && (forall t :: t in r <==> t in types)
      && r[|r| - 1] == name
  {
  }

  /** Toggling keeps a list without repetitions free of repetitions. */
  lemma {:induction false} ToggleKeepsDistinct(types: seq<string>, name: string)
    requires Distinct(types)
    ensures Distinct(Toggle(types, name))
  {
    if name in types {
      FilterDistinct(types, Other(name));
    } else {
      var r := types + [name];
      forall i, j | 0 <= i < j < |r|
        ensures r[i] != r[j]
      {
        if j == |types| {
          assert r[i] == types[i];
        }
      }
    }
  }

  function ToggleType(f: Form, name: string): Form {
    f.(violationTypes := Toggle(f.violationTypes, name))
  }

  // ----- vehicle number -----

  /** The vehicle field and the detected plate hold the same text. */
  predicate PlateInSync(f: Form) {
    f.detect.plateNumber == f.detect.vehicleNumber
  }

  /** Typing in the vehicle field, which writes both the plate and the vehicle number. */
  function EditVehicle(f: Form, v: string): (f': Form)
    ensures PlateInSync(f')
    ensures f'.detect.vehicleNumber == v
    ensures f'.violationTypes == f.violationTypes && f'.imageUrl == f.imageUrl
  {
    f.(detect := f.detect.(plateNumber := v, vehicleNumber := v))
  }

  /** Running the plate detector on merged OCR text. */
  function Detect(f: Form, raw: string): Form {
    f.(detect := DetectPlate(f.detect, raw))
  }

  lemma {:induction false} InitialInSync()
    ensures PlateInSync(InitialForm())
  {
  }

  /** The detector keeps the vehicle field and the plate in step. */
  lemma {:induction false} DetectKeepsSync(f: Form, raw: string)
    requires PlateInSync(f)
    ensures PlateInSync(Detect(f, raw))
  {
  }

  // ----- submit -----

  /**
   * `handleSubmit`: refused without a violation type; otherwise a draft whose
   * vehicle number is the plate (or, when empty, the typed number)
   * upper-cased and whose image falls back to the placeholder.
   */
  function Submit(f: Form): (d: Option<ReportDraft>)
    ensures d.None? <==> |f.violationTypes| == 0
    ensures d.Some? ==>
      && d.value.violationTypes == f.violationTypes
      && d.value.location == f.location
      && d.value.description == f.description
      && |d.value.imageUrl| > 0
      && (|f.imageUrl| > 0 ==> d.value.imageUrl == f.imageUrl)
      && (|f.imageUrl| == 0 ==> d.value.imageUrl == PlaceholderImage)
      && (forall i :: 0 <= i < |d.value.vehicleNumber| ==> !IsLower(d.value.vehicleNumber[i]))
  {
    if |f.violationTypes| == 0 then None
    else
      var plate := f.detect.plateNumber;
      var vehicle := ToUpper(if |plate| > 0 then plate else f.detect.vehicleNumber);
      var image := if |f.imageUrl| > 0 then f.imageUrl else PlaceholderImage;
      Some(ReportDraft(f.violationTypes, vehicle, f.location, f.description, image))
  }

  /** While the fields are in step, the submitted number is the vehicle field upper-cased. */
  lemma {:induction false} SubmitUsesVehicleField(f: Form)
    requires PlateInSync(f) && |f.violationTypes| > 0
    ensures Submit(f).value.vehicleNumber == ToUpper(f.detect.vehicleNumber)
  {
  }

  /** A plate accepted by the detector is submitted exactly as detected. */
  lemma {:induction false} DetectedPlateIsSubmitted(f: Form, raw: string)
    requires Normalise(raw).Plate? && |f.violationTypes| > 0
    ensures Submit(Detect(f, raw)).value.vehicleNumber == Normalise(raw).candidate
  {
    var c := Normalise(raw).candidate;
    ToUpperPlate(c);
  }

  /** A submitted form files a pending report with at least one violation type. */
  lemma {:induction false} SubmittedReportIsPending(st: State, f: Form, now: nat, isoTime: string)
    requires st.currentUser.Some? && Submit(f).Some?
    ensures var r := AddReport(st, Submit(f).value, now, isoTime).reports[0];
      r.status == Pending && |r.violationTypes| > 0 && r.userId == st.currentUser.value.id
  {
  }
}
