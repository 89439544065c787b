/**
 * The admin review screen of `pages/admin/ReportReview.tsx`: the status
 * filter, the points and comment offered for the selected report, the
 * approve/reject action with its choice of the next report, and which
 * reports offer a decision at all.
 */
module Review {
  import opened Wrappers
  import opened Seqs
  import opened Types
  import opened Store
  import StoreLemmas
  import NumberInput

  // ----- filter -----

  /** The filter tabs; the screen opens on PENDING. */
  datatype ReviewFilter = All | Only(status: Status)

  function Shows(f: ReviewFilter): Report -> bool {
    (r: Report) => f.All? || r.status == f.status
  }

  /** `reports.filter(r => filter === 'ALL' || r.status === filter)`. */
  function FilteredReports(reports: seq<Report>, f: ReviewFilter): (r: seq<Report>)
    ensures IsSubseq(r, reports)
    ensures f.Only? ==> forall i :: 0 <= i < |r| ==> r[i].status == f.status
    ensures forall i :: 0 <= i < |reports| && (f.All? || reports[i].status == f.status) ==> reports[i] in r
  {
    FilterIsSubseq(reports, Shows(f));
    FilterMembers(reports, Shows(f));
    Filter(reports, Shows(f))
  }

  /** The ALL tab lists every report in order. */
  lemma {:induction false} FilterAllIsEverything(reports: seq<Report>)
    ensures FilteredReports(reports, All) == reports
  {
    FilterAll(reports, Shows(All));
  }

  // ----- suggested points and comment -----

  function Named(name: string): ViolationType -> bool {
    (v: ViolationType) => v.name == name
  }

  /**
   * `VIOLATION_TYPES.find(v => v.label === type)?.defaultPoints || 0`: the
   * default points of the first table entry with that label, or 0 when there
   * is none (a 0 default is 0 either way).
   */
  function PointsOf(table: seq<ViolationType>, name: string): (p: int)
    ensures (forall i :: 0 <= i < |table| ==> table[i].name != name) ==> p == 0
    ensures forall i :: 0 <= i < |table| && table[i].name == name && (forall j :: 0 <= j < i ==> table[j].name != name) ==>
      p == table[i].defaultPoints
    ensures p == 0 || exists i :: 0 <= i < |table| && table[i].name == name && p == table[i].defaultPoints
  {
    var k := FindIndex(table, Named(name));
    if k < 0 then 0 else table[k].defaultPoints
  }

  /**
   * The `reduce` over the report's labels: the sum of their points, left to
   * right; never negative when no default is.
   */
  function CalculatedPoints(table: seq<ViolationType>, types: seq<string>): (p: int)
    ensures |types| == 1 ==> p == PointsOf(table, types[0])
    ensures (forall j :: 0 <= j < |table| ==> table[j].defaultPoints >= 0) ==> p >= 0
    decreases |types|
  {
    if |types| == 0 then 0
    else CalculatedPoints(table, types[..|types| - 1]) + PointsOf(table, types[|types| - 1])
  }

  /** The sum splits over a concatenation of label lists. */
  lemma {:induction false} CalculatedPointsConcat(table: seq<ViolationType>, a: seq<string>, b: seq<string>)
    ensures CalculatedPoints(table, a + b) == CalculatedPoints(table, a) + CalculatedPoints(table, b)
    decreases |b|
  {
    if |b| == 0 {
      assert a + b == a;
    } else {
      var b' := b[..|b| - 1];
      assert (a + b)[..|a + b| - 1] == a + b';
      assert (a + b)[|a + b| - 1] == b[|b| - 1];
      CalculatedPointsConcat(table, a, b');
    }
  }

  /** Labels the table does not know add nothing. */
  lemma {:induction false} UnknownLabelsScoreZero(table: seq<ViolationType>, types: seq<string>)
    requires forall i, j :: 0 <= i < |types| && 0 <= j < |table| ==> table[j].name != types[i]
    ensures CalculatedPoints(table, types) == 0
    decreases |types|
  {
    if |types| > 0 {
      UnknownLabelsScoreZero(table, types[..|types| - 1]);
    }
  }

  /** With non-negative defaults the sum is non-negative and grows with each label. */
  lemma {:induction false} CalculatedPointsMonotone(table: seq<ViolationType>, types: seq<string>, k: nat)
    requires forall j :: 0 <= j < |table| ==> table[j].defaultPoints >= 0
    requires k <= |types|
    ensures 0 <= CalculatedPoints(table, types[..k]) <= CalculatedPoints(table, types)
    decreases |types|
  {
    if |types| > 0 {
      var init := types[..|types| - 1];
      if k < |types| {
        assert types[..k] == init[..k];
        CalculatedPointsMonotone(table, init, k);
      } else {
        assert types[..k] == types;
        CalculatedPointsMonotone(table, init, |init|);
        assert init[..|init|] == init;
      }
    }
  }

  /**
   * `selectedReport.rewardPoints || calculatedPoints`: the stored points unless
   * there are none or they are 0, in which case the labels' sum.
   */
  function SuggestedPoints(table: seq<ViolationType>, r: Report): (p: int)
    ensures r.rewardPoints.Some? && r.rewardPoints.value != 0 ==> p == r.rewardPoints.value
    ensures r.rewardPoints.None? || r.rewardPoints.value == 0 ==> p == CalculatedPoints(table, r.violationTypes)
  {
    match r.rewardPoints
    case Some(p) => if p != 0 then p else CalculatedPoints(table, r.violationTypes)
    case None => CalculatedPoints(table, r.violationTypes)
  }

  /** `selectedReport.adminComment || ''`. */
  function SuggestedComment(r: Report): (c: string)
    ensures r.adminComment.Some? ==> c == r.adminComment.value
    ensures r.adminComment.None? ==> c == ""
  {
    r.adminComment.GetOr("")
  }

  // ----- screen state -----

  /** The two decisions the buttons send. */
  datatype Decision = Approve | Reject

  function StatusOf(d: Decision): Status {
    match d
    case Approve => Approved
    case Reject => Rejected
  }

  /** The review screen: filter tab, selected id, and the comment and points inputs. */
  datatype Screen = Screen(filter: ReviewFilter, selectedId: Option<string>, comment: string, points: int)

  /** `reports.find(r => r.id === selectedReportId) || null`, searched in all reports. */
  function SelectedReport(reports: seq<Report>, sel: Option<string>): (r: Option<Report>)
    ensures r.Some? ==> sel.Some? && r.value.id == sel.value && r.value in reports
    ensures r.Some? ==> exists k :: 0 <= k < |reports| && reports[k] == r.value && forall j :: 0 <= j < k ==> reports[j].id != sel.value
    ensures sel.None? ==> r.None?
    ensures sel.Some? && r.None? ==> forall i :: 0 <= i < |reports| ==> reports[i].id != sel.value
  {
    match sel
    case None => None
    case Some(id) =>
      var k := FindIndex(reports, HasReportId(id));
      if k < 0 then None else Some(reports[k])
  }

  /** What the effect watches: the selected id and the selected report's status. */
  function Deps(reports: seq<Report>, sel: Option<string>): (Option<string>, Option<Status>) {
    (sel, match SelectedReport(reports, sel) case Some(r) => Some(r.status) case None => None)
  }

  /**
   * The effect body: when a report is selected, prefill the points and the
   * comment from it; otherwise leave the inputs as they are.
   */
  function Refresh(table: seq<ViolationType>, reports: seq<Report>, scr: Screen): (scr': Screen)
    ensures scr'.filter == scr.filter && scr'.selectedId == scr.selectedId
    ensures SelectedReport(reports, scr.selectedId).None? ==> scr' == scr
    ensures SelectedReport(reports, scr.selectedId).Some? ==>
      var r := SelectedReport(reports, scr.selectedId).value;
      scr'.points == SuggestedPoints(table, r) && scr'.comment == SuggestedComment(r)
  {
    match SelectedReport(reports, scr.selectedId)
    case None => scr
    case Some(r) => scr.(points := SuggestedPoints(table, r), comment := SuggestedComment(r))
  }

  /** The effect runs only when its dependencies changed since the last render. */
  function Rerender(table: seq<ViolationType>, before: (Option<string>, Option<Status>), reports: seq<Report>, scr: Screen): (scr': Screen)
    ensures scr'.filter == scr.filter && scr'.selectedId == scr.selectedId
  {
    if Deps(reports, scr.selectedId) != before then Refresh(table, reports, scr) else scr
  }

  /** `handleOpenReport`, followed by the effect. */
  function OpenReport(table: seq<ViolationType>, reports: seq<Report>, scr: Screen, id: string): (scr': Screen)
    ensures scr'.selectedId == Some(id) && scr'.filter == scr.filter
    ensures scr.selectedId != Some(id) && SelectedReport(reports, Some(id)).Some? ==>
      scr'.points == SuggestedPoints(table, SelectedReport(reports, Some(id)).value)
  {
    Rerender(table, Deps(reports, scr.selectedId), reports, scr.(selectedId := Some(id)))
  }

  /** The points input's `onChange`: the typed text read with `parseInt(…) || 0`. */
  function EnterPoints(scr: Screen, text: string): (scr': Screen)
    ensures scr'.filter == scr.filter && scr'.selectedId == scr.selectedId && scr'.comment == scr.comment
    ensures NumberInput.ParseInt(text).None? ==> scr'.points == 0
  {
    scr.(points := NumberInput.ParseIntOrZero(text))
  }

  /** Typing an integer in decimal sets the points input to that integer. */
  lemma {:induction false} TypedPointsAreKept(scr: Screen, n: int)
    ensures EnterPoints(scr, NumberInput.IntToDecimal(n)).points == n
  {
    NumberInput.ParseIntOrZeroRoundTrip(n);
  }

  // ----- handleAction -----

  /**
   * The index of the report selected next, or -1, as `handleAction` computes
   * it from the current index `ci` (-1 when the current report is not in the
   * filtered list) and the list length `len`.
   */
  function NextIndex(len: nat, ci: int, f: ReviewFilter, d: Decision): (k: int)
    requires -1 <= ci < len
    ensures len <= 1 ==> k == -1
    ensures len > 1 ==> 0 <= k < len && k == if ci < len - 1 then ci + 1 else ci - 1
  {
    if len > 1 then
      if f.Only? && f.status != StatusOf(d) then
        if ci == len - 1 then ci - 1 else ci + 1
      else
        if ci < len - 1 then ci + 1
        else if ci > 0 then ci - 1
        else -1
    else -1
  }

  /**
   * Both branches of `handleAction` pick the same report: the following one,
   * or the preceding one for the last; whether the decided report leaves the
   * list does not matter.
   */
  lemma {:induction false} NextIndexIgnoresFilter(len: nat, ci: int, f: ReviewFilter, g: ReviewFilter, d: Decision, e: Decision)
    requires -1 <= ci < len
    ensures NextIndex(len, ci, f, d) == NextIndex(len, ci, g, e)
  {
  }

  function ReportId(r: Report): string {
    r.id
  }

  function ReportIds(reports: seq<Report>): (ids: seq<string>)
    ensures |ids| == |reports| && forall i :: 0 <= i < |reports| ==> ids[i] == reports[i].id
  {
    seq(|reports|, i requires 0 <= i < |reports| => reports[i].id)
  }

  /** Report ids are pairwise distinct. */
  predicate IdsUnique(reports: seq<Report>) {
    UniqueKeys(reports, ReportId)
  }

  /**
   * The id `handleAction` selects next in the filtered list, given the
   * decided report's id: a neighbour of that report in the list, none when the
   * list has at most one report or the neighbour's id is empty.
   */
  function NextSelection(filtered: seq<Report>, id: string, f: ReviewFilter, d: Decision): (r: Option<string>)
    ensures |filtered| <= 1 ==> r.None?
    ensures |filtered| > 1 && (forall i :: 0 <= i < |filtered| ==> |filtered[i].id| > 0) ==> r.Some?
    ensures r.Some? ==> r.value in ReportIds(filtered)
    ensures r.Some? && IdsUnique(filtered) ==> r.value != id
  {
    var ci := FindIndex(filtered, HasReportId(id));
    var k := NextIndex(|filtered|, ci, f, d);
    if k >= 0 && |filtered[k].id| > 0 then
      assert ReportIds(filtered)[k] == filtered[k].id;
      assert IdsUnique(filtered) && ci >= 0 ==> ReportId(filtered[k]) != ReportId(filtered[ci]);
      Some(filtered[k].id)
    else
      None
  }

  /**
   * `handleAction(status)`: nothing without a selected report; otherwise the
   * report is decided (with the points input on approval, 0 on rejection, and
   * the comment input), the next report is selected, and the effect runs.
   */
  function HandleAction(table: seq<ViolationType>, st: State, scr: Screen, d: Decision): (res: (State, Screen))
    ensures SelectedReport(st.reports, scr.selectedId).None? ==> res == (st, scr)
    ensures SelectedReport(st.reports, scr.selectedId).Some? ==>
      && res.0 == UpdateReportStatus(st, scr.selectedId.value, StatusOf(d),
                                     Some(if d == Approve then scr.points else 0), Some(scr.comment))
      && res.1.selectedId == NextSelection(FilteredReports(st.reports, scr.filter), scr.selectedId.value, scr.filter, d)
    ensures res.1.filter == scr.filter
  {
    match SelectedReport(st.reports, scr.selectedId)
    case None => (st, scr)
    case Some(sel) =>
      var filtered := FilteredReports(st.reports, scr.filter);
      var nextId := NextSelection(filtered, sel.id, scr.filter, d);
      var st' := UpdateReportStatus(st, sel.id, StatusOf(d), Some(if d == Approve then scr.points else 0), Some(scr.comment));
      (st', Rerender(table, Deps(st.reports, scr.selectedId), st'.reports, scr.(selectedId := nextId)))
  }

  /** Rejecting never changes anyone's points and records 0 points on the report. */
  lemma {:induction false} RejectNeverCredits(table: seq<ViolationType>, st: State, scr: Screen)
    requires SelectedReport(st.reports, scr.selectedId).Some?
    ensures var st' := HandleAction(table, st, scr, Reject).0;
      && st'.users == st.users && st'.currentUser == st.currentUser
      && forall i :: 0 <= i < |st.reports| && st.reports[i].id == scr.selectedId.value ==>
           st'.reports[i].status == Rejected && st'.reports[i].rewardPoints == Some(0)
  {
  }

  /** The buttons a report shows: only a PENDING report can be decided. */
  function DecisionsOffered(r: Report): (ds: seq<Decision>)
    ensures |ds| > 0 <==> r.status == Pending
    ensures r.status == Pending ==> Approve in ds && Reject in ds
  {
    if r.status == Pending then [Reject, Approve] else []
  }

  /**
   * After a decision under a status tab, the report selected next (when there
   * is one) still shows under that tab, provided report ids are unique.
   */
  lemma {:induction false} NextSelectionStaysInTab(table: seq<ViolationType>, st: State, scr: Screen, d: Decision)
    requires IdsUnique(st.reports)
    requires SelectedReport(st.reports, scr.selectedId).Some?
    requires scr.filter.Only?
    ensures var res := HandleAction(table, st, scr, d);
      res.1.selectedId.Some? ==>
        && SelectedReport(res.0.reports, res.1.selectedId).Some?
        && SelectedReport(res.0.reports, res.1.selectedId).value.status == scr.filter.status
  {
    var id := scr.selectedId.value;
    var pts := Some(if d == Approve then scr.points else 0);
    NextInTab(st, id, scr.filter.status, d, StatusOf(d), pts, Some(scr.comment));
  }

  lemma {:induction false} NextInTab(st: State, id: string, s: Status, d: Decision, status: Status, points: Option<int>, comment: Option<string>)
    requires IdsUnique(st.reports)
    ensures var next := NextSelection(FilteredReports(st.reports, Only(s)), id, Only(s), d);
      next.Some? ==>
        var found := SelectedReport(UpdateReportStatus(st, id, status, points, comment).reports, next);
        found.Some? && found.value.status == s
  {
    var filtered := FilteredReports(st.reports, Only(s));
    var next := NextSelection(filtered, id, Only(s), d);
    if next.Some? {
      var nid := next.value;
      SubseqUniqueKeys(filtered, st.reports, ReportId);
      var m :| 0 <= m < |filtered| && ReportIds(filtered)[m] == nid;
      SubseqMembers(filtered, st.reports);
      var j :| 0 <= j < |st.reports| && st.reports[j] == filtered[m];
      UniqueIdFound(st.reports, st.reports, j);
      UndecidedStaysFound(st, id, status, points, comment, nid);
    }
  }

  /** Deciding one report leaves the lookup of any other id unchanged, when ids are unique. */
  lemma {:induction false} UndecidedStaysFound(st: State, id: string, status: Status, points: Option<int>, comment: Option<string>, nid: string)
    requires IdsUnique(st.reports) && nid != id
    requires SelectedReport(st.reports, Some(nid)).Some?
    ensures SelectedReport(UpdateReportStatus(st, id, status, points, comment).reports, Some(nid)) ==
      SelectedReport(st.reports, Some(nid))
  {
    var reports' := UpdateReportStatus(st, id, status, points, comment).reports;
    var j := FindIndex(st.reports, HasReportId(nid));
    assert reports'[j] == st.reports[j];
    UniqueIdFound(st.reports, reports', j);
  }

  /** A report decided into another status leaves the tab it was decided under. */
  lemma {:induction false} DecidedLeavesTab(st: State, id: string, s: Status, status: Status, points: Option<int>, comment: Option<string>)
    requires status != s
    ensures var after := FilteredReports(UpdateReportStatus(st, id, status, points, comment).reports, Only(s));
      forall i :: 0 <= i < |after| ==> after[i].id != id
  {
    var reports' := UpdateReportStatus(st, id, status, points, comment).reports;
    var after := FilteredReports(reports', Only(s));
    SubseqMembers(after, reports');
    forall i | 0 <= i < |after|
      ensures after[i].id != id
    {
      var j :| 0 <= j < |reports'| && reports'[j] == after[i];
      assert after[i].status == s;
    }
  }

  /** A rejected report stores 0 points, so reopening it offers the labels' sum again. */
  lemma {:induction false} RejectedReportOffersSum(table: seq<ViolationType>, st: State, id: string, comment: Option<string>, i: int)
    requires 0 <= i < |st.reports| && st.reports[i].id == id
    ensures var r := UpdateReportStatus(st, id, Rejected, Some(0), comment).reports[i];
      SuggestedPoints(table, r) == CalculatedPoints(table, st.reports[i].violationTypes)
  {
  }

  /** Looking up a unique id finds its report, in any list with the same ids that keeps that report. */
  lemma {:induction false} UniqueIdFound(reports: seq<Report>, reports': seq<Report>, j: int)
    requires IdsUnique(reports) && |reports'| == |reports|
    requires forall i :: 0 <= i < |reports| ==> reports'[i].id == reports[i].id
    requires 0 <= j < |reports| && reports'[j] == reports[j]
    ensures SelectedReport(reports', Some(reports[j].id)) == Some(reports[j])
  {
    var id := reports[j].id;
    forall i | 0 <= i < j
      ensures reports'[i].id != id
    {
      assert ReportId(reports[i]) != ReportId(reports[j]);
    }
  }

  /**
   * Through the screen, where only PENDING reports offer the buttons, approving
   * a report with a unique id credits its author exactly the points input once.
   */
  lemma {:induction false} ApprovalThroughScreenCreditsOnce(table: seq<ViolationType>, st: State, scr: Screen)
    requires IdsUnique(st.reports)
    requires SelectedReport(st.reports, scr.selectedId).Some?
    requires Approve in DecisionsOffered(SelectedReport(st.reports, scr.selectedId).value)
    ensures var sel := SelectedReport(st.reports, scr.selectedId).value;
      var st' := HandleAction(table, st, scr, Approve).0;
      st'.users == UpdateUserPoints(st, sel.userId, scr.points).users
  {
    var sel := SelectedReport(st.reports, scr.selectedId).value;
    var j :| 0 <= j < |st.reports| && st.reports[j] == sel;
    DecisionIsOneCreditAt(st, sel.id, scr.points, Some(scr.comment), j);
  }

  lemma {:induction false} DecisionIsOneCreditAt(st: State, id: string, points: int, comment: Option<string>, j: int)
    requires IdsUnique(st.reports)
    requires 0 <= j < |st.reports| && st.reports[j].id == id && st.reports[j].status == Pending
    ensures UpdateReportStatus(st, id, Approved, Some(points), comment).users ==
      UpdateUserPoints(st, st.reports[j].userId, points).users
  {
    assert forall i :: 0 <= i < |st.reports| && i != j ==> st.reports[i].id != id by {
      forall i | 0 <= i < |st.reports| && i != j
        ensures st.reports[i].id != id
      {
        if i < j {
          assert ReportId(st.reports[i]) != ReportId(st.reports[j]);
        } else {
          assert ReportId(st.reports[j]) != ReportId(st.reports[i]);
        }
      }
    }
    assert StoreLemmas.OnlyMatch(st.reports, id, j);
    StoreLemmas.DecisionIsOneCredit(st, id, Approved, points, comment, j);
  }
}
