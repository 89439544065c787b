/**
 * The figures of the two dashboards: `pages/admin/AdminDashboard.tsx` counts
 * all reports by status and lists the four newest;
 * `pages/citizen/CitizenDashboard.tsx` does the same for the signed-in user's
 * own reports and lists five.
 */
module Dashboard {
  import opened Wrappers
  import opened Seqs
  import opened Types
  import opened Store
  import StoreLemmas

  /** The four figures of a dashboard: all reports and those in each status. */
  datatype StatusCounts = StatusCounts(total: nat, pending: nat, approved: nat, rejected: nat)

  /** `reports.filter(r => r.status === status).length`. */
  function CountOf(reports: seq<Report>, status: Status): (n: nat)
    ensures n == Count(reports, HasStatus(status))
  {
    |Filter(reports, HasStatus(status))|
  }

  function CountsOf(reports: seq<Report>): (c: StatusCounts)
    ensures c.total == |reports|
    ensures c.pending + c.approved + c.rejected == c.total
    ensures c.pending == Count(reports, HasStatus(Pending))
    ensures c.approved == Count(reports, HasStatus(Approved))
    ensures c.rejected == Count(reports, HasStatus(Rejected))
  {
    StatusPartition(reports);
    StatusCounts(|reports|, CountOf(reports, Pending), CountOf(reports, Approved), CountOf(reports, Rejected))
  }

  /** Every report is in exactly one of the three statuses. */
  lemma {:induction false} StatusPartition(reports: seq<Report>)
    ensures Count(reports, HasStatus(Pending)) + Count(reports, HasStatus(Approved))
      + Count(reports, HasStatus(Rejected)) == |reports|
    decreases |reports|
  {
    if |reports| > 0 {
      StatusPartition(reports[1..]);
    }
  }

  // ----- admin dashboard -----

  /** `reports.slice(0, 4)`: the four newest reports, since new reports go in front. */
  function RecentReports(reports: seq<Report>): (r: seq<Report>)
    ensures |r| == if |reports| < 4 then |reports| else 4
    ensures forall i :: 0 <= i < |r| ==> r[i] == reports[i]
  {
    Take(reports, 4)
  }

  /** Replacing one element changes a count by what the old and new element contribute. */
  lemma {:induction false} CountUpdate<T>(s: seq<T>, k: nat, v: T, p: T -> bool)
    requires k < |s|
    ensures Count(s[k := v], p) + (if p(s[k]) then 1 else 0) == Count(s, p) + (if p(v) then 1 else 0)
    decreases k
  {
    if k > 0 {
      assert s[k := v][1..] == s[1..][k - 1 := v];
      CountUpdate(s[1..], k - 1, v, p);
    }
  }

  /**
   * Deciding the one report with a given id moves it from its old status to
   * the new one: that count falls by one, the new status's count rises by one,
   * and the total is unchanged.
   */
  lemma {:induction false} DecisionMovesOneReport(st: State, id: string, status: Status, points: Option<int>, comment: Option<string>, k: int, s: Status)
    requires StoreLemmas.OnlyMatch(st.reports, id, k)
    ensures var st' := UpdateReportStatus(st, id, status, points, comment);
      && CountsOf(st'.reports).total == CountsOf(st.reports).total
      && CountOf(st'.reports, s) + (if st.reports[k].status == s then 1 else 0)
         == CountOf(st.reports, s) + (if status == s then 1 else 0)
  {
    var st' := UpdateReportStatus(st, id, status, points, comment);
    var reports := st.reports;
    assert st'.reports == reports[k := st'.reports[k]];
    CountUpdate(reports, k, st'.reports[k], HasStatus(s));
  }

  /** Adding a report while signed in adds one pending report and changes no other count. */
  lemma {:induction false} AddReportAddsPending(st: State, draft: ReportDraft, now: nat, isoTime: string)
    requires st.currentUser.Some?
    ensures var c := CountsOf(st.reports);
      CountsOf(AddReport(st, draft, now, isoTime).reports) == c.(total := c.total + 1, pending := c.pending + 1)
  {
    var reports' := AddReport(st, draft, now, isoTime).reports;
    assert reports' == [reports'[0]] + st.reports;
    CountConcat([reports'[0]], st.reports, HasStatus(Pending));
    CountConcat([reports'[0]], st.reports, HasStatus(Approved));
    CountConcat([reports'[0]], st.reports, HasStatus(Rejected));
  }

  /** A new report heads the recent list, followed by the three newest before it. */
  lemma {:induction false} NewReportIsMostRecent(st: State, draft: ReportDraft, now: nat, isoTime: string)
    requires st.currentUser.Some?
    ensures var st' := AddReport(st, draft, now, isoTime);
      RecentReports(st'.reports) == [st'.reports[0]] + Take(st.reports, 3)
  {
    var st' := AddReport(st, draft, now, isoTime);
    var r := RecentReports(st'.reports);
    assert |r| == |[st'.reports[0]] + Take(st.reports, 3)|;
    forall i | 0 <= i < |r|
      ensures r[i] == ([st'.reports[0]] + Take(st.reports, 3))[i]
    {
      if i > 0 {
        assert st'.reports[i] == st'.reports[1..][i - 1];
      }
    }
  }

  // ----- citizen dashboard -----

  /** The id `currentUser?.id || ''` looks up: the signed-in user's, or the empty id. */
  function SessionId(st: State): string {
    match st.currentUser
    case Some(u) => u.id
    case None => ""
  }

  /** `getReportsByUserId(currentUser?.id || '')`. */
  function MyReports(st: State): (r: seq<Report>)
    ensures IsSubseq(r, st.reports)
    ensures forall i :: 0 <= i < |r| ==> r[i].userId == SessionId(st)
    ensures |r| == Count(st.reports, ByUser(SessionId(st)))
  {
    ReportsByUser(st.reports, SessionId(st))
  }

  /** The reports by `id` with that status. */
  function ByUserWith(id: string, status: Status): Report -> bool {
    (r: Report) => r.userId == id && r.status == status
  }

  /**
   * The citizen's figures: their reports, and among them those in each
   * status, counted over the whole report list.
   */
  function MyCounts(st: State): (c: StatusCounts)
    ensures c.total == Count(st.reports, ByUser(SessionId(st)))
    ensures c.pending + c.approved + c.rejected == c.total
    ensures c.pending == Count(st.reports, ByUserWith(SessionId(st), Pending))
    ensures c.approved == Count(st.reports, ByUserWith(SessionId(st), Approved))
    ensures c.rejected == Count(st.reports, ByUserWith(SessionId(st), Rejected))
  {
    var id := SessionId(st);
    var mine := Filter(st.reports, ByUser(id));
    assert MyReports(st) == mine;
    CountOfFilterBoth(st.reports, ByUser(id), HasStatus(Pending), ByUserWith(id, Pending));
    CountOfFilterBoth(st.reports, ByUser(id), HasStatus(Approved), ByUserWith(id, Approved));
    CountOfFilterBoth(st.reports, ByUser(id), HasStatus(Rejected), ByUserWith(id, Rejected));
    CountsOf(MyReports(st))
  }

  /** `myReports.slice(0, 5)`: the citizen's five newest reports, newest first. */
  function MyRecentReports(st: State): (r: seq<Report>)
    ensures |r| == if |MyReports(st)| < 5 then |MyReports(st)| else 5
    ensures forall i :: 0 <= i < |r| ==> r[i] == MyReports(st)[i] && r[i].userId == SessionId(st)
  {
    Take(MyReports(st), 5)
  }

  /** Filtering first never adds elements that pass a second test. */
  lemma {:induction false} CountOfFilter<T>(s: seq<T>, p: T -> bool, q: T -> bool)
    ensures Count(Filter(s, p), q) <= Count(s, q)
    decreases |s|
  {
    if |s| > 0 {
      CountOfFilter(s[1..], p, q);
      if p(s[0]) {
        var f := Filter(s[1..], p);
        assert ([s[0]] + f)[1..] == f;
      }
    }
  }

  /** A citizen's figures never exceed the administrator's, status by status. */
  lemma {:induction false} MyCountsBounded(st: State)
    ensures var mine := MyCounts(st); var all := CountsOf(st.reports);
      && mine.total <= all.total
      && mine.pending <= all.pending
      && mine.approved <= all.approved
      && mine.rejected <= all.rejected
  {
    var p := ByUser(SessionId(st));
    CountOfFilter(st.reports, p, HasStatus(Pending));
    CountOfFilter(st.reports, p, HasStatus(Approved));
    CountOfFilter(st.reports, p, HasStatus(Rejected));
  }

  /** Submitting a report shows up at once on the author's own dashboard as one more pending report. */
  lemma {:induction false} OwnReportCountedPending(st: State, draft: ReportDraft, now: nat, isoTime: string)
    requires st.currentUser.Some?
    ensures var st' := AddReport(st, draft, now, isoTime);
      var c := MyCounts(st);
      && MyCounts(st') == c.(total := c.total + 1, pending := c.pending + 1)
      && MyRecentReports(st')[0] == st'.reports[0]
  {
    var st' := AddReport(st, draft, now, isoTime);
    var id := SessionId(st);
    StoreLemmas.AddReportAppearsInOwnList(st, draft, now, isoTime, id);
    var mine := ReportsByUser(st.reports, id);
    var mine' := ReportsByUser(st'.reports, id);
    assert mine' == [st'.reports[0]] + mine;
    CountConcat([st'.reports[0]], mine, HasStatus(Pending));
    CountConcat([st'.reports[0]], mine, HasStatus(Approved));
    CountConcat([st'.reports[0]], mine, HasStatus(Rejected));
  }

  /**
   * Signed out, the dashboard looks up the empty id, so it lists no report as
   * long as every report names its author.
   */
  lemma {:induction false} SignedOutListsNothing(st: State)
    requires st.currentUser.None?
    requires forall i :: 0 <= i < |st.reports| ==> st.reports[i].userId != ""
    ensures MyReports(st) == []
  {
    FilterNone(st.reports, ByUser(""));
  }
}
