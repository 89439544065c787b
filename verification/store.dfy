/**
 * The application store of `context/AppContext.tsx`: the report list, the user
 * list and the signed-in user, with every operation a pure state transformer.
 * Ids and timestamps, which the source takes from `Date.now()`, are parameters;
 * nothing assumes they are unique.
 */
module Store {
  import opened Wrappers
  import opened Seqs
  import opened Chars
  import opened Types

  datatype State = State(reports: seq<Report>, users: seq<User>, currentUser: Option<User>)

  /** The fields of a report the submitter supplies; the store fills in the rest. */
  datatype ReportDraft = ReportDraft(
    violationTypes: seq<string>,
    vehicleNumber: string,
    location: string,
    description: string,
    imageUrl: string)

  const EmailTakenMessage := "Email already registered"

  // ----- predicates used as filter/find arguments -----

  function ByUser(userId: string): Report -> bool {
    (r: Report) => r.userId == userId
  }

  function HasStatus(status: Status): Report -> bool {
    (r: Report) => r.status == status
  }

  function HasReportId(id: string): Report -> bool {
    (r: Report) => r.id == id
  }

  function SameEmail(email: string): User -> bool {
    (u: User) => ToLower(u.email) == ToLower(email)
  }

  /** The reports whose approval credits points in `updateReportStatus`. */
  function Credits(id: string, status: Status): Report -> bool {
    (r: Report) => r.id == id && status == Approved && r.status != Approved
  }

  // ----- addReport -----

  /**
   * `addReport`: without a signed-in user nothing happens; otherwise a PENDING
   * report authored by that user is put in front of the list.
   */
  function AddReport(st: State, draft: ReportDraft, now: nat, isoTime: string): (st': State)
    ensures st'.users == st.users && st'.currentUser == st.currentUser
    ensures st.currentUser.None? ==> st' == st
    ensures st.currentUser.Some? ==>
      && |st'.reports| == |st.reports| + 1
      && st'.reports[1..] == st.reports
      && var r := st'.reports[0];
         && r.status == Pending
         && r.userId == st.currentUser.value.id
         && r.userName == st.currentUser.value.name
         && r.id == "rep_" + NatToDecimal(now)
         && r.timestamp == isoTime
         && r.violationTypes == draft.violationTypes
         && r.vehicleNumber == draft.vehicleNumber
         && r.location == draft.location
         && r.description == draft.description
         && r.imageUrl == draft.imageUrl
         && r.adminComment.None? && r.rewardPoints.None?
  {
    match st.currentUser
    case None => st
    case Some(u) =>
      var r := Report("rep_" + NatToDecimal(now), u.id, u.name, draft.violationTypes,
                      draft.vehicleNumber, draft.location, draft.description, isoTime,
                      Pending, draft.imageUrl, None, None);
      st.(reports := [r] + st.reports)
  }

  // ----- updateUserPoints -----

  function CreditUser(u: User, userId: string, points: int): User {
    if u.id == userId then u.(points := u.points + points) else u
  }

  /** The `users.map` of `updateUserPoints`: every user with that id gains `points`. */
  function CreditUsers(users: seq<User>, userId: string, points: int): (users': seq<User>)
    ensures |users'| == |users|
    ensures forall i :: 0 <= i < |users| ==>
      && users'[i].points == users[i].points + (if users[i].id == userId then points else 0)
      && users'[i].(points := users[i].points) == users[i]
  {
    seq(|users|, i requires 0 <= i < |users| => CreditUser(users[i], userId, points))
  }

  /**
   * `updateUserPoints`: credits the user list and, when the signed-in user has
   * that id, the session copy by the same amount. Reports are untouched.
   */
  function UpdateUserPoints(st: State, userId: string, points: int): (st': State)
    ensures st'.reports == st.reports
    ensures |st'.users| == |st.users|
    ensures forall i :: 0 <= i < |st.users| ==>
      && st'.users[i].points == st.users[i].points + (if st.users[i].id == userId then points else 0)
      && st'.users[i].(points := st.users[i].points) == st.users[i]
    ensures st'.currentUser.Some? <==> st.currentUser.Some?
    ensures st.currentUser.Some? ==>
      && st'.currentUser.value.points == st.currentUser.value.points + (if st.currentUser.value.id == userId then points else 0)
      && st'.currentUser.value.(points := st.currentUser.value.points) == st.currentUser.value
  {
    var current := match st.currentUser
      case Some(u) => Some(CreditUser(u, userId, points))
      case None => None;
    st.(users := CreditUsers(st.users, userId, points), currentUser := current)
  }

  /** Crediting twice is crediting the sum once. */
  lemma {:induction false} UpdateUserPointsAdditive(st: State, userId: string, p: int, q: int)
    ensures UpdateUserPoints(UpdateUserPoints(st, userId, p), userId, q) == UpdateUserPoints(st, userId, p + q)
  {
    var a := UpdateUserPoints(UpdateUserPoints(st, userId, p), userId, q);
    var b := UpdateUserPoints(st, userId, p + q);
    assert a.users == b.users;
  }

  // ----- updateReportStatus -----

  /** The decision applied to one report: new status, points and comment. */
  function Decide(r: Report, id: string, status: Status, points: int, comment: string): Report {
    if r.id == id then r.(status := status, rewardPoints := Some(points), adminComment := Some(comment)) else r
  }

  /** The reports whose approval credits the user `u`. */
  function CreditsUser(id: string, status: Status, u: string): Report -> bool {
    (r: Report) => Credits(id, status)(r) && r.userId == u
  }

  /** The authors of `reports`, in order. */
  function Authors(reports: seq<Report>): (ids: seq<string>)
    ensures |ids| == |reports| && forall i :: 0 <= i < |reports| ==> ids[i] == reports[i].userId
  {
    seq(|reports|, i requires 0 <= i < |reports| => reports[i].userId)
  }

  /**
   * Authors credited by a decision, one entry per credited report, in list
   * order: each user appears once for every report of theirs that the
   * decision moves into APPROVED.
   */
  function CreditedAuthors(reports: seq<Report>, id: string, status: Status): (ids: seq<string>)
    ensures |ids| == Count(reports, Credits(id, status))
    ensures forall u :: Count(ids, Is(u)) == Count(reports, CreditsUser(id, status, u))
    ensures status != Approved ==> ids == []
  {
    var credited := Filter(reports, Credits(id, status));
    if status != Approved then
      NothingCreditedUnlessApproved(reports, id, status);
      assert forall u :: Count(reports, CreditsUser(id, status, u)) == 0 by {
        forall u ensures Count(reports, CreditsUser(id, status, u)) == 0 {
          CountMonotone(reports, CreditsUser(id, status, u), Credits(id, status));
        }
      }
      []
    else
      assert forall u :: Count(Authors(credited), Is(u)) == Count(reports, CreditsUser(id, status, u)) by {
        forall u ensures Count(Authors(credited), Is(u)) == Count(reports, CreditsUser(id, status, u)) {
          AuthorCount(reports, id, status, u);
        }
      }
      Authors(credited)
  }

  lemma {:induction false} NothingCreditedUnlessApproved(reports: seq<Report>, id: string, status: Status)
    requires status != Approved
    ensures Count(reports, Credits(id, status)) == 0
    decreases |reports|
  {
    if |reports| > 0 {
      NothingCreditedUnlessApproved(reports[1..], id, status);
    }
  }

  /** Among the credited reports, `u` authors as many as the reports that credit `u`. */
  lemma {:induction false} AuthorCount(reports: seq<Report>, id: string, status: Status, u: string)
    ensures Count(Authors(Filter(reports, Credits(id, status))), Is(u)) == Count(reports, CreditsUser(id, status, u))
    decreases |reports|
  {
    if |reports| > 0 {
      var r := reports[0];
      var rest := Filter(reports[1..], Credits(id, status));
      AuthorCount(reports[1..], id, status, u);
      if Credits(id, status)(r) {
        assert Filter(reports, Credits(id, status)) == [r] + rest;
        assert Authors([r] + rest) == [r.userId] + Authors(rest);
        assert ([r.userId] + Authors(rest))[1..] == Authors(rest);
      } else {
        assert Filter(reports, Credits(id, status)) == rest;
      }
    }
  }

  /** Applies `CreditUsers` once per credited author, as the successive `setUsers` updaters do. */
  function CreditAll(users: seq<User>, authors: seq<string>, points: int): (users': seq<User>)
    ensures |users'| == |users|
    ensures forall i :: 0 <= i < |users| ==>
      && users'[i].points == users[i].points + points * Count(authors, Is(users[i].id))
      && users'[i].(points := users[i].points) == users[i]
    decreases |authors|
  {
    if |authors| == 0 then users
    else CreditAll(CreditUsers(users, authors[0], points), authors[1..], points)
  }

  /** The session user is among the credited authors exactly when some report credits them. */
  lemma {:induction false} CountPositiveFor(st: State, authors: seq<string>, id: string, status: Status)
    requires authors == CreditedAuthors(st.reports, id, status)
    ensures st.currentUser.Some? ==>
      (st.currentUser.value.id in authors <==>
       exists k :: 0 <= k < |st.reports| && CreditsUser(id, status, st.currentUser.value.id)(st.reports[k]))
  {
    if st.currentUser.Some? {
      var u := st.currentUser.value;
      CountPositive(authors, Is(u.id));
      CountPositive(st.reports, CreditsUser(id, status, u.id));
    }
  }

  /**
   * `updateReportStatus(id, status, points = 0, comment = '')`: every report
   * with that id takes the decision; each one moving into APPROVED from another
   * status credits its author. The session copy is recomputed from the user
   * captured when the call was made, so it gains `points` once however many
   * reports credit it.
   */
  function UpdateReportStatus(st: State, id: string, status: Status, points: Option<int>, comment: Option<string>): (st': State)
    ensures |st'.reports| == |st.reports|
    ensures forall i :: 0 <= i < |st.reports| && st.reports[i].id != id ==> st'.reports[i] == st.reports[i]
    ensures forall i :: 0 <= i < |st.reports| && st.reports[i].id == id ==>
      st'.reports[i] == st.reports[i].(status := status, rewardPoints := Some(points.GetOr(0)), adminComment := Some(comment.GetOr("")))
    ensures |st'.users| == |st.users|
    ensures forall i :: 0 <= i < |st.users| ==>
      && st'.users[i].points == st.users[i].points + points.GetOr(0) * Count(st.reports, CreditsUser(id, status, st.users[i].id))
      && st'.users[i].(points := st.users[i].points) == st.users[i]
    ensures st'.currentUser.Some? <==> st.currentUser.Some?
    ensures st.currentUser.Some? ==>
      && var u := st.currentUser.value;
         && st'.currentUser.value.points == u.points +
              (if exists k :: 0 <= k < |st.reports| && CreditsUser(id, status, u.id)(st.reports[k]) then points.GetOr(0) else 0)
         && st'.currentUser.value.(points := u.points) == u
    ensures status != Approved ==> st'.users == st.users && st'.currentUser == st.currentUser
  {
    var p := points.GetOr(0);
    var c := comment.GetOr("");
    var authors := CreditedAuthors(st.reports, id, status);
    CountPositiveFor(st, authors, id, status);
    var current := match st.currentUser
      case Some(u) => if u.id in authors then Some(u.(points := u.points + p)) else Some(u)
      case None => None;
    State(
      seq(|st.reports|, i requires 0 <= i < |st.reports| => Decide(st.reports[i], id, status, p, c)),
      CreditAll(st.users, authors, p),
      current)
  }

  // ----- register / login / logout -----

  /**
   * `register`: fails with "Email already registered" when some user's email
   * equals the new one ignoring case; otherwise appends a user with 0 points
   * and signs them in.
   */
  function Register(st: State, name: string, email: string, password: string, role: Role, now: nat, avatarUrl: string): (res: Result<State, string>)
    ensures res.Failure? <==> exists i :: 0 <= i < |st.users| && ToLower(st.users[i].email) == ToLower(email)
    ensures res.Failure? ==> res.error == EmailTakenMessage
    ensures res.Success? ==>
      && var st' := res.value;
         && st'.reports == st.reports
         && |st'.users| == |st.users| + 1
         && st'.users[..|st.users|] == st.users
         && var u := st'.users[|st.users|];
            && st'.currentUser == Some(u)
            && u == User("u_" + NatToDecimal(now), name, email, role, 0, Some(avatarUrl), Some(password))
  {
    match Find(st.users, SameEmail(email))
    case Some(_) => Failure(EmailTakenMessage)
    case None =>
      var u := User("u_" + NatToDecimal(now), name, email, role, 0, Some(avatarUrl), Some(password));
      Success(State(st.reports, st.users + [u], Some(u)))
  }

  /**
   * `login`: succeeds exactly when the first user whose email matches ignoring
   * case has that password; only then does the signed-in user change.
   */
  function Login(st: State, email: string, password: string): (res: (State, bool))
    ensures var k := FindIndex(st.users, SameEmail(email));
      res.1 <==> k >= 0 && st.users[k].password == Some(password)
    ensures res.1 ==> res.0 == st.(currentUser := Some(st.users[FindIndex(st.users, SameEmail(email))]))
    ensures !res.1 ==> res.0 == st
  {
    match Find(st.users, SameEmail(email))
    case Some(u) =>
      if u.password == Some(password) then (st.(currentUser := Some(u)), true) else (st, false)
    case None => (st, false)
  }

  /** `logout`: clears the signed-in user and nothing else. */
  function Logout(st: State): (st': State)
    ensures st'.currentUser.None?
    ensures st'.reports == st.reports && st'.users == st.users
  {
    st.(currentUser := None)
  }

  // ----- getReportsByUserId -----

  /** `getReportsByUserId`: the reports by that author, in list order. */
  function ReportsByUser(reports: seq<Report>, userId: string): (r: seq<Report>)
    ensures IsSubseq(r, reports)
    ensures forall i :: 0 <= i < |r| ==> r[i].userId == userId
    ensures forall i :: 0 <= i < |reports| && reports[i].userId == userId ==> reports[i] in r
    ensures |r| == Count(reports, ByUser(userId))
  {
    FilterIsSubseq(reports, ByUser(userId));
    FilterMembers(reports, ByUser(userId));
    Filter(reports, ByUser(userId))
  }
}
