/** Properties relating the store operations of `context/AppContext.tsx`. */
module StoreLemmas {
  import opened Wrappers
  import opened Seqs
  import opened Chars
  import opened Types
  import opened Store

  /** Report ids in the list are pairwise distinct except for the one at `k`, which equals `id`. */
  predicate OnlyMatch(reports: seq<Report>, id: string, k: int) {
    0 <= k < |reports| && reports[k].id == id
    && forall j :: 0 <= j < |reports| && j != k ==> reports[j].id != id
  }

  /** Whether deciding report `k` with `status` credits its author. */
  predicate CreditsAuthor(r: Report, status: Status) {
    status == Approved && r.status != Approved
  }

  /** With a single matching report, exactly its author is credited, and only if the rule fires. */
  lemma {:induction false} CreditedAuthorsOfOnlyMatch(reports: seq<Report>, id: string, status: Status, k: int)
    requires OnlyMatch(reports, id, k)
    ensures CreditedAuthors(reports, id, status) ==
      if CreditsAuthor(reports[k], status) then [reports[k].userId] else []
  {
    var p := Credits(id, status);
    assert reports == reports[..k] + [reports[k]] + reports[k + 1..];
    FilterConcat(reports[..k] + [reports[k]], reports[k + 1..], p);
    FilterConcat(reports[..k], [reports[k]], p);
    FilterNone(reports[..k], p);
    FilterNone(reports[k + 1..], p);
    assert Filter([reports[k]], p) == if p(reports[k]) then [reports[k]] else [];
  }

  /**
   * The credit rule of `updateReportStatus`: when exactly one report has the
   * id, a user's balance rises by exactly `points` if and only if the new
   * status is APPROVED, the old one was not, and the user wrote the report;
   * every other balance and every other field is unchanged.
   */
  lemma {:induction false} CreditRule(st: State, id: string, status: Status, points: int, comment: Option<string>, k: int)
    requires OnlyMatch(st.reports, id, k)
    ensures var st' := UpdateReportStatus(st, id, status, Some(points), comment);
      && |st'.users| == |st.users|
      && (forall i :: 0 <= i < |st.users| ==>
            && st'.users[i].points == st.users[i].points +
                 (if CreditsAuthor(st.reports[k], status) && st.users[i].id == st.reports[k].userId then points else 0)
            && st'.users[i].(points := st.users[i].points) == st.users[i])
      && (st.currentUser.Some? ==>
            (st'.currentUser.Some? &&
             st'.currentUser.value.points == st.currentUser.value.points +
               (if CreditsAuthor(st.reports[k], status) && st.currentUser.value.id == st.reports[k].userId then points else 0)))
  {
    CreditedAuthorsOfOnlyMatch(st.reports, id, status, k);
  }

  /**
   * Approving an already APPROVED report overwrites its points and comment but
   * credits no one.
   */
  lemma {:induction false} ReapprovalDoesNotCredit(st: State, id: string, points: int, comment: Option<string>, k: int)
    requires OnlyMatch(st.reports, id, k)
    requires st.reports[k].status == Approved
    ensures var st' := UpdateReportStatus(st, id, Approved, Some(points), comment);
      && st'.users == st.users
      && st'.currentUser == st.currentUser
      && st'.reports[k].rewardPoints == Some(points)
  {
    CreditedAuthorsOfOnlyMatch(st.reports, id, Approved, k);
  }

  /**
   * With a single matching report, the effect of `updateReportStatus` on users
   * and on the signed-in user is exactly one `updateUserPoints` call for the
   * author when the rule fires, and none otherwise.
   */
  lemma {:induction false} DecisionIsOneCredit(st: State, id: string, status: Status, points: int, comment: Option<string>, k: int)
    requires OnlyMatch(st.reports, id, k)
    ensures var st' := UpdateReportStatus(st, id, status, Some(points), comment);
      var expected := if CreditsAuthor(st.reports[k], status)
        then UpdateUserPoints(st, st.reports[k].userId, points) else st;
      st'.users == expected.users && st'.currentUser == expected.currentUser
  {
    CreditedAuthorsOfOnlyMatch(st.reports, id, status, k);
    var st' := UpdateReportStatus(st, id, status, Some(points), comment);
    if CreditsAuthor(st.reports[k], status) {
      var author := st.reports[k].userId;
      var e := UpdateUserPoints(st, author, points);
      assert st'.users == CreditUsers(st.users, author, points);
      assert st'.users == e.users;
    }
  }

  /**
   * When two reports share an id and the signed-in user wrote both, approving
   * them credits the user list twice but the session copy once, because the
   * session copy is computed from the user captured before the call.
   */
  lemma {:induction false} DuplicateIdSessionCreditedOnce(u: User, r: Report, points: int)
    requires r.userId == u.id && r.status == Pending
    ensures var st := State([r, r], [u], Some(u));
      var st' := UpdateReportStatus(st, r.id, Approved, Some(points), None);
      && st'.users[0].points == u.points + 2 * points
      && st'.currentUser.value.points == u.points + points
  {
    var st := State([r, r], [u], Some(u));
    var p := Credits(r.id, Approved);
    assert Filter([r, r], p) == [r, r] by {
      assert [r, r][1..] == [r];
    }
    var authors := CreditedAuthors([r, r], r.id, Approved);
    assert authors == [u.id, u.id];
    assert Count(authors, Is(u.id)) == 2 by {
      assert authors[1..] == [u.id];
      assert authors[1..][1..] == [];
      assert Is(u.id)(u.id);
      assert Count(authors[1..][1..], Is(u.id)) == 0;
      assert Count(authors[1..], Is(u.id)) == 1;
    }
  }

  /** Deciding with a non-negative point value never lowers any balance. */
  lemma {:induction false} DecisionNeverDebits(st: State, id: string, status: Status, points: nat, comment: Option<string>)
    ensures var st' := UpdateReportStatus(st, id, status, Some(points), comment);
      forall i :: 0 <= i < |st.users| ==> st'.users[i].points >= st.users[i].points
  {
  }

  // ----- registration and sign-in -----

  /** Emails are unique across users when compared ignoring case. */
  predicate EmailsUnique(users: seq<User>) {
    forall i, j :: 0 <= i < j < |users| ==> ToLower(users[i].email) != ToLower(users[j].email)
  }

  /** Successful registration keeps emails unique. */
  lemma {:induction false} RegisterKeepsEmailsUnique(st: State, name: string, email: string, password: string, role: Role, now: nat, avatarUrl: string)
    requires EmailsUnique(st.users)
    ensures var res := Register(st, name, email, password, role, now, avatarUrl);
      res.Success? ==> EmailsUnique(res.value.users)
  {
    var res := Register(st, name, email, password, role, now, avatarUrl);
    if res.Success? {
      var us := res.value.users;
      forall i, j | 0 <= i < j < |us|
        ensures ToLower(us[i].email) != ToLower(us[j].email)
      {
        if j == |st.users| {
          assert us[i] == st.users[i];
        } else {
          assert us[i] == st.users[i] && us[j] == st.users[j];
        }
      }
    }
  }

  /** No other operation touches the user list's emails. */
  lemma {:induction false} DecisionKeepsEmailsUnique(st: State, id: string, status: Status, points: Option<int>, comment: Option<string>)
    requires EmailsUnique(st.users)
    ensures EmailsUnique(UpdateReportStatus(st, id, status, points, comment).users)
  {
    var us := UpdateReportStatus(st, id, status, points, comment).users;
    forall i | 0 <= i < |us|
      ensures us[i].email == st.users[i].email
    {
      assert us[i].(points := st.users[i].points) == st.users[i];
    }
  }

  /** Registering the same email again, in any letter case, fails and adds no user. */
  lemma {:induction false} NoDuplicateRegistration(st: State, name: string, email: string, password: string, role: Role, now: nat, avatarUrl: string,
                                name2: string, email2: string, password2: string, now2: nat, avatarUrl2: string)
    requires ToLower(email2) == ToLower(email)
    ensures var res := Register(st, name, email, password, role, now, avatarUrl);
      res.Success? ==> Register(res.value, name2, email2, password2, role, now2, avatarUrl2).Failure?
  {
    var res := Register(st, name, email, password, role, now, avatarUrl);
    if res.Success? {
      var us := res.value.users;
      assert ToLower(us[|st.users|].email) == ToLower(email2);
    }
  }

  /** A freshly registered user can sign in with the same email and password. */
  lemma {:induction false} RegisterThenLogin(st: State, name: string, email: string, password: string, role: Role, now: nat, avatarUrl: string)
    ensures var res := Register(st, name, email, password, role, now, avatarUrl);
      res.Success? ==> Login(res.value, email, password) == (res.value, true)
  {
    var res := Register(st, name, email, password, role, now, avatarUrl);
    if res.Success? {
      var us := res.value.users;
      var k := FindIndex(us, SameEmail(email));
      assert SameEmail(email)(us[|st.users|]);
      assert forall j :: 0 <= j < |st.users| ==> us[j] == st.users[j] && !SameEmail(email)(us[j]);
      assert k == |st.users|;
    }
  }

  /** Signing in with a wrong password changes nothing. */
  lemma {:induction false} LoginWrongPasswordChangesNothing(st: State, email: string, password: string)
    requires forall i :: 0 <= i < |st.users| ==> st.users[i].password != Some(password)
    ensures Login(st, email, password) == (st, false)
  {
  }

  // ----- adding reports -----

  /**
   * A report added by the signed-in user shows up first in that user's list;
   * every other author's list is unchanged.
   */
  lemma {:induction false} AddReportAppearsInOwnList(st: State, draft: ReportDraft, now: nat, isoTime: string, userId: string)
    requires st.currentUser.Some?
    ensures var st' := AddReport(st, draft, now, isoTime);
      ReportsByUser(st'.reports, userId) ==
        if userId == st.currentUser.value.id then [st'.reports[0]] + ReportsByUser(st.reports, userId)
        else ReportsByUser(st.reports, userId)
  {
    var st' := AddReport(st, draft, now, isoTime);
    assert st'.reports == [st'.reports[0]] + st.reports;
    FilterConcat([st'.reports[0]], st.reports, ByUser(userId));
  }

  /** After signing out, adding a report is a no-op. */
  lemma {:induction false} AddAfterLogoutIsNoOp(st: State, draft: ReportDraft, now: nat, isoTime: string)
    ensures AddReport(Logout(st), draft, now, isoTime) == Logout(st)
  {
  }
}
