# Civic-Eye core in Dafny

Civic-Eye is a React single-page application. Citizens file traffic-violation
reports with a photo and a vehicle number, and officials approve or reject
them. An approval credits reputation points to the author. This project models
the logic behind those screens as pure functions over immutable values, and
proves properties of it:

- **The application store** (`context/AppContext.tsx`). Each operation is a state
  transformer over the report list, the user list and the signed-in user:
  `addReport`, `updateReportStatus` with its point-crediting rule,
  `updateUserPoints`, `register`, `login`, `logout` and `getReportsByUserId`.
- **The plate-text normaliser** of `pages/citizen/SubmitReport.tsx`. It turns
  the merged OCR text into a vehicle number, with hand-written recognisers
  for the three regular expressions it uses. JavaScript's matching rules are
  kept: the leftmost match, greedy backtracking order, and non-overlapping
  global matches. The module also covers the prefix corrections, the final
  validation and the messages the detector sets.
- **The report form**: toggling violation types, keeping the typed vehicle
  number and the detected plate in step, and the submit guard.
- **The review screen** (`pages/admin/ReportReview.tsx`):
  - the status filter;
  - the points and comment offered for the selected report;
  - `handleAction`, which decides a report and picks the next one;
  - which reports offer the approve and reject buttons;
  - the points input read with `parseInt(…) || 0`.
- **The two dashboards**:
  - status counts and recent lists for all reports and for the signed-in
    citizen's own reports;
  - the administrator's "top five violation types" chart, built from a
    per-label tally sorted by count.

Modules, one per file: `Wrappers` (Option/Result), `Seqs` (filter, count,
find and subsequence facts), `Chars` (ASCII case mapping, ECMAScript
whitespace and `trim`, `split('\n')`, decimals), `NumberInput` (`parseInt`),
`Types`, `Store`, `StoreLemmas`, `PlateRegex`, `PlateDetect`, `PlateLemmas`,
`SubmitForm`, `Review`, `TypeTally` and `Dashboard`.

Inputs the source takes from the environment are parameters:

- `Date.now()` is `now`;
- `new Date().toISOString()` is `isoTime`;
- the `encodeURIComponent` avatar URL is `avatarUrl`;
- the merged OCR text is `raw`;
- the `VIOLATION_TYPES` table is `table`.

Nothing assumes that ids built from `Date.now()` are unique. Where a property
needs unique ids, it says so in its `requires`.

### Behaviour worth noting

- **Re-approving a report.** The code credits the author only when the
  report's old status is not APPROVED (`AppContext.tsx:99`). Re-approving an
  APPROVED report therefore overwrites the points and the comment but credits
  no one (`StoreLemmas.ReapprovalDoesNotCredit`).
- **PENDING-only decisions.** `updateReportStatus` accepts a decision on a
  report in any status. Only the review screen restricts decisions to PENDING
  reports, by offering the buttons for them alone (`Review.DecisionsOffered`,
  `Review.ApprovalThroughScreenCreditsOnce`).
- **The first-non-empty-line fallback.** Whenever the detector reaches the
  fallback to the first non-empty line, the candidate has fewer than 6 plate
  characters, so the fallback never produces a plate
  (`PlateLemmas.FallbackIsTooShort`). The "no number-like pattern" message is
  unreachable (`PlateLemmas.NoPatternUnreachable`).
- **The relaxed match.** The relaxed pattern `[A-Z0-9]{6,12}` is applied with
  the global flag to text already stripped to `[A-Z0-9]` (`SubmitReport.tsx:133`).
  The global match therefore cuts that text into chunks of 12, and the stable
  longest-first sort picks the first chunk: the first min(12, length)
  characters (`PlateRegex.FirstMatchIsLongest`).
- **A low-visibility plate.** The detector sets the "low visibility" warning
  for a plate that fails the final validation. The unconditional
  `setDetectError('')` that follows clears it again (`PlateDetect.DetectPlate`).
- **The signed-in user's points.** `updateUserPoints` computes the new
  balance from the `currentUser` captured when `updateReportStatus` was
  called. When two reports share an id and credit the signed-in user, the
  user list gains the points twice but the session copy gains them once
  (`Store.UpdateReportStatus`, `StoreLemmas.DuplicateIdSessionCreditedOnce`).

## Model

| member | source | states |
|---|---|---|
| `Store.AddReport` | context/AppContext.tsx:79-92 | signed out nothing changes; signed in, a PENDING report by the current user with the draft's fields, no comment and no points is put in front and the old list follows unchanged |
| `Store.UpdateUserPoints` | context/AppContext.tsx:109-123 | every user with the id gains exactly `points` and no other field changes; the session copy gains them only when it has that id; reports are untouched |
| `Store.UpdateUserPointsAdditive` | context/AppContext.tsx:109-123 | crediting `p` and then `q` equals crediting `p + q` once |
| `Store.CreditUsers` | context/AppContext.tsx:110-115 | the users with the id gain `points`; the rest of every user record is unchanged |
| `Store.CreditedAuthors` | context/AppContext.tsx:96-101 | one author per report that moves into APPROVED from another status, so that each user appears exactly as often as they author such a report, and none unless the new status is APPROVED |
| `Store.NothingCreditedUnlessApproved` | context/AppContext.tsx:99 | no report satisfies the credit rule when the new status is not APPROVED |
| `Store.CreditAll` | context/AppContext.tsx:99-101 | each user gains `points` times the number of credited reports they wrote; nothing else about a user changes |
| `Store.UpdateReportStatus` | context/AppContext.tsx:94-107 | reports with the id take the status, the points (default 0) and the comment (default empty); all other reports are unchanged; each user gains the points once for every report of theirs moving into APPROVED, other fields kept, even when several reports share the id; the signed-in copy gains them once exactly when some such report is theirs; a non-approval touches no user |
| `Store.Register` | context/AppContext.tsx:47-72 | fails with "Email already registered" exactly when some user's email equals the new one ignoring case; otherwise appends a user with 0 points and the given fields, signs them in and keeps the reports |
| `Store.Login` | context/AppContext.tsx:31-45 | succeeds exactly when the first user whose email matches ignoring case has that password, and then signs that user in; otherwise the state is unchanged |
| `Store.Logout` | context/AppContext.tsx:74-77 | clears the signed-in user and keeps reports and users |
| `Store.ReportsByUser` | context/AppContext.tsx:125-127 | the subsequence of reports by that author: every one of them, in order, and no other |
| `StoreLemmas.CreditedAuthorsOfOnlyMatch` | context/AppContext.tsx:96-101 | with one report holding the id, exactly its author is credited, and only when it moves into APPROVED |
| `StoreLemmas.CreditRule` | context/AppContext.tsx:94-123 | with one report holding the id, a balance rises by exactly the points iff the decision approves a report that was not APPROVED and the user wrote it; all other balances and fields stay the same |
| `StoreLemmas.ReapprovalDoesNotCredit` | context/AppContext.tsx:99 | approving an APPROVED report again changes no user and no session, but records the new points |
| `StoreLemmas.DecisionIsOneCredit` | context/AppContext.tsx:94-123 | with one report holding the id, the effect on users and session is one `updateUserPoints` for its author when the rule fires, and none otherwise |
| `StoreLemmas.DuplicateIdSessionCreditedOnce` | context/AppContext.tsx:117-122 | two PENDING reports with the same id by the signed-in user: the user list gains twice the points, the session copy gains them once |
| `StoreLemmas.DecisionNeverDebits` | context/AppContext.tsx:109-115 | with non-negative points no balance ever falls |
| `StoreLemmas.RegisterKeepsEmailsUnique` | context/AppContext.tsx:50-66 | if emails were unique ignoring case, they remain so after a successful registration |
| `StoreLemmas.DecisionKeepsEmailsUnique` | context/AppContext.tsx:94-123 | deciding a report keeps emails unique |
| `StoreLemmas.NoDuplicateRegistration` | context/AppContext.tsx:50-54 | after registering an email, registering it again in any letter case fails |
| `StoreLemmas.RegisterThenLogin` | context/AppContext.tsx:31-72 | a freshly registered user signs in with the same email and password and nothing else changes |
| `StoreLemmas.LoginWrongPasswordChangesNothing` | context/AppContext.tsx:34-42 | a password no user has is refused and leaves the state as it was |
| `StoreLemmas.AddReportAppearsInOwnList` | context/AppContext.tsx:79-92 | the new report heads its author's list; every other author's list is unchanged |
| `StoreLemmas.AddAfterLogoutIsNoOp` | context/AppContext.tsx:80 | after signing out, adding a report changes nothing |
| `Chars.ToUpper` | pages/citizen/SubmitReport.tsx:113 | same length, each ASCII lower-case letter mapped to its capital and every other character kept |
| `Chars.ToLower` | context/AppContext.tsx:34 | same length, each ASCII capital mapped to its lower-case letter and every other character kept |
| `Chars.ToUpperIdempotent` | pages/citizen/SubmitReport.tsx:160 | upper-casing twice is upper-casing once |
| `Chars.ToUpperKeepsSpace` | pages/citizen/SubmitReport.tsx:113-116 | upper-cased text is blank exactly when the original is |
| `Chars.KeepPlateChars` | pages/citizen/SubmitReport.tsx:127 | the result has only `[A-Z0-9]` characters and keeps every one of the input's, in their original order |
| `Chars.KeepPlateCharsIdentity` | pages/citizen/SubmitReport.tsx:160 | text already made of plate characters is left as it is |
| `Chars.Trim` | pages/citizen/SubmitReport.tsx:116 | an infix of the input with no whitespace at either end, everything cut off before and after it being whitespace; empty exactly when the input is all whitespace |
| `Chars.SplitLines` | pages/citizen/SubmitReport.tsx:144-145 | at least one line, no line holds a newline, and joining with newlines gives the input back |
| `Chars.SplitJoin` | pages/citizen/SubmitReport.tsx:144-145 | splitting the join of newline-free lines gives those lines back |
| `Chars.NatToDecimal` | context/AppContext.tsx:84 | a non-empty string of decimal digits whose value is the number |
| `NumberInput.ParseInt` | pages/admin/ReportReview.tsx:313 | a negative result only comes from text that starts with '-' after leading whitespace |
| `NumberInput.ParseIntOrZero` | pages/admin/ReportReview.tsx:313 | NaN becomes 0; otherwise the parsed integer |
| `NumberInput.ParseIntOrZeroRoundTrip` | pages/admin/ReportReview.tsx:313 | reading back the decimal rendering of any integer gives that integer |
| `NumberInput.DecimalPrefix` | pages/admin/ReportReview.tsx:313 | digits followed by a non-digit tail are read up to the tail |
| `NumberInput.FractionIsTruncated` | pages/admin/ReportReview.tsx:313 | "n.frac" is read as n |
| `NumberInput.NoDigitsIsZero` | pages/admin/ReportReview.tsx:313 | empty or whitespace-only input gives 0 |
| `NumberInput.HexExample` | pages/admin/ReportReview.tsx:313 | the hexadecimal prefix is honoured: "0x1A" gives 26 |
| `PlateRegex.StrictAt` | pages/citizen/SubmitReport.tsx:128-130 | a result is a choice of quantifier counts under which the strict pattern matches at that position |
| `PlateRegex.StrictAtIsFirstInBacktrackingOrder` | pages/citizen/SubmitReport.tsx:128-130 | no match at the position exactly when `StrictAt` finds none; the counts it picks are the first matching ones in greedy backtracking order |
| `PlateRegex.LeftmostStrict` | pages/citizen/SubmitReport.tsx:128-130 | the first position at which the strict pattern matches, or -1 when it matches nowhere |
| `PlateRegex.StrictMatch` | pages/citizen/SubmitReport.tsx:128-130 | none iff no position matches; otherwise the text matched at the leftmost matching position |
| `PlateRegex.StrictMatchShape` | pages/citizen/SubmitReport.tsx:128-130 | a strict match has 7 to 10 plate characters: two letters, then a digit |
| `PlateRegex.RelaxedFrom` | pages/citizen/SubmitReport.tsx:133 | every global match has 6 to 12 plate characters |
| `PlateRegex.RelaxedMatches` | pages/citizen/SubmitReport.tsx:133 | the matches of the whole text, each of 6 to 12 plate characters; `RelaxedOnPlateText` gives them on the cleaned text |
| `PlateRegex.RelaxedOnPlateText` | pages/citizen/SubmitReport.tsx:133 | on plate text there is no match iff it is shorter than 6; otherwise the first match is its first min(12, length) characters |
| `PlateRegex.LongestIndex` | pages/citizen/SubmitReport.tsx:141 | the first element of greatest length, which the stable length-descending sort puts first |
| `PlateRegex.FirstMatchIsLongest` | pages/citizen/SubmitReport.tsx:139-141 | on plate text of 6 or more characters, the chosen relaxed match is its first min(12, length) characters |
| `PlateRegex.FixMisreads` | pages/citizen/SubmitReport.tsx:164-169 | keeps the length and everything after the first two characters; the text changes exactly when it starts with one of the five misreads, and then it starts with "TN" |
| `PlateRegex.StandardPlate` | pages/citizen/SubmitReport.tsx:172-174 | true exactly when the whole text is two letters, two digits, one or two letters and four digits |
| `PlateDetect.TrimAll` | pages/citizen/SubmitReport.tsx:146 | each line trimmed, same number of lines |
| `PlateDetect.FirstNonBlankLine` | pages/citizen/SubmitReport.tsx:144-147 | a line it finds is non-empty |
| `PlateDetect.Cleaned` | pages/citizen/SubmitReport.tsx:127 | the cleaned text has only plate characters |
| `PlateDetect.Normalise` | pages/citizen/SubmitReport.tsx:113-186 | "no text" exactly when the input is blank; an accepted plate has at least 6 plate characters, and it is flagged standard iff it passes the final validation |
| `PlateDetect.Finish` | pages/citizen/SubmitReport.tsx:159-186 | too short, or a plate of at least 6 plate characters flagged standard iff it passes the final validation |
| `PlateDetect.DetectPlate` | pages/citizen/SubmitReport.tsx:77-192 | an accepted plate goes into both the plate and the vehicle field and the message ends empty; any error keeps both fields and leaves a message; blank text shows no preview |
| `PlateLemmas.FallbackLineExists` | pages/citizen/SubmitReport.tsx:143-147 | non-blank text always has a first non-blank line |
| `PlateLemmas.NoPatternUnreachable` | pages/citizen/SubmitReport.tsx:149-154 | the "no number-like pattern" outcome never happens |
| `PlateLemmas.FallbackIsTooShort` | pages/citizen/SubmitReport.tsx:142-180 | with neither a strict nor a relaxed match, the outcome is always "too short" |
| `PlateLemmas.StrictMatchNotRewritten` | pages/citizen/SubmitReport.tsx:164-169 | text starting with two letters is never changed by the prefix corrections |
| `PlateLemmas.StrictMatchIsThePlate` | pages/citizen/SubmitReport.tsx:126-138 | when the strict pattern matches, the plate is exactly the leftmost greedy match |
| `PlateLemmas.RelaxedPrefixIsThePlate` | pages/citizen/SubmitReport.tsx:132-141 | without a strict match, cleaned text of 6 or more characters gives its first min(12, length) characters, prefix-corrected |
| `PlateLemmas.BlankTextSetsNoPlate` | pages/citizen/SubmitReport.tsx:116-121 | blank text sets the "could not read any text" message and leaves the plate as it was |
| `PlateLemmas.ShortCandidateSetsNoPlate` | pages/citizen/SubmitReport.tsx:175-180 | a too-short candidate sets its message and leaves the plate as it was |
| `PlateLemmas.StrictExample` | pages/citizen/SubmitReport.tsx:126-173 | "TN10AB1234" is read as that plate and passes the final validation |
| `PlateLemmas.SpacedExample` | pages/citizen/SubmitReport.tsx:127-173 | "TN 10 AB 1234" is read as "TN10AB1234" and passes the final validation |
| `PlateLemmas.MisreadThroughNormaliser` | pages/citizen/SubmitReport.tsx:132-174 | "11AB1234" is corrected to "TNAB1234", accepted, and flagged as failing the final validation |
| `SubmitForm.Toggle` | pages/citizen/SubmitReport.tsx:49-59 | the label's membership flips and no other label's changes; an absent label is appended at the end; removal deletes every occurrence of the label and keeps the others in order |
| `SubmitForm.ToggleTwiceAbsent` | pages/citizen/SubmitReport.tsx:49-59 | selecting and then deselecting a label restores the list |
| `SubmitForm.ToggleTwicePresent` | pages/citizen/SubmitReport.tsx:49-59 | deselecting and then reselecting keeps the same labels with that label last |
| `SubmitForm.ToggleKeepsDistinct` | pages/citizen/SubmitReport.tsx:49-59 | a list without repeated labels stays without them |
| `SubmitForm.EditVehicle` | pages/citizen/SubmitReport.tsx:345-351 | typing sets both the plate and the vehicle field to the typed text |
| `SubmitForm.DetectKeepsSync` | pages/citizen/SubmitReport.tsx:188-190 | the detector keeps the plate and the vehicle field equal |
| `SubmitForm.InitialInSync` | pages/citizen/SubmitReport.tsx:22-34 | the form starts with the plate and the vehicle field equal |
| `SubmitForm.Submit` | pages/citizen/SubmitReport.tsx:207-221 | refused exactly when no violation type is chosen; otherwise the form's fields with the image or the placeholder, and a vehicle number with no lower-case letter |
| `SubmitForm.SubmitUsesVehicleField` | pages/citizen/SubmitReport.tsx:218 | while the fields are in step, the submitted number is the vehicle field upper-cased |
| `SubmitForm.DetectedPlateIsSubmitted` | pages/citizen/SubmitReport.tsx:189-218 | a plate accepted by the detector is submitted exactly as detected |
| `SubmitForm.SubmittedReportIsPending` | pages/citizen/SubmitReport.tsx:215-222 | a submitted form files a PENDING report by the signed-in user with at least one violation type |
| `Review.FilteredReports` | pages/admin/ReportReview.tsx:15 | the subsequence of reports under the tab: all of them and only them, in order |
| `Review.FilterAllIsEverything` | pages/admin/ReportReview.tsx:15 | the ALL tab lists every report |
| `Review.DecidedLeavesTab` | pages/admin/ReportReview.tsx:15 | a report decided into another status no longer shows under its old tab |
| `Review.PointsOf` | pages/admin/ReportReview.tsx:20-21 | the default points of the first table entry with the label, or 0 when there is none |
| `Review.CalculatedPoints` | pages/admin/ReportReview.tsx:19-22 | a single label scores its `PointsOf` value, which with the additivity of `CalculatedPointsConcat` makes the result the sum of the labels' points; never negative when no default is |
| `Review.CalculatedPointsConcat` | pages/admin/ReportReview.tsx:19-22 | the suggested sum splits over a concatenation of label lists |
| `Review.UnknownLabelsScoreZero` | pages/admin/ReportReview.tsx:19-22 | labels the table does not know add nothing |
| `Review.CalculatedPointsMonotone` | pages/admin/ReportReview.tsx:19-22 | with non-negative defaults every prefix's sum is non-negative and at most the whole sum |
| `Review.SuggestedPoints` | pages/admin/ReportReview.tsx:24 | the stored points unless they are missing or 0, else the labels' sum |
| `Review.SuggestedComment` | pages/admin/ReportReview.tsx:25 | the stored comment, or empty |
| `Review.SelectedReport` | pages/admin/ReportReview.tsx:12 | nothing without a selection; a report found is the first one in the list with the selected id; none found means no report has that id |
| `Review.Refresh` | pages/admin/ReportReview.tsx:17-27 | with a report selected the inputs take its suggested points and comment; otherwise nothing changes |
| `Review.Rerender` | pages/admin/ReportReview.tsx:27 | re-rendering never changes the tab or the selection |
| `Review.OpenReport` | pages/admin/ReportReview.tsx:29-31 | opening a different report selects it and prefills its suggested points |
| `Review.EnterPoints` | pages/admin/ReportReview.tsx:313 | text that is not a number sets the points to 0; nothing else on the screen changes |
| `Review.TypedPointsAreKept` | pages/admin/ReportReview.tsx:313 | typing any integer in decimal sets the points input to that integer |
| `Review.NextIndex` | pages/admin/ReportReview.tsx:36-53 | no next report in a list of at most one; otherwise the following one, or the preceding one when the current report is last |
| `Review.NextIndexIgnoresFilter` | pages/admin/ReportReview.tsx:39-53 | both source branches choose the same index (the following one, or the preceding one when last), whatever the tab and the decision |
| `Review.NextSelection` | pages/admin/ReportReview.tsx:36-53 | a chosen id belongs to the filtered list and, with unique ids, differs from the decided one; lists of two or more with non-empty ids always choose one |
| `Review.HandleAction` | pages/admin/ReportReview.tsx:33-64 | without a selected report nothing happens; otherwise the report is decided with the points (0 on rejection) and the comment, and the next report is selected |
| `Review.RejectNeverCredits` | pages/admin/ReportReview.tsx:56 | rejecting changes no balance and records 0 points on the report |
| `Review.RejectedReportOffersSum` | pages/admin/ReportReview.tsx:24 | a rejected report stores 0 points, so reopening it offers the labels' sum |
| `Review.DecisionsOffered` | pages/admin/ReportReview.tsx:351-377 | buttons are offered exactly for PENDING reports, and then both decisions |
| `Review.NextSelectionStaysInTab` | pages/admin/ReportReview.tsx:33-64 | under a status tab with unique ids, the next report selected still shows under that tab after the decision |
| `Review.NextInTab` | pages/admin/ReportReview.tsx:39-53 | the neighbour chosen in a status tab is still found, with that status, after the decision |
| `Review.UndecidedStaysFound` | pages/admin/ReportReview.tsx:12 | deciding one report leaves the lookup of every other id unchanged when ids are unique |
| `Review.ApprovalThroughScreenCreditsOnce` | pages/admin/ReportReview.tsx:33-64 | through the screen, approving a PENDING report with a unique id credits its author the points input exactly once |
| `TypeTally.LabelsMembers` | pages/admin/AdminDashboard.tsx:17-18 | a label occurs in the flattened label list exactly when some report carries it |
| `TypeTally.Tally` | pages/admin/AdminDashboard.tsx:16-21 | one entry per distinct label, each holding that label's number of occurrences, in order of first occurrence |
| `TypeTally.BumpTally` | pages/admin/AdminDashboard.tsx:19 | one increment turns the tally of a list into the tally of the list extended by that label |
| `TypeTally.TallyTotal` | pages/admin/AdminDashboard.tsx:16-21 | the counts add up to the number of labels |
| `TypeTally.TallyPositive` | pages/admin/AdminDashboard.tsx:16-21 | every entry has a count of at least one |
| `TypeTally.SortByCount` | pages/admin/AdminDashboard.tsx:24 | the same entries, as many as before; order, permutation and stability are in the three lemmas below |
| `TypeTally.SortDescending` | pages/admin/AdminDashboard.tsx:24 | the sorted entries are in descending count order |
| `TypeTally.SortPermutation` | pages/admin/AdminDashboard.tsx:24 | the sorted entries are a permutation of the tally |
| `TypeTally.SortStable` | pages/admin/AdminDashboard.tsx:24 | entries with equal counts keep their relative order |
| `TypeTally.TopTypes` | pages/admin/AdminDashboard.tsx:22-25 | the first min(n, 5) entries of the sorted tally |
| `TypeTally.TopTypesFacts` | pages/admin/AdminDashboard.tsx:22-25 | min(n, 5) entries of the tally in descending count order, none left off counting more than a bar |
| `TypeTally.TypeDataFacts` | pages/admin/AdminDashboard.tsx:16-25 | at most five bars with distinct labels, each a label some report carries with its number of occurrences; a label left off occurs no more often than any bar's |
| `Dashboard.CountOf` | pages/admin/AdminDashboard.tsx:12 | the number of reports with that status |
| `Dashboard.CountsOf` | pages/admin/AdminDashboard.tsx:11-14 | the total is the list length, each figure counts its status, and the three add up to the total |
| `Dashboard.StatusPartition` | pages/admin/AdminDashboard.tsx:11-14 | every report is counted under exactly one status |
| `Dashboard.DecisionMovesOneReport` | pages/admin/AdminDashboard.tsx:11-14 | deciding the one report with an id moves it from its old status's count to the new one and keeps the total |
| `Dashboard.AddReportAddsPending` | pages/admin/AdminDashboard.tsx:11-14 | adding a report adds one to the total and to PENDING and nothing else |
| `Dashboard.RecentReports` | pages/admin/AdminDashboard.tsx:37 | the first min(4, n) reports, in list order |
| `Dashboard.NewReportIsMostRecent` | pages/admin/AdminDashboard.tsx:37 | a new report heads the recent list, followed by the three newest before it |
| `Dashboard.MyReports` | pages/citizen/CitizenDashboard.tsx:8 | a subsequence of all reports, every one by the signed-in user, as many as that user authored |
| `Dashboard.MyCounts` | pages/citizen/CitizenDashboard.tsx:10-12 | each figure is the number of reports in the whole list that are by the signed-in user and in that status, and the three add up to the user's total |
| `Dashboard.MyRecentReports` | pages/citizen/CitizenDashboard.tsx:114 | the signed-in user's first min(5, n) reports, in list order |
| `Dashboard.MyCountsBounded` | pages/citizen/CitizenDashboard.tsx:8-12 | a citizen's figures never exceed the administrator's, status by status |
| `Dashboard.OwnReportCountedPending` | pages/citizen/CitizenDashboard.tsx:8-114 | a submitted report adds one to the author's total and PENDING counts and heads their recent list |
| `Dashboard.SignedOutListsNothing` | pages/citizen/CitizenDashboard.tsx:8 | signed out, the empty id is looked up, which lists nothing when every report names its author |

## Left out

- The OCR request (`SubmitReport.tsx:71-111`, `193-200`): the HTTP call, the
  response parsing and the caught errors are outside the model. The merged
  OCR text is a parameter.
- Browser storage (`AppContext.tsx:23-29`, `38`, `68`, `76`, `121`): the
  session slot is not modelled.
- `setTimeout` delays and promises: `login` returns its boolean directly.
  The rejection of `register` is a `Result` failure carrying the message.
- React rendering and state batching: each handler is one state transformer.
  The effect of the review screen runs when its two dependencies change
  (`Review.Rerender`).
- Clocks and the avatar URL: `Date.now()`, `toISOString()` and the
  `encodeURIComponent` URL are parameters.
- `Chars.ToUpper` and `Chars.ToLower` map ASCII letters only. JavaScript's
  full Unicode case mapping (for example 'ß' to "SS") is not modelled.
- `TypeTally.Tally` lists keys in insertion order. `Object.keys` puts keys
  that look like array indices ("5", "12") first, in numeric order. The
  model does not reproduce that for such labels. It also counts every label
  alike, while the source's plain `{}` record does not for labels named like
  `Object.prototype` members: for "constructor" or "toString",
  `typeCount[type] || 0` yields the inherited function and the count turns
  into a string, and "__proto__" is never stored as a key, so it gets no bar.
- `NumberInput.ParseInt` gives exact integers. JavaScript numbers lose
  precision beyond 2^53, and that is not modelled.
- `constants.ts` is not part of this model. The violation-type table and the
  initial reports and users are parameters.
- Display-only code: the JSX, the hard-coded `trendData`, icons, badges, the
  sidebar, and the other pages (`Login`, `MyReports`, `Rewards`,
  `ReportViolation`).
- Form plumbing:
  - the generic `handleInputChange`: only the vehicle field is modelled,
    and location and description are plain fields;
  - `handleFileChange` and `URL.createObjectURL`: the image URL is a field;
  - the `isSubmitting` flag and the `onSuccess` callback.
- The text of the `alert` for a missing violation type: the refused submit
  is `None`.
- `PlateDetect.Candidate` and `TypeTally.TypeData` carry no contract of their
  own. Their properties are the lemmas listed above
  (`PlateLemmas.StrictMatchIsThePlate`, `PlateLemmas.RelaxedPrefixIsThePlate`,
  `PlateLemmas.FallbackIsTooShort`, `TypeTally.TypeDataFacts`).
