# Skyward Mentor client rules, modelled in Dafny

Skyward Mentor is a site that sells a flight-attendant preparation book. A
visitor leaves a lead: a name and an age. An administrator approves or blocks
each lead. An approved member can read the full book and send a CV for 180
days after approval. A hosted backend stores everything. What remains on
the client is a set of small rules, and this project models them:

- the dashboard's access gate;
- the admin lead workflow, with its status filter and counters;
- the two countdowns: the member's access window and the bonus deadline on
  the 10th of the month;
- the CV card's monthly window, file checks, progress bar and views;
- the admin's book catalogue: the batch upload, delete, set-primary and
  edit, with the at-most-one-primary invariant;
- the purchase, sign-in and lead forms, with their schemas, error messages
  and Telegram message;
- the page lists and pagers of the two flip books.

Each core source file becomes one module. Pure expressions become functions
and lemmas. Component state that handlers update step by step becomes a
class: its fields are the `useState` variables, and each handler is a
method with a `modifies` clause. Every remote call is an input to the
method that awaits it:

- `Reply` for a call that succeeds or fails;
- `LeadsReply` and `BooksReply` for a select;
- `AuthReply` for an auth call, which can also throw;
- `Attempt` for one file of a book upload.

The writes a handler issues are part of its contract:

- the book manager's handlers return their calls, in order, as a sequence
  of call values;
- the sign-in page and the CV card append theirs to a `calls` field;
- the purchase page returns the row it inserts;
- an admin status update returns the arguments of its update.

Reads are mostly not recorded: `getSession` and the selects enter through
their answers, as inputs. There are two exceptions:

- the dashboard keeps its four lookups (session, role, profile, lead) in
  order in `DashboardPage.lookups`;
- the book upload's `getSession` is the first of its calls.

Instants are integer milliseconds. Calendar dates are a year, a
0-based month, a day and the milliseconds since local midnight.

Shared modules:

- `Wrappers`: `Option` and `Reply`.
- `Text`: JavaScript's `trim`, `includes` and decimal rendering.
- `IntParsing`: the global `parseInt`.
- `Calendar`: month rollover and date order.
- `TimeUnits`: splitting milliseconds into days, hours, minutes and seconds.
- `Leads`: the lead record.
- `Sequences`: the subsequence relation.
- `BookPages`: what the two flip books share.

In a few places the code does not do what the site is meant to do. The
model follows the code:

- **Access at `access_until`.** An active lead is meant to need
  `access_until > now`. The code compares with a strict `new Date(access_until)
  < new Date()`, so at `now == access_until` access is still valid
  (`Dashboard.BoundaryStillValid`).
- **Lead states.** The gate is meant to tell pending and blocked leads
  apart from expired ones. The dashboard only asks for approved leads, so any other lead arrives as no
  lead. The gate then shows the "expired" text, and the "not approved" text
  can never appear (`Dashboard.NotApprovedTextUnreachable`,
  `Dashboard.NoLeadShowsExpired`).
- **Next CV window.** On a day before the 5th, the next window is meant to
  be this month's 5th. `getNextWindowDate` always builds the 5th
  of the following month (`CvSubmission.NextWindowDateSpec`).
- **Age bounds.** The purchase schema checks 16 to 65. The lead form only
  has the input attributes 16 to 45, and its handler accepts any non-blank
  age (`LeadCapture.FilledIff`).
- **Chapter 2's title.** The reader's contents list calls it "Intervyu
  savollari va javoblar". Its chapter page says "Intervyu savollari". The
  contents list ten chapters, but the reader renders only five
  (`FullBookReader.ChaptersAgainstToc`).

## Model

| member | source | states |
|---|---|---|
| Dashboard.IsAccessExpired | src/pages/Dashboard.tsx:117-119 | `isAccessExpired`: no lead, no `access_until`, or `access_until` strictly before now; specified by `Dashboard.MissingAccessUntilIsExpired`, `Dashboard.BoundaryStillValid` and `Dashboard.ContentIffActive` |
| Dashboard.BlockText | src/pages/Dashboard.tsx:134-136 | the card's text, the expired message or the not-approved one; specified by `Dashboard.NoLeadShowsExpired` and `Dashboard.NotApprovedTextUnreachable` |
| Dashboard.Gate | src/pages/Dashboard.tsx:116-151 | a loaded page shows either the blocking card or the content, nothing else |
| Dashboard.ContentIffActive | src/pages/Dashboard.tsx:117-121 | the content shows exactly for an approved lead whose `access_until` is set and not strictly before `now` |
| Dashboard.MissingAccessUntilIsExpired | src/pages/Dashboard.tsx:117-119 | a lead without `access_until` counts as expired and gets the "expired" card |
| Dashboard.BoundaryStillValid | src/pages/Dashboard.tsx:118 | at `now == access_until` the content still shows; one millisecond later the "expired" card does |
| Dashboard.NoLeadShowsExpired | src/pages/Dashboard.tsx:117-136 | with no lead, the card's text is the "6-month access has ended" message |
| Dashboard.ContentShowsCountdown | src/pages/Dashboard.tsx:170-197 | in the content view the countdown's instant is always set and not yet passed; the admin button shows exactly for an admin |
| Dashboard.NotApprovedTextUnreachable | src/pages/Dashboard.tsx:72-136 | when the lead query returns only approved leads, the "not approved" text never shows |
| Dashboard.CvFlagDoesNotAffectGate | src/pages/Dashboard.tsx:102-121 | setting `has_cv_submitted` never changes whether the card blocks |
| Dashboard.DashboardPage.constructor | src/pages/Dashboard.tsx:24-27 | initial state: no lead, loading, not admin |
| Dashboard.DashboardPage.View | src/pages/Dashboard.tsx:108-151 | the render of the page's state: the spinner, a redirect, or `Dashboard.Gate` of the lead; specified by `Dashboard.MountWithFailedLeadQuery` and `Dashboard.MountWithoutAccount` |
| Dashboard.DashboardPage.CheckAccess | src/pages/Dashboard.tsx:35-95 | order of lookups; no session, or no profile, goes to `/auth` before the lead lookup; `isAdmin` is whether the role row was found; a failed lead query keeps the lead and raises a toast; the first row becomes the lead; `loading` ends false on every path |
| Dashboard.DashboardPage.HandleCvSubmitted | src/pages/Dashboard.tsx:102-106 | only `has_cv_submitted` becomes true; nothing happens without a lead |
| Dashboard.MountWithFailedLeadQuery | src/pages/Dashboard.tsx:79-121 | a failed lead query on mount ends on the "expired" card |
| Dashboard.MountWithoutAccount | src/pages/Dashboard.tsx:39-68 | with no session or no profile, mount ends at `/auth` whatever the lead query would answer |
| Admin.AccessUntilFor | src/pages/Admin.tsx:71-74 | approving sets `access_until` to now plus 180 × 86,400,000 ms; blocking sets it to null |
| Admin.WithDecision | src/pages/Admin.tsx:85-87 | same length; exactly the leads with the id get the new status and `access_until`; every other lead is unchanged |
| Admin.WithStatus | src/pages/Admin.tsx:98 | the filter result is no longer than the list and holds only leads of that status |
| Admin.WithStatusExact | src/pages/Admin.tsx:98 | the filter result is an order-preserving subsequence that keeps every lead of that status, each lead of that status as many times as the list holds it and no other lead |
| Admin.FilteredLeads | src/pages/Admin.tsx:98 | `filteredLeads`; specified by `Admin.FilteredLeadsSpec` |
| Admin.FilteredLeadsSpec | src/pages/Admin.tsx:98 | "all" is the list itself; any other filter yields, in order, exactly the leads of that status, each with its multiplicity in the list |
| Admin.StatsOf | src/pages/Admin.tsx:100-105 | the four counters; specified by `Admin.StatsAddUp` |
| Admin.StatsAddUp | src/pages/Admin.tsx:100-105 | pending + approved + blocked equals the total |
| Admin.OfferedActions | src/pages/Admin.tsx:227-243 | a pending lead is offered both actions and every lead at least one; an action is offered exactly when applying it would change the lead's status |
| Admin.DecisionThenGate | src/pages/Admin.tsx:71-74 | approving at t opens the dashboard exactly up to t + 180 days; blocking closes it at every instant (with the gate of Dashboard.tsx:117-121) |
| Admin.ApprovalStartsFullWindow | src/pages/Admin.tsx:73 | the grant equals the countdown's window, so right after an approval the bar is full with 180 days left and not "expiring soon", and it is empty when access ends (the window of AccessCountdown.tsx:40-44) |
| Admin.AdminPage.constructor | src/pages/Admin.tsx:26-28 | the list starts empty, the filter at "all", nothing updating |
| Admin.AdminPage.FetchLeads | src/pages/Admin.tsx:60-66 | a successful select replaces the list; an error keeps it |
| Admin.AdminPage.SetFilter | src/pages/Admin.tsx:163 | the filter button sets the filter |
| Admin.AdminPage.BeginStatusUpdate | src/pages/Admin.tsx:68-74 | `updating` is the lead's id while the call is awaited, so exactly that id's rows have their buttons disabled; captures the expiry and the current list |
| Admin.AdminPage.FinishStatusUpdate | src/pages/Admin.tsx:84-90 | on success the captured list, updated at the id, replaces `leads`; on error `leads` stays; `updating` is null afterwards and no row's buttons are disabled |
| Admin.AdminPage.UpdateLeadStatus | src/pages/Admin.tsx:68-91 | the whole handler: success applies the decision to the list, an error leaves it, `updating` ends null |
| Admin.AdminPage.Visible | src/pages/Admin.tsx:193-200 | the rows the table shows, `FilteredLeads` of the page's list and filter; specified by `Admin.FilteredLeadsSpec` |
| Admin.AdminPage.Counters | src/pages/Admin.tsx:100-105 | the counters shown add up to the total |
| TimeUnits.Decompose | src/components/AccessCountdown.tsx:30-35 | the split is a proper clock reading (hours < 24, minutes and seconds < 60) that recombines to the difference floored to whole seconds; the same split as BonusSection.tsx:20-25 |
| TimeUnits.RecombineSteps | src/components/AccessCountdown.tsx:31-34 | reducing modulo a day, an hour or a minute first leaves the remainder modulo the next unit unchanged |
| TimeUnits.DecomposeZeroIff | src/components/AccessCountdown.tsx:30-58 | the reading is all zeros exactly when less than a second is left |
| AccessCountdown.CalculateTimeLeft | src/components/AccessCountdown.tsx:21-36 | `calculateTimeLeft`; specified by `AccessCountdown.TimeLeftSpec` |
| AccessCountdown.TimeLeftSpec | src/components/AccessCountdown.tsx:21-36 | zeros once `diff <= 0`; otherwise a proper clock reading that recombines to `diff` floored to seconds |
| AccessCountdown.CalculatePercentage | src/components/AccessCountdown.tsx:38-45 | the share left is always within [0, 100] |
| AccessCountdown.PercentageShape | src/components/AccessCountdown.tsx:40-44 | 100 before the 180-day window, 0 from its end on, and the share of the window still ahead in between |
| AccessCountdown.PercentageNonIncreasing | src/components/AccessCountdown.tsx:42-44 | the share left never grows as `now` advances |
| AccessCountdown.IsExpired | src/components/AccessCountdown.tsx:58 | `isExpired`, all four units zero; specified by `AccessCountdown.ExpiredIff` |
| AccessCountdown.ExpiredIff | src/components/AccessCountdown.tsx:30-58 | "expired" holds exactly when less than one second is left, and implies "expiring soon" |
| AccessCountdown.IsExpiringSoon | src/components/AccessCountdown.tsx:57 | `isExpiringSoon`, `days < 14`; specified by `AccessCountdown.ExpiringSoonIff` |
| AccessCountdown.ExpiringSoonIff | src/components/AccessCountdown.tsx:57 | "expiring soon" holds exactly when fewer than 14 days are left |
| Calendar.NextMonth | src/components/BonusSection.tsx:10 | the month after, one month index later; December rolls into January of the next year; also CVSubmission.tsx:29 |
| Calendar.IndexInjective | src/components/BonusSection.tsx:9 | a month is determined by its index |
| Calendar.BeforeIrreflexive | src/components/BonusSection.tsx:9 | `getTime() <` on local date-times is irreflexive |
| Calendar.BeforeTransitive | src/components/BonusSection.tsx:9 | and transitive |
| Calendar.BeforeTotal | src/components/BonusSection.tsx:9 | and total on valid date-times |
| BonusSection.Deadline | src/components/BonusSection.tsx:7-11 | the deadline is a valid date on day 10 at the load's time of day |
| BonusSection.DeadlineMonth | src/components/BonusSection.tsx:7-11 | it stays in the load month unless that month's 10th has passed, then moves to the next month, December into January of the next year |
| BonusSection.DeadlineNotBeforeCheck | src/components/BonusSection.tsx:9-11 | the deadline is never before the clock reading it was compared with, for any second reading up to the next month's 10th, across a month end included |
| BonusSection.Tick | src/components/BonusSection.tsx:18-26 | `tick`'s reading; specified by `BonusSection.TickSpec`, `BonusSection.ZeroForeverAfterDeadline` and `BonusSection.TickAgreesWithAccessCountdown` |
| BonusSection.TickSpec | src/components/BonusSection.tsx:18-26 | the clamped difference is never negative; the reading is a proper clock reading that adds up to it floored to seconds |
| BonusSection.ZeroForeverAfterDeadline | src/components/BonusSection.tsx:7-26 | from the deadline on, every tick reads all zeros |
| BonusSection.TickAgreesWithAccessCountdown | src/components/BonusSection.tsx:19-25 | the bonus tick and the access countdown compute the same reading from the same instants (AccessCountdown.tsx:26-35) |
| CvSubmission.IsSubmissionWindow | src/components/CVSubmission.tsx:24-26 | the 5th to the 10th inclusive; specified by `CvSubmission.ViewPrecedence` |
| CvSubmission.NextWindowDate | src/components/CVSubmission.tsx:28-35 | the date shown is valid, on day 5 at midnight, one month after today's month |
| CvSubmission.NextWindowDateSpec | src/components/CVSubmission.tsx:28-35 | it is after today, even when today is before the 5th; in December it is January 5th of the next year |
| CvSubmission.CheckFile | src/components/CVSubmission.tsx:40-55 | the two checks of `handleFileChange`; specified by `CvSubmission.CheckFileSpec` |
| CvSubmission.CheckFileSpec | src/components/CVSubmission.tsx:40-55 | accepted exactly when at most 5 MiB and the MIME type contains "pdf"; size is checked first; exactly 5 MiB passes the size check |
| CvSubmission.ProgressStep | src/components/CVSubmission.tsx:69 | one step `Math.min(prev + 10, 90)`; specified by `CvSubmission.ProgressAfterSpec` |
| CvSubmission.ProgressAfterSpec | src/components/CVSubmission.tsx:68-70 | after k steps from 0 the bar reads min(10k, 90) and never passes 90 |
| CvSubmission.ViewFor | src/components/CVSubmission.tsx:100-148 | the card the render returns; specified by `CvSubmission.ViewPrecedence` |
| CvSubmission.ViewPrecedence | src/components/CVSubmission.tsx:100-148 | "already submitted" wins over the window check; the form shows exactly when not submitted and the day is 5 to 10 |
| CvSubmission.CvForm.constructor | src/components/CVSubmission.tsx:18-21 | the prop `leadId` kept; no file, not uploading, bar at 0, no call issued |
| CvSubmission.CvForm.HandleFileChange | src/components/CVSubmission.tsx:37-58 | no file does nothing; a file that is too large or not a PDF raises its toast and keeps the previous file; an accepted file is selected |
| CvSubmission.CvForm.BeginSubmit | src/components/CVSubmission.tsx:60-76 | without a file nothing happens; otherwise uploading starts with the bar at 0 and the update of the row with `leadId` is issued |
| CvSubmission.CvForm.ProgressTick | src/components/CVSubmission.tsx:69 | one step, `min(prev + 10, 90)`, keeps the bar at most 90 |
| CvSubmission.CvForm.FinishSubmit | src/components/CVSubmission.tsx:78-97 | the bar jumps to 100; `onSubmitted` fires exactly on success; the matching toast is raised; `uploading` ends false |
| CvSubmission.CvForm.View | src/components/CVSubmission.tsx:100-148 | the card for the form's state; specified by `CvSubmission.ViewPrecedence` |
| CvSubmission.SubmitWithTicks | src/components/CVSubmission.tsx:60-98 | a whole submission notifies exactly when there was a file and the update succeeded, then ends at 100 and not uploading with the reply's toast raised, and issues exactly one update of the lead's row; without a file nothing changes; the selection is kept either way |
| AdminBookManager.OptionalText | src/components/AdminBookManager.tsx:78 | the empty-string-to-null fallback: null exactly for the empty string, the string itself otherwise; the same at line 134 |
| AdminBookManager.OptionalTextRoundTrip | src/components/AdminBookManager.tsx:134-149 | showing a description for editing and saving it back returns it, except the empty string, which becomes null |
| AdminBookManager.BatchTitlesDistinct | src/components/AdminBookManager.tsx:70-72 | with several files, no two rows get the same title |
| AdminBookManager.FilePath | src/components/AdminBookManager.tsx:62 | every file path lies under the uploader's folder |
| AdminBookManager.PlannedRowsSpec | src/components/AdminBookManager.tsx:70-85 | only row 0 of a batch into an empty catalogue is primary; display orders continue from the existing count without gaps or repeats; one file keeps the title verbatim, several get distinct titles; an empty description is null |
| AdminBookManager.FirstFailureFrom | src/components/AdminBookManager.tsx:60-88 | the first failing file from k on: all files before it succeed, and it fails |
| AdminBookManager.CallsUpTo | src/components/AdminBookManager.tsx:62-87 | for the first k files: each upload to its path, then the insert of its planned row |
| AdminBookManager.BatchCallsSpec | src/components/AdminBookManager.tsx:60-95 | rows are inserted for every file before the first failure and none after; a batch with no failure inserts one row per file and ends with the refetch; a failing batch never refetches |
| AdminBookManager.NoRefetchUpTo | src/components/AdminBookManager.tsx:60-88 | the per-file calls never include a refetch |
| AdminBookManager.RunBatch | src/components/AdminBookManager.tsx:60-88 | the loop issues the calls of the files up to the first failure, stops there, and reports that failure's message |
| AdminBookManager.UploadRejected | src/components/AdminBookManager.tsx:50 | the guard of `handleUpload`; specified by `AdminBookManager.UploadRejectedIff` |
| AdminBookManager.UploadRejectedIff | src/components/AdminBookManager.tsx:50 | an upload goes ahead exactly with at least one file and a title that is not all white space |
| AdminBookManager.WithoutBook | src/components/AdminBookManager.tsx:115 | the result is no longer than the list, holds only books of the list, and none with the id |
| AdminBookManager.WithoutBookSpec | src/components/AdminBookManager.tsx:115 | delete keeps every other book in order and with its multiplicity, removes every copy of the id, and adds no primary |
| AdminBookManager.WithPrimary | src/components/AdminBookManager.tsx:126 | every book's `is_primary` becomes whether its id is the chosen one; nothing else changes |
| AdminBookManager.WithPrimaryCount | src/components/AdminBookManager.tsx:126 | afterwards the primaries are exactly the books with the chosen id |
| AdminBookManager.UniqueIdCount | src/components/AdminBookManager.tsx:126 | with distinct ids an id occurs at most once, and once when present |
| AdminBookManager.AbsentIdCount | src/components/AdminBookManager.tsx:126 | an id no book has is counted zero times |
| AdminBookManager.SetPrimaryLeavesOnePrimary | src/components/AdminBookManager.tsx:120-128 | with distinct ids, at most one book is primary afterwards, and exactly one when the id is present |
| AdminBookManager.WithEdit | src/components/AdminBookManager.tsx:138-140 | only the matching book's title and description change |
| AdminBookManager.WithEditKeepsPrimaries | src/components/AdminBookManager.tsx:138-140 | editing never changes the primary count |
| AdminBookManager.EditWithoutChangesIsNoOp | src/components/AdminBookManager.tsx:131-150 | opening a book for editing and saving it untouched leaves the catalogue as it was, unless the description was "" |
| AdminBookManager.SetPrimaryThenStars | src/components/AdminBookManager.tsx:126 | after set-primary the chosen book offers no star, and every other row not being edited does (the star button of lines 259-271) |
| AdminBookManager.BookManager.constructor | src/components/AdminBookManager.tsx:24-33 | the initial state of the component |
| AdminBookManager.BookManager.FetchBooks | src/components/AdminBookManager.tsx:40-47 | a successful select replaces the list, an error keeps it; loading ends |
| AdminBookManager.BookManager.ToggleAddForm | src/components/AdminBookManager.tsx:201 | the add button toggles the form |
| AdminBookManager.BookManager.HandleUpload | src/components/AdminBookManager.tsx:49-101 | a refused upload makes no call and raises the toast; an accepted one does what UploadSelected states; the list and the edit state are untouched |
| AdminBookManager.BookManager.UploadSelected | src/components/AdminBookManager.tsx:55-100 | no session: only the session lookup, and `uploading` stays true; with one: the batch's calls; only a batch with no failure clears the form, toasts success and refetches; a failure keeps the form and toasts its message; `uploading` ends false |
| AdminBookManager.BookManager.ClearAddForm | src/components/AdminBookManager.tsx:91-94 | the add form is emptied and closed |
| AdminBookManager.BookManager.HandleDelete | src/components/AdminBookManager.tsx:103-118 | storage first; a storage error stops with a toast; the row delete follows, and only its success removes the book; the primary count never grows |
| AdminBookManager.BookManager.HandleSetPrimary | src/components/AdminBookManager.tsx:120-129 | clear-all then mark-one; on success the list follows and, with distinct ids, at most one book is primary; on failure nothing changes |
| AdminBookManager.BookManager.HandleUpdate | src/components/AdminBookManager.tsx:131-144 | writes the edit fields with "" as null; on success the list follows and editing ends; the primary count is kept |
| AdminBookManager.BookManager.StartEdit | src/components/AdminBookManager.tsx:146-150 | editing the book, its title and its description, with null shown as "" |
| AdminBookManager.EditAndSaveUnchanged | src/components/AdminBookManager.tsx:131-150 | start-edit then a successful save leaves the list unchanged and sends the book's own title and description |
| Text.TrimStart | src/pages/Purchase.tsx:12 | leading white space removed: a suffix, starting with no space |
| Text.TrimEnd | src/pages/Purchase.tsx:12 | trailing white space removed: a prefix, ending with no space |
| Text.Trim | src/pages/Purchase.tsx:12 | `trim()`: no longer than the input, with no white space at either end; also AdminBookManager.tsx:50 and LeadCapture.tsx:14 |
| Text.TrimIsSlice | src/pages/Purchase.tsx:12 | the trimmed text is a slice of the input with only white space around it |
| Text.TrimEmptyIffBlank | src/components/LeadCapture.tsx:14 | a string trims to "" exactly when it is all white space; also AdminBookManager.tsx:50 |
| Text.ContainsIffOccurs | src/components/CVSubmission.tsx:48 | `includes` holds exactly when the text occurs at some position; also Auth.tsx:50 and 80 |
| Text.DigitValue | src/pages/Purchase.tsx:66 | a digit's value is below 10 |
| Text.DigitChar | src/pages/Purchase.tsx:66 | the digit for a value below 10, with that value |
| Text.NatToString | src/pages/Purchase.tsx:66 | a number's decimal text is a non-empty run of digits with no leading zero; also AdminBookManager.tsx:72 |
| Text.NatToStringRoundTrip | src/pages/Purchase.tsx:66 | reading the decimal text back gives the number |
| Text.NatToStringInjective | src/components/AdminBookManager.tsx:72 | different numbers have different texts |
| IntParsing.CharValue | src/pages/Purchase.tsx:41 | a character's digit value is below 36, and a decimal digit's value is its own |
| IntParsing.DecimalDigits | src/pages/Purchase.tsx:41 | the base-10 digits are exactly 0 to 9 |
| IntParsing.DigitPrefix | src/pages/Purchase.tsx:41 | the longest prefix of digits: a prefix made only of digits, followed by a non-digit or the end |
| IntParsing.DigitsValueDecimal | src/pages/Purchase.tsx:41 | in base 10 the digit value is the decimal value |
| IntParsing.ParseInt | src/pages/Purchase.tsx:41 | `parseInt(age)`; specified by `IntParsing.ParseIntRoundTrip`, `IntParsing.ParseIntStopsAtNonDigit` and `IntParsing.ParseIntBlank` |
| IntParsing.ParseIntRoundTrip | src/pages/Purchase.tsx:41 | `parseInt` of a whole number's decimal text is that number |
| IntParsing.AllDigitsPrefix | src/pages/Purchase.tsx:41 | a run of digits is its own digit prefix |
| IntParsing.DigitPrefixStops | src/pages/Purchase.tsx:41 | the digit run that parseInt reads ends at the first non-digit |
| IntParsing.ParseIntStopsAtNonDigit | src/pages/Purchase.tsx:41 | parsing stops at the first non-digit ("16.5" reads 16), except for a lone 0 before x |
| IntParsing.ParseIntBlank | src/pages/Purchase.tsx:41 | a blank string is NaN |
| Purchase.NameIssues | src/pages/Purchase.tsx:12 | the issues of the trimmed name; specified by `Purchase.FirstIssueOrder` and `Purchase.ParsePurchase` |
| Purchase.AgeIssues | src/pages/Purchase.tsx:13 | the issues of the parsed age; specified by `Purchase.FirstIssueOrder` and `Purchase.AgeInputs` |
| Purchase.PurchaseIssues | src/pages/Purchase.tsx:11-14 | all issues of `purchaseSchema`, name first; specified by `Purchase.FirstIssueOrder` |
| Purchase.ParsePurchase | src/pages/Purchase.tsx:11-47 | accepted exactly for a trimmed name of 2 to 100 characters and a numeric age of 16 to 65; the data is the trimmed name and the parsed age |
| Purchase.FirstIssueOrder | src/pages/Purchase.tsx:11-45 | a name issue is reported before any age issue, each with its message; NaN is "Expected number, received nan" |
| Purchase.AgeInputs | src/pages/Purchase.tsx:13-41 | a typed whole number passes the age check exactly when it is 16 to 65; a blank age never does |
| Purchase.TelegramMessage | src/pages/Purchase.tsx:65-67 | the message before encoding; specified by `Purchase.TelegramMessageInjective` and `Purchase.MessageLineBreak` |
| Purchase.TelegramMessageInjective | src/pages/Purchase.tsx:65-67 | for single-line names, the message determines the name and the age |
| Purchase.MessageLineBreak | src/pages/Purchase.tsx:66 | the first line break after the greeting ends the name |
| Purchase.PurchasePage.constructor | src/pages/Purchase.tsx:18-21 | empty fields, no error, loading |
| Purchase.PurchasePage.CheckAuth | src/pages/Purchase.tsx:24-31 | without a session: to `/auth` with the spinner still shown; with one, the form |
| Purchase.PurchasePage.HandleSubmit | src/pages/Purchase.tsx:35-69 | a rejected form sets the first issue and makes neither the insert nor the redirect; an accepted one inserts the trimmed name and age with the user id, then opens the Telegram message whatever the insert answered |
| Purchase.LinkText | src/pages/Purchase.tsx:68 | the link is `https://t.me/Dew0277?text=` followed by exactly the message, so the message is recovered from the link |
| Auth.LoginIssues | src/pages/Auth.tsx:11-14 | the issues of `loginSchema`; specified by `Auth.IssuesSpec` |
| Auth.SignupIssues | src/pages/Auth.tsx:16-18 | the issues of `signupSchema`; specified by `Auth.IssuesSpec` |
| Auth.IssuesSpec | src/pages/Auth.tsx:11-18 | login passes exactly for a valid email and a password of at least 6; signup also needs an untrimmed name of 2 to 100; the email's message comes first |
| Auth.LoginErrorText | src/pages/Auth.tsx:50-54 | the sign-in error's message; specified by `Auth.ErrorTextSpec` |
| Auth.SignupErrorText | src/pages/Auth.tsx:80-84 | the signup error's message; specified by `Auth.ErrorTextSpec` |
| Auth.ErrorTextSpec | src/pages/Auth.tsx:50-84 | a backend message is translated exactly when it contains the phrase; any other message passes through |
| Auth.AuthPage.constructor | src/pages/Auth.tsx:22-28 | login mode, not loading, no error, empty fields |
| Auth.AuthPage.SubmitLogin | src/pages/Auth.tsx:36-106 | an invalid form shows the first issue and makes no call; otherwise it signs in and then goes home, or shows the mapped or the generic message; loading ends false |
| Auth.AuthPage.SubmitSignup | src/pages/Auth.tsx:60-106 | an invalid form makes no call; a failed signup shows the mapped or the generic message; after a signup the auto-login goes home, or on failure switches to login mode with "please sign in" |
| Auth.AuthPage.HandleSubmit | src/pages/Auth.tsx:30-107 | the mode picks the half; loading ends false; signup mode is only left for login mode; navigation only goes home, with no message |
| Auth.AuthPage.Toggle | src/pages/Auth.tsx:212-215 | flips the mode and clears the message |
| LeadCapture.Filled | src/components/LeadCapture.tsx:14 | `name.trim() && age.trim()`; specified by `LeadCapture.FilledIff` |
| LeadCapture.FilledIff | src/components/LeadCapture.tsx:14-74 | the form counts as filled exactly when neither field is all white space; the age's range is not checked |
| LeadCapture.LeadForm.constructor | src/components/LeadCapture.tsx:8-10 | empty fields, not submitted |
| LeadCapture.LeadForm.SetName | src/components/LeadCapture.tsx:62 | the name input sets the name |
| LeadCapture.LeadForm.SetAge | src/components/LeadCapture.tsx:76 | the age input sets the age |
| LeadCapture.LeadForm.HandleSubmit | src/components/LeadCapture.tsx:12-17 | `submitted` becomes true when both fields are filled and otherwise stays as it was |
| LeadCapture.LeadForm.View | src/components/LeadCapture.tsx:19-37 | the thank-you card shows exactly when submitted |
| LeadCapture.SubmittedStays | src/components/LeadCapture.tsx:10-37 | once submitted, the thank-you card stays whatever is typed or submitted |
| BookPages.FirstContents | src/components/FullBookReader.tsx:174 | `tocItems.slice(0, 5)`; specified by `BookPages.ContentsSplit` |
| BookPages.SecondContents | src/components/FullBookReader.tsx:203 | `tocItems.slice(5)`; specified by `BookPages.ContentsSplit` |
| BookPages.ContentsSplit | src/components/FullBookReader.tsx:174-203 | the two contents pages together are the whole list in order, five on the first; the same slices at FlipBookPreview.tsx:141 and 170 |
| BookPages.PageIndicator | src/components/FullBookReader.tsx:268 | on a page of the book the indicator reads between 1 and the page count; also FlipBookPreview.tsx:251 |
| BookPages.PrevDisabled | src/components/FullBookReader.tsx:261 | `currentPage === 0`; specified by `BookPages.PagerSpec` |
| BookPages.NextDisabled | src/components/FullBookReader.tsx:275 | `currentPage >= totalPages - 1`; specified by `BookPages.PagerSpec` |
| BookPages.PagerSpec | src/components/FullBookReader.tsx:261-275 | "previous" is disabled exactly on the first page and "next" exactly on the last, where the indicator reads n / n; with two pages or more, one button is always enabled; the same buttons at FlipBookPreview.tsx:244-258 |
| BookPages.StepsGiveIncrease | src/components/FullBookReader.tsx:19-30 | pages that increase between neighbours increase along the whole list |
| BookPages.TocShape | src/components/FullBookReader.tsx:19-30 | the contents number chapters 1 to 10 in order with strictly increasing pages, split five and five; the same list at FlipBookPreview.tsx:19-30 |
| FullBookReader.ChapterPages | src/components/FullBookReader.tsx:225-251 | two pages per chapter; chapter i opens at index 2i, labelled i + 1 with its title, and continues at 2i + 1 |
| FullBookReader.Pages | src/components/FullBookReader.tsx:111-252 | the pages the reader renders; specified by `FullBookReader.PagesLayout` and `FullBookReader.LastPage` |
| FullBookReader.PagesLayout | src/components/FullBookReader.tsx:89-251 | `totalPages` is 14 and equals the pages rendered; cover, title and contents come first; chapter i is on pages 4 + 2i and 5 + 2i |
| FullBookReader.LastPage | src/components/FullBookReader.tsx:275 | "next" is disabled exactly on the last chapter's continuation page |
| FullBookReader.ChaptersAgainstToc | src/components/FullBookReader.tsx:19-84 | only chapters 1 to 5 of the ten listed have pages; each has its contents title except chapter 2 |
| FlipBookPreview.Pages | src/components/FlipBookPreview.tsx:78-235 | the pages the preview renders; specified by `FlipBookPreview.PagesLayout` and `FlipBookPreview.LockedIsLast` |
| FlipBookPreview.PagesLayout | src/components/FlipBookPreview.tsx:35-234 | `totalPages` is 6 and equals the pages rendered; the locked page is the last and only one; no chapter page is shown; the contents pages hold the whole list |
| FlipBookPreview.LockedIsLast | src/components/FlipBookPreview.tsx:210-258 | "next" is disabled exactly on the locked page |

## Left out

- Backend calls: each `supabase` auth, table and storage call is an input, and the model does not say what the backend does with it. This includes server-side ordering and filtering such as `order("created_at")` and `.eq("status", "approved")`, and the `.neq("id", "")` match-all of set-primary.
- Admin session handling: the `onAuthStateChange` subscription, the redirect to `/auth` without a session, the page's `loading` flag and logout are not modelled. They only wire the backend's session to navigation.
- Timers and animation: `setInterval`, framer-motion and react-pageflip are not modelled. Each countdown tick is one evaluation at its `now`; each progress step is one `ProgressTick`; `currentPage` is any index the flip library reports.
- AccessCountdown's initial all-zero `timeLeft`, shown before the first tick, is not modelled.
- BonusSection's two clock reads (`new Date()` and `Date.now()`) are separate inputs. `BonusSection.DeadlineNotBeforeCheck` assumes the second is no later than the 10th of the month after the first, which two consecutive statements always meet.
- Floating point and formatting are not modelled: `toFixed`, `Math.round` of the percentage, `toLocaleDateString`, `padStart`. The percentage is a `real`.
- Date parsing and time zones are not modelled: ISO strings, `toISOString`, daylight saving, and an unparsable `access_until`. An instant is an integer and a local date is a year, month, day and time of day.
- `encodeURIComponent` (section 2.1 of RFC 3986) is not modelled. `Purchase.TelegramLink` holds the unencoded message.
- zod's email pattern is not modelled; the check's outcome is the input `emailValid`.
- Strings are sequences of characters, not UTF-16 code units. For characters outside the Basic Multilingual Plane, the model's length rules count one where JavaScript counts two.
- `parseInt` gives exact integers. JavaScript's rounding of very long digit strings and its `-0` are not modelled.
- `console.log` of the ignored purchase insert error is not modelled.
- Input setters other than the lead form's are not modelled; each field's value is simply the current field value.
- Admin's `updateLeadStatus` uses the `leads` list its closure captured. `FinishStatusUpdate` models this, and `UpdateLeadStatus` covers only the case where the list did not change during the call. The book manager's handlers read `books` when their call returns, which is the same only under that condition.
- Native form constraint validation is not modelled: the browser's handling of `required`, `min`, `max` and `maxLength` (LeadCapture.tsx:64-78; Purchase.tsx:120-137 sets `maxLength`, `min` and `max`, and Auth.tsx:157-174 sets `maxLength`). Each `HandleSubmit` models the handler as it runs once the submit event reaches it, so "any non-blank age" is what the lead form's handler accepts, not what a browser would let through.
- The rendering of lists, badges and texts is left out, beyond the view each component picks.
- The other components of the site are not part of this model. DashboardBookList and HomeBookDisplay are a query and a download. PlaneAnimation and Navbar are scroll and timer effects. HeroSection, Footer, ExpertStory, BookFeatures and Index have no logic.

