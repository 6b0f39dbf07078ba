# Job application tracker client, modelled in Dafny

The tracker is a single-page web client over a hosted backend. Users record
their job applications and resume versions, and the client shows aggregate
figures about them. This project models the client's deterministic logic:

- the dashboard's statistics, greeting name and top-three resume leaderboard;
- the resumes page's per-resume interview rate, and the flag on the single
  best resume;
- the applications list's filter query, per-status counts and status editor;
- the global store holding the user, the theme and the loading flag;
- the eight-view state machine of the page shell;
- the rules of the new-application form and the registration form.

The backend is not modelled. Every reply it resolves with (rows, an error, a null
count) is a parameter of the operation that awaits it. A thrown exception is
one too, for `checkSession` and `signOut`; elsewhere it is left out (see
"## Left out").
`Records.Result`, `Records.WriteReply` and `Records.Option` hold most replies.
Four operations need more shapes:

- `Resumes.CountReply` holds the two exact counts, each possibly null;
- `Store.SessionReply` is a thrown exception (`Threw`), or a session that may
  be null or hold no user;
- `Store.SignOutReply` is a call that returns (`SignOutReturned`) or throws
  (`SignOutThrew`);
- `RegisterScreen.SignUpReply` is an error with its message, or data with a
  user and a session, each possibly null.

Components whose state changes step by step are classes with `modifies`
clauses: `DashboardView`, `ResumesView`, `ApplicationsView`, `AppStore`,
`ViewController`, `AddApplicationForm` and `RegisterForm`. The logic they
apply is a set of functions with contracts, and lemmas about those functions.

Percentages are integers. `toFixed(0)` of 100·k/n is the whole percent
nearest to the exact rational, ties rounded up: `(200k + n) div 2n`.
`toFixed(1)` is counted in tenths of a percent: `(2000k + n) div 2n`.
`filter(p).length` is `|Filter(s, p)|`. Lemmas prove it equal to the number
of positions whose element satisfies `p`, which is the reference definition
the counting contracts use.

Two behaviours of the code are easy to misread:

- A rate shown as "0%" does not mean there are no interviews.
  `Percent.WholePercentRange` proves the dashboard rate is 0 exactly when
  200·interviews < total. That can happen with interviews present, once there
  are more than 200 applications per interview. The resumes page rate behaves
  the same way one decimal further: 0.0 exactly when 2000·interviews < total.
- The dashboard and the resumes page count different things. The dashboard
  counts status 'Interview' or 'Offer' (`Dashboard.IsInterviewOrOffer`). The
  resumes page's second count query matches 'Interview' only
  (`Resumes.InterviewWith`).

## Model

| member | source | states |
|---|---|---|
| Records.Filter | app/components/Applications.tsx:71-73 | `s.filter(p)` is no longer than `s`, and every element it keeps satisfies `p` |
| Records.FilterContents | app/components/Applications.tsx:71-73 | the filter keeps each element satisfying `p` exactly as often as it occurs in `s`, and nothing else |
| Records.FilterCountsPositions | app/components/Dashboard.tsx:46-51 | `filter(p).length` equals the number of positions of `s` whose element satisfies `p` |
| Records.CountIs | app/components/Dashboard.tsx:46-51 | `filter(p).length` is the size of any set holding exactly the satisfying positions |
| Records.NestedCountIs | app/components/Dashboard.tsx:73-75 | a filter of a filter counts the positions satisfying both conditions |
| Records.DisjointCounts | app/components/Dashboard.tsx:48-51 | counts under three pairwise exclusive conditions sum to at most the length |
| Percent.WholePercent | app/components/Dashboard.tsx:52 | the result is the whole percent nearest to 100·k/n, a half rounding up |
| Percent.TenthsPercent | app/components/Resumes.tsx:54 | the result is the tenth of a percent nearest to 100·k/n, a half rounding up |
| Percent.WholePercentRange | app/components/Dashboard.tsx:52 | for k ≤ n the percent is at most 100; it is 0 exactly when 200k < n; k = n gives 100 |
| Percent.TenthsPercentRange | app/components/Resumes.tsx:54 | for k ≤ n the rate is at most 100.0; it is 0.0 exactly when 2000k < n; k = n gives 100.0 |
| Dashboard.BeforeFirstAt | app/components/Dashboard.tsx:12 | `split('@')[0]` is the longest prefix of the email without '@', and the email has '@' right after it when it is shorter |
| Dashboard.DisplayName | app/components/Dashboard.tsx:12 | the name is never empty; a non-empty full name wins; otherwise a non-empty email prefix before '@'; otherwise "User" |
| Dashboard.AppsToday | app/components/Dashboard.tsx:45-46 | the count is exactly the number of applications whose `date_applied` equals today's string, and at most their total |
| Dashboard.PendingFollowUps | app/components/Dashboard.tsx:47 | the count is exactly the number of applications with a follow-up date at or before now and a status other than Rejected or Ghosted |
| Dashboard.StatusCounts | app/components/Dashboard.tsx:48-51 | the interview-or-offer, ghosted and rejected counts are exact, and their sum is at most the total |
| Dashboard.InterviewRate | app/components/Dashboard.tsx:52 | no applications give 0; otherwise the rate is `WholePercent` of interviews over total; for interviews ≤ total it lies in 0..100 and is 0 exactly when 200·interviews < total |
| Dashboard.ComputeStats | app/components/Dashboard.tsx:45-62 | every statistic is the exact count of its condition; the three status counts sum to at most the total; the rate is 0 for an empty list and otherwise `WholePercent(interviews, total)`, in 0..100, and 0 exactly when 200·interviews < total |
| Dashboard.ScoreResume | app/components/Dashboard.tsx:72-84 | an entry keeps the resume's id and name; its count is the number of applications using the resume; its score is 0 for a count of 0 and otherwise `WholePercent` of its interviews-or-offers over the count, in 0..100, and 0 exactly when the count is 0 or 200·(its interviews or offers) < count |
| Dashboard.ScoreAll | app/components/Dashboard.tsx:72-84 | every fetched resume is scored, in fetch order |
| Dashboard.InsertByScore | app/components/Dashboard.tsx:85 | insertion adds exactly the one entry |
| Dashboard.InsertSorted | app/components/Dashboard.tsx:85 | inserting into a list sorted by non-increasing score keeps it sorted |
| Dashboard.InsertWithScore | app/components/Dashboard.tsx:85 | the inserted entry comes before all the entries it ties with |
| Dashboard.SortByScore | app/components/Dashboard.tsx:85 | the result is a permutation of the input, sorted by non-increasing score, and entries with equal scores keep their input order |
| Dashboard.StableSortUnique | app/components/Dashboard.tsx:85 | two sorted lists with the same entries per score, in the same order, are equal |
| Dashboard.SortByScoreIsTheStableSort | app/components/Dashboard.tsx:85 | any list sorted by score that keeps, for every score, the input's entries in input order is `SortByScore` of the input |
| Dashboard.PrefixSorted | app/components/Dashboard.tsx:85 | a prefix of a sorted list is sorted |
| Dashboard.TakeTop | app/components/Dashboard.tsx:85 | the first k entries of a sorted list score no lower than any entry it drops |
| Dashboard.TakeStable | app/components/Dashboard.tsx:85 | the first k entries hold, for every score, a prefix of the entries with that score |
| Dashboard.PrefixKeepsBest | app/components/Dashboard.tsx:85 | the first k entries of a sorted rearrangement are input entries scoring no lower than those left off |
| Dashboard.TopThree | app/components/Dashboard.tsx:85 | keeps min(3, n) entries of the input, sorted by non-increasing score; no entry left off scores higher than one kept; ties keep input order |
| Dashboard.Leaderboard | app/components/Dashboard.tsx:71-85 | the leaderboard has min(3, resumes) entries, sorted by score, taken from the scored resumes; none left off scores higher than one kept; ties keep fetch order |
| Dashboard.DashboardView.constructor | app/components/Dashboard.tsx:15-25 | all statistics start at zero, the leaderboard empty, loading on |
| Dashboard.DashboardView.FetchData | app/components/Dashboard.tsx:28-91 | with no user nothing changes; an applications error leaves the figures alone; otherwise the statistics are recomputed, and the leaderboard too when the resumes data is non-null; loading ends off whenever a user is present |
| Resumes.Rate | app/components/Resumes.tsx:54 | the rate is 0.0 when the total is null or 0; otherwise the tenth of a percent nearest to `interviews` (0 when null) over the total, a half rounding up |
| Resumes.WithStats | app/components/Resumes.tsx:56-61 | the element keeps the resume row, takes the total count (0 when null) and `Rate`, and is not flagged |
| Resumes.ExactCountsRate | app/components/Resumes.tsx:42-62 | with exact counts, the shown count is the number of applications using the resume, and the rate lies in 0.0..100.0, being 0.0 exactly when there are none or 2000·interviews < count |
| Resumes.BestIndex | app/components/Resumes.tsx:66-68 | the reduce returns the first element of greatest rate |
| Resumes.MarkBest | app/components/Resumes.tsx:65-72 | only the flag changes; at most one element is flagged; a flagged element has a positive, greatest rate and no earlier element ties it; some element is flagged exactly when some rate is positive |
| Resumes.Ranked | app/components/Resumes.tsx:42-72 | each listed resume keeps its row, count and rate in fetch order, and the best-flag properties of `MarkBest` hold |
| Resumes.HandleDownload | app/components/Resumes.tsx:108-119 | no request for a missing or empty path; otherwise a 60-second signed URL for that path in bucket `resumes`, opened exactly when the reply is successful and non-empty |
| Resumes.ResumesView.constructor | app/components/Resumes.tsx:12-18 | the list starts empty, loading on, no upload, modal closed, name empty |
| Resumes.ResumesView.FetchResumes | app/components/Resumes.tsx:24-76 | with no user nothing changes; a resume query error keeps the list; otherwise the list becomes `Ranked` of the rows and counts, the flag set on the array element in place; loading ends off |
| Resumes.ResumesView.HandleAddResume | app/components/Resumes.tsx:78-106 | nothing is inserted or changed without a user or a name; the insert carries the user id and name; a rejected insert changes only `uploading`; success closes the modal, clears the name and fetches again; `uploading` ends off |
| Applications.Matches | app/components/Applications.tsx:31-37 | 'All' keeps every status; 'Active' exactly Applied and Interview; any other filter exactly the status equal to it |
| Applications.BuildQuery | app/components/Applications.tsx:25-37 | the query selects exactly the user's rows matching the filter: all, Applied or Interview for 'Active', the exact status otherwise; newest first |
| Applications.InterviewsChipSelectsNothing | app/components/Applications.tsx:177 | the 'Interviews' chip matches no row whose status is one the editor offers |
| Applications.Stats | app/components/Applications.tsx:69-74 | the total is the list length; the Interview, Offer and Ghosted counts are exact and sum to at most the total |
| Applications.WithStatus | app/components/Applications.tsx:59-61 | length and order are kept; rows with the id get the new status and keep every other field; all other rows are unchanged |
| Applications.WithStatusChangesOneRow | app/components/Applications.tsx:59-61 | with unique ids at most one row changes, and patching twice equals patching once |
| Applications.ApplicationsView.constructor | app/components/Applications.tsx:11-15 | filter 'All', empty list, loading on, no row being edited |
| Applications.ApplicationsView.SetFilter | app/components/Applications.tsx:180 | a chip click sets the filter |
| Applications.ApplicationsView.StartEditing | app/components/Applications.tsx:275 | clicking a status opens that row's editor |
| Applications.ApplicationsView.StopEditing | app/components/Applications.tsx:264 | leaving the editor closes it |
| Applications.ApplicationsView.FetchApplications | app/components/Applications.tsx:21-47 | no query without a user; the query is `BuildQuery`'s; an error keeps the list; null data empties it; loading ends off |
| Applications.ApplicationsView.HandleStatusUpdate | app/components/Applications.tsx:49-66 | a rejected update changes nothing locally; an accepted one patches the list by `WithStatus` and closes the editor |
| Store.Toggled | app/lib/store.ts:39 | toggling always changes the theme: dark becomes light, light becomes dark |
| Store.ToggleInvolutive | app/lib/store.ts:38-41 | toggling twice restores the theme |
| Store.ProfileOf | app/lib/store.ts:49-54 | the profile carries the auth user's id and email and the metadata's full name and avatar, absent without metadata |
| Store.UserAfterCheck | app/lib/store.ts:46-58 | a throw keeps the user; a session with a user gives its profile; no session or no user gives none |
| Store.CheckForgetsPreviousUser | app/lib/store.ts:46-58 | a check that does not throw ignores the user previously held |
| Store.AppStore.constructor | app/lib/store.ts:25-27 | no user, dark theme, loading on |
| Store.AppStore.SetUser | app/lib/store.ts:29 | replaces the user only |
| Store.AppStore.SetTheme | app/lib/store.ts:31-36 | sets the theme exactly as given |
| Store.AppStore.ToggleTheme | app/lib/store.ts:38-41 | the theme becomes `Toggled` of the old one |
| Store.AppStore.CheckSession | app/lib/store.ts:43-64 | the user becomes `UserAfterCheck` of the old user and the reply; loading ends off; the theme is untouched |
| Store.AppStore.SignOut | app/lib/store.ts:66-69 | a call that returns drops the user whatever it reports; a call that throws leaves the user; the theme is untouched |
| Page.NavTarget | app/page.tsx:45-53 | exactly the seven page names select a view, and none selects the splash |
| Page.PageName | app/page.tsx:45-53 | every view but the splash has a page name that navigates to it |
| Page.NavTargetExact | app/page.tsx:45-53 | navigation never selects the splash, and a name selects a view exactly when it is that view's name |
| Page.Redirected | app/page.tsx:24-29 | the view changes exactly when loading is over, a user is present and the view is login or register; it then becomes the dashboard |
| Page.RedirectStable | app/page.tsx:24-29 | the redirect is idempotent, and with no user no view is sent back to login |
| Page.ViewController.constructor | app/page.tsx:15 | the first view is the splash |
| Page.ViewController.SplashFinish | app/page.tsx:33-39 | the splash leads to the dashboard with a user, to login without |
| Page.ViewController.HandleLogin | app/page.tsx:41-43 | the handler shared by login and registration shows the dashboard |
| Page.ViewController.Navigate | app/page.tsx:45-53 | the seven known names select their views; an unknown name leaves the view |
| Page.ViewController.Redirect | app/page.tsx:22-31 | the effect moves the view as `Redirected` says, from the store's loading flag and user |
| Page.ViewController.Mount | app/page.tsx:18-31 | the session check runs, then the redirect applies with loading over |
| AddApplication.NewRecord | app/components/AddApplication.tsx:45-59 | the row has status 'Applied' and the user's id, and every form field in its column, the notes in `improvement_notes` |
| AddApplication.SaveError | app/components/AddApplication.tsx:66 | the shown error is the backend's message, or 'Failed to save application' when it has none |
| AddApplication.Stored | app/components/AddApplication.tsx:45-59 | the stored row keeps every inserted column (owner, company, role, location, source, date, resume, notes, status), with the id and creation time the backend assigns and no follow-up date |
| AddApplication.SubmittedRowListed | app/components/AddApplication.tsx:58 | a saved row, listed back, has the form's company, title, location, source, date, resume and notes, status 'Applied' and its user's id, and is listed exactly under the 'All', 'Active' and 'Applied' filters |
| AddApplication.AddApplicationForm.constructor | app/components/AddApplication.tsx:12-23 | source 'LinkedIn', date today, no resume, other fields empty, no error, not loading |
| AddApplication.AddApplicationForm.FetchResumes | app/components/AddApplication.tsx:25-36 | without a user or data nothing changes; otherwise the list is stored and the first resume preselected when there is one |
| AddApplication.AddApplicationForm.Submit | app/components/AddApplication.tsx:38-70 | nothing is inserted without a user; the insert is `NewRecord` of the form; success navigates to the applications list; an error shows `SaveError` and stays; loading ends off |
| RegisterScreen.OutcomeOf | app/components/RegisterScreen.tsx:23-55 | a password mismatch comes first; then an error fails with its message, or 'Failed to sign up' when it has none; only a user without a session asks for email confirmation; everything else signs in |
| RegisterScreen.NoUserSignsIn | app/components/RegisterScreen.tsx:43-50 | a reply with no user, or with a session, signs in |
| RegisterScreen.RegisterForm.constructor | app/components/RegisterScreen.tsx:8-14 | empty fields, no error or message, not loading |
| RegisterScreen.RegisterForm.HandleRegister | app/components/RegisterScreen.tsx:17-56 | no request on a mismatch; the request carries the full name and the fixed redirect URL; error and message follow `OutcomeOf`; only signing in checks the session and shows the dashboard; loading ends off |

## Left out

- The backend client and its query builder (app/lib/supabase.ts): queries, inserts, auth calls and signed URLs are replies passed in as parameters.
- Rendering: JSX, styles, the `%` suffix and the string form of percentages (the model keeps the numbers that `toFixed` prints), `StatusBadge` colours and `ResumeItem`.
- IEEE floating point in `toFixed` and `parseFloat`; rates are exact rationals rounded half up.
- `Date` parsing and the clock: `today` is the date string and `now` an abstract instant, both parameters; a follow-up date is an abstract instant, None when the column is empty.
- Concurrency: `Resumes.ResumesView.FetchResumes` runs the `Promise.all` fan-out as a sequential, order-preserving loop; stale replies arriving after a newer fetch are not modelled.
- The state between `setLoading(true)` and the await is not observable in the model; each method takes the replies whole.
- Side effects: `window.open` (the opened URL is returned instead), `alert`, `console.*`, and `document.documentElement.setAttribute` in `setTheme`.
- Form field setters and the modal's open and close buttons: plain assignments to the fields modelled.
- The `useEffect` dependencies that re-run fetches when `user` or `filter` change: callers invoke the fetch methods. The redirect effect also depends on `view`, so after every view change (`Navigate`, `SplashFinish`, `HandleLogin`) the caller runs `Page.ViewController.Redirect`; `Navigate` to 'Login' or 'Register' with a user present and loading over therefore ends on the dashboard only after that call.
- Dashboard.DashboardView.FetchData, Resumes.ResumesView.FetchResumes and Applications.ApplicationsView.FetchApplications: the backend client resolves with an error rather than rejecting, so an await that rejects outside any `try` (which would skip the final `setLoading(false)` and leave loading on) is not modelled; their `!loading` holds only for replies that resolve.
- AddApplication.AddApplicationForm.Submit: the browser's `required` check on the company and job-title inputs, which keeps `handleSubmit` from running while either is empty, is not modelled; `Submit` inserts a row for any fields.
- app/components/LoginScreen.tsx, app/components/Settings.tsx, app/components/Sidebar.tsx and app/components/SplashScreen.tsx are not part of this model; Sidebar's display name is the same expression as `Dashboard.DisplayName`.
- AddApplication.Stored: assumes the backend stores an inserted row unchanged, with an empty follow-up date.
