# Car maintenance records: a Dafny model

This project models the logic of a small car-maintenance web application.
Drivers' service visits are stored as records: a driver, a car plate and
model, a date, a status, and the parts that were checked or replaced, each
with a cost. The application's pages are modelled as follows:

- **View Records** (`ViewRecords`) lists the records. A search box and four
  filters narrow the list. It is sorted by date, newest or oldest first, and
  shown five to a page. A record's details can be opened and closed, and a
  record can be deleted. Any change of search or filter returns to page 1.
- **Dashboard** (`Dashboard`) shows the number of records, the number of
  replaced parts, the total cost and the most serviced car. It also shows a
  breakdown of replaced parts by type (sorted by count), a six-month cost
  trend and the five most recent records.
- **Add Record** (`AddRecord`) is a form. Fields are checked as they are
  typed, parts are collected into a list, the form is checked as a whole, and
  then the record is built and sent.
- **Sidebar** (`Sidebar`) holds the menu, which can be reordered by drag and
  drop, and the user's name and initial.
- **Login** and **Register** (`Login`, `Register`) sign a user in against
  the demo accounts or create an account, and write the session entries.
- **Routes** (`App`) decide which page renders for a path, depending on
  whether the user is signed in.
- **Navbar** and **Edit Profile** (`Navbar`, `EditProfile`) show the user's
  name and email with their fallbacks, sign the user out, and load and save
  the profile.

Shared pieces:

- `Common`: an Option type and the JavaScript string operations the pages
  use (truthiness, `trim`, `toLowerCase`, `includes`, `split(sep)[0]`,
  `charAt(0).toUpperCase()`).
- `Records`: the record and part types, with dates and cost sums.
- `Sequences`: `filter`.
- `Sorting`: a stable sort by an integer key, and sorted sets of strings.
- `Session`: the browser's session store.

Costs are whole cents, so the cost filter's $100 and $500 limits are 10000
and 50000. A date is a year, a month (0 to 11, as JavaScript numbers months)
and a day.

Where the pages use mutable state, the model uses classes: the View Records
page, the Add Record form, the sidebar, the login, register and profile
forms, and the navbar. Their methods change exactly the fields the
handlers set. Each method's `ensures` ties the new state to a function, and
the properties are proved as lemmas about those functions. Tallying the
service counts and the part breakdown is a `forEach` loop that fills a
dictionary. It is modelled as a method with a loop (`Dashboard.Tally`),
proved against a count function.

Some behaviours follow the code exactly, even where they look accidental:

- The most serviced car is chosen by a `reduce` whose strict `>` hands a
  tie to the key that comes later in insertion order. The model does the
  same.
- The "visits" figure counts records by plate alone.
- A failed account-creation request reports
  "Failed to create account: Failed to create account: <status>". The
  thrown message already carries the prefix, and the handler adds it again.
- The submit button of Add Record is enabled by untrimmed fields. The
  submit check trims them. So a driver name of one space enables the
  button, but the form is then refused.
- Deleting a record does not move the current page. A page past the last
  one shows nothing.
- The cost trend labels its months by moving today's date back with
  `setMonth`, which keeps the day of the month. From the 29th to the 31st a
  month without that day runs over into the next one. On 31 October the
  labels are May, July, July, August, October, October.
- Routes match paths as the router does: a trailing slash is ignored and
  letters match in either case, so "/Login" shows the login page.
- String lengths are counted in UTF-16 code units, as JavaScript's
  `length` counts them: an emoji counts twice.

## Model

| member | source | states |
|---|---|---|
| ViewRecords.PlateNumbers | src/pages/viewrecords.tsx:66 | The plate list is strictly ascending, so it has no duplicates, and holds exactly the plates that occur in the records |
| ViewRecords.FilteredExactly | src/pages/viewrecords.tsx:69-89 | The filtered list is a subsequence of the records. A record is in it iff it passes the search, status, cost and plate tests. Each kept record occurs as often as in the input |
| ViewRecords.RefilterUnchanged | src/pages/viewrecords.tsx:69-89 | Filtering the filtered list again with the same settings changes nothing |
| ViewRecords.EmptySearchMatchesAll | src/pages/viewrecords.tsx:70-77 | An empty search term matches every record |
| ViewRecords.SearchIgnoresCase | src/pages/viewrecords.tsx:70-77 | A term and its lower-cased form match the same records |
| ViewRecords.SearchLexusExample | src/pages/viewrecords.tsx:70-73 | A record whose model is "Lexus" matches the search "lexus" |
| ViewRecords.CostBuckets | src/pages/viewrecords.tsx:81-84 | "low" is below $100, "medium" is $100 to $500 inclusive, "high" is above $500, and "all" keeps everything. Each record falls in exactly one of the three buckets |
| ViewRecords.StatusIsCaseSensitive | src/pages/viewrecords.tsx:79 | The status filter compares exactly, so "completed" does not match "Completed"; "all" matches any status |
| ViewRecords.SortRecords | src/pages/viewrecords.tsx:92-98 | The sorted list is a permutation of the filtered list. It is ordered by date, descending for "newest" and ascending for any other value. Records with the same sort key keep their filtered order |
| ViewRecords.SortRecordsKeepsDateOrder | src/pages/viewrecords.tsx:92-98 | In either order, the records of any one date keep their filtered order |
| Sorting.SortByIsStable | src/pages/viewrecords.tsx:92-98 | The sort is stable: for every key, the elements with that key come out in the order they went in |
| Records.TimestampOrdersDates | src/pages/viewrecords.tsx:94 | For valid dates the sort key orders dates by year, then month, then day |
| ViewRecords.PageIsSlice | src/pages/viewrecords.tsx:101-103 | Page p is the slice of positions (p-1)*5 up to p*5, cut at the list's end, and holds at most 5 records |
| ViewRecords.TotalPagesIsCeiling | src/pages/viewrecords.tsx:104 | The page count is the ceiling of n/5: zero exactly for an empty list, enough pages for every record, and no empty last page |
| ViewRecords.PagesArePrefix | src/pages/viewrecords.tsx:101-104 | Pages 1..k joined are the first min(5k, n) records |
| ViewRecords.PagesPartition | src/pages/viewrecords.tsx:101-104 | All pages joined give back the sorted list. Every page but the last is full, the last is non-empty, and pages past the last are empty |
| ViewRecords.PageStepsStayInRange | src/pages/viewrecords.tsx:478-503 | Previous and Next move by at most one page and stay within 1..totalPages |
| ViewRecords.DeleteRemovesExactly | src/pages/viewrecords.tsx:125 | After a delete no record has that id. Every other record keeps its number of occurrences and the order is kept |
| ViewRecords.PagePastLastIsEmpty | src/pages/viewrecords.tsx:101-104 | A current page beyond the last page shows no records |
| ViewRecords.ViewRecordsPage.constructor | src/pages/viewrecords.tsx:30-42 | The page starts loading, with no records, nothing expanded, empty search, filters "all", sort "newest", on page 1 |
| ViewRecords.ViewRecordsPage.Loaded | src/pages/viewrecords.tsx:49-63 | A successful fetch replaces the records, a failed one keeps them. Loading ends either way |
| ViewRecords.ViewRecordsPage.ApplySettings | src/pages/viewrecords.tsx:161-163 | The new settings are stored. The page returns to 1 exactly when a setting changed |
| ViewRecords.ViewRecordsPage.SetSearchTerm | src/pages/viewrecords.tsx:199 | Only the search term changes: records, open details and the loading flag are kept; page 1 if it differs from the old one |
| ViewRecords.ViewRecordsPage.SetPlateFilter | src/pages/viewrecords.tsx:210 | Only the plate filter changes: records, open details and the loading flag are kept; page 1 if it differs |
| ViewRecords.ViewRecordsPage.SetStatusFilter | src/pages/viewrecords.tsx:224 | Only the status filter changes: records, open details and the loading flag are kept; page 1 if it differs |
| ViewRecords.ViewRecordsPage.SetCostFilter | src/pages/viewrecords.tsx:236 | Only the cost filter changes: records, open details and the loading flag are kept; page 1 if it differs |
| ViewRecords.ViewRecordsPage.SetDateFilter | src/pages/viewrecords.tsx:248 | Only the date order changes: records, open details and the loading flag are kept; page 1 if it differs |
| ViewRecords.ViewRecordsPage.ClearAll | src/pages/viewrecords.tsx:262-268 | Search cleared, filters back to "all" and sort back to "newest"; page 1 if anything changed. Records, open details and the loading flag are kept |
| ViewRecords.ViewRecordsPage.ClearFilters | src/pages/viewrecords.tsx:530-535 | Search cleared and filters back to "all". The date order, records, open details and the loading flag are kept; page 1 if anything changed |
| ViewRecords.ViewRecordsPage.Previous | src/pages/viewrecords.tsx:475-478 | With more than one page, steps back one page but not below 1; otherwise nothing changes |
| ViewRecords.ViewRecordsPage.Next | src/pages/viewrecords.tsx:502-503 | With more than one page and not on the last, steps forward one page; otherwise nothing changes |
| ViewRecords.ViewRecordsPage.GoToPage | src/pages/viewrecords.tsx:486-489 | A numbered button exists only for pages 1..totalPages when there is more than one page, and selects that page |
| ViewRecords.ViewRecordsPage.ToggleDetails | src/pages/viewrecords.tsx:106-108 | Opens the record, or closes it when it is the one open |
| ViewRecords.ViewRecordsPage.HandleDelete | src/pages/viewrecords.tsx:110-145 | Unconfirmed: nothing changes. Success: the record is removed and its open details closed. The loading flag is kept in both cases. Failure: the list is fetched again and loading ends (the `finally` of `fetchRecords`). Filters and page are untouched |
| Dashboard.Tally | src/pages/dashboard.tsx:68-72 | The loop builds the keys in first-occurrence order and, for each key, its number of occurrences; the keys are exactly the values seen, each counted at least once |
| Dashboard.FirstOccurrenceOrderKeys | src/pages/dashboard.tsx:68-72 | The dictionary's key order lists each key once |
| Dashboard.CountMapKeys | src/pages/dashboard.tsx:68-72 | A value is a key iff it occurs, and every count is positive |
| Dashboard.CountsSumToLength | src/pages/dashboard.tsx:68-72 | The counts add up to the number of values tallied |
| Dashboard.ServiceCountsSumToRecords | src/pages/dashboard.tsx:68-72 | The per-car service counts add up to the number of records |
| Dashboard.MostServiced | src/pages/dashboard.tsx:74-76 | With no keys the result is "No data"; otherwise it is one of the keys |
| Dashboard.MostServicedIsLastMaximum | src/pages/dashboard.tsx:74-76 | The reduce returns a key with the largest count such that every later key has a strictly smaller count: ties go to the later key |
| Dashboard.NoDataIsNotAKey | src/pages/dashboard.tsx:70-75 | No "plate - model" key equals "No data", so the initial value never wins over a real key |
| Dashboard.MostServicedCarIsMaximal | src/pages/dashboard.tsx:74-82 | For a non-empty list, the winning key has the largest service count and every later key a smaller one. It is some record's key, and the stored car is that record's plate when the plate has no '-' |
| Dashboard.PartsReplacedAtMostTotal | src/pages/dashboard.tsx:62-64 | The replaced-parts figure never exceeds the total number of parts |
| Dashboard.CalculateStats | src/pages/dashboard.tsx:59-84 | The statistics are the record count, the replaced-part count, the cost sum and the most serviced car's plate, with the service counts filled by a loop |
| Dashboard.EmptyDashboard | src/pages/dashboard.tsx:59-84 | With no records every figure is 0 and the car is "No data" |
| Dashboard.VisitsCoverKeyCount | src/pages/dashboard.tsx:202-203 | When no plate contains '-', counting visits by plate gives at least the service count of any key with that plate |
| Dashboard.ReplacedTypesCount | src/pages/dashboard.tsx:87-99 | The breakdown tallies exactly as many parts as the replaced-parts figure |
| Dashboard.ReplacedTypesMembers | src/pages/dashboard.tsx:87-99 | A part type is tallied iff some record has a replaced part of that type |
| Dashboard.PartsBreakdown | src/pages/dashboard.tsx:87-99 | The replaced parts of all records, flattened in record order, are tallied by the `Tally` loop. The result is their types in order of first appearance, each with its number of replaced parts |
| Dashboard.BreakdownProperties | src/pages/dashboard.tsx:87-99 | The breakdown's keys are exactly the types of replaced parts, each counted at least once, and the counts add up to the replaced-parts figure |
| Dashboard.SortedBreakdown | src/pages/dashboard.tsx:225-226 | The displayed breakdown is a permutation of the type entries, in non-increasing count order. Entries with equal counts keep their order of first appearance |
| Dashboard.TrendMonths | src/pages/dashboard.tsx:105-109 | Six labels, oldest first, ending with today's month. The label for i months back is that month exactly when today's day exists in it, and otherwise the month after it |
| Dashboard.TrendMonthsEarlyInMonth | src/pages/dashboard.tsx:105-109 | Up to the 28th, the labels are six distinct consecutive months, wrapping past December |
| Dashboard.TrendMonthsAtMonthEnd | src/pages/dashboard.tsx:105-109 | On 31 October the labels are May, July, July, August, October, October |
| Records.DaysInMonth | src/pages/dashboard.tsx:107 | Every month has 28 to 31 days. Only February has fewer than 30, and exactly the seven long months have 31 |
| Dashboard.CostTrend | src/pages/dashboard.tsx:104-119 | Six points, one per label of the trend, oldest first. Each point's cost is the sum over the records dated in its month |
| Dashboard.MonthsPartitionCost | src/pages/dashboard.tsx:111-116 | For valid dates the twelve month costs add up to the total cost: each record falls in one month |
| Records.SumCostAppend | src/pages/dashboard.tsx:66 | The cost sum of two lists joined is the sum of their sums |
| Dashboard.RecentIsFirstFive | src/pages/dashboard.tsx:313 | The recent list is the first five records as fetched, or all of them when fewer |
| AddRecord.SetField | src/pages/addrecord.tsx:70-77 | The named field takes the value; every other field, the cost included, is unchanged |
| AddRecord.ValidateField | src/pages/addrecord.tsx:36-57 | Only the edited field's error can change. The driver name errs iff its trimmed length in UTF-16 code units is below 2, with a message for blank and one for too short. Plate and model err iff blank. The part type errs iff empty. Other fields leave the errors as they were |
| AddRecord.ValidateCost | src/pages/addrecord.tsx:58-62 | Only the cost error can change. It is set iff the amount is negative; a blank cost is no error |
| AddRecord.ResetPart | src/pages/addrecord.tsx:103-114 | After adding a part the part fields return to their opening values; driver, plate and model stay |
| AddRecord.RemoveAt | src/pages/addrecord.tsx:124-126 | Index i is removed and the rest keep their order; an index outside the list changes nothing |
| AddRecord.TotalCostAppend | src/pages/addrecord.tsx:128-133 | Adding a part adds its cost to the total (a blank cost counts 0) |
| AddRecord.TotalCostRemove | src/pages/addrecord.tsx:124-133 | Removing a part takes exactly its cost off the total |
| AddRecord.FormErrors | src/pages/addrecord.tsx:135-146 | The whole-form check has a driver, plate and model error iff that field is blank after trimming, a parts error iff there are no parts, and no other error |
| AddRecord.FormErrorsEmpty | src/pages/addrecord.tsx:135-146 | The form passes iff driver, plate and model are non-blank and there is at least one part |
| AddRecord.ValidFormEnablesSubmit | src/pages/addrecord.tsx:212-216 | A form that passes the check has its submit button enabled; a driver name of one space enables the button yet fails the check |
| AddRecord.PayloadConsistent | src/pages/addrecord.tsx:160-185 | The sent record's part count is its number of parts and its total is the sum of its part costs. Its status is "Completed" and its date is today. Driver, plate and model are sent as typed |
| AddRecord.TotalCostIsPartSum | src/pages/addrecord.tsx:162-174 | The form's running total equals the sum of the costs of the parts as sent |
| AddRecord.AddRecordForm.constructor | src/pages/addrecord.tsx:18-34 | The form starts with the opening values, no parts, no errors, not loading |
| AddRecord.AddRecordForm.HandleInputChange | src/pages/addrecord.tsx:70-81 | The field is set and only that field's error is revalidated |
| AddRecord.AddRecordForm.HandleCostChange | src/pages/addrecord.tsx:58-81 | The cost is set and only the cost error is revalidated |
| AddRecord.AddRecordForm.AddPart | src/pages/addrecord.tsx:83-122 | Without a part type only the "Please select a part type" error is set. Otherwise the draft is appended, the part fields are reset and the part-type error is cleared |
| AddRecord.AddRecordForm.RemovePart | src/pages/addrecord.tsx:124-126 | The part at the index is removed |
| AddRecord.AddRecordForm.ValidateForm | src/pages/addrecord.tsx:135-146 | The error map is replaced by the whole-form check, and the result says whether it is empty |
| AddRecord.AddRecordForm.HandleSubmit | src/pages/addrecord.tsx:148-209 | A form failing the check sends nothing. Otherwise the built record is sent. The form and parts are unchanged |
| Session.GetItem | src/App.tsx:13 | Reading a key gives its value iff the key is stored |
| Session.SetItem | src/pages/login.tsx:44-48 | Writing a key sets that key and leaves every other entry and the profile as they were |
| Session.RemoveItem | src/components/navbar.tsx:74-75 | Removing a key clears that key and leaves every other entry and the profile as they were |
| Session.SignIn | src/pages/login.tsx:44-47 | Signing in writes isAuthenticated = "true", userEmail, userName and userId, and nothing else |
| Sidebar.InitialMenu | src/components/sidebar.tsx:46-74 | Without a saved menu the entries are "/" Dashboard, "/add-record" Add Record, "/view-records" View Records, in that order; a saved menu is used as is |
| Sidebar.DefaultMenuPathsDistinct | src/components/sidebar.tsx:46-74 | The default entries have distinct paths |
| Sidebar.IndexOfPath | src/components/sidebar.tsx:209-210 | The index is that of the first entry with the path, or -1 when no entry has it |
| Sidebar.Clamp | src/components/sidebar.tsx:231 | The insertion index is clamped to 0..length, and an index already in range is kept |
| Sidebar.Without | src/components/sidebar.tsx:233 | Removing entry i shifts the later entries down by one and keeps the earlier ones |
| Sidebar.InsertAt | src/components/sidebar.tsx:234 | Inserting at i puts the entry at i, keeps the entries before, shifts the rest up, and appends when i is past the end |
| Sidebar.AdjustedIndexInRange | src/components/sidebar.tsx:217-231 | When two different entries are involved, the adjusted index already lies within the shortened list, so the clamp never changes it |
| Sidebar.DropWithoutMove | src/components/sidebar.tsx:204-215 | No drag in progress, a drop on the dragged entry itself, or a path not in the menu leaves the menu unchanged |
| Sidebar.DropMoves | src/components/sidebar.tsx:204-235 | Otherwise the first entries with the dragged and the drop paths are two different entries, and the dragged one is moved relative to the other |
| Sidebar.MovedIsPermutation | src/components/sidebar.tsx:233-235 | A move keeps the length and the same entries, each as often as before |
| Sidebar.MovedLandsAt | src/components/sidebar.tsx:217-235 | The moved entry ends at the adjusted index |
| Sidebar.DropBelowFollowsTarget | src/components/sidebar.tsx:217-220 | Dropped on the lower half, the entry ends immediately after the target |
| Sidebar.DropAbovePrecedesTarget | src/components/sidebar.tsx:221-224 | Dropped on the upper half, the entry ends immediately before the target |
| Sidebar.DropWithoutPositionTakesTargetIndex | src/components/sidebar.tsx:215-235 | With no position recorded, the entry takes the target's old index |
| Sidebar.MovedKeepsOthersInOrder | src/components/sidebar.tsx:233-235 | Removing the moved entry from the new menu gives the old menu without it, so the other entries keep their order |
| Sidebar.DropExample | src/components/sidebar.tsx:200-239 | Dragging View Records onto the upper half of Dashboard gives View Records, Dashboard, Add Record |
| Sidebar.EmailName | src/components/sidebar.tsx:39-42 | The fallback name is the stored email's text before "@", with no "@" in it, and "User" when no email is stored |
| Sidebar.ProfileName | src/components/sidebar.tsx:83-85 | A saved profile's non-empty name is shown; an empty one falls back to the email name |
| Sidebar.SidebarNameExample | src/components/sidebar.tsx:39-44 | With "tj@example.com" stored and no profile, the name is "tj" and the initial "T" |
| Sidebar.SidebarState.constructor | src/components/sidebar.tsx:26-74 | The sidebar starts with the saved or default menu, no drag state, and a name from the stored email alone |
| Sidebar.SidebarState.UserInitial | src/components/sidebar.tsx:44 | The initial is the name's first character, upper-cased |
| Sidebar.SidebarState.UpdateUserProfile | src/components/sidebar.tsx:77-90 | A saved profile is kept and its name, else the email name, is shown. Without one the profile is cleared and the email name shown. Unparseable text changes nothing |
| Sidebar.SidebarState.DragStart | src/components/sidebar.tsx:161-168 | The dragged path is recorded and the position cleared |
| Sidebar.SidebarState.DragOver | src/components/sidebar.tsx:170-189 | With no drag or over the dragged entry itself, target and position are cleared; otherwise they are recorded |
| Sidebar.SidebarState.DragLeave | src/components/sidebar.tsx:191-198 | Leaving the whole area clears target and position; moving between children keeps them |
| Sidebar.SidebarState.HandleDrop | src/components/sidebar.tsx:200-239 | The menu becomes the dropped menu, and every drop, completed or aborted, ends with no drag state |
| Sidebar.SidebarState.DragEnd | src/components/sidebar.tsx:241-243 | A drag end leaves no drag state |
| Sidebar.SidebarState.ResetDragState | src/components/sidebar.tsx:245-249 | Dragged path, target and position are all cleared |
| App.AuthenticatedIffTrue | src/App.tsx:12-14 | Signed in iff the stored flag is exactly "true"; "True" or a removed flag is not |
| App.Route | src/App.tsx:41-105 | A path renders its own page or redirects, and redirects only to /login or /dashboard |
| App.RouteByNormalForm | src/App.tsx:41-105 | A path is routed exactly as its normal form is: trailing slashes dropped and ASCII letters lower-cased, as the route matcher compares paths |
| App.RoutePathIdempotent | src/App.tsx:41-105 | Normalising a path twice gives the same result as normalising it once |
| App.RoutePathDropsSlash | src/App.tsx:41-105 | A trailing slash does not change the normal form |
| App.ProtectedPaths | src/App.tsx:17-19 | Paths whose normal form is /dashboard, /add-record, /view-records or /edit-profile render iff signed in, and otherwise redirect to /login |
| App.PublicPaths | src/App.tsx:22-24 | Paths whose normal form is /login or /register render iff signed out, and otherwise redirect to /dashboard |
| App.OtherPathsGoToDashboard | src/App.tsx:103-104 | "/" and every path whose normal form is not in the table redirect to /dashboard |
| App.LoginInAnyCase | src/App.tsx:43-50 | Signed out, "/Login" shows the login page |
| App.RegisterWithSlash | src/App.tsx:51-58 | Signed out, "/register/" shows the registration page |
| App.RootGoesToDashboard | src/App.tsx:103 | "/" redirects to /dashboard whether or not the user is signed in |
| App.RendersWithinTwoRedirects | src/App.tsx:103-104 | Any path shows a page within two redirects, the dashboard or the login page when the path itself does not render |
| Login.FindUser | src/pages/login.tsx:40-42 | No account is found iff none has both the email and the password exactly. A found account is the first such account |
| Login.Decide | src/pages/login.tsx:31-42 | Empty email or password is refused before any lookup. A sign-in is an account matching both fields. No match means both fields were filled and no account matches |
| Login.DemoAccounts | src/mockData.ts:1-14 | The two demo accounts sign in with their own passwords; a different letter case or another account's password does not |
| Login.SessionAfter | src/pages/login.tsx:44-56 | Only a sign-in writes the session; a refusal leaves it unchanged |
| Login.SignInWritesSession | src/pages/login.tsx:44-48 | After a sign-in the flag is "true" and email, name and id are the matched account's; otherwise the session is unchanged |
| Login.LoginForm.constructor | src/pages/login.tsx:15-18 | Empty fields, no message, not loading |
| Login.LoginForm.HandleSubmit | src/pages/login.tsx:26-60 | The message comes from this submit alone: empty fields, invalid credentials, or none on success. Only a success writes the session and goes to /dashboard. Loading ends |
| Register.WithField | src/pages/register.tsx:23-28 | The named field takes the value and the others stay |
| Register.FormError | src/pages/register.tsx:36-52 | The checks run in order. A missing name, email or password gives "Please fill in all fields". Otherwise differing passwords give "Passwords do not match". Otherwise a password under 6 UTF-16 code units gives the length message. The form passes iff none applies |
| Register.MismatchBeforeLength | src/pages/register.tsx:42-52 | A short password that also mismatches is reported as a mismatch |
| Register.AstralPasswordLongEnough | src/pages/register.tsx:48 | A password of three emoji is six code units long and passes the length check |
| Common.JsLength | src/pages/register.tsx:48 | A string's `length` is at least its number of characters and at most twice that. It equals the number of characters when no character lies outside the Basic Multilingual Plane |
| Register.NewUser | src/pages/register.tsx:75-80 | The new user has the form's name, email and password unchanged, with the drawn id |
| Register.Submit | src/pages/register.tsx:54-117 | An account is created only if the form passes, the user list loads, no user has the email, and the server accepts. When all of these hold, the result is the new user and the server's echo. A taken email, a failed user list, a rejected creation and an unreachable server each give their message |
| Register.SessionAfter | src/pages/register.tsx:104-107 | A refusal leaves the session. A creation signs in with the email, name and id the server returned |
| Register.EchoedUserSignsIn | src/pages/register.tsx:75-107 | When the server returns the user as sent, the session holds the form's email and name |
| Register.RegisterForm.constructor | src/pages/register.tsx:13-20 | Empty form, no message, not loading |
| Register.RegisterForm.HandleChange | src/pages/register.tsx:23-28 | Only the named field changes |
| Register.RegisterForm.HandleSubmit | src/pages/register.tsx:30-121 | The message and session follow the submit's outcome. A user is posted iff the checks pass and the email is free. Loading ends |
| Navbar.ProfileNameFallback | src/components/navbar.tsx:16-21 | With a saved profile, a name with a non-space character is shown. Otherwise the text before "@" of the profile's email, else the stored email, else "User" |
| Navbar.ProfileEmailFallback | src/components/navbar.tsx:23-27 | With a saved profile the email shown is the profile's, else the stored one, else "" |
| Navbar.NoProfileFallback | src/components/navbar.tsx:34-37 | Without a usable profile the email shown is the stored one when it is non-empty, and "User" (as name and email) when none or an empty one is stored; the name is the text before "@" |
| Navbar.Logout | src/components/navbar.tsx:73-77 | Exactly isAuthenticated and userEmail are removed; every other entry and the profile stay |
| Navbar.LogoutKeepsNameAndId | src/components/navbar.tsx:73-77 | After sign-out the user is no longer signed in, while the stored name and id remain |
| Navbar.NavbarState.constructor | src/components/navbar.tsx:6-9 | The bar starts closed, greeting "User" with no email |
| Navbar.NavbarState.AvatarLetter | src/components/navbar.tsx:150 | The avatar is the name's first character, upper-cased, and empty for an empty name |
| Navbar.NavbarState.UpdateUserData | src/components/navbar.tsx:11-38 | The bar's name and email become the ones derived from the store |
| Navbar.NavbarState.ToggleDropdown | src/components/navbar.tsx:79-81 | The account menu flips between open and closed |
| EditProfile.WithField | src/pages/editprofile.tsx:44-51 | The named field takes the value and the others stay |
| EditProfile.DefaultProfile | src/pages/editprofile.tsx:25-40 | Without a saved profile the email is the stored one or "" and the name its text before "@", or "User" when that is empty. Phone is "" and the company "Super Wheels Car Maintenance" |
| EditProfile.Loaded | src/pages/editprofile.tsx:24-42 | A saved profile is loaded field by field without its position; no profile gives the default; unparseable text leaves the page as it was |
| EditProfile.SaveTo | src/pages/editprofile.tsx:59-63 | Saving writes the profile without a position. It overwrites the stored email only with a non-empty one. Other entries stay |
| EditProfile.LoadAfterSave | src/pages/editprofile.tsx:24-63 | Loading after a save gives back the saved profile |
| EditProfile.LoadSaveLoad | src/pages/editprofile.tsx:28-33 | Loading, saving and loading again gives the same profile: an old position is dropped for good |
| EditProfile.DefaultProfileExamples | src/pages/editprofile.tsx:25-40 | With "tj@example.com" stored the page opens on "tj"; with nothing stored, on "User" with an empty email |
| EditProfile.SavedProfileShownInNavbar | src/pages/editprofile.tsx:59-63 | After a save the navbar greets the user by the saved name when it has a non-space character, and shows the saved email when non-empty |
| EditProfile.ProfileForm.constructor | src/pages/editprofile.tsx:14-21 | The page starts with an empty profile, not saved, not loading |
| EditProfile.ProfileForm.Load | src/pages/editprofile.tsx:24-42 | The mount-time load sets the profile as loaded from the store |
| EditProfile.ProfileForm.HandleInputChange | src/pages/editprofile.tsx:44-51 | Only the named field changes, and the saved notice is cleared |
| EditProfile.ProfileForm.HandleSubmit | src/pages/editprofile.tsx:53-73 | The store is saved as described, the saved notice is shown and loading ends |

## Left out

- Network requests (record list, record delete, user list, account creation and record creation) are inputs: the fetched list, or an outcome of success, error status or unreachable server. JSON parsing of responses is not modelled.
- `JSON.parse` and `JSON.stringify` of stored values: the store holds decoded values. A stored profile is either missing, unparseable or decoded. A decoded profile's missing fields read as "".
- Timers (the login and register delays, the saved-notice timeout, the one-second polling), window events (storage, profile updates, resize, scroll), navigation calls, scrolling to the first error, `alert`, `confirm` (an input) and all rendering.
- Dates are already-parsed year/month/day values. Date-string parsing, time zones, locale month names and `toISOString` are not modelled. "Today" and the current month are inputs. `setMonth` is modelled by its effect on the month (the day runs over into the next month when the target month lacks it); time of day and daylight saving are not modelled.
- Floating point: costs are whole cents. `parseFloat` of a malformed cost (NaN) and rounding are not modelled; an empty cost field is a blank input worth 0.
- Record ids are integers, and the drawn id of a new account is an input (`Math.random` is not modelled).
- Drag geometry: whether the cursor is in the upper or lower half of an entry is an input.
- Sidebar open/collapsed state, its persistence, and the menu's own persistence are not modelled. A saved menu is an input that is already decoded.
- Case mapping covers ASCII letters only. Sorting plates compares code points, while JavaScript compares UTF-16 code units; the two agree outside the astral planes.
- Navbar.NavbarState.AvatarLetter, Sidebar.SidebarState.UserInitial: for a name starting with a character outside the Basic Multilingual Plane, `charAt(0)` gives half of a surrogate pair, which a Dafny `char` cannot hold; the model gives the whole first character.
- App.Route: the router's percent-decoding of paths (so that "/log%69n" matches "/login") is not modelled; paths are taken as already decoded.
- JavaScript objects list integer-like keys first. The tallies keep plain insertion order, which matches for keys that are not integer-like ("plate - model" keys, part types).
- A stored profile that does not parse makes the profile page and the sidebar throw during loading. The model treats that load as a step that changes nothing.
- Login.LoginForm.HandleSubmit: the catch branch, reachable only if the lookup threw, is not modelled.
- Register.Submit: a user list or created user that is not valid JSON is not modelled.
