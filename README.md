# Task manager front end — a Dafny model

This project models the client-side logic of a single-page task manager. A signed-in user keeps a list of
tasks: a title, an optional description, an optional due date and a status of `pending` or `completed`.
The user filters the list by status, creates, edits, deletes and toggles tasks, and sees each card
coloured and labelled by how close its due date is. An administrator sees every user and every task,
with statistics and a combined search. The application also offers a registration screen with a
password-strength meter, a light/dark/system theme preference, and route guards that keep signed-out
visitors and non-administrators away from the protected pages.

One Dafny module per component:

- `Common` holds the records, `Option`/`Result`, a generic order-preserving `Filter` with its lemmas,
  ASCII lower-casing, the substring test, percentage rounding and calendar-day arithmetic.
- `Dashboard` is a class over the task collection with one method per handler. Its invariant says that
  the rendered list is always the active filter applied to the collection.
- `TaskList` holds the pure functions that classify a card by its due date.
- `FilterTabs` holds the tab descriptors and the completion-rate tile.
- `TaskForm` holds the form's validation rules, and a class whose methods are the form's handlers.
- `Register` holds the strength meter, the local validation order and the submit handler.
- `ThemeContext` is a class for the theme provider. Its invariant says that the resolved theme follows the
  preference and that the preference is persisted.
- `ThemeToggle` models the toggle button and the drop-down.
- `AdminPanel` holds the statistics, the filters, and a class for the bulk fetch.
- `App` holds the route table and the two guards.

Server replies are inputs of type `Result`: `Ok(data)` for a response, `Err(message)` for a failed
request. The current instant, the local UTC offset and the platform's dark-mode signal are also inputs.

## Model

| member | source | states |
|---|---|---|
| Common.Filter | src/components/Admin/AdminPanel.jsx:51-52 | `Array.prototype.filter` never returns more elements than it was given |
| Common.FilterMembers | src/components/Admin/AdminPanel.jsx:70-75 | an element is in a filter's result exactly when it is in the input and passes the test |
| Common.FilterIsSubsequence | src/components/Admin/AdminPanel.jsx:70-75 | a filter keeps the input's order: its result is a subsequence of the input |
| Common.FilterMultiset | src/components/Dashboard/Dashboard.jsx:73 | a filter keeps every passing element with its multiplicity and drops nothing else |
| Common.FilterAllPass | src/components/Dashboard/Dashboard.jsx:73 | when every element passes, the filter returns the input unchanged |
| Common.FilterNonePass | src/components/Dashboard/Dashboard.jsx:40 | when no element passes, the filter returns the empty list |
| Common.FilterIdempotent | src/components/Dashboard/Dashboard.jsx:37-45 | filtering a filtered list by the same test changes nothing |
| Common.FilterSamePredicate | src/components/Admin/AdminPanel.jsx:70-75 | two tests that agree on every element select the same list |
| Common.FilterDisjointCount | src/components/Admin/AdminPanel.jsx:51-52 | two tests that never both hold select at most as many elements as the input has, together |
| Common.FilterWeakerCount | src/components/Admin/AdminPanel.jsx:55-58 | a test implied by another selects at least as many elements |
| Common.Lower | src/components/Admin/AdminPanel.jsx:71 | `toLowerCase` keeps the length and maps each upper-case ASCII letter to the lower-case letter at the same place in the alphabet, other characters unchanged |
| Common.LowerIdempotent | src/components/Admin/AdminPanel.jsx:71-72 | lower-casing twice is lower-casing once |
| Common.Includes | src/components/Admin/AdminPanel.jsx:71-72 | `String.prototype.includes`, characterised by `Common.IncludesIff` and `Common.IncludesEmpty` |
| Common.IncludesIff | src/components/Admin/AdminPanel.jsx:71 | `includes(term)` holds exactly when `term` occurs at some position of the string |
| Common.IncludesEmpty | src/components/Admin/AdminPanel.jsx:71-72 | every string includes the empty search term |
| Common.RoundPercent | src/components/Admin/AdminPanel.jsx:53 | `Math.round(c / t * 100)`, characterised by `Common.RoundPercentNearest` and `Common.RoundPercentBounds` |
| Common.RoundPercentNearest | src/components/Admin/AdminPanel.jsx:53 | `Math.round(c/t*100)` is within half a unit of 100c/t, with halves rounded up |
| Common.RoundPercentBounds | src/components/Admin/AdminPanel.jsx:53 | a rounded share of c out of t, with c ≤ t, lies in 0..100; it is 0 for none and 100 for all |
| Common.CeilDiv | src/components/Dashboard/TaskList.jsx:54 | `Math.ceil(x/d)` is the unique q with (q−1)·d < x ≤ q·d |
| Common.CalendarDay | src/components/Dashboard/TaskList.jsx:46 | the local calendar day that `toDateString` names, characterised by `Common.CalendarDaySpan` and `Common.CalendarDayMonotone` |
| Common.CalendarDayMonotone | src/components/Dashboard/TaskList.jsx:46 | a later instant never falls on an earlier local calendar day |
| Common.CalendarDaySpan | src/components/Dashboard/TaskList.jsx:46 | each instant lies within the local span of its own calendar day |
| FilterTabs.Tabs | src/components/Dashboard/FilterTabs.jsx:4-26 | three tabs, in the order all, pending, completed, each showing its own count, with distinct keys |
| FilterTabs.ClickTab | src/components/Dashboard/FilterTabs.jsx:34-39 | clicking a tab makes that tab active and no other |
| FilterTabs.ActiveTabUnique | src/components/Dashboard/FilterTabs.jsx:34 | a known filter key highlights exactly one tab; an unknown key highlights none |
| FilterTabs.CompletionRate | src/components/Dashboard/FilterTabs.jsx:73 | the tile shows 0 with no tasks, otherwise the nearest percentage of completed to all, within 0..100 |
| Dashboard.FilterTasks | src/components/Dashboard/Dashboard.jsx:37-45 | 'completed' and 'pending' keep exactly the tasks of that status, in order; any other key shows every task |
| Dashboard.FilterTasksKeepsCopies | src/components/Dashboard/Dashboard.jsx:39-43 | a status filter keeps every copy of each task of that status, duplicates included, and no other task |
| Dashboard.FilterTasksIdempotent | src/components/Dashboard/Dashboard.jsx:22-24 | filtering an already filtered list by the same key changes nothing |
| Dashboard.ReplaceById | src/components/Dashboard/Dashboard.jsx:60-62 | the result has the same length; each task with the id becomes the reply, every other task stays |
| Dashboard.ReplaceAbsentId | src/components/Dashboard/Dashboard.jsx:86-88 | a reply whose id matches no task leaves the list unchanged |
| Dashboard.ReplaceKeepingId | src/components/Dashboard/Dashboard.jsx:60-62 | a replacement that keeps the id is idempotent, and it puts the reply in the list when the id was present |
| Dashboard.RemoveById | src/components/Dashboard/Dashboard.jsx:73 | deletion keeps every copy of each task with another id, in order, and removes every task with the id; an absent id changes nothing |
| Dashboard.RemoveAfterReplace | src/components/Dashboard/Dashboard.jsx:70-92 | deleting a task after replacing it with the same id gives the same list as deleting it directly |
| Dashboard.Flip | src/components/Dashboard/Dashboard.jsx:80 | the requested status is pending or completed, and it differs from a pending or completed current status |
| Dashboard.FlipTwice | src/components/Dashboard/Dashboard.jsx:80 | toggling twice restores pending or completed; any other status ends up pending |
| Dashboard.TogglePayload | src/components/Dashboard/Dashboard.jsx:82-85 | the request body is the task with only its status flipped |
| Dashboard.CountTasks | src/components/Dashboard/Dashboard.jsx:127-131 | all is the list length; pending and completed equal the lengths of the two filtered views; together they never exceed all and equal it when every status is known |
| Dashboard.DashboardState.constructor | src/components/Dashboard/Dashboard.jsx:10-15 | starts empty on the 'all' filter, with the form closed and loading shown |
| Dashboard.DashboardState.Refilter | src/components/Dashboard/Dashboard.jsx:22-24 | re-establishes the rendered list as the active filter applied to the collection |
| Dashboard.DashboardState.FetchTasks | src/components/Dashboard/Dashboard.jsx:26-35 | a reply replaces the collection; an error keeps it; loading ends either way |
| Dashboard.DashboardState.SetFilter | src/components/Dashboard/Dashboard.jsx:126 | a tab click changes only the filter and the rendered view, never the collection |
| Dashboard.DashboardState.CreateTask | src/components/Dashboard/Dashboard.jsx:47-55 | on success the server's record is prepended and the form closes; on error nothing changes |
| Dashboard.DashboardState.UpdateTask | src/components/Dashboard/Dashboard.jsx:57-68 | on success every task with the edited id becomes the reply and editing ends; on error, or with no task being edited, nothing changes |
| Dashboard.DashboardState.DeleteTask | src/components/Dashboard/Dashboard.jsx:70-77 | on success every task with that id is removed; on error nothing changes |
| Dashboard.DashboardState.ToggleStatus | src/components/Dashboard/Dashboard.jsx:79-92 | sends the flipped payload, and on success puts the server's record in place of the task |
| Dashboard.DashboardState.SubmitForm | src/components/Dashboard/Dashboard.jsx:144 | the form submits an update while a task is being edited and a create otherwise; after a create nothing is being edited; the filter and the loading flag never change |
| Dashboard.DashboardState.EditTask | src/components/Dashboard/Dashboard.jsx:94-97 | opens the form on the given task; the collection is untouched |
| Dashboard.DashboardState.OpenForm | src/components/Dashboard/Dashboard.jsx:114 | the add button opens the form and changes nothing else |
| Dashboard.DashboardState.CloseForm | src/components/Dashboard/Dashboard.jsx:99-102 | closing the form also forgets the task being edited |
| TaskList.IsOverdue | src/components/Dashboard/TaskList.jsx:44-47 | `isOverdue`, characterised by `TaskList.OverdueIffEarlierDay` and `TaskList.OverdueAndDayCount` |
| TaskList.OverdueIffEarlierDay | src/components/Dashboard/TaskList.jsx:44-47 | a task is overdue exactly when its due date falls on an earlier local calendar day than today |
| TaskList.DaysUntilDue | src/components/Dashboard/TaskList.jsx:49-56 | no count without a due date; otherwise the ceiling of the remaining time in whole days |
| TaskList.OverdueAndDayCount | src/components/Dashboard/TaskList.jsx:44-56 | an overdue task has a day count of at most 0, and a negative count always means overdue |
| TaskList.OverdueWithZeroDays | src/components/Dashboard/TaskList.jsx:153-160 | a task due late yesterday, viewed early today, is overdue while its count is 0, so its label reads "(Today)" |
| TaskList.PriorityColor | src/components/Dashboard/TaskList.jsx:58-67 | `getPriorityColor`, characterised by `TaskList.PriorityColorBands` |
| TaskList.PriorityColorBands | src/components/Dashboard/TaskList.jsx:58-67 | completed is green and no due date is blue; otherwise red a day or more late, orange within a day, yellow within three days, blue beyond that; red implies overdue |
| TaskList.ShowsOverdueBadge | src/components/Dashboard/TaskList.jsx:85-90 | the overdue badge condition, characterised by `TaskList.PriorityIndicator`, `TaskList.OverdueNeverDaysLeft` and `TaskList.DueChipTint` |
| TaskList.PriorityIndicator | src/components/Dashboard/TaskList.jsx:91-97 | the dot is 'completed' exactly for completed tasks, and 'high' exactly when the overdue badge shows |
| TaskList.DueLabelOf | src/components/Dashboard/TaskList.jsx:153-162 | only open tasks with a due date get a label; "n days overdue", "Today" or "n days left" matches the sign of the day count |
| TaskList.OverdueNeverDaysLeft | src/components/Dashboard/TaskList.jsx:85-90 | a card showing the overdue badge never claims days left |
| TaskList.DueChipTint | src/components/Dashboard/TaskList.jsx:141-150 | the chip appears only with a due date; it is red exactly when the overdue badge shows and green exactly for completed tasks; any other task is orange with at most one day left, otherwise blue |
| TaskList.CardOf | src/components/Dashboard/TaskList.jsx:71-164 | a card carries the task's id; the badge shows exactly when the task is open and overdue, and the 'high' dot and the red chip go with it; the chip needs a due date, the label also an open task; a completed card is green with the 'completed' dot |
| TaskList.Render | src/components/Dashboard/TaskList.jsx:7-33 | an empty list renders the empty state; otherwise the card of each task, in list order |
| TaskForm.FormData.With | src/components/Dashboard/TaskForm.jsx:48-51 | a change sets the named field and leaves the others |
| TaskForm.BeforeFirst | src/components/Dashboard/TaskForm.jsx:18 | `split('T')[0]` is the longest prefix without 'T', followed in the input by a 'T' if it is shorter |
| TaskForm.Prefill | src/components/Dashboard/TaskForm.jsx:13-21 | editing copies the title, turns a missing description into "", and sets the due date to the part of its text before the first 'T' ("" without a due date) |
| TaskForm.Trim | src/components/Dashboard/TaskForm.jsx:26 | `trim()`, characterised by `TaskForm.TrimEmptyIff` |
| TaskForm.TrimEmptyIff | src/components/Dashboard/TaskForm.jsx:26 | `trim()` is empty exactly when every character is JavaScript white space |
| TaskForm.TitleError | src/components/Dashboard/TaskForm.jsx:26-30 | the title rule, characterised by `TaskForm.TitleRules` |
| TaskForm.TitleRules | src/components/Dashboard/TaskForm.jsx:26-30 | a blank title is 'required'; otherwise fewer than 3 characters is 'too short'; otherwise no error |
| TaskForm.StartOfToday | src/components/Dashboard/TaskForm.jsx:34-35 | the result is a local midnight on today's calendar day, at or before now and less than a day before it |
| TaskForm.DueDateInPastAsWritten | src/components/Dashboard/TaskForm.jsx:32-40 | the due-date comparison as the code evaluates it, characterised by `TaskForm.AsWrittenRejectsToday` and `TaskForm.DueDateInPastRules` |
| TaskForm.AsWrittenRejectsToday | src/components/Dashboard/TaskForm.jsx:32-40 | west of UTC, the check as written rejects today's own date |
| TaskForm.DueDateInPast | src/components/Dashboard/TaskForm.jsx:32-40 | the corrected due-date rule, characterised by `TaskForm.DueDateInPastRules` |
| TaskForm.DueDateInPastRules | src/components/Dashboard/TaskForm.jsx:32-40 | the corrected check rejects exactly the dates before today's local date, and agrees with the code at UTC and east of it |
| TaskForm.Errors | src/components/Dashboard/TaskForm.jsx:23-41 | the error map has a title entry exactly when the title rule fails, a due-date entry exactly for a past date, and nothing else |
| TaskForm.ValidIff | src/components/Dashboard/TaskForm.jsx:43 | the form is valid exactly when the title passes and the due date is empty or not in the past |
| TaskForm.TaskFormState.constructor | src/components/Dashboard/TaskForm.jsx:5-11 | starts with empty fields, no errors, not loading |
| TaskForm.TaskFormState.PrefillFrom | src/components/Dashboard/TaskForm.jsx:13-21 | an edited task prefills the form; without one the form is unchanged |
| TaskForm.TaskFormState.ValidateForm | src/components/Dashboard/TaskForm.jsx:23-44 | stores the rule-by-rule error map and reports valid exactly when it is empty |
| TaskForm.TaskFormState.HandleChange | src/components/Dashboard/TaskForm.jsx:46-60 | sets the field; blanks that field's error only if one is showing; other errors stay |
| TaskForm.TaskFormState.HandleSubmit | src/components/Dashboard/TaskForm.jsx:62-72 | the form data is submitted exactly when validation leaves no errors, and loading is off afterwards |
| Register.RegisterForm.With | src/components/Auth/Register.jsx:34-37 | a change sets the named field and leaves the others |
| Register.CriteriaMet | src/components/Auth/Register.jsx:23-30 | at most four criteria can be met |
| Register.CalculatePasswordStrength | src/components/Auth/Register.jsx:23-30 | the strength is 25 per criterion met, so one of 0, 25, 50, 75 or 100 |
| Register.CriteriaMonotone | src/components/Auth/Register.jsx:23-30 | typing one more character never lowers the strength |
| Register.StrengthText | src/components/Auth/Register.jsx:81-86 | `getPasswordStrengthText`, characterised by `Register.StrengthBands` |
| Register.StrengthColor | src/components/Auth/Register.jsx:74-79 | `getPasswordStrengthColor`, characterised by `Register.StrengthBands` |
| Register.StrengthBands | src/components/Auth/Register.jsx:74-86 | text and colour use the same thresholds; no criterion is Weak, one Fair, two Good, three or four Strong |
| Register.LocalError | src/components/Auth/Register.jsx:51-61 | a mismatch is reported first; otherwise a password shorter than 6 characters; otherwise no local error |
| Register.RegisterState.constructor | src/components/Auth/Register.jsx:8-18 | starts with empty fields, no error, strength 0 |
| Register.RegisterState.HandleChange | src/components/Auth/Register.jsx:32-44 | sets the field, recomputes strength only for the password field, and always clears the error |
| Register.RegisterState.HandleSubmit | src/components/Auth/Register.jsx:46-72 | `register` is called exactly when the local check passes; it navigates only on success; the error is the local message or the server's |
| ThemeContext.IndexOf | src/context/ThemeContext.jsx:60 | `indexOf` is the first index holding the value, or −1 exactly when it is absent |
| ThemeContext.InitialTheme | src/context/ThemeContext.jsx:14-17 | a non-empty saved value is used; a missing or empty one gives 'system' |
| ThemeContext.Resolve | src/context/ThemeContext.jsx:22-29 | 'system' resolves to dark exactly when the platform prefers dark; any other preference is used as it is |
| ThemeContext.NextTheme | src/context/ThemeContext.jsx:58-63 | the toggle always lands on one of the three themes; an unknown value goes to 'light' |
| ThemeContext.NextThemeCycle | src/context/ThemeContext.jsx:58-63 | the cycle is light, dark, system; three toggles from a known theme return to it, and one toggle always changes it |
| ThemeContext.ThemeState.constructor | src/context/ThemeContext.jsx:13-44 | mounting reads the saved preference, then resolves and persists it |
| ThemeContext.ThemeState.ApplyTheme | src/context/ThemeContext.jsx:43-44 | the effect re-resolves the theme and persists the preference |
| ThemeContext.ThemeState.ToggleTheme | src/context/ThemeContext.jsx:58-63 | the preference advances one step in the cycle, and the theme in force follows it |
| ThemeContext.ThemeState.SetTheme | src/context/ThemeContext.jsx:65-67 | the preference becomes the given value, and the theme in force follows it |
| ThemeContext.ThemeState.PlatformChanged | src/context/ThemeContext.jsx:46-52 | a platform change re-resolves only a 'system' preference; the stored preference never changes |
| ThemeContext.ThemeState.IsDark | src/context/ThemeContext.jsx:74 | dark exactly when the preference is dark, or is system on a platform preferring dark |
| ThemeToggle.FindIndex | src/components/ui/ThemeToggle.jsx:67 | `findIndex` is the first entry with the key, or −1 exactly when no entry has it |
| ThemeToggle.OptionsMatchThemes | src/components/ui/ThemeToggle.jsx:9-13 | the entries list the theme cycle in the same order, each caption lowering to its key |
| ThemeToggle.FindIndexIsIndexOf | src/components/ui/ThemeToggle.jsx:67 | the toggle's lookup finds the same position as the provider's |
| ThemeToggle.CurrentOption | src/components/ui/ThemeToggle.jsx:15 | an entry is found exactly for the three known themes, and it has the theme's key |
| ThemeToggle.CurrentIcon | src/components/ui/ThemeToggle.jsx:16 | sun for light and for unknown themes, moon for dark, monitor for system |
| ThemeToggle.SwitchTarget | src/components/ui/ThemeToggle.jsx:67 | the tooltip's target theme, characterised by `ThemeToggle.SwitchTargetIsNextTheme` |
| ThemeToggle.SwitchTargetIsNextTheme | src/components/ui/ThemeToggle.jsx:67 | the "Switch to … theme" tooltip names exactly the theme the toggle switches to, unknown themes included |
| ThemeToggle.ActiveFlags | src/components/ui/ThemeToggle.jsx:36 | an entry is highlighted exactly when its key is the current theme |
| ThemeToggle.OneActiveEntry | src/components/ui/ThemeToggle.jsx:34-36 | a known theme highlights exactly one entry; an unknown one highlights none |
| ThemeToggle.ThemeMenu.constructor | src/components/ui/ThemeToggle.jsx:7 | the drop-down starts closed |
| ThemeToggle.ThemeMenu.ToggleDropdown | src/components/ui/ThemeToggle.jsx:22 | the button flips the drop-down open or closed |
| ThemeToggle.ThemeMenu.Choose | src/components/ui/ThemeToggle.jsx:41-44 | choosing an entry sets its theme, keeps the provider's invariant, highlights that entry and closes the drop-down |
| AdminPanel.GetStats | src/components/Admin/AdminPanel.jsx:49-68 | the totals are the list lengths; the completed, pending and overdue counts are the lengths of the three status and date filters of the task list; completed plus pending and overdue plus completed never exceed the total; the rate is the rounded share of completed tasks, within 0..100, and 0 with no tasks |
| AdminPanel.OverdueCountsExactly | src/components/Admin/AdminPanel.jsx:55-58 | the tile's `overdueTasks` counts every copy of each open task with a due date strictly before now, and nothing else; with no such task it is 0 |
| AdminPanel.OverdueGrowsWithTime | src/components/Admin/AdminPanel.jsx:55-58 | for the same list, the overdue count at a later instant is never smaller |
| AdminPanel.OverdueTileCoversBadge | src/components/Admin/AdminPanel.jsx:55-58 | every open task the list flags overdue is counted, but a task due earlier today is counted without being flagged |
| AdminPanel.PendingPercent | src/components/Admin/AdminPanel.jsx:441-444 | the pending bar is what the completion rate leaves of 100 |
| AdminPanel.RecentActivity | src/components/Admin/AdminPanel.jsx:265 | the first five tasks, or all of them when there are fewer |
| AdminPanel.FilteredTasks | src/components/Admin/AdminPanel.jsx:70-75 | keeps every copy of each task whose title or owner contains the term, ignoring case, and whose status passes the filter, in order, and no other task |
| AdminPanel.FilteredTasksNoCriteria | src/components/Admin/AdminPanel.jsx:70-75 | an empty term with the 'all' filter lists every task |
| AdminPanel.FilteredTasksCaseInsensitive | src/components/Admin/AdminPanel.jsx:71-72 | searching for a term or for its lower-case form lists the same tasks |
| AdminPanel.FilteredUsers | src/components/Admin/AdminPanel.jsx:77-80 | keeps every copy of each user whose name or email contains the term, ignoring case, in order, and no other user |
| AdminPanel.FilteredUsersEmptyTerm | src/components/Admin/AdminPanel.jsx:77-80 | an empty term keeps every user |
| AdminPanel.AdminState.constructor | src/components/Admin/AdminPanel.jsx:12-17 | starts with no data, loading, an empty term and the 'all' filter |
| AdminPanel.AdminState.FetchData | src/components/Admin/AdminPanel.jsx:25-39 | both lists are replaced only when both requests succeed; loading ends either way |
| AdminPanel.AdminState.SetSearchTerm | src/components/Admin/AdminPanel.jsx:234 | the search box sets the term |
| AdminPanel.AdminState.SetFilterStatus | src/components/Admin/AdminPanel.jsx:243 | the drop-down sets the status filter |
| App.ProtectedRoute | src/App.jsx:42-50 | the spinner while loading; the page exactly for a signed-in user; otherwise a redirect to /login |
| App.AdminRoute | src/App.jsx:53-61 | the spinner while loading; the page exactly for a signed-in administrator; otherwise a redirect to /dashboard |
| App.StripTrailingSlashes | src/App.jsx:27-33 | the result is the path up to its trailing slashes and does not end in a slash |
| App.Canonical | src/App.jsx:27-33 | the compared form of a location is non-empty, lower-case, and ends in a slash only when it is the root; it is the root exactly when the location is empty or all slashes, and otherwise it is the lower-cased location with only slashes cut from its end, so any location not spelling a table path matches nothing |
| App.StripLowerSlashes | src/App.jsx:27-33 | the slashes cut from the end of the lower-cased location are slashes of the location itself, and nothing remains exactly when the location is all slashes |
| App.TablePathsCanonical | src/App.jsx:28-32 | the five route paths are their own compared form |
| App.Route | src/App.jsx:27-33 | each of the five paths renders its element, compared without regard to case or trailing slashes; the root redirects to /dashboard; any other location matches nothing |
| App.RouteIgnoresCaseAndTrailingSlash | src/App.jsx:27-33 | a location renders the same in any letter case and with or without a trailing slash |
| App.AdminGuardStricter | src/App.jsx:42-61 | whoever the admin guard admits, the dashboard guard admits too; the admin guard never redirects to /login |
| App.Settle | src/App.jsx:27-33 | every redirect in the table leads to /login or /dashboard |
| App.RedirectsSettle | src/App.jsx:27-61 | redirects never loop: two hops reach a page, the spinner or no match; signed-out visitors to the dashboard, the admin panel or the root end at the login page, non-administrators at the dashboard, whatever the case or trailing slashes of the location |

## Left out

- HTTP transport (axios) is left out. Each request is modelled only by its outcome, a `Result` input,
  and the request bodies of create and update are not modelled. The toggle's body is modelled as `TogglePayload`.
- The authentication store (`AuthContext`), the login screen and the header are not part of this model.
  The guards and the registration screen take the store's state or `register`'s answer as inputs.
- Browser storage, `matchMedia` and the document writes of the theme effect (the root class and the
  theme-colour meta tag) are left out. The stored preference is a field; the platform's dark-mode signal is an input.
- A null and an empty `due_date` are both represented as `None`, because every component tests the field
  for truthiness; a `Due` always has non-empty text.
- `App.Route`: locations are compared after ASCII lower-casing and removal of trailing slashes. The router's
  case folding of other letters, percent-decoding, dynamic segments and nested routes are not modelled.
- Date handling: parsing of date strings and `toLocaleDateString` formatting are left out. A due date is
  modelled as its server text and the instant it denotes; the due-date field's calendar day is an input.
  Time zones are a fixed UTC offset, with no daylight-saving changes.
- `Common.RoundPercentNearest`: `Math.round` over floating-point `c/t*100` is modelled on exact
  rationals. At an exact half, floating-point error can round the other way.
- `TaskForm.Prefill`: a task's title is always present (the server requires a non-empty title), so the
  `|| ''` fallback for a missing title is not modelled; the one for a missing description is.
- `Common.Lower`: `toLowerCase` is modelled for ASCII letters only. Characters outside ASCII are left as they are.
- String lengths are counted in characters, not UTF-16 code units.
- Each handler is one atomic step. Interleavings of concurrent asynchronous replies, and stale closures
  over the previous state, are not modelled.
- `TaskForm.TaskFormState.ValidateForm`, `TaskForm.Errors`, `TaskForm.ValidIff` and `TaskForm.TaskFormState.HandleSubmit`
  use the corrected due-date rule (see Findings), not the code's mixed UTC/local comparison. That comparison
  is modelled separately as `TaskForm.DueDateInPastAsWritten`.
- The date input's `min` attribute (the UTC date of today, TaskForm.jsx:74-77) and the browser's own
  constraint validation are left out. This includes the `required` attributes on the registration form's
  name, e-mail, password and confirmation inputs (Register.jsx:151,172,193,243) and on its terms checkbox
  (Register.jsx:269). In the browser an empty registration form is never submitted, but
  `Register.RegisterState.HandleSubmit` calls `register` whenever the passwords match and are at least
  six characters long, even with an empty name or e-mail.
- The registration form's terms checkbox, password visibility toggles, hover state, animations and every
  purely presentational class name are left out.
- The admin panel's tab switching (`activeTab`) and its navigation button only choose what to display,
  and are left out.

## Findings

| source | as written | input that shows it | evidently intended | confidence | as-written member | corrected member |
|---|---|---|---|---|---|---|
| src/components/Dashboard/TaskForm.jsx:32-40 | `new Date("YYYY-MM-DD")` is midnight UTC of that date, and it is compared with local midnight today | local offset −5 h (west of UTC); the user picks today's date; UTC midnight of today is 5 h before local midnight, so "Due date cannot be in the past" appears | reject only dates before today's local date | not executed | TaskForm.AsWrittenRejectsToday | TaskForm.DueDateInPastRules |
