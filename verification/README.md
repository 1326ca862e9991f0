# Half-day planning engine — a Dafny model

This project models the planning core of a small construction-company scheduling application
written in Next.js/TypeScript. Workers ("collaborateurs") are booked on job sites
("chantiers") in half-day slots: 09:00–12:00 in the morning and 14:00–17:00 in the
afternoon. The following parts are modelled and proved:

- **Drop handling and deletion** of the planning container, including its optimistic updates
  and their rollbacks.
- **The month grid**: Monday-first whole weeks; per-day cells split into morning and afternoon;
  worker colours.
- **The compact day agenda**: filters, sort by start, day navigation, labels.
- **The sidebar's hour statistics** and its "Tout afficher" button.
- **The client picker's search**.
- **The route middleware** and its matcher.
- **The authentication callback**.
- **The password-reset form**.

Everything is pure: store calls (insert, update, delete, session lookups, code exchange) appear
as their answers, passed in as parameters. The generated UUID and "today" are parameters too.

Modules, one per file:

| module | what it holds |
|---|---|
| `Wrappers` | `Option` |
| `Sequences` | `Filter` and its laws |
| `Strings` | `startsWith`, `includes`, Latin-1 `toLowerCase`, UTF-16 length |
| `CivilCalendar` | proleptic Gregorian dates and day numbers (days since 1970-01-01); weekday as `getDay()` numbers it; next and previous day |
| `LocalTime` | local date-times on a fixed-offset clock; `getTime()` as an instant in milliseconds |
| `Records` | the stored entities |
| `Slots` | the half-day window of a drop; the AM/PM classification |
| `ToggleList` | the toggle used by every worker filter |
| `Palette` | the six-colour index |
| `PlanningContainer` | drag-end handling, deletion, grid visibility |
| `CalendarGrid` | the weeks of a month, day cells, slot entries |
| `MobilePlanning` | the day agenda |
| `PlanningSidebar` | hour statistics, "Tout afficher" |
| `ClientSelector` | the client picker |
| `Middleware` | the request middleware |
| `AuthCallback` | the code-exchange callback |
| `ResetPassword` | the reset page |

Behaviour of the code worth noting:

- **Moving onto the same slot.** The move no-op compares `getTime()` of the old and new start
  (`components/planning/PlanningContainer.tsx:150-151`). It is not a date-and-hour
  comparison. Since instants determine local timestamps, the two coincide on valid
  timestamps; `MoveNoOpIffSameSlotStart` proves this.
- **Unresolved workers.** Only the month grid skips an intervention whose worker is not in
  the list (`CalendarGrid.tsx:287-288`). The day agenda lists it regardless.
- **Deleting zero rows.** A delete that reports zero rows raises an alert and still removes
  the record locally (`PlanningContainer.tsx:198-209`).
- **The middleware matcher.** The matcher of `middleware.ts:61-70` restricts the middleware
  to the guarded bases and their sub-paths and to exactly `/login` and `/signup`. As a
  result, the wider `startsWith` tests never see `/planningfoo` or `/login/reset-password`.

## Model

| member | source | states |
|---|---|---|
| Sequences.Filter | components/planning/PlanningContainer.tsx:213-223 | `Array.prototype.filter`: every kept element is in the input and passes the test; every input element that passes is kept; the result is no longer than the input |
| ToggleList.Toggle | components/planning/PlanningContainer.tsx:56-60 | the toggled id's membership flips and no other id's membership changes |
| ToggleList.ToggleTwiceRestoresAbsent | components/planning/PlanningContainer.tsx:56-60 | toggling an absent id twice gives back the same list |
| ToggleList.TogglePreservesNoDup | components/planning/PlanningContainer.tsx:56-60 | toggling keeps a worker filter free of duplicates |
| ToggleList.ToggleEachPreservesNoDup | components/planning/PlanningContainer.tsx:56-60 | any sequence of toggles keeps the filter free of duplicates |
| ToggleList.ToggleAllClears | components/planning/PlanningSidebar.tsx:110-117 | toggling every id of a duplicate-free filter, one after another, empties it |
| CivilCalendar.DaysInMonth | components/planning/CalendarGrid.tsx:96 | the last day of a month is between 28 and 31, and below 30 exactly for February |
| CivilCalendar.NextDay | components/planning/CalendarGrid.tsx:63-66 | `setDate(getDate() + 1)` gives a valid date exactly one day number later, across month and year ends |
| CivilCalendar.PrevDay | components/planning/MobilePlanningView.tsx:52-56 | `setDate(getDate() - 1)` gives a valid date one day number earlier, whose next day is the original |
| CivilCalendar.Weekday | components/planning/CalendarGrid.tsx:42 | `getDay()` is a number from 0 (Sunday) to 6 (Saturday) |
| CivilCalendar.WeekdayOfNextDay | components/planning/CalendarGrid.tsx:63-66 | the next day falls on the next weekday, Saturday wrapping to Sunday |
| CivilCalendar.SubDays | components/planning/CalendarGrid.tsx:47 | `new Date(y, m, 1 - k)` is a valid date exactly k day numbers earlier |
| CivilCalendar.AddSubDays | components/planning/CalendarGrid.tsx:47-66 | walking forward k days from the date k days back returns to the start |
| CivilCalendar.AddDaysInMonth | components/planning/CalendarGrid.tsx:63-66 | walking k days forward from the first of a month, inside the month, lands on day k + 1 |
| CivilCalendar.DayNumberInjective | components/planning/CalendarGrid.tsx:97 | two valid dates with the same day number are the same date, so comparing dates by time value is comparing calendar dates |
| CivilCalendar.DayNumberMonotone | components/planning/CalendarGrid.tsx:97 | a date earlier in (year, month, day) order has a smaller day number |
| LocalTime.InstantInjective | components/planning/PlanningContainer.tsx:150-151 | two valid local timestamps with equal `getTime()` are equal |
| LocalTime.InstantFollowsDays | components/planning/CalendarGrid.tsx:97 | every instant of an earlier day precedes every instant of a later day |
| Slots.SlotWindow | components/planning/PlanningContainer.tsx:87-95 | a drop on (date, period) yields start and end on that same date |
| Slots.SlotWindowShape | components/planning/PlanningContainer.tsx:87-95 | the window is 09:00–12:00 (AM) or 14:00–17:00 (PM), on the hour, three hours long, and its start classifies back to the same period |
| Slots.PeriodOf | components/planning/CalendarGrid.tsx:211-212 | a timestamp is AM exactly when its local hour is below 12 |
| Slots.SlotStartInjective | components/planning/PlanningContainer.tsx:149-151 | two drops share a start instant exactly when they target the same date and period |
| PlanningContainer.PatchById | components/planning/PlanningContainer.tsx:160 | the list keeps its length and order; records carrying the id are replaced, all others unchanged |
| PlanningContainer.RemoveById | components/planning/PlanningContainer.tsx:207 | no record with the id remains |
| PlanningContainer.PlanDrop | components/planning/PlanningContainer.tsx:82-151 | no target or no date ignores the drop; the "select a job site" refusal happens exactly for a worker dropped on a dated slot without a job site; a create carries the fresh id, the job site and the worker; a move changes only the times of the dragged record, to a different start instant |
| PlanningContainer.ApplyOptimistic | components/planning/PlanningContainer.tsx:127-160 | a created record is appended after the unchanged list; a moved record is replaced where it stands and every other record is kept; other plans leave the list alone |
| PlanningContainer.HandleDragEnd | components/planning/PlanningContainer.tsx:76-187 | a drag end changes only the intervention list; if no store call is made, it changes nothing and requests no reload |
| PlanningContainer.HandleDelete | components/planning/PlanningContainer.tsx:189-210 | deleting never issues a further store call or a reload |
| PlanningContainer.DropWithoutTargetIgnored | components/planning/PlanningContainer.tsx:82-85 | a drop outside a slot, or on a slot without a date, does nothing |
| PlanningContainer.CreateNeedsChantier | components/planning/PlanningContainer.tsx:100-104 | dropping a worker with no job site selected only raises the "select a job site" alert |
| PlanningContainer.CreateAppendsOne | components/planning/PlanningContainer.tsx:114-136 | the optimistic list is the old one plus one record with the fresh id, the job site, the worker and the slot window; the insert sends the same fields |
| PlanningContainer.CreateRollbackRestores | components/planning/PlanningContainer.tsx:138-142 | a failed insert with a fresh id restores the exact previous list and raises the creation alert |
| PlanningContainer.CreateSuccessKeeps | components/planning/PlanningContainer.tsx:127-143 | a successful insert keeps the previous list as a prefix, followed by the new record |
| PlanningContainer.MoveNoOpIffSameInstant | components/planning/PlanningContainer.tsx:149-151 | a move does nothing at all exactly when the new start instant equals the old one |
| PlanningContainer.MoveNoOpIffSameSlotStart | components/planning/PlanningContainer.tsx:149-151 | equal start instants means the intervention already starts at that slot's start timestamp, and conversely |
| PlanningContainer.MovePatchesOnlyThatId | components/planning/PlanningContainer.tsx:153-166 | a move replaces only the records with the moved id, keeping all their fields but start and end, and sends an update for that id |
| PlanningContainer.MoveRollbackRestores | components/planning/PlanningContainer.tsx:168-172 | a failed update restores the list when the dragged record was the list's copy, and raises the move alert |
| PlanningContainer.MoveSuccessReloads | components/planning/PlanningContainer.tsx:173-185 | a successful update keeps the patched list and requests a full reload |
| PlanningContainer.DeleteErrorKeepsState | components/planning/PlanningContainer.tsx:198-200 | a failed delete changes nothing and raises an alert naming the id |
| PlanningContainer.DeleteOkRemoves | components/planning/PlanningContainer.tsx:201-209 | a delete without error removes the id, keeps every other record in order and closes the detail view; the "already deleted" alert appears exactly when zero rows are reported |
| PlanningContainer.GridInterventions | components/planning/PlanningContainer.tsx:213-223 | the grid list is never longer than the full list |
| PlanningContainer.Visible | components/planning/PlanningContainer.tsx:219-221 | a visible intervention belongs to the focused job site unless "show all" is on, and to a selected worker when the filter is non-empty; with no focus and no worker filter everything is visible |
| PlanningContainer.GridVisibility | components/planning/PlanningContainer.tsx:213-223 | an intervention is hidden exactly when another job site is focused without "show all", or when a non-empty worker filter omits its worker |
| PlanningContainer.GridKeepsOrder | components/planning/PlanningContainer.tsx:213-223 | the grid list is a subsequence of the full list |
| PlanningContainer.GridShowsAllWhenUnfiltered | components/planning/PlanningContainer.tsx:213-223 | with no focus (or "show all") and an empty worker filter the grid shows the whole list |
| PlanningContainer.ToggleCollaboratorFilter | components/planning/PlanningContainer.tsx:56-60 | only the worker filter changes, and the toggled id's membership flips |
| PlanningContainer.ToggleAffectsOnlyThatWorker | components/planning/PlanningContainer.tsx:219-221 | while the filter stays non-empty, toggling one worker leaves every other worker's visibility unchanged |
| Palette.ColorIndex | components/planning/PlanningSidebar.tsx:159-167 | the colour index is below six and is the position itself for the first six |
| CalendarGrid.LastOfMonth | components/planning/CalendarGrid.tsx:96 | the last day of the month lies month-length − 1 days after the first |
| CalendarGrid.MondayOffset | components/planning/CalendarGrid.tsx:42-44 | the offset is in 0..6, and it is 6 exactly when the first falls on a Sunday |
| CalendarGrid.GridStart | components/planning/CalendarGrid.tsx:47 | the grid starts on a Monday, the offset number of days before the first of the month |
| CalendarGrid.CellDate | components/planning/CalendarGrid.tsx:54-66 | cell i is i days after the grid's first Monday |
| CalendarGrid.CalendarDays | components/planning/CalendarGrid.tsx:35-106 | the grid is 4 to 6 whole weeks of consecutive days from a Monday to a Sunday; its last day is on or after the month's last day, and the week before it ends before that day |
| CalendarGrid.WeeksUntil | components/planning/CalendarGrid.tsx:61-103 | the loop adds whole weeks of consecutive days until one covers the last day, at most six |
| CalendarGrid.SixWeeksSuffice | components/planning/CalendarGrid.tsx:101-102 | the first Monday and the month's last day are 28 to 37 days apart, so the six-week safety cap never decides |
| CalendarGrid.GridCellDate | components/planning/CalendarGrid.tsx:47-66 | cells are the previous month's tail, then the anchor month day by day, then the next month's head, with their exact dates |
| CalendarGrid.OutsideMonthIsExact | components/planning/CalendarGrid.tsx:200 | comparing only the month index is, on the grid, exactly "not in the anchor's year and month" |
| CalendarGrid.IsOutsideMonth | components/planning/CalendarGrid.tsx:200 | a day flagged outside the month is never in the anchor's year and month (the converse holds on the grid, see OutsideMonthIsExact) |
| CalendarGrid.MonthCoveredOnce | components/planning/CalendarGrid.tsx:35-106 | every day of the month occupies exactly one cell, at position offset + day − 1 |
| CalendarGrid.February2024Grid | components/planning/CalendarGrid.tsx:35-106 | February 2024 starts its grid on Monday 29 January; cell 31 is 29 February and cell 34 is Sunday 3 March |
| CalendarGrid.WeekdayOfCell | components/planning/CalendarGrid.tsx:164-199 | cell i falls on weekday (i + 1) mod 7 under the "Lun … Dim" header, so weekend cells are exactly the last two columns |
| CalendarGrid.IsWeekend | components/planning/CalendarGrid.tsx:199 | `getDay()` is 0 or 6 (the predicate carries no contract; WeekendIsTwoDays states its property) |
| CalendarGrid.WeekendIsTwoDays | components/planning/CalendarGrid.tsx:199 | a Saturday and the Sunday after it are weekend days, and the Monday after them is not |
| CalendarGrid.DayInterventions | components/planning/CalendarGrid.tsx:204-209 | a cell holds exactly the interventions starting on its year, month and day |
| CalendarGrid.AmInterventions | components/planning/CalendarGrid.tsx:211 | the morning slot holds exactly the interventions of the list starting on that date before 12:00 |
| CalendarGrid.PmInterventions | components/planning/CalendarGrid.tsx:212 | the afternoon slot holds exactly the interventions of the list starting on that date at 12:00 or later |
| CalendarGrid.SlotsPartitionCell | components/planning/CalendarGrid.tsx:211-212 | the AM and PM slots split the cell's interventions with multiplicities, disjointly, by the hour below 12 or not, each keeping list order |
| CalendarGrid.FindCollaborator | components/planning/CalendarGrid.tsx:287-300 | `findIndex` returns the first position with the id, or nothing if no worker has it |
| CalendarGrid.SlotEntries | components/planning/CalendarGrid.tsx:286-312 | a slot shows, in order, exactly its interventions whose worker is found, each with that worker and a colour below six |
| CalendarGrid.SlotEntriesComplete | components/planning/CalendarGrid.tsx:286-312 | every intervention of a slot whose worker is found gets an entry |
| CalendarGrid.EntryColorMatchesSidebar | components/planning/CalendarGrid.tsx:299-301 | an entry's colour is the palette colour of its worker's first position in the list, the sidebar's colour |
| CalendarGrid.DayCell | components/planning/CalendarGrid.tsx:191-262 | the outside-month, weekend and today flags follow the date; every AM/PM entry is an intervention of the list starting on that date before/after noon, and every such intervention whose worker is found has an entry in its half-day |
| MobilePlanning.InsertBy | components/planning/MobilePlanningView.tsx:49 | inserting into a sorted list keeps it sorted and adds exactly one element |
| MobilePlanning.SortBy | components/planning/MobilePlanningView.tsx:49 | the result is sorted by start instant and is a permutation of the input |
| MobilePlanning.DailyInterventions | components/planning/MobilePlanningView.tsx:35-50 | the agenda is sorted by start; each intervention occurs as often as in the list if it starts that day and passes the filters, otherwise not at all |
| MobilePlanning.SameDay | components/planning/MobilePlanningView.tsx:37-41 | equal `getDate()`, `getMonth()` and `getFullYear()` is equality of the calendar dates |
| MobilePlanning.PassesFilters | components/planning/MobilePlanningView.tsx:45-46 | the initial filters pass every intervention; a specific job-site filter passes only that job site |
| MobilePlanning.FiltersActive | components/planning/MobilePlanningView.tsx:88 | when the filter button shows as inactive, every intervention passes the filters |
| MobilePlanning.AgendaMembership | components/planning/MobilePlanningView.tsx:36-48 | an intervention is listed exactly when it starts that day, its job site matches unless the filter is "all", and its worker is selected unless none is |
| MobilePlanning.UnfilteredAgendaIsWholeDay | components/planning/MobilePlanningView.tsx:88 | when the filter button shows as inactive, the agenda holds the whole day |
| MobilePlanning.HandlePrevDay | components/planning/MobilePlanningView.tsx:52-56 | the previous-day arrow moves to the date one day number earlier |
| MobilePlanning.HandleNextDay | components/planning/MobilePlanningView.tsx:58-62 | the next-day arrow moves to the date one day number later |
| MobilePlanning.DayNavigation | components/planning/MobilePlanningView.tsx:52-62 | previous and next day move by exactly one day number and undo each other |
| MobilePlanning.ToggleCollaborator | components/planning/MobilePlanningView.tsx:68-72 | the worker's selection flips, no other worker's changes, and the job-site filter stays |
| MobilePlanning.ResetFilters | components/planning/MobilePlanningView.tsx:235-243 | after a reset no filter is active |
| MobilePlanning.ResetShowsWholeDay | components/planning/MobilePlanningView.tsx:235-243 | after a reset the agenda holds every intervention of the day |
| MobilePlanning.LabelOf | components/planning/MobilePlanningView.tsx:120-123 | the label reads "9h - 12h" exactly when the start classifies as AM |
| MobilePlanning.LabelMatchesSlot | components/planning/MobilePlanningView.tsx:120-123 | an intervention created by a drop on a slot is labelled with that slot's hours |
| PlanningSidebar.Hours | components/planning/PlanningSidebar.tsx:35-37 | hours times 3 600 000 is the difference of the two instants |
| PlanningSidebar.SoldHours | components/planning/PlanningSidebar.tsx:43 | a missing sold time counts as 0 hours, a present one as itself |
| PlanningSidebar.SumHours | components/planning/PlanningSidebar.tsx:33-39 | the summed durations are non-negative when no intervention ends before it starts |
| PlanningSidebar.PlannedHours | components/planning/PlanningSidebar.tsx:32-39 | a job site none of whose interventions is in the list plans 0 hours; the total is non-negative when no interval is reversed |
| PlanningSidebar.ChantierStats | components/planning/PlanningSidebar.tsx:30-46 | there are statistics exactly when a job site is selected; "Planifié" is the planned hours of that job site over the whole list, "Vendu" its sold hours, and planned + remaining = sold |
| PlanningSidebar.OverBudget | components/planning/PlanningSidebar.tsx:80 | with no sold time any planned hour turns "Planifié" red; with nothing planned and a non-negative sold time it is never red |
| PlanningSidebar.PlannedHoursAppend | components/planning/PlanningSidebar.tsx:32-39 | planned hours of two concatenated lists add up |
| PlanningSidebar.PlannedHoursSingle | components/planning/PlanningSidebar.tsx:32-39 | one intervention contributes its duration to its own job site and nothing to others |
| PlanningSidebar.PlannedHoursNonNegative | components/planning/PlanningSidebar.tsx:32-39 | planned hours are non-negative when no intervention ends before it starts |
| PlanningSidebar.PlannedHoursOfSlots | components/planning/PlanningSidebar.tsx:32-39 | n three-hour interventions of the job site plan 3n hours |
| PlanningSidebar.SlotHours | components/planning/PlanningSidebar.tsx:37 | a slot window lasts exactly 3.0 hours |
| PlanningSidebar.CreateAddsThreeHours | components/planning/PlanningSidebar.tsx:32-39 | dropping a worker adds 3 planned hours to the selected job site and none to any other |
| PlanningSidebar.CreateUpdatesStats | components/planning/PlanningSidebar.tsx:30-80 | after a stored worker drop, the displayed "Planifié" grows by 3 and "Vendu" stays; the computed `remaining` figure (not displayed) shrinks by 3; "Planifié" turns red exactly when fewer than 3 hours remained |
| PlanningSidebar.TenHoursSoldExample | components/planning/PlanningSidebar.tsx:30-46 | with 10 hours sold, three slots give planned 9, remaining 1, not red; four slots turn it red |
| PlanningSidebar.ToggleAllIsToggleEach | components/planning/PlanningSidebar.tsx:112 | clicking through ids toggles them one after another and changes nothing but the filter |
| PlanningSidebar.ToggleAll | components/planning/PlanningSidebar.tsx:112 | clicking through the ids changes nothing but the worker filter |
| PlanningSidebar.ShowAllWorkers | components/planning/PlanningSidebar.tsx:110-117 | "Tout afficher" changes nothing but the worker filter |
| PlanningSidebar.ShowAllClearsFilter | components/planning/PlanningSidebar.tsx:110-117 | "Tout afficher" on a duplicate-free filter empties it and changes nothing else |
| Strings.Contains | components/ClientSelector.tsx:37 | `includes` holds exactly when the term occurs at some position |
| Strings.ContainsTransitive | components/ClientSelector.tsx:37 | containment is transitive |
| Strings.LowerChar | components/ClientSelector.tsx:37 | an ASCII or Latin-1 capital moves 32 code points up to its small letter; a small ASCII letter is kept; nothing else moves except by 32 |
| Strings.LowerIgnoresAsciiCase | components/ClientSelector.tsx:37 | strings that differ only in the case of ASCII letters lower-case to the same string |
| Strings.Lower | components/ClientSelector.tsx:37 | lower-casing keeps the length and maps each character |
| Strings.LowerIdempotent | components/ClientSelector.tsx:37 | lower-casing twice equals lower-casing once |
| Strings.Utf16Length | app/login/reset-password/page.tsx:42 | the JavaScript length lies between the character count and twice it, and equals the character count inside the Basic Multilingual Plane |
| ClientSelector.FilteredClients | components/ClientSelector.tsx:36-38 | listed clients are loaded clients that match; every matching loaded client is listed |
| ClientSelector.ListedIffMatches | components/ClientSelector.tsx:36-38 | a client is listed exactly when it is loaded and "nom prenom", lower-cased, contains the lower-cased term |
| ClientSelector.EmptyTermListsAll | components/ClientSelector.tsx:36-38 | the empty term lists every loaded client in order |
| ClientSelector.TermCaseIgnored | components/ClientSelector.tsx:37 | the case of the term does not change the result |
| ClientSelector.TermAsciiCaseIgnored | components/ClientSelector.tsx:36-38 | a term typed in another ASCII case selects exactly the same clients |
| ClientSelector.CapitalsFindName | components/ClientSelector.tsx:36-38 | the term "DUPONT" finds the client "Dupont Jean" |
| ClientSelector.LongerTermNarrows | components/ClientSelector.tsx:36-38 | typing more characters only removes clients from the list |
| ClientSelector.FilteredKeepsOrder | components/ClientSelector.tsx:36-38 | the list keeps the store's order |
| ClientSelector.SetOpen | components/ClientSelector.tsx:19-24 | opening a closed dialog clears the search term and starts loading; closing keeps both; re-sending the same `isOpen` changes nothing, as the effect depends on `[isOpen]` only |
| ClientSelector.OnFetched | components/ClientSelector.tsx:26-34 | loading ends; the clients are the returned rows, or none when the store returns none |
| ClientSelector.Render | components/ClientSelector.tsx:40-80 | nothing shows when closed; the spinner shows exactly while loading; "Aucun client trouvé" shows exactly when the open, loaded dialog has no match; otherwise the list is exactly the matching clients |
| ClientSelector.OnSearch | components/ClientSelector.tsx:65 | typing changes the search term and nothing else |
| ClientSelector.SearchListsMatches | components/ClientSelector.tsx:36-80 | in an open, loaded dialog, after typing a term, a client is listed exactly when it was loaded and matches the term |
| ClientSelector.ReopenListsEverything | components/ClientSelector.tsx:19-38 | whatever was typed before, opening a closed dialog and loading lists all rows, or the "no client" message |
| Middleware.StartsWithAny | middleware.ts:39-48 | `some(startsWith)` holds exactly when the path starts with one of the routes |
| Middleware.IsProtected | middleware.ts:39-42 | a path is guarded exactly when it starts with one of /planning, /clients, /chantiers, /collaborateurs |
| Middleware.IsAuthRoute | middleware.ts:45-48 | a path is an auth page exactly when it starts with /login or /signup |
| Middleware.Decide | middleware.ts:38-58 | a redirect to /login happens exactly for a guarded path without session, to /planning exactly for an auth path with session, otherwise the request passes |
| Middleware.Middleware | middleware.ts:61-70 | paths outside the matcher always pass; matched paths get the middleware's decision |
| Middleware.GuardedAndAuthDisjoint | middleware.ts:38-56 | no path is both guarded and an auth page |
| Middleware.MatchedPathsAreRoutes | middleware.ts:61-70 | every matched path is guarded or an auth page |
| Middleware.RedirectSettles | middleware.ts:50-56 | a redirect target passes through with the same session state, so there is no redirect loop |
| Middleware.GuardedSubpageNeedsSession | middleware.ts:39-51 | every page below a guarded base redirects to /login without a session |
| Middleware.PrefixTestWiderThanMatcher | middleware.ts:39-70 | "/planningfoo" passes the prefix test, but the matcher lets it through unguarded |
| Middleware.ResetPageReachableWithSession | middleware.ts:45-70 | a signed-in user reaches /login/reset-password although the prefix test alone would redirect them |
| AuthCallback.Get | app/api/auth/callback/route.ts:7-9 | `searchParams.get` returns nothing when the name is absent, else its first value |
| AuthCallback.Next | app/api/auth/callback/route.ts:9 | `next` defaults to "/planning" only when missing; an empty value is kept |
| AuthCallback.HasCode | app/api/auth/callback/route.ts:7-11 | a code counts only when the query has a non-empty `code`; a query without `code` has none; when `code` comes first, its emptiness decides |
| AuthCallback.IsRecovery | app/api/auth/callback/route.ts:35 | a recovery link is one whose `type` parameter is "recovery" or whose URL contains "type=recovery" at some position |
| AuthCallback.Callback | app/api/auth/callback/route.ts:5-47 | the code is exchanged exactly when present and non-empty, and the location always begins with the origin |
| AuthCallback.NoCodeFails | app/api/auth/callback/route.ts:11-46 | a missing or empty code redirects to the failure page without any exchange |
| AuthCallback.ExchangeFailureFails | app/api/auth/callback/route.ts:30-46 | an exchange error, or no session, redirects to the failure page |
| AuthCallback.RecoveryGoesToReset | app/api/auth/callback/route.ts:35-39 | a successful recovery link goes to the reset page, whatever `next` says |
| AuthCallback.SuccessFollowsNext | app/api/auth/callback/route.ts:9-41 | any other success goes to origin + `next`, or origin + "/planning" without it |
| AuthCallback.RecoveryBySubstring | app/api/auth/callback/route.ts:35 | "type=recovery" anywhere in the URL marks a recovery link even without a `type` parameter |
| AuthCallback.NextCanLeaveOrigin | app/api/auth/callback/route.ts:41 | with `next=@evil.example` the redirect location no longer stays on the origin |
| AuthCallback.SafeNext | app/api/auth/callback/route.ts:9 | the corrected `next` is the given one or the default, and always starts with '/' |
| AuthCallback.SafeCallback | app/api/auth/callback/route.ts:5-47 | the corrected handler always stays on the origin and differs from the original only by falling back to "/planning" |
| ResetPassword.CheckSession | app/login/reset-password/page.tsx:17-29 | with a session the page becomes idle; without one it shows the expired-link error |
| ResetPassword.FormShown | app/login/reset-password/page.tsx:66-119 | the form renders only when the page is neither checking, nor done, nor in error, and never together with the retry button |
| ResetPassword.RetryOffered | app/login/reset-password/page.tsx:103-116 | the "new request" button needs an error message and a page that is not idle |
| ResetPassword.OnPassword | app/login/reset-password/page.tsx:130 | typing in the password field changes the password and nothing else |
| ResetPassword.OnConfirm | app/login/reset-password/page.tsx:150 | typing in the confirmation field changes the confirmation and nothing else |
| ResetPassword.Submit | app/login/reset-password/page.tsx:31-64 | the store is called exactly when the form is shown, both fields are filled, they match and the password has at least 6 UTF-16 units; the fields are never altered |
| ResetPassword.MismatchReportedFirst | app/login/reset-password/page.tsx:36-40 | differing fields report the mismatch, even when also too short, and the store is not called |
| ResetPassword.ShortPasswordRefused | app/login/reset-password/page.tsx:42-46 | matching fields shorter than 6 units report the length error and the store is not called |
| ResetPassword.AcceptedAndStored | app/login/reset-password/page.tsx:48-58 | a stored password shows success, hides the form and schedules the move to /planning |
| ResetPassword.AcceptedButRefused | app/login/reset-password/page.tsx:59-63 | a store error keeps the form, stops loading and shows the store's message or the default text |
| ResetPassword.ExpiredLinkNeverUpdates | app/login/reset-password/page.tsx:17-119 | without a session the form is hidden, the retry button shows, and no submission reaches the store |
| ResetPassword.CheckingBlocksSubmit | app/login/reset-password/page.tsx:66-72 | nothing can be submitted while the session check is pending |
| ResetPassword.LengthInCodeUnits | app/login/reset-password/page.tsx:42 | three emoji count as six units and pass; five ASCII letters do not |

## Left out

- **Store calls.** Supabase queries, inserts, updates, deletes, `getSession`,
  `exchangeCodeForSession` and `updateUser` are not modelled. Their answers are parameters.
  The full reload after a successful move is a `reload` flag. Cookie handling in the
  middleware and callback is not modelled.
- **Fresh ids and the clock.** `generateUUID` and the current date are parameters. The
  rollback lemma assumes the id is fresh.
- **Concurrency.** Interleaved handlers and stale React closures are not modelled. Each
  handler runs on the state it was given.
- **Time zones and serialisation.** Timestamps are local date-times on a fixed-offset clock.
  Daylight-saving gaps and overlaps are not modelled. The `toISOString` round trip through
  the store is taken as the identity.
- **Floating point.** Hours are exact `real` values. The source divides doubles.
- **Month navigation.** Month navigation (`CalendarGrid.tsx:111-121`, `setMonth` overflow) is
  not modelled, nor is `handleToday`. "Today" is a parameter.
- **Drag-and-drop UI state.** The drag overlay (`activeId`, `activeCollaborateur`), sensors
  and layout toggles are presentation only.
- **Components outside this model.** The voice recorder, the intervention modal's own
  markup, the demo data, sign-up, the auth provider and the CRUD pages are not part of this
  model.
- **The `creneau` field.** It is not rewritten by a move, as in the source. No property
  relates it to the start hour.
- **The optimistic record.** It is created without `entreprise_id`, as in the source.
  `Intervention.entrepriseId` is optional for that reason.
- **Parsing.** The query string and URL are given already split. `url` is the raw text
  searched for "type=recovery".
- CalendarGrid.CalendarDays: for anchor years 0 to 99, `new Date(year, month, d)` reads the
  year as 1900 + year and the source draws that century's grid; the model keeps the year.
  Years beyond the range of a JavaScript `Date` (±8.64e15 ms, about ±275 000 years) are not
  excluded either. Month navigation, the only way to reach such years, is left out.
- CalendarGrid.GridStart: same two-digit-year and range limits as `CalendarDays`.
- CalendarGrid.LastOfMonth: same two-digit-year and range limits as `CalendarDays`
  (`new Date(year, month + 1, 0)`).
- MobilePlanning.SortBy: sortedness and permutation are proved. Stability (equal starts
  keep list order) is built in but not stated.
- Strings.LowerChar: lower-cases ASCII and Latin-1 capitals only. Other scripts, and
  special cases such as the dotted capital I, are kept unchanged.
- Strings.Utf16Length: counts code units of scalar values. Lone surrogates cannot occur in
  Dafny strings.

## Findings

| source | as written | input that shows it | evidently intended | confidence | as-written member | corrected member |
|---|---|---|---|---|---|---|
| app/api/auth/callback/route.ts:41 | the redirect is `${origin}${next}` with `next` taken unchecked from the query | `?code=<valid>&next=@evil.example` redirects to `https://app.example@evil.example`, whose host is evil.example | `next` names a path inside the application (the comment at line 8 and the default "/planning") | medium; not executed | AuthCallback.NextCanLeaveOrigin | AuthCallback.SafeCallback |
