# Task time tracker: a verified model of its core

The task time tracker is a web application for recording the time spent on tasks. It has two halves:

- A NestJS backend, which keeps tasks, categories and time entries in a database and serves them over HTTP.
- A React client, which keeps them in Zustand stores and renders them.

This Dafny project models the parts of both that compute something. Each part below says which module models it.

**Analytics reduction.** `getAnalytics` fetches the user's tasks with their closed time entries, under a conjunctive where clause. It then reduces them to four outputs:

- a per-task list of minutes;
- a per-UTC-day series of hours;
- a per-category distribution;
- a summary.

Each output has a fixed order.

Related operations:

- `getDateRange` turns a range token into local day bounds (module `AnalyticsRange`).
- `exportTasksCSV` renders the report as quoted CSV.
- `getProductivityTrend` buckets consecutive days with half-open intervals.
- `getTimeDistribution` sums recent time per category.

The modules are:

- `AnalyticsData`: retrieval and per-task records.
- `AnalyticsDaily`: the daily series.
- `AnalyticsCategories`: the category map.
- `AnalyticsService`: the report.
- `AnalyticsExport`: the CSV text.
- `AnalyticsTrend`: the trend and the distribution.

**Table services.** The database is one object (`Tables.Database`) holding three tables as sequences. Each service holds the database and changes one row per call, after its existence, ownership and uniqueness checks:

- `TimeEntriesService`: starting and stopping timers under "at most one running entry per user".
- `TasksService`: task creation defaults, filtered listing, owner-checked lookup, update, delete and the status toggle.
- `CategoriesService`: categories with a per-user unique name.

The category request bodies and their colour pattern are in `CategoryDto`.

**Client.** The client modules are:

- `TasksPage`: the task page's filter, group-by-day and sort pipeline.
- `TaskFilters`: the filter panel's badge count, clear action, field updates and twelve-hour time display.
- `RecentTasks`: the recent-tasks card's total time, duration text, ordering, counts and toggle target.
- `TaskStore`, `CategoryStore` and `AnalyticsStore`: the three stores, as classes whose fields their actions replace.
- `AnalyticsPage`: the analytics page's search, completion caption, colour conversion and description truncation.
- `ProgressBar`: the progress bar percentage.
- `ProfileDropdown`: the initials in the profile menu.
- `ProfilePage`: the password form's guards.

**Values and parameters.**

- Timestamps are integer milliseconds since the epoch.
- "Local" time is UTC plus a fixed offset `tz`, given as a parameter.
- Clock readings, new row ids and server answers are parameters.
- `Math.round(n / d)` is the exact integer rounding `RoundDiv`, with halves rounding up.
- Hours shown with two decimals are integer hundredths of an hour.
- Day keys are day numbers.

## Model

| member | source | states |
|---|---|---|
| AnalyticsData.WithClosedEntries | backend/src/analytics/analytics.service.ts:322-327 | the fetched row keeps its task and category and holds only entries whose endTime is set |
| AnalyticsData.RetrieveSound | backend/src/analytics/analytics.service.ts:320-333 | the fetch has one row per matching table row, newest createdAt first, each a matching row with only its closed entries |
| AnalyticsData.RetrieveFromTable | backend/src/analytics/analytics.service.ts:320-333 | every fetched row comes from a table row satisfying every condition of the where clause |
| AnalyticsData.RetrieveComplete | backend/src/analytics/analytics.service.ts:299-333 | every table row satisfying the where clause is fetched, so with RetrieveSound a row is fetched exactly when it matches |
| AnalyticsData.TrackedMsIgnoresOpen | backend/src/analytics/analytics.service.ts:337-343 | running entries add nothing to a task's tracked time |
| AnalyticsData.CategoryLabel | backend/src/analytics/analytics.service.ts:383 | the label is never empty: a present non-empty category name is used as it is, and 'Uncategorized' is used exactly for no category or an empty name |
| AnalyticsData.CategoryColor | backend/src/analytics/analytics.service.ts:384 | the colour is never empty: a present non-empty category colour is used as it is, and '#9CA3AF' for no category, no colour or an empty one |
| AnalyticsData.TaskTimeOf | backend/src/analytics/analytics.service.ts:336-355 | a per-task record carries the task's id, title, priority and status, its minutes and hours are the nearest whole minute and hundredth of an hour to the closed-entry time, and it carries the task's label and colour |
| AnalyticsDaily.DailyHours | backend/src/analytics/analytics.service.ts:358-377 | the series is strictly ascending by day, covering exactly the UTC days on which some closed entry starts, each day's hours rounded from that day's total; no tasks gives no days |
| AnalyticsDaily.AddEntry | backend/src/analytics/analytics.service.ts:361-368 | one entry keeps the map equal to the per-day totals of the entries seen, and the days in first-seen order without repeats |
| AnalyticsDaily.AscendingDays | backend/src/analytics/analytics.service.ts:372-377 | one record per map key in strictly ascending day order, each rounded to hundredths of an hour |
| AnalyticsDaily.TakeSmallest | backend/src/analytics/analytics.service.ts:377 | one selection step keeps the records ascending and the remaining days above them, and shrinks what is left |
| AnalyticsDaily.TouchesExactly | backend/src/analytics/analytics.service.ts:360-363 | a day has a record exactly when some closed entry of some fetched task starts on it |
| AnalyticsDaily.Untouched | backend/src/analytics/analytics.service.ts:360-368 | a day no closed entry starts on has no tracked time |
| AnalyticsCategories.CategoryBuckets | backend/src/analytics/analytics.service.ts:380-400 | the loop over tasks, updating the existing bucket in place, gives the fold of AddTask over the tasks |
| AnalyticsCategories.AddToBucket | backend/src/analytics/analytics.service.ts:394-399 | one task adds its time to the bucket of its label, or opens a bucket at the end |
| AnalyticsCategories.AddTaskShape | backend/src/analytics/analytics.service.ts:394-399 | existing buckets keep name and colour; the label's bucket gains exactly the task's time and no other bucket changes, or a new bucket (label, time, colour) is appended |
| AnalyticsCategories.FoldNamesDistinct | backend/src/analytics/analytics.service.ts:380-400 | no two buckets share a name |
| AnalyticsCategories.FoldNames | backend/src/analytics/analytics.service.ts:380-400 | there is a bucket for a name exactly when some task carries that label |
| AnalyticsCategories.FoldMs | backend/src/analytics/analytics.service.ts:386-396 | each bucket's unrounded time is the sum of the tracked times of the tasks carrying its label |
| AnalyticsCategories.FoldColor | backend/src/analytics/analytics.service.ts:394-399 | a bucket's colour is that of the first task carrying its label |
| AnalyticsCategories.FoldCover | backend/src/analytics/analytics.service.ts:380-400 | the buckets' times add up to the tracked time of all fetched tasks |
| AnalyticsCategories.NoBucketNoTime | backend/src/analytics/analytics.service.ts:380-400 | a label without a bucket has no tracked time |
| AnalyticsCategories.ShareOf | backend/src/analytics/analytics.service.ts:402-407 | a share keeps the bucket's name and colour, with minutes and hundredths of an hour rounded from the bucket's time |
| AnalyticsCategories.DistributionShares | backend/src/analytics/analytics.service.ts:380-407 | the distribution is sorted by minutes, largest first, with pairwise different categories, one share per label, each rounded from the sum of its tasks' unrounded time |
| AnalyticsCategories.DistributionNames | backend/src/analytics/analytics.service.ts:402-429 | a category has a share exactly when some fetched task carries it |
| AnalyticsCategories.DistributionMinutes | backend/src/analytics/analytics.service.ts:404 | each share's minutes are the rounded total of its category's tasks |
| AnalyticsService.SummaryOf | backend/src/analytics/analytics.service.ts:410-414 | totalTasks counts the tasks and completedTasks the completed ones, so completed never exceeds total; totalHours rounds the sum of the rounded minutes; the average rounds that sum over the count and is 0 for no tasks |
| AnalyticsService.FindById | backend/src/analytics/analytics.service.ts:440 | the lookup finds the first record with that id, or none exists |
| AnalyticsService.HoursOf | backend/src/analytics/analytics.service.ts:440 | the hours of the first per-task record with the task's id, or 0 when no record has it |
| AnalyticsService.TaskRows | backend/src/analytics/analytics.service.ts:430-441 | one row per fetched task, in fetch order, copying id, title, status, priority and both timestamps; the description, or '' exactly when it is absent or empty; the category label and colour with their fallbacks; and the hours looked up by id with the 0 fallback |
| AnalyticsService.TaskRowHours | backend/src/analytics/analytics.service.ts:440 | with distinct ids each row's totalHours is its own task's hours, even though the lookup searches the re-sorted per-task list |
| AnalyticsService.BuildReport | backend/src/analytics/analytics.service.ts:336-442 | the report's parts are the reductions of the fetched tasks |
| AnalyticsService.BuildWhere | backend/src/analytics/analytics.service.ts:299-317 | the where clause gains one condition per supplied filter; an enumeration value that is not a name rejects the query |
| AnalyticsService.GetAnalytics | backend/src/analytics/analytics.service.ts:292-443 | a rejected filter is the only failure; otherwise the result is the report for the tasks selected by the range and filters |
| AnalyticsService.ReportParts | backend/src/analytics/analytics.service.ts:427-441 | timePerTask is a permutation of one record per task, most minutes first; the task list has one row per task; each row's hours are its task's |
| AnalyticsService.EmptyReport | backend/src/analytics/analytics.service.ts:410-414 | no matching task gives zero totals, a zero average and empty lists |
| AnalyticsRange.GetDateRange | backend/src/analytics/analytics.service.ts:470-501 | the bounds are the range function of token, dates, clock and zone; the start is a local midnight and the end the last millisecond of a local day |
| AnalyticsRange.PresetWindow | backend/src/analytics/analytics.service.ts:480-489 | 'week' and 'month' hold exactly the instants whose local day is within 7 or 30 days before today, today included |
| AnalyticsRange.TodayWindow | backend/src/analytics/analytics.service.ts:476-498 | 'today' and every unknown token hold exactly today's local day |
| AnalyticsRange.SameDayBounds | backend/src/analytics/analytics.service.ts:493-494 | instants of one local day have the same day bounds |
| AnalyticsRange.DayOrder | backend/src/analytics/analytics.service.ts:490-494 | an instant lies between day d0's midnight and day d1's last millisecond exactly when its local day is in [d0, d1] |
| AnalyticsExport.CentiText | backend/src/analytics/analytics.service.ts:456 | the hours text is never empty |
| AnalyticsExport.CentiTextValue | backend/src/analytics/analytics.service.ts:456 | reading the hours text back gives the hundredths it was made from |
| AnalyticsExport.CentiTextInjective | backend/src/analytics/analytics.service.ts:456 | different hours give different texts |
| AnalyticsExport.RowCells | backend/src/analytics/analytics.service.ts:450-459 | a task line has as many cells as the header |
| AnalyticsExport.ExportTasksCsv | backend/src/analytics/analytics.service.ts:446-467 | the export fails exactly when the report does, and otherwise is the CSV of the task list of the report for the same query |
| AnalyticsExport.CsvLines | backend/src/analytics/analytics.service.ts:461-464 | with no line break in a cell the text splits into the header line and one line per task, in order, and the header splits into the eight names |
| AnalyticsExport.HeaderLine | backend/src/analytics/analytics.service.ts:449 | the header line holds exactly the eight names and no line break |
| AnalyticsExport.LineRoundTrip | backend/src/analytics/analytics.service.ts:463 | a line whose cells hold no double quote reads back as its cells |
| AnalyticsExport.QuoteAmbiguity | backend/src/analytics/analytics.service.ts:463 | without escaping, one cell holding `","` gives the same line as two cells |
| AnalyticsTrend.ProductivityTrend | backend/src/analytics/analytics.service.ts:203-253 | the loop yields the trend over the user's completed tasks and entries since local midnight `days` days ago, one bucket per day, none for a non-positive count |
| AnalyticsTrend.Trend | backend/src/analytics/analytics.service.ts:231-250 | the trend has one point per day |
| AnalyticsTrend.TrendCompleted | backend/src/analytics/analytics.service.ts:237-239 | the buckets' completions add up to the completions in the whole window |
| AnalyticsTrend.TrendSeconds | backend/src/analytics/analytics.service.ts:241-243 | the buckets' seconds add up to the seconds of the entries started in the window |
| AnalyticsTrend.TrendDays | backend/src/analytics/analytics.service.ts:232-246 | bucket i is the day starting i days after the window's start, labelled by consecutive UTC day numbers |
| AnalyticsTrend.TrendEndsToday | backend/src/analytics/analytics.service.ts:204-206 | the window ends at today's local midnight, so today is in no bucket |
| AnalyticsTrend.MidnightLabel | backend/src/analytics/analytics.service.ts:246 | a bucket's label is its local day west of UTC and the day before east of UTC |
| AnalyticsTrend.TimeDistribution | backend/src/analytics/analytics.service.ts:256-289 | one record per category of the user, in table order, with its name, colour and hours rounded from its tasks' seconds since the period's start |
| AnalyticsTrend.CategoriesCover | backend/src/analytics/analytics.service.ts:276-281 | with distinct category ids the categories' seconds add up to those of the tasks filed under one of them |
| TimeEntriesService.ActiveEntry | backend/src/time-entries/time-entries.service.ts:19-24 | the lookup finds a running entry of the user, or the user has none |
| TimeEntriesService.ActiveEntryUnique | backend/src/time-entries/time-entries.service.ts:79-93 | under the open-timer invariant any running entry of the user is the one found |
| TimeEntriesService.Stopped | backend/src/time-entries/time-entries.service.ts:60-68 | a stopped entry keeps its id, task, user and start, ends at now, with the elapsed whole seconds rounded down |
| TimeEntriesService.TaskEntries | backend/src/time-entries/time-entries.service.ts:104-107 | the task's entries, latest start first: a permutation of the table's entries of that task |
| TimeEntriesService.TimeEntriesService.StartTimer | backend/src/time-entries/time-entries.service.ts:8-45 | NotFound exactly for a missing or foreign task, BadRequest exactly when the user has a running entry, and otherwise exactly one new running entry is appended; the open-timer invariant holds after |
| TimeEntriesService.TimeEntriesService.StopTimer | backend/src/time-entries/time-entries.service.ts:47-77 | NotFound exactly for a missing or foreign entry, BadRequest exactly for a stopped one, and otherwise only that entry changes and becomes stopped at now |
| TimeEntriesService.TimeEntriesService.GetActiveTimer | backend/src/time-entries/time-entries.service.ts:79-93 | a running entry of the user, or none when the user has none |
| TimeEntriesService.TimeEntriesService.GetTaskTimeEntries | backend/src/time-entries/time-entries.service.ts:95-108 | NotFound exactly when the task is missing or foreign, otherwise the task's entries latest first |
| TimeEntriesService.SecondStartFails | backend/src/time-entries/time-entries.service.ts:19-28 | after a start the new entry is the user's running entry, so a second start is refused |
| TimeEntriesService.SecondStopFails | backend/src/time-entries/time-entries.service.ts:56-58 | after a stop the entry found by its id is no longer running, so a second stop is refused |
| TimeEntriesService.StopClearsActive | backend/src/time-entries/time-entries.service.ts:47-77 | stopping the running entry leaves its user with none |
| TimeEntriesService.TotalAfterStart | backend/src/time-entries/time-entries.service.ts:31-44 | a start leaves every task's total time unchanged |
| TimeEntriesService.TotalAfterStop | backend/src/time-entries/time-entries.service.ts:60-68 | a stop adds its whole seconds to its own task's total and to no other |
| TasksService.CreatedTask | backend/src/tasks/tasks.service.ts:11-19 | the stored row is owned by the caller, an empty description or category id is stored as null, a missing priority as MEDIUM, with status TODO and both timestamps now |
| TasksService.TasksService.Create | backend/src/tasks/tasks.service.ts:11-25 | the write fails with a foreign-key error exactly when the category id names no category, and then nothing changes; otherwise exactly that row is appended and the answer is it with its joins; valid category references stay valid |
| TasksService.ListingMatches | backend/src/tasks/tasks.service.ts:27-73 | one element per matching row, newest first, each a matching row with the sum of its task's durations, every matching row listed |
| TasksService.ListingSound | backend/src/tasks/tasks.service.ts:33-52 | every listed task is a row of the user matching every supplied filter and the search |
| TasksService.ListingComplete | backend/src/tasks/tasks.service.ts:54-67 | every matching row is listed |
| TasksService.TasksService.FindAll | backend/src/tasks/tasks.service.ts:27-73 | an invalid status or priority is the only failure; otherwise the listing for the where clause built from the filters |
| TasksService.TasksService.FindOne | backend/src/tasks/tasks.service.ts:75-98 | NotFound exactly for a missing task, Forbidden exactly for another user's, otherwise the row with its joins and the sum of its durations |
| TasksService.Patched | backend/src/tasks/tasks.service.ts:103-106 | supplied fields replace the stored ones; id, owner and creation time never change |
| TasksService.EmptyPatch | backend/src/tasks/tasks.service.ts:103-106 | an empty update only moves the update time |
| TasksService.TasksService.Update | backend/src/tasks/tasks.service.ts:100-111 | the errors of findOne leave the table unchanged; a supplied category id naming no category is a foreign-key error, exactly for an owned task, and changes nothing; on success only that row changes, to its patched form; valid category references stay valid |
| TasksService.TasksService.Remove | backend/src/tasks/tasks.service.ts:113-119 | the errors of findOne leave the tables unchanged; on success exactly that row is removed, its time entries go with it (cascade) and no remaining entry names a missing task if none did before |
| TasksService.ToggledStatus | backend/src/tasks/tasks.service.ts:124-126 | the new status is COMPLETED exactly when the old one is not, and TODO exactly when it is |
| TasksService.ToggleTwice | backend/src/tasks/tasks.service.ts:124-126 | toggling twice restores TODO and COMPLETED but turns IN_PROGRESS into TODO |
| TasksService.TasksService.ToggleStatus | backend/src/tasks/tasks.service.ts:121-136 | the errors of findOne leave the table unchanged; on success only that row's status and update time change, the status to the toggled one, and the answer is that row with its joins |
| TasksService.RemoveKeepsIds | backend/src/tasks/tasks.service.ts:116-118 | deleting a row keeps ids distinct and leaves no row with that id |
| Tables.FindTask | backend/src/tasks/tasks.service.ts:76-82 | the lookup by id finds a row with that id, or none exists |
| Tables.OwnsTaskRow | backend/src/time-entries/time-entries.service.ts:14-16 | with distinct ids, ownership is that of the row with the id |
| Tables.DetailOf | backend/src/tasks/tasks.service.ts:20-23 | the joined task holds its own row, the category its id names, and exactly the task's entries |
| CategoriesService.FindByName | backend/src/categories/categories.service.ts:11-18 | the lookup finds the user's category with that name, or the user has none |
| CategoriesService.CategoriesService.Create | backend/src/categories/categories.service.ts:10-30 | Conflict exactly when the user has the name, leaving the table unchanged; otherwise exactly one row with the caller, name and colour is appended |
| CategoriesService.CreateKeepsUnique | backend/src/categories/categories.service.ts:20-29 | a create that passes the check keeps the (user, name) index unique |
| CategoriesService.ListingOrder | backend/src/categories/categories.service.ts:32-42 | one element per category of the user, ascending by name, each with its task count |
| CategoriesService.ListingSound | backend/src/categories/categories.service.ts:34 | only the user's categories are listed |
| CategoriesService.ListingComplete | backend/src/categories/categories.service.ts:33-41 | every category of the user is listed |
| CategoriesService.ListingStrict | backend/src/categories/categories.service.ts:40 | under the unique index the listing is strictly ascending by name |
| CategoriesService.CategoriesService.FindAll | backend/src/categories/categories.service.ts:32-42 | the listing of the user's categories |
| CategoriesService.CategoriesService.FindOne | backend/src/categories/categories.service.ts:44-57 | NotFound exactly for a missing or foreign id, otherwise the row with its tasks |
| CategoriesService.Renamed | backend/src/categories/categories.service.ts:62-65 | supplied fields replace the stored ones; id and owner never change |
| CategoriesService.CategoriesService.Update | backend/src/categories/categories.service.ts:59-66 | NotFound exactly for a missing or foreign id; no name check of its own, so a clash is refused only by the unique index; otherwise only that row changes |
| CategoriesService.CategoriesService.Remove | backend/src/categories/categories.service.ts:68-74 | NotFound exactly for a missing or foreign id, otherwise exactly that row is removed and its tasks' category id is set to null, so no task names the deleted category |
| CategoriesService.OthersUntouched | backend/src/categories/categories.service.ts:52-54 | another user's category fails the owner check |
| CategoriesService.RenameKeepsUnique | backend/src/categories/categories.service.ts:62-65 | an update the index accepts keeps names unique and ids distinct |
| CategoriesService.RemoveKeepsUnique | backend/src/categories/categories.service.ts:71-73 | a delete keeps names unique and leaves no row with that id |
| CategoryDto.HexColorShape | backend/src/categories/dto/create-category.dto.ts:10 | a valid colour is four or seven characters: '#' and hex digits |
| CategoryDto.HexColorOfDigits | backend/src/categories/dto/create-category.dto.ts:10-12 | '#' plus digits is valid exactly for three or six hex digits |
| CategoryDto.HexColorNeedsHash | backend/src/categories/dto/create-category.dto.ts:10 | the '#' is mandatory |
| CategoryDto.HexColorRejectsOtherLengths | backend/src/categories/dto/create-category.dto.ts:10 | four, five and every other length but three and six are rejected |
| CategoryDto.HexColorIgnoresCase | backend/src/categories/dto/create-category.dto.ts:10 | changing the case of a colour does not change whether it is valid |
| CategoryDto.HexColorSamples | backend/src/categories/dto/create-category.dto.ts:10 | short and long forms of either case pass; a missing '#', four digits and a non-hex letter fail |
| CategoryDto.UpdateIsLenient | backend/src/categories/dto/update-category.dto.ts:4-13 | an empty update is valid, and so is an empty name that create refuses |
| CategoryDto.CreateIsStricter | backend/src/categories/dto/update-category.dto.ts:4-13 | a valid create body is a valid update body |
| CategoryDto.SameColorRule | backend/src/categories/dto/update-category.dto.ts:10 | a colour passes create exactly when it passes update |
| TasksPage.ApplyFilters | frontend/src/app/dashboard/tasks/page.tsx:32-93 | the chain of filters gives the survivors of all six filters |
| TasksPage.FilterWhen | frontend/src/app/dashboard/tasks/page.tsx:35-37 | a filter applied only when its field is set equals filtering by a predicate every task passes when unset |
| TasksPage.VisibleExactly | frontend/src/app/dashboard/tasks/page.tsx:32-93 | the survivors are a sub-multiset of the tasks, and a task survives exactly when it passes every filter |
| TasksPage.DatesByDay | frontend/src/app/dashboard/tasks/page.tsx:60-76 | unless the start date is after the end date, the date filter keeps exactly the tasks whose local creation day lies between the set bounds, inclusive; with the start after the end, the ordered interval keeps exactly the tasks created on the days strictly between, at the end day's last millisecond or at the start day's midnight |
| TasksPage.ClockOrder | frontend/src/app/dashboard/tasks/page.tsx:82-90 | `HH:mm` texts compare as the minutes they name |
| TasksPage.TimesByMinute | frontend/src/app/dashboard/tasks/page.tsx:79-93 | with `HH:mm` bounds the time filter keeps the tasks created between the two minutes, inclusive, without wrapping past midnight |
| TasksPage.GroupByDay | frontend/src/app/dashboard/tasks/page.tsx:96-104 | each day's group holds that day's survivors in order, keys without repeats, every survivor's day a key |
| TasksPage.SortGroups | frontend/src/app/dashboard/tasks/page.tsx:109-113 | every group is sorted newest first and the days are kept |
| TasksPage.FilterAndGroup | frontend/src/app/dashboard/tasks/page.tsx:31-116 | the day keys are strictly descending and exactly the survivors' days, each group is its day's survivors newest first, and totalCount counts the survivors |
| TasksPage.SortedDays | frontend/src/app/dashboard/tasks/page.tsx:107 | the distinct days sorted newest first are strictly decreasing and are the same days |
| TasksPage.GroupsPartition | frontend/src/app/dashboard/tasks/page.tsx:96-115 | every survivor lands in exactly the group of its creation day, and the group sizes add up to totalCount |
| TaskFilters.ClearFilters | frontend/src/components/tasks/TaskFilters.tsx:34-45 | all eight fields are unset |
| TaskFilters.ActiveFiltersCount | frontend/src/components/tasks/TaskFilters.tsx:49-57 | the count is at most 7, 0 exactly when none of the seven non-search fields is set, 7 exactly when all are |
| TaskFilters.ClearedShowsAll | frontend/src/components/tasks/TaskFilters.tsx:34-57 | after clearing the count is 0 and the page shows every task in order |
| TaskFilters.Selected | frontend/src/components/tasks/TaskFilters.tsx:100 | the 'all' entry unsets the field and any other value sets it |
| TaskFilters.Apply | frontend/src/components/tasks/TaskFilters.tsx:90-349 | each control overrides only its own field |
| TaskFilters.ChangeCount | frontend/src/components/tasks/TaskFilters.tsx:49-57 | a change moves the count by exactly the change in its own field, and search never moves it |
| TaskFilters.ParseIntText | frontend/src/components/tasks/TaskFilters.tsx:72 | parsing fails exactly for a text not starting with a digit |
| TaskFilters.FormatTimeDisplay | frontend/src/components/tasks/TaskFilters.tsx:69-76 | the display is empty exactly for an empty time |
| TaskFilters.FormatTimeSplit | frontend/src/components/tasks/TaskFilters.tsx:71-75 | for "hh:mm" the minutes are copied as they stand and the hour is shown on the twelve-hour clock with its half of the day |
| TaskFilters.FormatTimeParts | frontend/src/components/tasks/TaskFilters.tsx:73-75 | hour 0 reads 12 AM, 1 to 11 AM, 12 reads 12 PM, and 13 onwards lose twelve and are PM |
| TaskFilters.FormatClock | frontend/src/components/tasks/TaskFilters.tsx:69-76 | a typed `HH:mm` time displays an hour in 1..12, its minutes as typed, and AM exactly before noon |
| TaskFilters.DisplayHourInjective | frontend/src/components/tasks/TaskFilters.tsx:73-74 | the displayed hour and its half of the day give back the hour |
| RecentTasks.CalculateTotalTime | frontend/src/components/dashboard/RecentTasks.tsx:57-61 | 0 with no entries, and otherwise the sum of the durations present |
| RecentTasks.CalculateTotalTimeNonNegative | frontend/src/components/dashboard/RecentTasks.tsx:57-61 | with no negative duration the total is not negative |
| RecentTasks.FormatDuration | frontend/src/components/dashboard/RecentTasks.tsx:63-73 | under a minute gives "0m", under an hour "<m>m", a whole hour count "<h>h", otherwise "<h>h <m>m", leftover seconds dropped |
| RecentTasks.FormatDurationRoundTrip | frontend/src/components/dashboard/RecentTasks.tsx:63-73 | reading the display back gives the whole minutes |
| RecentTasks.FormatDurationSameMinutes | frontend/src/components/dashboard/RecentTasks.tsx:66-72 | two durations display alike exactly when they have the same whole minutes |
| RecentTasks.MinutesSplit | frontend/src/components/dashboard/RecentTasks.tsx:66-67 | the hours and the leftover minutes make up the whole minutes, with leftover minutes below 60 |
| RecentTasks.SortedTasks | frontend/src/components/dashboard/RecentTasks.tsx:92-93 | a permutation of the tasks, most recently updated first |
| RecentTasks.SortedTasksStable | frontend/src/components/dashboard/RecentTasks.tsx:92-93 | tasks updated at the same instant keep their order |
| RecentTasks.CountsOf | frontend/src/components/dashboard/RecentTasks.tsx:158 | the three counts add up to the number of tasks |
| RecentTasks.CountsIgnoreOrder | frontend/src/components/dashboard/RecentTasks.tsx:158-170 | counting the sorted list gives the counts of the tasks |
| RecentTasks.ToggleTarget | frontend/src/components/dashboard/RecentTasks.tsx:98-100 | IN_PROGRESS exactly for a completed task, COMPLETED exactly for any other |
| RecentTasks.ToggleTargetVersusServer | frontend/src/components/dashboard/RecentTasks.tsx:98-100 | the card and the server's toggle agree exactly on tasks not completed |
| TaskStore.Updated | frontend/src/store/taskStore.ts:43-45 | same length, the answer in place of each task with the id, every other task kept |
| TaskStore.Deleted | frontend/src/store/taskStore.ts:54-56 | exactly the tasks with another id remain |
| TaskStore.DeleteUndoesCreate | frontend/src/store/taskStore.ts:31-60 | deleting a task just created gives back the list before |
| TaskStore.DeleteAfterUpdate | frontend/src/store/taskStore.ts:40-60 | deleting after an update of the same task is deleting alone, and deleting twice is deleting once |
| TaskStore.ActionsKeepIdsUnique | frontend/src/store/taskStore.ts:31-71 | create with a new id, update keeping the id, and delete all keep ids unique |
| TaskStore.Store.FetchTasks | frontend/src/store/taskStore.ts:21-29 | success replaces the list, failure keeps it and records the message, loading ends either way |
| TaskStore.Store.CreateTask | frontend/src/store/taskStore.ts:31-38 | success puts the created task before the old list, failure changes nothing and passes the error on |
| TaskStore.Store.UpdateTask | frontend/src/store/taskStore.ts:40-49 | success replaces the task with the id by the answer, failure changes nothing |
| TaskStore.Store.DeleteTask | frontend/src/store/taskStore.ts:51-60 | success removes the tasks with the id, failure changes nothing |
| CategoryStore.Created | frontend/src/store/categoryStore.ts:33-35 | the old categories plus the new one, ascending by name |
| CategoryStore.CreatedStable | frontend/src/store/categoryStore.ts:33-35 | categories of equal name keep their order, the new one after the old ones |
| CategoryStore.Updated | frontend/src/store/categoryStore.ts:41-45 | same length and order, the answer in place of the category with the id |
| CategoryStore.Deleted | frontend/src/store/categoryStore.ts:50-52 | exactly the categories with another id remain |
| CategoryStore.DeleteUndoesCreate | frontend/src/store/categoryStore.ts:30-53 | deleting a category just created gives back the categories, ordered by name |
| CategoryStore.UpdateCanUnorder | frontend/src/store/categoryStore.ts:39-46 | a rename can leave the list out of name order |
| CategoryStore.Store.FetchCategories | frontend/src/store/categoryStore.ts:18-28 | success replaces the list, failure keeps it, loading ends either way |
| CategoryStore.Store.CreateCategory | frontend/src/store/categoryStore.ts:30-37 | the answer is returned; success inserts in name order, failure changes nothing |
| CategoryStore.Store.UpdateCategory | frontend/src/store/categoryStore.ts:39-46 | success replaces the category with the id, failure changes nothing |
| CategoryStore.Store.DeleteCategory | frontend/src/store/categoryStore.ts:48-53 | success removes the categories with the id, failure changes nothing |
| AnalyticsStore.TimeRangeNamesAreTokens | frontend/src/store/analyticsStore.ts:4-9 | each range value is exactly the server's token of that range |
| AnalyticsStore.InitialFilters | frontend/src/store/analyticsStore.ts:75-82 | today's range and every other field empty |
| AnalyticsStore.Merge | frontend/src/store/analyticsStore.ts:85-87 | a supplied field overrides and every other keeps its value |
| AnalyticsStore.MergeTwice | frontend/src/store/analyticsStore.ts:84-90 | two merges are one merge where the later change wins |
| AnalyticsStore.BuildParams | frontend/src/store/analyticsStore.ts:96-103 | the appends give the parameters of the set fields in key order |
| AnalyticsStore.QueryParamsUnfolded | frontend/src/store/analyticsStore.ts:98-103 | the parameters are the six optional parameters in the order timeRange, startDate, endDate, categoryId, status, priority |
| AnalyticsStore.ParamKeysOrdered | frontend/src/store/analyticsStore.ts:98-103 | a key is present exactly for a set field, in append order |
| AnalyticsStore.ParamsRoundTrip | frontend/src/store/analyticsStore.ts:96-105 | reading a key back from the parameters gives its field, "" for an unset one |
| AnalyticsStore.ErrorText | frontend/src/store/analyticsStore.ts:109 | the server's message when it sent one, and otherwise a non-empty fixed text |
| AnalyticsStore.Store.StartFetch | frontend/src/store/analyticsStore.ts:93-105 | loading starts, the error is cleared, and the request carries the current filters' parameters |
| AnalyticsStore.Store.FinishFetch | frontend/src/store/analyticsStore.ts:106-111 | success stores the report, failure keeps the last one and stores the message, loading ends |
| AnalyticsStore.Store.SetFilters | frontend/src/store/analyticsStore.ts:84-90 | the filters become the merge and a fetch with them starts |
| AnalyticsStore.Store.ExportRequest | frontend/src/store/analyticsStore.ts:115-127 | the export uses exactly the fetch's parameters and changes nothing |
| AnalyticsPage.FilteredTasks | frontend/src/app/dashboard/analytics/page.tsx:52-59 | no report gives no rows; otherwise a row is shown exactly when it is the report's and matches |
| AnalyticsPage.FilteredTasksKeepOrder | frontend/src/app/dashboard/analytics/page.tsx:52-59 | shown rows keep the report's order |
| AnalyticsPage.EmptySearchShowsAll | frontend/src/app/dashboard/analytics/page.tsx:52-59 | an empty term shows every row |
| AnalyticsPage.SearchIgnoresCase | frontend/src/app/dashboard/analytics/page.tsx:53 | upper- or lower-casing the term changes nothing |
| AnalyticsPage.CompletionText | frontend/src/app/dashboard/analytics/page.tsx:620-622 | "No tasks yet" exactly when there is no report or it counts no tasks |
| AnalyticsPage.CompletionTextOfReport | frontend/src/app/dashboard/analytics/page.tsx:620-622 | with tasks, the caption is a whole percentage in 0..100 on the progress bar's rounding, and 100 when all are completed |
| AnalyticsPage.HexToRgb | frontend/src/app/dashboard/analytics/page.tsx:273-278 | three bytes; grey for any text that is not an optional '#' and six hex digits |
| AnalyticsPage.HexRoundTrip | frontend/src/app/dashboard/analytics/page.tsx:273-278 | reading back the hex text of a colour gives the colour, with or without '#' |
| AnalyticsPage.RgbHexOfColor | frontend/src/app/dashboard/analytics/page.tsx:273-278 | a saved six-digit colour is spelt again, in lower case, by the text of its bytes |
| AnalyticsPage.SavedColorsDrawn | frontend/src/app/dashboard/analytics/page.tsx:220 | a saved long colour is read as bytes and a saved short colour is drawn grey |
| AnalyticsPage.ShortColorDrawnGrey | frontend/src/app/dashboard/analytics/page.tsx:274-277 | "#fff" is a colour a category may be saved with and is drawn grey |
| AnalyticsPage.ExpandedHexToRgb | frontend/src/app/dashboard/analytics/page.tsx:273-278 | the corrected conversion also yields bytes |
| AnalyticsPage.ExpandedDrawsSavedColors | frontend/src/app/dashboard/analytics/page.tsx:273-278 | the corrected conversion draws every saved colour as the colour it names, never grey for a short form |
| AnalyticsPage.Truncated | frontend/src/app/dashboard/analytics/page.tsx:247 | a description of at most 120 characters is kept; a longer one becomes its first 120 characters and "..." |
| AnalyticsPage.TruncatedUnchanged | frontend/src/app/dashboard/analytics/page.tsx:247 | the text is kept exactly when it fits or is already 120 characters and "..." |
| AnalyticsPage.TruncatedIdempotent | frontend/src/app/dashboard/analytics/page.tsx:247 | truncating twice is truncating once |
| ProgressBar.Percentage | frontend/src/components/dashboard/ProgressBar.tsx:10 | 0 for no tasks, and otherwise the nearest whole percent with halves rounded up |
| ProgressBar.PercentageBounds | frontend/src/components/dashboard/ProgressBar.tsx:10 | within 0..100 when completed is at most total; 100 when all are completed; 0 when none is |
| ProgressBar.PercentageMonotone | frontend/src/components/dashboard/ProgressBar.tsx:10 | more completed tasks never shrink the bar |
| ProfileDropdown.GetInitials | frontend/src/components/layout/ProfileDropdown.tsx:44-51 | "U" for a missing or empty name, never more than two characters, starting with the name's upper-cased first character |
| ProfileDropdown.InitialsOfTwoWords | frontend/src/components/layout/ProfileDropdown.tsx:46-48 | two words or more give the upper-cased initials of the first two |
| ProfileDropdown.InitialsOfOneWord | frontend/src/components/layout/ProfileDropdown.tsx:50 | one word gives its upper-cased initial |
| ProfilePage.PasswordCheck | frontend/src/app/dashboard/profile/page.tsx:56-64 | the change passes exactly when the confirmation matches and the password has at least 6 characters; a mismatch is reported first |
| ProfilePage.MismatchReportedFirst | frontend/src/app/dashboard/profile/page.tsx:56-64 | a short mismatched password is reported as a mismatch |
| ProfilePage.FailureText | frontend/src/app/dashboard/profile/page.tsx:78 | the server's message, or 'Failed to change password' |
| ProfilePage.PasswordForm.HandlePasswordChange | frontend/src/app/dashboard/profile/page.tsx:51-80 | a failed check shows its message and sends nothing; otherwise the passwords are sent, success clears the three fields and failure keeps them |
| Sorting.SortDesc | backend/src/analytics/analytics.service.ts:427 | a permutation of the input, descending by key |
| Sorting.SortDescStable | backend/src/analytics/analytics.service.ts:427 | elements with equal keys keep their order |
| Sorting.SortAscStr | frontend/src/store/categoryStore.ts:34 | a permutation of the input, ascending by a string key |
| Sorting.SortAscStrStable | frontend/src/store/categoryStore.ts:34 | elements with equal string keys keep their order |
| Sorting.InsertAscStrStable | frontend/src/store/categoryStore.ts:34 | one insertion puts the new element before the equal-keyed ones it precedes in the input |
| AnalyticsCategories.FoldStep | backend/src/analytics/analytics.service.ts:380-400 | the buckets after one more task are the buckets before it with that task added |
| AnalyticsCategories.AddTaskNames | backend/src/analytics/analytics.service.ts:394-399 | after a task, a name has a bucket exactly when it had one before or is the task's label |
| AnalyticsCategories.AddTaskSum | backend/src/analytics/analytics.service.ts:394-399 | a task adds exactly its tracked time to the buckets' total |
| AnalyticsCategories.ShareNames | backend/src/analytics/analytics.service.ts:402-429 | after mapping and sorting, a name has a share exactly when it had a bucket |
| AnalyticsCategories.ShareMinutesOf | backend/src/analytics/analytics.service.ts:404-429 | sorting keeps every share's minutes rounded from its category's total |
| AnalyticsCategories.DistinctShares | backend/src/analytics/analytics.service.ts:380-429 | no two shares of the distribution name the same category |
| AnalyticsTrend.LastCompleted | backend/src/analytics/analytics.service.ts:237-239 | one more day adds that day's completions to the trend's total |
| AnalyticsTrend.CountWithin | backend/src/analytics/analytics.service.ts:237-239 | half-open intervals side by side count every element once |
| AnalyticsTrend.SumWithin | backend/src/analytics/analytics.service.ts:241-243 | half-open intervals side by side sum every element once |
| AnalyticsRange.ShiftDays | backend/src/analytics/analytics.service.ts:480-489 | going back k whole days lowers the local day by exactly k |
| AnalyticsStore.LookupSetParams | frontend/src/store/analyticsStore.ts:96-103 | a key appended once reads back as its field's value |
| AnalyticsStore.LookupAbsent | frontend/src/store/analyticsStore.ts:96-103 | a key never appended reads back as "" |
| AnalyticsStore.Store.constructor | frontend/src/store/analyticsStore.ts:72-82 | no data, not loading, no error, the initial filters |
| TaskStore.Store.constructor | frontend/src/store/taskStore.ts:17-19 | an empty list, not loading, no error |
| CategoryStore.Store.constructor | frontend/src/store/categoryStore.ts:15-16 | an empty list, not loading |
| ProfilePage.PasswordForm.constructor | frontend/src/app/dashboard/profile/page.tsx:21-25 | the three password fields empty and no message |
| AnalyticsPage.RgbHex | frontend/src/app/dashboard/analytics/page.tsx:273-278 | the hex text of a byte colour is a valid seven-character colour |
| AnalyticsPage.HexToRgbOfColor | frontend/src/app/dashboard/analytics/page.tsx:276 | a '#' and six hex digits give the three pair values as bytes |
| RecentTasks.TotalTimeRecorded | frontend/src/components/dashboard/RecentTasks.tsx:57-61 | the total is the sum over exactly the entries with a duration |
| RecentTasks.CountsTotal | frontend/src/components/dashboard/RecentTasks.tsx:158-170 | every task is counted under exactly one of the three statuses |
| TasksService.ReplaceKeepsIds | backend/src/tasks/tasks.service.ts:103-106 | replacing a row with one of the same id keeps ids distinct |
| Tables.FindEntry | backend/src/time-entries/time-entries.service.ts:48-50 | the lookup by id finds an entry with that id, or none exists |
| Tables.FindCategory | backend/src/categories/categories.service.ts:45-50 | the lookup by id finds a category with that id, or none exists |
| Tables.FirstIndex | backend/src/categories/categories.service.ts:45-50 | the index found is the first whose row satisfies the test, or no row does |
| Tables.RemoveRow | backend/src/tasks/tasks.service.ts:116-118 | one row fewer, the others in order |
| Domain.ParseStatus | backend/src/tasks/tasks.service.ts:35-37 | a text is a status exactly when it is that status's name |
| Domain.ParsePriority | backend/src/tasks/tasks.service.ts:39-41 | a text is a priority exactly when it is that priority's name |
| Domain.UtcDay | backend/src/analytics/analytics.service.ts:362 | the UTC day number of an instant is the day containing it |
| Domain.LocalDay | backend/src/analytics/analytics.service.ts:476-479 | the local day number of an instant is the day containing it shifted by the offset |
| Domain.StartOfLocalDay | backend/src/analytics/analytics.service.ts:478 | the local midnight on or before the instant, on the same local day |
| Domain.EndOfLocalDay | backend/src/analytics/analytics.service.ts:473 | the last millisecond of the instant's local day, on or after the instant |
| Domain.SameLocalDay | backend/src/analytics/analytics.service.ts:490-495 | an instant is on t's local day exactly when it lies between t's day bounds |
| TasksPage.Clock | frontend/src/app/dashboard/tasks/page.tsx:82-90 | the `HH:mm` text is five characters |
| TasksPage.MinuteOfDay | frontend/src/app/dashboard/tasks/page.tsx:82-90 | the local minute of day lies in 0..1439 |
| TaskFilters.LeadingDigits | frontend/src/components/tasks/TaskFilters.tsx:72 | the longest prefix made only of digits |
| TaskFilters.ParseTwoDigits | frontend/src/components/tasks/TaskFilters.tsx:72 | parsing a two-digit text gives its number |
| TaskFilters.SplitTime | frontend/src/components/tasks/TaskFilters.tsx:71 | splitting "hh:mm" at ':' gives the hour and minute texts |
| Common.RoundDiv | backend/src/analytics/analytics.service.ts:348 | the nearest integer to n / d, halves rounded up |
| Common.FloorDiv | backend/src/time-entries/time-entries.service.ts:61 | the largest integer not above n / d |
| Common.JsRem | frontend/src/components/dashboard/RecentTasks.tsx:67 | the remainder left by the quotient truncated toward zero: it takes the sign of the dividend and is smaller than the divisor |
| Common.TruncDiv | frontend/src/components/dashboard/RecentTasks.tsx:67 | the quotient rounded toward zero |
| Tables.FilterKeepsEntries | backend/src/tasks/tasks.service.ts:116 | dropping time entries keeps entry ids distinct and at most one running entry per user |
| Tables.DetachKeepsIds | backend/src/categories/categories.service.ts:71 | setting category ids to null keeps every task's id |
| Tables.CascadeKeepsReferences | backend/src/tasks/tasks.service.ts:116 | after a task and its entries are deleted every remaining entry still names an existing task |
| Tables.WriteKeepsReferences | backend/src/tasks/tasks.service.ts:11-25 | a row whose category id the foreign key accepts keeps every task's category reference valid, appended or replacing a row |
| Tables.SetNullKeepsReferences | backend/src/categories/categories.service.ts:71 | after a category is deleted and references to it nulled no task names it, and every remaining category id still names a row |

## Left out

- Database and HTTP: the ORM queries are filters and sorts over in-memory tables. Controllers, the HTTP client, async waits and React rendering are not modelled.
- The count-only dashboard methods `getDashboardStats`, `getDashboard` and `getTimeTracked` are not modelled. They are aggregate queries with no logic of their own.
- Floating point: JavaScript number arithmetic is replaced by exact integers. `Math.round` and `toFixed(2)` become integer rounding with halves up. The model therefore says nothing about binary rounding error, or about `toFixed`'s own rounding of halves.
- Clock and zone: "now" and the zone offset are parameters. Local time is a fixed offset from UTC, with no daylight-saving change. Day keys (`yyyy-MM-dd` texts) are day numbers, and their text order is not modelled.
- Locale text: `toLocaleString` timestamps in the CSV are an opaque function parameter. `localeCompare` is plain code-point order (`StrLe`).
- Case folding covers only the ASCII letters, for the case-insensitive searches and the hex pattern. String lengths count characters, not UTF-16 code units.
- Custom dates: `getDateRange` receives custom dates already parsed, as instants or absent. Unparseable date strings are not modelled.
- Enumeration filters: a status or priority that is not a valid enumeration value is a rejected query. The database client raises an error there, which the code leaves uncaught. Any categoryId text is accepted as a filter and matches only tasks with exactly that category id; a column type that refuses malformed ids is not modelled.
- Concurrency: the check-then-insert race between the running-timer check and the insert in `startTimer` is not modelled. Calls are sequential.
- Defaults of the database schema: a new task's status and timestamps are the table defaults, TODO and now. The schema is not part of this model. A category's absent colour is kept as absent.
- TasksService.TasksService.Remove and CategoriesService.CategoriesService.Remove: the schema's referential actions are not part of this model. Deleting a task is modelled as cascading to its time entries. Deleting a category is modelled as setting its tasks' category id to null, the default for an optional relation. A schema that restricts instead would make the delete fail while references exist, and that failure is not modelled.
- TasksPage.ApplyFilters: with both dates set, the date filter follows `isWithinInterval` of date-fns 3 and later, which puts the two bounds in order, so a start date after the end date keeps the tasks between the two days. The package manifest is not part of this model: under date-fns 2 the same call throws a RangeError for a reversed interval, and that failure of the page is not modelled.
- TasksService.TasksService.Create and TasksService.TasksService.Update: the foreign key only demands that a supplied category id names an existing category. A category of another user is accepted, as the code does not check its owner either.
- Tie order of the ORM's `orderBy`: rows with equal keys are modelled as keeping table order (a stable sort).
- AnalyticsDaily.AscendingDays: the day keys are ordered by a selection of the smallest key rather than by `Array.prototype.sort`. Only the resulting order is claimed.
- TaskStore.Store.UpdateTask: it models both `updateTask` and `toggleTask`, which differ only in the request they send.
- TaskFilters.ParseIntText: `parseInt` is modelled on leading decimal digits only. Signs, white space and other radixes are not modelled.
- AnalyticsStore.BuildParams: `URLSearchParams` is a list of key/value pairs. Percent-encoding is not modelled.
- `exportPDF` drawing and page breaks are not modelled. Of it, the description truncation and the colour conversion are modelled.
- The profile page's `handleProfileUpdate` and its effects are not modelled. They only copy fields to and from the server.

## Findings

| source | as written | input that shows it | evidently intended | confidence | as-written member | corrected member |
|---|---|---|---|---|---|---|
| frontend/src/app/dashboard/analytics/page.tsx:274 | `hexToRgb` accepts only six hex digits and draws anything else as grey [100, 100, 100] | category colour "#fff", which the category endpoints accept | a saved short colour is drawn as its long form (#ffffff, white) | medium; not executed | AnalyticsPage.ShortColorDrawnGrey | AnalyticsPage.ExpandedDrawsSavedColors |
