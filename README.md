# Usage dashboards: a verified model of the counting core

The repository is a set of Streamlit dashboard scripts over one table of
usage events (organization, division, user, status, `function_mode`,
creation time, response latency, add-on onboarding). Under the rendering,
every script derives a few columns and builds count tables. This project
models that part in Dafny and proves what the tables and numbers mean:

- **Week buckets** (`WeekBucket`): a timestamp falls in `week4` … `week1`
  relative to a reference instant `now` (today at noon), or in none. The four
  closed intervals are `[now-6d, now]`, `[now-13d, now-7d]`,
  `[now-20d, now-14d]` and `[now-27d, now-21d]`. The first-match loop of
  `Main.py` (with its missing-value guard) and the unguarded loop of
  `streamlit_dashboard.py` and `pages/clsa_department.py` are both methods
  proved equal to one bucket function. The calendar dates of a week
  (`pd.date_range(start, end).date`) are modelled too.
- **Row derivations** (`Events`): `agent_type` is the part of `function_mode`
  before the first `:`; `saved_minutes` is 40 for `deep_research` and 30
  otherwise; on the CLSA page a missing `function_mode` or `user_name`
  becomes `unknown`.
- **The count pivot** (`Pivot`, `PivotFrame`): records grouped by a (row key,
  column key) pair and counted over the full cross product of keys, with 0
  for absent pairs. Then a `Total` column of row sums, rows ranked by it,
  `Total` moved first, and a `Total` row of column sums. `Pivot` defines
  each step as a function on a table value. `PivotFrame.Frame` performs the
  same steps in place, as the scripts do, and each method is proved equal to
  its function. The conservation facts are proved once for all key types:
  every row holds its counts, and the `Total` column adds up to the records
  counted. When every record's keys are pivot keys, the grand total equals
  the number of records.
- **The dashboards' tables** (`UsageTables`, `ClsaPage`): agent type × week,
  agent type × calendar date of a selected week, user × agent type for one
  week, the top ten users × agent type, and the CLSA page's function mode ×
  week1..week4 with a trailing `Total` column and a `Total` row.
- **Headline numbers and cohort lists** (`Metrics`): distinct users, active
  users and events; the zero guards of the averages; the invited,
  joined-without-usage and inactive email lists and their `—` display; the
  organization lists; the top user; the latency validity filter.
- **The persisted user selection** (`Selection`): `st.session_state.selected_users`
  is a class whose methods initialise it only when absent, select all,
  clear all, and compute the multiselect's default. The default is the
  stored users that are still options, in stored order. The main page and
  the CLSA page use the same session slot, so each page sanitises whatever
  the other stored.

Times are whole seconds on the local clock (a day is 86400). The records,
`now`, and the values the widgets return (chosen organization, division,
week, pressed buttons) are parameters.

The week ranges leave a 24-hour gap between consecutive windows (for
example `(now-7d, now-6d)`), so a timestamp in a gap has no bucket.
`WeekBucket.IntervalLayout`, `WeekBucket.UnbucketedExactly` and
`WeekBucket.GapExample` state the gaps.

Timestamps with no bucket are treated in two ways. The weekly table
drops them. The daily table filters by calendar date instead of by bucket,
so it counts whole days. A row a few hours before a week's start falls in no
bucket of that week but is counted in that week's daily table
(`UsageTables.DailyCountsWholeDays`).

## Model

| member | source | states |
|---|---|---|
| Events.AgentTypeOf | Main.py:40 | the agent type is a prefix of the mode with no `:` in it, and when shorter than the mode it stops exactly at the first `:` |
| Events.AgentType | Main.py:40 | the agent type is present exactly when `function_mode` is, and is then a colon-free prefix of it |
| Events.SavedMinutes | Main.py:43-44 | 40 minutes exactly for `deep_research`, 30 for every other type and for a missing one |
| Events.FillUnknown | pages/clsa_department.py:13-14 | a present value is kept, a missing one becomes `unknown` |
| Events.FillClsa | pages/clsa_department.py:13-14 | the filled row has both `function_mode` and `user_name`, holding the filled values, and differs from the input in no other field |
| Events.ClsaRows | pages/clsa_department.py:10-14 | one row per `CLSA` row, in order, each the filled form of its `CLSA` row and so with a mode and a user name; every kept row is the filled form of a `CLSA` row and every `CLSA` row's filled form is kept |
| Events.FilledRows | pages/clsa_department.py:13-14 | filling every row of a list keeps each row's organization, gives each a mode and a user name, and the filled rows are exactly the filled forms of the list's rows |
| WeekBucket.RangesAreWeeks | Main.py:21-26 | the range table has four entries, week4 first down to week1, each with its week's start and end |
| WeekBucket.WeekOf | Main.py:29-35 | a missing timestamp has no bucket; a present one has bucket `w` exactly when it lies in `w`'s closed interval |
| WeekBucket.AssignWeekBucket | Main.py:29-35 | the guarded first-match loop returns a bucket exactly when some interval holds the timestamp, that bucket's interval holds it, and the result equals `WeekOf` |
| WeekBucket.AssignWeekUnguarded | streamlit_dashboard.py:21-25 | the loop without the missing-value guard, where comparisons with a missing time are false, returns the same bucket as `WeekOf`; `pages/clsa_department.py:28-32` does the same |
| WeekBucket.IntervalsDisjoint | Main.py:21-26 | no timestamp lies in two weeks' intervals |
| WeekBucket.IntervalLayout | Main.py:21-26 | each interval spans six days, consecutive intervals are one whole day apart, week4 ends at `now` and week1 starts 27 days before it |
| WeekBucket.UnbucketedExactly | Main.py:32-35 | a present timestamp gets no bucket exactly when it is after `now`, more than 27 days before it, or inside one of the three gaps |
| WeekBucket.GapExample | Main.py:22-23 | twelve hours before week4's start has no bucket, while week4's start and week3's end are bucketed |
| WeekBucket.DayOf | Main.py:39 | the date of a timestamp is the day whose midnight-to-midnight span holds it |
| WeekBucket.WeekDates | Main.py:295-296 | seven dates, the `i`-th being the date of the week's start plus `i` days |
| WeekBucket.WeekDatesCoverWeek | Main.py:295-296 | the dates are consecutive, run from the date of the week's start to the date of its end, and contain the date of every timestamp in the week |
| WeekBucket.AllWeeksDistinct | Main.py:249 | the four week keys are distinct and every week is among them |
| WeekBucket.UsedWeeksDescending | Main.py:293 | the weeks offered are exactly the buckets present, newest first |
| Pivot.CountRow | Main.py:250-253 | one cell per column key, holding that pair's number of records (0 when absent) |
| Pivot.CountGrid | Main.py:246-262 | a well-formed table with one column per column key and one row per row key holding its counts |
| Pivot.RowKeys | Main.py:250 | each row key once, every record's row key present, and every listed key carried by a record |
| Pivot.ColKeys | pages/clsa_department.py:64-69 | each column key present (the weeks with rows) once, every record's column key present, and every listed key carried by a record |
| Pivot.SortedRowKeys | Main.py:436-442 | each user or agent-type row key once, every record's row key present, and every listed key carried by a record |
| Pivot.SortedColKeys | streamlit_dashboard.py:327-333 | each agent-type column key once, every record's column key present, and every listed key carried by a record |
| Pivot.SortedKeysAscending | streamlit_dashboard.py:327-333 | both key lists are in ascending code-point order, as `pivot_table` sorts a plain (not `Categorical`) index and columns |
| Pivot.KeysOfRows | Main.py:250 | when each record carries its source row's key, a string is a row key exactly when some source row has it as key |
| Pivot.SortedRowKeysMembers | Main.py:436-442 | a string is a row key exactly when some record carries it |
| Pivot.MatchesAll | Main.py:266 | when every record's keys are pivot keys, all records are counted |
| Pivot.MatchesAbsent | Main.py:252-253 | a column key no record carries counts 0 |
| Pivot.CountRowSum | Main.py:263 | a row's counts add up to that row key's records under any of the columns |
| Pivot.MatchesColumn | Main.py:266 | when every record's row key is a pivot row, a column's counts total that column key's records |
| Pivot.WithTotalColumn | Main.py:263 | appends `Total` after the existing columns and each row's sum as its last cell |
| Pivot.SortByTotal | Main.py:264 | the same columns; the rows are a permutation of the input rows, in non-increasing `Total` order |
| Pivot.MoveTotalFirst | Main.py:265 | `Total` becomes the first column, the others keep their order, every row's cells are moved the same way |
| Pivot.MoveFirstPermutes | Main.py:265 | moving a column first is a permutation and keeps labels distinct |
| Pivot.WithTotalRow | Main.py:266 | keeps the rows and appends a `Total` row whose every cell is its column's sum |
| Pivot.ColSumRank | Main.py:264 | ranking the rows leaves every column sum unchanged |
| Pivot.RankedColSum | Main.py:264-265 | after ranking and moving `Total` first, each column sums to what its source column summed to |
| Pivot.RankedOrder | Main.py:264-265 | the ranked rows' first cells (their totals) do not increase |
| Pivot.RankedTableRows | Main.py:246-265 | the ranked table has `Total` then the column keys; one row per row key holding `Total` then its counts, `Total` being their sum; rows by non-increasing `Total` |
| Pivot.GridTotalSum | Main.py:263-266 | the grid's `Total` column sums to the records whose keys are both pivot keys |
| Pivot.GridColumnSum | Main.py:266 | a grid column sums to the records with that column key and a pivot row key |
| Pivot.RankedColumnSums | Main.py:263-266 | in the ranked table the `Total` column and each key column sum to the matching records |
| Pivot.RankedKeyColumnSum | Main.py:263-266 | in the ranked table each key column sums to the records with that column key |
| Pivot.GrandTotal | Main.py:266 | the `Total` row holds those column sums |
| Pivot.RankedTotalRow | Main.py:266 | with all record keys among the pivot keys, the `Total` row holds the number of records, then the number under each column key |
| Pivot.CompleteTableFacts | Main.py:246-266 | with all record keys among the pivot keys, the ranked table with totals has the ranked rows and a `Total` row whose first cell is the number of records and whose key cells count each column key |
| Pivot.CompleteRankedFacts | Main.py:436-445 | the same without the `Total` row: the `Total` column adds up to the number of records |
| Pivot.PlainTableFacts | pages/clsa_department.py:72-78 | the unranked grid with both totals: key columns then `Total`, rows with their counts and sum, and a `Total` row with per-column record counts and the number of records last |
| PivotFrame.SumCells | Main.py:263 | the loop's result is the sum of the row's cells |
| PivotFrame.SumColumn | Main.py:266 | the loop's result is the column's sum over the rows |
| PivotFrame.WithZeroColumn | pages/clsa_department.py:74-75 | appends the column with a 0 in every row and changes nothing else |
| PivotFrame.WithMissingColumns | pages/clsa_department.py:73-75 | afterwards every wanted key has a column, existing columns stay, only wanted keys are added, and the row count is unchanged |
| PivotFrame.Reindexed | pages/clsa_department.py:76 | the table has exactly the requested columns, each row holding the cell it had under that label |
| PivotFrame.GridHoldsCounts | pages/clsa_department.py:64-69 | the freshly pivoted grid holds, under every column, that pair's record count |
| PivotFrame.MissingColumnsHoldCounts | pages/clsa_department.py:73-75 | adding zero columns for absent weeks keeps every cell equal to its pair's record count |
| PivotFrame.MatchesAbsentAll | pages/clsa_department.py:74-75 | a key with no column in the pivot has a count of 0 for every row key |
| PivotFrame.ReindexedCounts | pages/clsa_department.py:72-76 | reindexing the widened grid to the four weeks yields exactly the count grid over the four weeks |
| PivotFrame.Frame.FromCounts | Main.py:246-262 | the new frame holds the count grid |
| PivotFrame.Frame.AddTotalColumn | Main.py:263 | the frame afterwards equals `WithTotalColumn` of its old content |
| PivotFrame.Frame.SortByTotalDescending | Main.py:264 | the frame afterwards equals `SortByTotal` of its old content |
| PivotFrame.Frame.MoveTotalColumnFirst | Main.py:265 | the frame afterwards equals `MoveTotalFirst` of its old content |
| PivotFrame.Frame.AddTotalRow | Main.py:266 | the frame afterwards equals `WithTotalRow` of its old content |
| PivotFrame.Frame.AddMissingColumns | pages/clsa_department.py:73-75 | the loop leaves the frame equal to `WithMissingColumns` of its old content |
| PivotFrame.Frame.SelectColumns | pages/clsa_department.py:76 | the frame afterwards equals `Reindexed` of its old content |
| Metrics.OrgRows | Main.py:62 | exactly the rows of the chosen organization |
| Metrics.WithStatus | Main.py:92-93 | exactly the rows with the given status |
| Metrics.ActiveRows | Main.py:63 | exactly the active rows, never more than the input |
| Metrics.Emails | Main.py:67-68 | the set of present emails of the rows |
| Metrics.TotalUsers | Main.py:67 | at most one user per row, and zero exactly when no row carries an email |
| Metrics.ActiveUsers | Main.py:68 | at most one user per active row, and zero exactly when no active row carries an email |
| Metrics.TotalEvents | Main.py:66 | at most the organization's rows, and zero exactly when no row is active |
| Metrics.NoEmails | Main.py:67-68 | no distinct email exactly when no row carries one |
| Metrics.EmailsAtMostRows | Main.py:67 | there are no more distinct emails than rows |
| Metrics.EmailsMonotone | Main.py:67-68 | the emails of a subset of rows are a subset of the emails |
| Metrics.ActiveWithinTotal | Main.py:66-69 | active users never exceed total users nor the number of active events |
| Metrics.AvgEventsOf | Main.py:80 | zero exactly when there are no active users, otherwise events over active users |
| Metrics.SavedMinutesSum | Main.py:85 | the sum lies between 30 and 40 minutes per row |
| Metrics.UsedWeeks | Main.py:83 | exactly the buckets of the organization's rows |
| Metrics.AtMostFourWeeks | Main.py:83 | at most four buckets are ever in use |
| Metrics.SavedTimeOf | Main.py:83-89 | a dash exactly when no bucket is used or no user is active, otherwise minutes per active user per used week; `streamlit_dashboard.py:65-71` does the same |
| Metrics.OnboardedUsers | Main.py:105-107 | both onboarded counts are at most the organization's users |
| Metrics.OnboardedEarnings | Main.py:105 | exactly the rows onboarded to earnings |
| Metrics.OnboardedBriefing | Main.py:106 | exactly the rows onboarded to briefing |
| Metrics.EmailColumn | Main.py:92 | exactly the present emails of the rows |
| Metrics.StatusEmails | Main.py:92-93 | each email once, exactly those of rows with that status |
| Metrics.NotActiveRows | streamlit_dashboard.py:74 | exactly the rows whose email is missing or never active |
| Metrics.InactiveEmails | streamlit_dashboard.py:74 | each email once, exactly the organization's emails that no active row carries |
| Metrics.ComplementCount | streamlit_dashboard.py:74 | a repeat-free list of a set's members outside a subset is as long as the size difference |
| Metrics.InactivePartition | streamlit_dashboard.py:74 | inactive emails are disjoint from active ones, and inactive plus active users make all users |
| Metrics.JoinComma | Main.py:95-96 | the joined text starts with the first item and its length is the items' lengths plus two per separator |
| Metrics.EmailsDisplay | Main.py:95-96 | a dash for no emails, otherwise the comma-joined list; `streamlit_dashboard.py:75` does the same |
| Metrics.OrgColumn | streamlit_dashboard.py:40 | exactly the present organizations of the rows |
| Metrics.SortedOrgs | streamlit_dashboard.py:40-41 | the organizations present, strictly ascending |
| Metrics.OrgsByActivity | Main.py:50-56 | each organization with an active row once, by non-increasing active-row count |
| Metrics.NameColumn | Main.py:72 | exactly the present user names of the rows |
| Metrics.NameCountPositive | Main.py:72-74 | a user name that occurs is counted at least once |
| Metrics.NameCountZero | Main.py:72-74 | a name that does not occur is counted 0 times |
| Metrics.ArgMax | Main.py:73-74 | a candidate whose score is at least every other candidate's |
| Metrics.TopUser | Main.py:71-77 | none exactly when no active row has a user name; otherwise a user with the largest count, and that count; `streamlit_dashboard.py:54-59` does the same |
| Metrics.ValidLatency | Main.py:457-458 | a value survives exactly when it is present and in `(0, 300000]`, unchanged |
| Metrics.FilterLatencies | Main.py:455-458 | same length; every survivor is in `(0, 300000]` and equal to its input; exactly the in-range values survive |
| Selection.ValidDefault | Main.py:214 | the stored users that are options, as a subsequence of the stored list (order kept) |
| Selection.ValidDefaultKeepsOptions | Main.py:207-214 | a stored list made only of options is shown unchanged |
| Selection.ValidDefaultAppend | Main.py:214 | sanitising a list with one more user appends that user exactly when it is an option |
| Selection.SelectionState.constructor | Main.py:201 | a fresh session stores nothing |
| Selection.SelectionState.InitIfAbsent | Main.py:201-202 | the defaults are stored only when nothing was stored; a stored list is kept |
| Selection.SelectionState.SelectAll | Main.py:207-208 | the stored list becomes all sorted users |
| Selection.SelectionState.ClearAll | Main.py:210-211 | the stored list becomes empty |
| Selection.SelectionState.DefaultShown | Main.py:214 | the loop's result equals `ValidDefault` of the stored list |
| Selection.RunUserPicker | Main.py:200-221 | the users shown are options; clear-all stores and shows nobody; select-all (without clear-all) stores and shows everyone; otherwise the store is initialised to the defaults only when empty, and its sanitised list is shown |
| UsageTables.BuildRankedTable | Main.py:263-266 | the in-place steps produce the ranked table, with the `Total` row when asked |
| UsageTables.WeeklyRows | Main.py:246 | exactly the organization's rows with a bucket and an agent type |
| UsageTables.WeeklyPairs | Main.py:246 | one (agent type, week) record per kept row |
| UsageTables.WeeklyTable | Main.py:246-266 | the weekly table built in place equals the ranked table with totals over all four weeks |
| UsageTables.WeeklyTableFacts | Main.py:246-266 | `Total` then week1..week4; a ranked row per agent type with its counts (0 where absent); rows by non-increasing `Total`; the `Total` row's first cell is the number of rows with a bucket and an agent type; `streamlit_dashboard.py:172-192` does the same |
| UsageTables.WeeklyAgents | Main.py:250 | the table's agent types are exactly those of the bucketed rows |
| UsageTables.WeekOptions | Main.py:293 | the weeks offered are exactly those of some row, newest first |
| UsageTables.DailyRows | Main.py:299 | exactly the rows with an agent type dated on one of the week's seven dates |
| UsageTables.DailyPairs | Main.py:308 | one (agent type, date) record per kept row |
| UsageTables.WeekDatesDistinct | Main.py:296 | the seven dates are distinct |
| UsageTables.DailyTable | Main.py:299-367 | the daily table built in place equals the ranked table with totals of agent types over the seven dates |
| UsageTables.DailyTableFacts | Main.py:295-367 | `Total` then the week's seven dates; a ranked row for every agent type, by non-increasing `Total`; the `Total` row's first cell is the number of rows with an agent type dated in the week and its date cells count the rows on each date; `streamlit_dashboard.py:218-283` does the same |
| UsageTables.WeeklyRowsInDaily | Main.py:295-299 | every row the weekly table counts in a week is counted by that week's daily table |
| UsageTables.DailyCountsWholeDays | Main.py:296-299 | with `now` at noon, a time six hours before the week's start is outside the week's bucket yet on one of its dates |
| UsageTables.UserAgentPairs | Main.py:383 | one (user, agent type) record per row |
| UsageTables.UserWeekRows | Main.py:380-383 | exactly the rows of the selected week with a user name and an agent type |
| UsageTables.UserWeekPairs | Main.py:383 | one record per such row |
| UsageTables.FunctionOrder | Main.py:386-409 | `sorted_func_order`: each agent type of the week's records once, by non-increasing record count; the `Categorical` over it fixes the user table's column order |
| UsageTables.UserWeekTable | Main.py:405-445 | the user table built in place equals the ranked table over the week's users, its columns in `sorted_func_order` |
| UsageTables.UserWeekTableFacts | Main.py:380-445 | `Total` then the agent types in `sorted_func_order`; a ranked row for every user and no other; rows by non-increasing `Total`; the `Total` column adds up to the week's rows with a user and an agent type |
| UsageTables.FunctionTableFacts | Main.py:405-445 | the same for any (user, agent type) records: the `Total` column adds up to the number of records |
| UsageTables.StackRows | streamlit_dashboard.py:290 | exactly the rows with a bucket, a user name and an agent type |
| UsageTables.StackPairs | streamlit_dashboard.py:290 | one (user, agent type) record per such row |
| UsageTables.UserRanking | streamlit_dashboard.py:293 | each user of the records once, by non-increasing record count |
| UsageTables.TopUsers | streamlit_dashboard.py:293 | the first ten users of that ranking, or all of them when there are fewer: ten exactly when there are at least ten users, each a user of the records, none twice |
| UsageTables.TopPairs | streamlit_dashboard.py:294 | exactly the records of the top users |
| UsageTables.TopUserTable | streamlit_dashboard.py:327-336 | the table built in place equals the ranked table over the top users' records |
| UsageTables.TopUserTableFacts | streamlit_dashboard.py:293-336 | a row for every top user and no other, so at most ten rows, by non-increasing `Total` |
| UsageTables.KeptTableFacts | streamlit_dashboard.py:294-334 | the table of the records kept for a list of users has a row for each of them and no other |
| UsageTables.KeptRowsWithin | streamlit_dashboard.py:294-334 | when all kept records belong to the listed users, the table has no more rows than users, each named by one of them |
| UsageTables.KeptRowsCover | streamlit_dashboard.py:294-334 | when every record of a listed user is kept, each listed user who has a record has a row |
| UsageTables.KeptRowFor | streamlit_dashboard.py:294-334 | the same for one listed user |
| UsageTables.KeptKeys | streamlit_dashboard.py:294 | a listed user with a record keeps a record |
| UsageTables.RowForKey | streamlit_dashboard.py:327-334 | a ranked table has a row named by each of its row keys, at the returned index |
| UsageTables.RankedRowsWithin | streamlit_dashboard.py:294-334 | a ranked table whose row keys all lie in a list has at most that many rows, each named by one of them |
| UsageTables.RowKeysWithin | streamlit_dashboard.py:294 | the users of records whose users all lie in a list are among that list |
| UsageTables.TopUsersDominate | streamlit_dashboard.py:293 | every user left out has no more records than any user kept |
| UsageTables.UserDailyRows | Main.py:187-189 | exactly the active rows with a date and a user name |
| UsageTables.SortedUsers | Main.py:196-197 | each user of those rows once, by non-increasing row count; `streamlit_dashboard.py:140-141` does the same |
| UsageTables.DefaultUsers | Main.py:198 | the first three ranked users (all when fewer), none left out busier than any chosen; `streamlit_dashboard.py:142` does the same |
| ClsaPage.DivisionColumn | pages/clsa_department.py:40 | exactly the present divisions of the rows |
| ClsaPage.Divisions | pages/clsa_department.py:40 | the divisions present, strictly ascending |
| ClsaPage.DivisionRows | pages/clsa_department.py:41-44 | exactly the rows of the chosen division, and none when there is no division to choose |
| ClsaPage.ClsaUsers | pages/clsa_department.py:47 | the division's user names, strictly ascending |
| ClsaPage.ClsaUserPicker | pages/clsa_department.py:48-58 | the users shown are options; with nothing stored the first three users are stored and shown; otherwise the store is kept and its sanitised list is shown |
| ClsaPage.ClsaFilteredRows | pages/clsa_department.py:61 | exactly the division's rows of the users shown |
| ClsaPage.ClsaWeekRows | pages/clsa_department.py:65 | exactly the filtered rows with a week |
| ClsaPage.ClsaPairs | pages/clsa_department.py:65-66 | one (function mode, week) record per such row |
| ClsaPage.WidenedTable | pages/clsa_department.py:64-78 | pivoting the weeks present, adding zero columns, reindexing and adding both totals gives the count grid over all four weeks with both totals |
| ClsaPage.ClsaTable | pages/clsa_department.py:64-78 | the page's table built in place equals that grid |
| ClsaPage.ClsaTableFacts | pages/clsa_department.py:64-78 | week1..week4 then `Total`; one row per function mode with its counts and their sum; the `Total` row counts each week and its last cell is the number of filtered rows with a week |
| ClsaPage.ClsaModes | pages/clsa_department.py:65-68 | the table's function modes are exactly the filled modes of the rows with a week |
| ClsaPage.RunClsaPage | pages/clsa_department.py:40-78 | one run: the user options are the division's users, the users shown are options, and the table is the grid over their rows; with nothing stored the first three users are stored and shown, otherwise the store is kept and its sanitised list is shown |
| Common.Filter | Main.py:62 | the kept elements are exactly those of the input satisfying the predicate, each as often as in the input |
| Common.Unique | Main.py:250 | each element once, exactly the input's elements |
| Common.SortedDistinct | streamlit_dashboard.py:41 | strictly ascending in code-point order, exactly the input's elements |
| Common.RankDescending | Main.py:197 | a permutation in non-increasing score order |
| Common.RankDistinct | Main.py:50-56 | distinct keys ranked by non-increasing score are the same keys, each once |
| Common.PermutationKeepsDistinct | Main.py:196-197 | a reordering of a list without repeats has no repeats |
| Common.Take | Main.py:198 | the first `k` elements, or all when fewer |
| Common.TopKDominates | streamlit_dashboard.py:293 | every element among the first `k` of a ranking scores at least every element after them |

## Left out

- Loading the CSV and reading the wall clock: the records and `now` are parameters. `now` is assumed to be today at noon only where a lemma says so.
- Rendering: page setup, metric cards, HTML boxes, charts (Plotly, Altair), the chart-only orderings (`sorted_agent_order`, `agent_order_for_stack`, and the `sorted_func_order` of `streamlit_dashboard.py`) and the `strftime` labels. The chart's own top-ten filter of `Main.py` (`df_user_stack_chart`) is left out with the chart.
- Widgets: the selectboxes, buttons and multiselects are not modelled. What they return is a parameter. The user's own edits in a multiselect, and its write-back to the session slot, are not modelled. The model computes the default the widget shows.
- Floating point: the rounded averages, the time-saved ratio, the millisecond-to-second division, and the latency median, mean and 95th percentile are left out. `Metrics.AvgEventsOf` and `Metrics.SavedTimeOf` keep numerator and denominators as integers and state the guards.
- Metrics.TopUser: picks the first name with the largest count; pandas' `idxmax` tie order is not modelled.
- Common.RankDescending: a stable insertion sort. The sort pandas uses here is not stable, so the order of rows with equal totals is not modelled. The same holds for `nlargest` among equal counts (`UsageTables.TopUsers`) and for agent types with equal counts in `sorted_func_order` (`UsageTables.FunctionOrder`).
- Common.SortedDistinct: strings are ordered by code point, which is how Python compares them; locale-aware collation is not modelled.
- UsageTables.DailyTableFacts: the page's day columns are labelled `%m-%d` and `pivot_table` sorts them as text. In a week that crosses New Year the displayed order differs from date order. The model keeps date order.
- A row or column key literally named `Total` would collide with the totals; the model keeps the two apart by construction.
- The week pickers: with no bucketed row the picker yields nothing and the page fails on the range lookup. The model takes the chosen week as a parameter.
- `clsa_dashboard.py` is not part of this model. Its bucketing is a pandas period call, the rest is charting and a float mean, and its derived columns repeat those of `Main.py`.
- Events.Event: `timeToFirstByte` is a whole number of milliseconds; the source column is floating point, so fractional latencies are not represented.
- The `created_date` and `day_bucket` columns are not modelled as columns: the dates are computed where they are used.
