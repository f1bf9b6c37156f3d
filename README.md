# TravianAuto, modelled in Dafny

TravianAuto is a bot for the browser game Travian. Each configured account has a
browser session. A background scheduler runs one job per account and task. The jobs
refresh the page, upgrade the lowest resource field, watch for incoming attacks,
train troops, check for Gold Club membership, raid farm lists, collect mission and
daily-quest rewards, send the hero on adventures and spend hero points. Every step
ends by re-registering its own job with a random delay from a range fixed per task,
and writes one message into a module-level log dictionary keyed by the job id. A
live console table shows, per account, the jobs whose id contains its username, with their next run time, a
countdown and the latest log message.

This project models that core:

- `Base.dfy`: the option, result and error types, and a step's completion (normal or raised).
- `Text.dfy`: the string helpers the code relies on: substring test, ASCII digits, Python's `int()` on a stripped string, `lower()`, and Python's string order.
- `Jobs.dfy`: the eleven job kinds, their id suffixes, the `<username>_<suffix>` job id and its injectivity, triggers and jobs.
- `Registry.dfy`:
  - the scheduler's job store as a class, with `add_job`, `get_job`, `remove_job`, `pause_job`, firing a due job and `get_jobs`;
  - the log dictionary as a class;
  - `calc_new_interval_between`.
- `Timer.dfy`: `convert_timer_time_to_seconds` and its round trip.
- `Fields.dfy`: the two loops that choose the resource field to upgrade.
- `FarmList.dfy`: the row scan of `activate_farm_list_raids_for`.
- `Attack.dfy`: `incoming_attack`.
- `Tasks.dfy`: the other nine task steps.
- `Startup.dfy`: the per-account job registration at startup.
- `Status.dfy`: the rows of the live status table.

### How the world is represented

- The browser is not modelled. Each step receives what it would read from the page as a value: the field links, the movement rows, the farm-list rows and footers, the hero bar.
- The scheduler is a `Scheduler?`, so the `scheduler=None` calls are `null`.
- `random.uniform` is a function of the draw `u` in [0, 1).
- The current time is a `real` parameter `now`.
- A Python exception is a `Raised(..)` completion. The model keeps the state at the point of the raise.
- The spending job for an incoming attack is scheduled at `now + T - 120`, where `T` is the attack timer in seconds. Nothing clamps that time, so a timer under two minutes gives a run time before `now` (`Attack.MitigationRunsTwoMinutesEarly`).
- The farm-list scan in `Tasks` reads the footer as the code reads it (see "## Findings"). `FarmList.SelectFarmListRows` and `FarmList.ScanResult` take the footer read as a parameter, so the same scan is also proved with the intended read.

## Model

| member | source | states |
|---|---|---|
| Text.IntOf | TravianAuto.py:743-744 | `int(text)` succeeds exactly when the stripped text is a non-empty run of digits, with the decimal value of those digits; otherwise it raises ValueError |
| Text.IntOfNumber | TravianAuto.py:743-744 | `int` reads back every natural number written in decimal |
| Text.DecimalOfNatToString | TravianAuto.py:1137 | the decimal text of a number has that number as its value |
| Text.DigitsOfConcat | TravianAuto.py:815-816 | removing the non-digits of a concatenation is removing them from each part and concatenating, so the digits keep their order and multiplicity |
| Text.DigitsOfDigits | TravianAuto.py:815-816 | a text of digits only is left as it is |
| Text.DigitsOfNoDigits | TravianAuto.py:815-816 | a text without digits is left empty |
| Text.LowerChar | TravianAuto.py:833 | an upper-case ASCII letter becomes the letter 32 code points above it; every other character is kept |
| Text.Lower | TravianAuto.py:833 | `lower()` keeps the length and maps each character through the ASCII case map |
| Text.StripDropsOuterSpace | TravianAuto.py:511 | `strip()` returns a slice of the text with no whitespace at either end, and only whitespace was removed |
| Text.StripKeepsTrimmed | TravianAuto.py:511 | a text without outer whitespace is its own `strip()` |
| Text.LexLessIrreflexive | TravianAuto.py:1114-1117 | no job id sorts before itself |
| Text.LexLessTransitive | TravianAuto.py:1114-1117 | the string order of job ids is transitive |
| Text.LexLessTotal | TravianAuto.py:1114-1117 | of two different job ids one sorts before the other |
| Text.LexLessAsymmetric | TravianAuto.py:1114-1117 | two job ids never sort before each other |
| Jobs.KeyInjective | TravianAuto.py:38-48 | two `f'{username}_{suffix}'` job ids are equal only for the same account and the same kind, even when usernames contain `_` |
| Jobs.SuffixInjective | TravianAuto.py:38-48 | the eleven suffix constants are pairwise different |
| Jobs.NoSuffixTagsAnother | TravianAuto.py:38-48 | no suffix ends in `_` followed by another suffix, so an id cannot be read as two different (user, kind) pairs |
| Jobs.SplitAtTag | TravianAuto.py:1290-1291 | two ids `u1_s1 == u2_s2` with equal-length suffixes have the same user and suffix, and a longer suffix must end in `_` plus the shorter one |
| Jobs.IntervalJob | TravianAuto.py:1289-1291 | an interval job of the given kind is active, its trigger is the given interval, and its first run is one interval after now |
| Jobs.DateJob | TravianAuto.py:642-645 | a date job of the given kind is active, its trigger is the given date, and it first runs at that date |
| Registry.Add | TravianAuto.py:1289-1291 | `add_job` on a taken id without `replace_existing` raises ConflictingIdError and changes nothing; otherwise the id holds the new job and every other id is unchanged |
| Registry.LookupSeesAddAndRemove | TravianAuto.py:861-862 | `get_job` finds a job just added under its id, finds nothing under an id just removed, and sees no change under any other id |
| Registry.Remove | TravianAuto.py:862 | `remove_job` drops exactly that id; an unknown id raises JobLookupError |
| Registry.Pause | TravianAuto.py:903-904 | `pause_job` keeps the job and its trigger but clears its next run time; an unknown id raises JobLookupError |
| Registry.AfterRun | TravianAuto.py:642-645 | after a run, a date job is gone and an interval job's next run moves on by its interval; other ids are untouched |
| Registry.CalcNewIntervalBetween | TravianAuto.py:61-62 | `random.uniform(x, y)` lies between `x` and `y`, in whichever order they are given |
| Registry.Scheduler.constructor | TravianAuto.py:146-154 | a fresh scheduler holds no jobs |
| Registry.Scheduler.AddJob | TravianAuto.py:1289-1291 | the store becomes `Add`'s table, or stays as it was and reports the conflict |
| Registry.Scheduler.RemoveJob | TravianAuto.py:861-862 | the id is removed when present; otherwise the store is unchanged and the error is JobLookupError |
| Registry.Scheduler.PauseJob | TravianAuto.py:903-904 | the id is paused when present; otherwise the store is unchanged and the error is JobLookupError |
| Registry.Scheduler.Fire | TravianAuto.py:1289-1291 | firing a due job updates the store as `AfterRun` says |
| Registry.Scheduler.Reregister | TravianAuto.py:69-71 | the step's own id now holds a fresh interval job whose delay is `calc_new_interval_between(lo, hi)`; every other id is unchanged |
| Registry.Scheduler.GetJobs | TravianAuto.py:1113 | `get_jobs()` lists every registered job once, with its own job, and nothing else |
| Registry.ListJobs | TravianAuto.py:1113 | walking the key set yields each id of the table once, with its job |
| Registry.LogStore.constructor | TravianAuto.py:49 | the log dictionary starts empty |
| Registry.LogStore.Write | TravianAuto.py:528-529 | `logs[id] = msg` replaces the message of that id and keeps every other |
| Registry.LogForAfterWrite | TravianAuto.py:1137 | after `logs[id] = msg`, `logs.get(id, '')` gives `msg` and the message of every other id is unchanged |
| Registry.ReplaceTwiceKeepsLast | TravianAuto.py:69-71 | re-registering with `replace_existing=True` twice leaves only the second job |
| Registry.IntervalJobKeepsFiring | TravianAuto.py:1289-1291 | an interval job with a positive interval stays registered and active after it runs, with a later next run |
| Registry.RescheduleIsolatesAccounts | TravianAuto.py:69-71 | one account's re-registration leaves every job id of every other account as it was |
| Timer.ConvertTimerTimeToSeconds | TravianAuto.py:581-587 | an accepted timer gives at most 86399 seconds; a malformed text raises ValueError and no other error |
| Timer.TimerTextAccepted | TravianAuto.py:581-587 | every `H:M:S` text with 1–2 digit fields, hours ≤ 23 and minutes and seconds ≤ 59 is accepted, as `3600h + 60m + s` |
| Timer.AcceptedIsTimerText | TravianAuto.py:581-587 | only such texts are accepted, and the value is their seconds count |
| Timer.SplitOn | TravianAuto.py:583 | `split(sep)` always yields at least one part |
| Timer.SplitThenJoin | TravianAuto.py:583 | splitting at `:` and joining loses nothing, and no part holds a `:` |
| Timer.FormatTimerIsTimerText | TravianAuto.py:581-587 | a time of day written as `HH:MM:SS` has hours at most 23 and minutes at most 59 |
| Timer.TimerRoundTrip | TravianAuto.py:581-587 | every time of day written as `HH:MM:SS` converts back to its number of seconds |
| Fields.ParseLevel | TravianAuto.py:511 | `int(text.strip() or 0)`: a blank level reads as 0, a number as its value, anything else raises ValueError |
| Fields.ParseLevelOfNumber | TravianAuto.py:511 | every level written in decimal reads back as itself |
| Fields.GidClassInjective | TravianAuto.py:500 | different type numbers give different `gid` classes, so different types test for different class substrings |
| Fields.CollectTargets | TravianAuto.py:499-502 | the first pass keeps exactly the links after the first whose class names the type, in page order |
| Fields.FindLowestLevelFieldOfType | TravianAuto.py:491-516 | raises ValueError exactly when a candidate's level is unreadable; otherwise returns the first candidate of minimum level below 999, or none when there is no candidate |
| Fields.ScanComplete | TravianAuto.py:507-514 | once every target is scanned, the kept field is the lowest of its type and all levels were readable |
| Fields.ChooseFieldToUpgrade | TravianAuto.py:542-552 | raises ValueError exactly when some type has an unreadable candidate; otherwise the chosen field has the strictly lowest level across types, ties going to the earlier type |
| Fields.GidsComplete | TravianAuto.py:542-552 | after all four types, the kept field is the one to upgrade |
| Fields.CandidateAtLeast | TravianAuto.py:507-514 | no candidate of a type lies below that type's lowest level |
| Fields.EarlierTypesStayAbove | TravianAuto.py:542-552 | every candidate of an earlier type lies strictly above the winner's level |
| Fields.LowestOfTypeIsUnique | TravianAuto.py:507-514 | the lowest field of a type is unique |
| Fields.FieldToUpgradeIsUnique | TravianAuto.py:542-552 | the field to upgrade is unique, so the choice is deterministic |
| FarmList.ReadNumberSkipsDecoration | TravianAuto.py:815-816 | a number written in decimal between texts without digits reads back as that number |
| FarmList.FooterCountsAsWritten | TravianAuto.py:812-818 | as written, a present footer always yields equal nominator and denominator |
| FarmList.FooterReadsDisplayedCounts | TravianAuto.py:812-818 | a footer showing `n` and `d` reads as `(n, d)` when read as intended, and as `(n, n)` as written |
| FarmList.Visitable | TravianAuto.py:780 | `range(1, len(rows))` visits every row but the last, and nothing when there are no rows |
| FarmList.ScanEnd | TravianAuto.py:780-835 | the scan ends at the first visited row that is missing or is a target beyond the distance limit, or runs through |
| FarmList.SelectedUpToMembers | TravianAuto.py:832-835 | a row is selected exactly when it has a checkbox and meets the condition; the selection is strictly increasing |
| FarmList.SelectFarmListRows | TravianAuto.py:780-835 | for any footer read, the loop returns the selected rows before the scan end, or ValueError exactly when the read fails and a target row before that end makes the loop read the footer |
| FarmList.ScanResultCases | TravianAuto.py:780-835 | the outcome of a scan in each case of the footer read |
| FarmList.SelectedRowsAreEligible | TravianAuto.py:832-835 | for any readable footer, a row is ticked exactly when the scan reaches it, it has a checkbox, it is not under attack (unless that check is ignored), its last raid lost nothing (or it is an oasis with no troops), and the counter leaves room |
| FarmList.NothingBeyondTheFirstFarTarget | TravianAuto.py:806-808 | no row at or after the first target beyond the distance limit is ticked |
| FarmList.AsWrittenCountsCompareWithItself | TravianAuto.py:813-818 | as written, a non-zero counter lets a row through only when it sends no troops |
| FarmList.AsWrittenFooterRejectsRoomyList | TravianAuto.py:813-814 | a counter of 5 of 100 admits a 10-troop row as intended but rejects it as written |
| FarmList.AsWrittenScanSkipsRoomyTarget | TravianAuto.py:780-835 | on a list whose counter shows 5 of 100, the scan as written ticks no row, and with the intended read it ticks the 10-troop target |
| Attack.ScanStop | TravianAuto.py:619-647 | the row loop stops at the first outgoing header or attack row, or runs through |
| Attack.FirstAttack | TravianAuto.py:619-647 | the attack acted on is the first attack row, and no outgoing header comes before it |
| Attack.AttacksAfterOutgoingAreIgnored | TravianAuto.py:622-626 | an attack listed after the outgoing header is never acted on |
| Attack.MitigationRunsTwoMinutesEarly | TravianAuto.py:642-645 | the spending job runs 120 seconds before the attack lands, and before `now` when the timer shows less than two minutes |
| Attack.ScanMovements | TravianAuto.py:619-636 | the loop ends at the stop row and logs "No image found." exactly when an iconless row came before it |
| Attack.ScheduleSpending | TravianAuto.py:637-647 | a readable timer logs the attack and registers `spend_all` at `now + T - 120`; an unreadable one raises ValueError and changes nothing |
| Attack.IncomingAttack | TravianAuto.py:591-656 | no movements, or no incoming header: log and re-register; an attack: log, schedule spending and report it without re-registering; otherwise log "No incoming attacks!" and re-register |
| Attack.ScanIncoming | TravianAuto.py:619-656 | the outcome after the incoming header is found, as `IncomingAttack` states it |
| Tasks.ReregisterIfScheduled | TravianAuto.py:68-71 | with a scheduler the step's own job is re-registered in its range; without one nothing happens |
| Tasks.RefreshPage | TravianAuto.py:65-71 | `refresh_page` re-registers itself 698–722 seconds later |
| Tasks.AttemptToUpgradeLowestLevelField | TravianAuto.py:519-575 | a full queue logs and re-registers; an unreadable level raises ValueError; otherwise the field clicked is the one to upgrade, the log says whether it was, and the job re-registers in 343–907 seconds |
| Tasks.TrainTroops | TravianAuto.py:698-757 | a missing troop link raises UnboundLocalError; no input re-registers after 10720–13835 seconds; an unreadable maximum raises ValueError; otherwise the maximum is ordered and the job re-registers after 1720–3835 seconds |
| Tasks.SpendAllResourcesOnTroopProduction | TravianAuto.py:694-695 | the spending job trains the maximum as `train_troops` would, with the redistribution, and never re-registers; a missing link raises UnboundLocalError after logging that no troops were found, and an unreadable maximum raises ValueError with the log as the lookups left it |
| Tasks.HasGoldClubMembership | TravianAuto.py:854-875 | the answer is whether the farm-list tab exists; a member loses the check job; a non-member gets both messages and the check re-registers |
| Tasks.FirstFailingList | TravianAuto.py:918-925 | with the footer read as the code reads it, the lists before it scan cleanly, and it is the first whose scan raises, if any |
| Tasks.ScanFarmList | TravianAuto.py:922 | one list is scanned with distance limit 7, targets under attack skipped, and the footer read as the code reads it |
| Tasks.RaidLists | TravianAuto.py:918-925 | the lists are scanned in order, with the footer read as the code reads it, up to the first that raises; the ticked rows of each are its scan result, and the log names the last list finished |
| Tasks.SendTroopsToFarm | TravianAuto.py:894-933 | without Gold Club or without a farm list: log and pause the raid job (JobLookupError if it is missing); a failing scan raises ValueError; otherwise every list is scanned, with the footer read as the code reads it, and the job re-registers after 548–878 seconds |
| Tasks.AchievedTasks | TravianAuto.py:961-965 | exactly the tasks whose class holds "achieved" are collected, in page order |
| Tasks.CollectMissionResources | TravianAuto.py:938-973 | without a speech bubble nothing is collected; otherwise the achieved tasks are; the log and the 343–907 second re-registration follow |
| Tasks.CollectDailyQuestsRewards | TravianAuto.py:976-1015 | without an indicator nothing is collected; otherwise exactly the ready rewards are; the last message is the success message and the job re-registers after 24112–43022 seconds |
| Tasks.AdventureMsg | TravianAuto.py:1036-1053 | the success message appears exactly when the hero is sent, "No adventures found." exactly when there is no badge, and "already on an adventure" only when the hero is running |
| Tasks.AttemptToStartAdventure | TravianAuto.py:1020-1058 | an unreadable badge at home raises ValueError; otherwise the hero is sent exactly when at home with a positive count, and the job re-registers after 307–902 seconds |
| Tasks.UpgradeHero | TravianAuto.py:1062-1103 | without the level-up icon: log and re-register; an unreadable points value raises ValueError; otherwise the points plus 4 are entered and the job re-registers after 12542–24333 seconds |
| Startup.StartupPlanKinds | TravianAuto.py:1289-1314 | an account gets one job of each kind it qualifies for and no other: five always, fields when enabled, troops for an enforcer with training on, raids with Gold Club and raiding on, and refresh |
| Startup.PlanForKinds | TravianAuto.py:1289-1314 | the plan holds the five fixed kinds, refresh, and each optional kind exactly when its flag is set |
| Startup.PlanForDistinct | TravianAuto.py:1289-1314 | no kind is planned twice |
| Startup.RanksDistinct | TravianAuto.py:1289-1314 | kinds registered in strictly increasing order are distinct |
| Startup.RegisterPlanSucceeds | TravianAuto.py:1289-1314 | with every planned id free, all plan jobs are added, as fresh interval jobs, and nothing else changes |
| Startup.RegisterPlanConflicts | TravianAuto.py:1289-1314 | a taken planned id stops the additions with ConflictingIdError |
| Startup.StartupSucceeds | TravianAuto.py:1286-1314 | with distinct usernames and none of their ids taken, startup raises nothing and registers exactly the startup ids |
| Startup.FirstAccountRegisters | TravianAuto.py:1287-1314 | the first account's Gold Club check and plan raise nothing |
| Startup.AfterFirstAccount | TravianAuto.py:1286-1314 | the first account's jobs take no id of the later accounts |
| Startup.PlanKeyIsStartupKey | TravianAuto.py:1289-1314 | every id of the first account's plan is a startup id |
| Startup.StartupKeySplits | TravianAuto.py:1286-1314 | a startup id belongs to the first account or to a later one |
| Startup.FreshStartupSucceeds | TravianAuto.py:1286-1314 | on a fresh scheduler, distinct usernames make startup raise nothing and register exactly the startup ids |
| Startup.RegisterPlanJobs | TravianAuto.py:1289-1314 | the `add_job` calls of one account leave the store and error that `RegisterPlan` describes |
| Startup.StartScheduler | TravianAuto.py:1286-1314 | the startup loop leaves the store, logs and completion that `StartAll` describes |
| Status.CountdownTracksNextRun | TravianAuto.py:1116 | scheduled jobs order by countdown as they order by next run; a countdown falls by the time that passes and is due exactly when the next run is; a paused job stays at 999 |
| Status.Truncate | TravianAuto.py:1137 | `int()` of a countdown truncates toward zero |
| Status.TruncateIsOdd | TravianAuto.py:1137 | an overdue countdown shows as minus the pending one |
| Status.KeyLessTransitive | TravianAuto.py:1114-1117 | the `(id, countdown)` sort key is transitive |
| Status.KeyLessTotal | TravianAuto.py:1114-1117 | two jobs are ordered unless both parts of their key agree |
| Status.KeyLessAsymmetric | TravianAuto.py:1114-1117 | no two jobs sort before each other |
| Status.InsertKeepsElements | TravianAuto.py:1114-1117 | one insertion step adds exactly the inserted job |
| Status.InsertKeepsOrder | TravianAuto.py:1114-1117 | one insertion step keeps the list sorted |
| Status.SortJobsIsSorted | TravianAuto.py:1114-1117 | `sorted(jobs, key=...)` is ordered by the key |
| Status.SortJobsIsPermutation | TravianAuto.py:1114-1117 | the sort keeps every job, as often as it occurs |
| Status.SortedDistinctIdsIncrease | TravianAuto.py:1113-1117 | jobs with distinct ids come out in strictly increasing id order |
| Status.AccountRowsComeFromItsJobs | TravianAuto.py:1133-1137 | every row of an account comes from a job whose id contains the username |
| Status.AccountJobsHaveRows | TravianAuto.py:1133-1137 | every job whose id contains the username has a row |
| Status.AccountRowsIncrease | TravianAuto.py:1133-1137 | an account's rows appear in increasing id order |
| Status.AccountTable | TravianAuto.py:1133-1137 | the row loop yields one row per matching job: id, next run, truncated countdown and the logged message |
| Status.AccountTables | TravianAuto.py:1127-1137 | there is one table per account, each with that account's rows |
| Status.TablesOfAccounts | TravianAuto.py:1127-1137 | each table shows exactly the registered jobs whose id contains its account's username, once, with their own data |
| Status.TableOfAccount | TravianAuto.py:1133-1137 | one account's rows, read against the job store, are exactly the stored jobs whose id contains the username, once each, in id order |
| Status.LongerNameJobsShowUp | TravianAuto.py:1134 | since the filter is a substring test, an account's table also lists every job of an account whose username starts with its own |
| Status.SortedSnapshot | TravianAuto.py:1113-1117 | the sorted `get_jobs()` list lists the store once, in increasing id order |
| Status.GenerateJobSchedulerTable | TravianAuto.py:1107-1139 | each account's table shows exactly the registered jobs whose id contains that account's username, once each, in increasing id order, with countdown and log |

## Left out

- The browser is not modelled: Selenium, the webdriver, clicks, waits, scrolling and the page DOM. What a step reads from the page is a parameter.
- Selenium timeouts and `NoSuchElementException`s the code does not catch are not modelled. A missing element that the code tests for (`try`/`except` or an empty `find_elements`) is an absent value.
- The login, navigation, popup and building helpers are left out, because they only drive the browser.
- `outgoing_attack`, `check_total_troop_counts`, `get_resources_from_hero`, `can_afford_resource_field_upgrade`, the construction and mission helpers, the proxy subprocess helpers and `oases_has_troops`' page reads are outside this model's core. `oases_has_troops` enters the farm-list scan as an observed boolean per row.
- The accounts sheet (pandas/Excel), the console layout and the `Live` refresh loop are left out. The rich table layout is reduced to its rows.
- APScheduler's internals are not modelled: its threads, concurrency between jobs, misfire handling and the passage of time. A job firing is `Scheduler.Fire`.
- Times are exact reals. `datetime` arithmetic, time zones and the float of `total_seconds()` are not modelled. `str(next_run)` is kept as the time value, not its text.
- `random.uniform` is modelled by its draw `u`. Python's float rounding at the upper end is not modelled.
- Text.IntOf: accepts only ASCII digits after stripping Python's whitespace. It does not model a sign, underscores or Unicode digits, which Python's `int()` also accepts.
- Text.Lower: maps only ASCII letters, where Python's `lower()` covers all of Unicode.
- Timer.ConvertTimerTimeToSeconds: models `strptime` with ASCII digits only. The seconds values 60 and 61 are rejected, as `datetime` rejects them.
- FarmList.SelectFarmListRows: a row's distance and troop count are given as numbers. A `ValueError` from `float()` or `int()` on a malformed cell is not modelled, because the game always renders numbers there.
- Tasks.TrainTroops: after the redistribution the code may use a stale element; the model goes on with the first link found.
- Tasks.SendTroopsToFarm: the clicks on ticked checkboxes and on the start button are returned as the ticked rows, not performed.
- Startup.StartAll: after a `ConflictingIdError` the Python program ends; the model returns the state at that point.
- The commented-out code and the single-account startup block inside a string literal (lines 1172-1238) are not modelled.

## Findings

| source | as written | input that shows it | evidently intended | confidence | as-written member | corrected member |
|---|---|---|---|---|---|---|
| TravianAuto.py:813-814 | the farm-list counter's nominator and denominator are read with the same XPath, so both are the first number | a list whose counter reads 5 of 100 and a target whose last raid used 10 troops: as written `5 + 10 <= 5` fails and the row is not ticked | read the denominator from the counter's second number, so `5 + 10 <= 100` lets the row through | not executed | FarmList.FooterCountsAsWritten, FarmList.AsWrittenFooterRejectsRoomyList, FarmList.AsWrittenScanSkipsRoomyTarget | FarmList.FooterCounts, FarmList.FooterReadsDisplayedCounts |
