# Student focus app: stores, routes and analytics in Dafny

This project models the record-keeping core of a study-focus application in Dafny. Students
plan study blocks on a schedule, run timed focus sessions and read statistics about their
sessions. There are two stores:

- **On the device** (`src/lib/client-db.ts`), local storage keeps three records: the schedule
  list, the focus-session log and a profile with running counters. The model is the class
  `ClientDb.ClientStore`. It has one field per storage key, and its methods update those
  fields as the source's functions update storage. Each method is proved against reference
  functions on the stored values: `ScheduleFor`, `Without`, `Merge`, `Bumped`, `AnalyticsOf`.
  The methods also preserve an invariant that keeps the counters in step with the log.
- **On the server**, there are three routes over a relational database:
  - the analytics route, `GET` (`src/app/_api/analytics/route.ts`);
  - the schedule route, `GET` and `POST` (`src/app/_api/schedule/route.ts`);
  - the profile route, `GET` and `PUT` (`src/app/_api/profile/route.ts`).

  The database is a value, `Tables.Db`, with one sequence per table in storage order. A route
  takes the tables and returns the tables it leaves behind, along with its reply
  (`Tables.Reply`: a body, or an error status and message). The steps the analytics route
  performs in place are methods proved against the functions that define the report:
  - the bucket loop of the monthly trend;
  - the subject map and its colour counter;
  - the streak loop;
  - the weekday map and its maximum scan.

Modules:

- `Wrappers`: `Option`.
- `Numeric`: UTC days and weekdays, and `Math.round`/`Math.ceil` of quotients as integer
  functions.
- `Decimal`: integer text and radix-less `parseInt`.
- `Text`: `split` on one character, and `join`.
- `Collections`: `filter` and a stable sort by key, plus per-day sums.
- `Tally`: an insertion-ordered map of totals and the scan for its strictly greatest entry.
- `Tables`: the server tables, and request values as JavaScript sees them.
- `ClientDb`, `AnalyticsRoute`, `ScheduleRoute` and `ProfileRoute`: one module per core file.

Units:

- An instant is an integer number of milliseconds, read in UTC.
- Durations are **minutes** on the device and **seconds** on the server.
- Every displayed hour value (`Math.round(x * 10) / 10`) is an integer number of tenths of an
  hour.

The model follows the code, including these behaviours a reader may not expect:

- **Server efficiency.** The server never writes a `+` sign, so doubling gives `"100%"`. With
  no sessions last week it gives `"+0%"` however much this week holds. See
  `AnalyticsRoute.EfficiencyTextSpec`.
- **Client efficiency.** The client writes `+` only for a strictly positive change. It gives
  `"0%"` when both weeks are empty. See `ClientDb.EfficiencyTextSpec`.
- **Server streaks.** These walk the daily rows newest first and do not check for calendar
  gaps. `longestStreak` is the longest block of consecutive positive rows. `currentStreak`,
  when the newest row is positive, is the positive run at the **oldest** end of the list. See
  `AnalyticsRoute.StreaksSpec` and `AnalyticsRoute.StreaksExamples`.
- **Client longest streak.** On the device, `longestStreak` is the current streak.
- **Profile bio.** The profile `GET` loads no settings with the user, so `bio` is always null.

## Model

| member | source | states |
|---|---|---|
| ClientDb.ScheduleForSpec | src/lib/client-db.ts:67-72 | getSchedule(date) is exactly the stored items of that date, as a permutation. They are sorted ascending by `order`, and items of equal order stay in stored order. |
| Collections.IndexOf | src/lib/client-db.ts:86 | `findIndex` on the schedule by `ClientDb.ItemId` (and the profile route's settings lookup by `ProfileRoute.Owner`): the index of the first element with the key, every earlier element has another key, or -1 exactly when no element has it. |
| ClientDb.Without | src/lib/client-db.ts:106 | No item with the id remains and every other item is kept. |
| ClientDb.WithoutSpec | src/lib/client-db.ts:106 | An item is in the result exactly when it was in the list with another id, each kept item as often as it was there, and an absent id leaves the list unchanged. |
| ClientDb.WithoutOrder | src/lib/client-db.ts:106 | `filter` keeps the order: deleting from a concatenation deletes from each part, and a single item stays exactly when it has another id. |
| ClientDb.Bumped | src/lib/client-db.ts:127-129 | One more session and `60 * duration` more seconds; every other profile field is unchanged. |
| ClientDb.Merge | src/lib/client-db.ts:296 | `{...profile, ...data}`: each of the seven fields takes the patch's value when the patch supplies it and keeps the stored value when it does not; an empty patch changes nothing. |
| ClientDb.WeeklyDataSpec | src/lib/client-db.ts:148-160 | Seven entries. Entry i rounds the minutes completed on day `today - 6 + i` to the nearest tenth of an hour. The unrounded entries add up to the minutes of those seven days. |
| ClientDb.Latest | src/lib/client-db.ts:164-169 | The head of the log sorted by completion, newest first, is the latest completion instant: it is at least every entry's, and some entry has it. |
| ClientDb.InsertDesc | src/lib/client-db.ts:184 | Adding a day to a strictly decreasing day list keeps it strictly decreasing and adds exactly that day. |
| ClientDb.DistinctDaysDesc | src/lib/client-db.ts:184 | `Array.from(new Set(dates)).sort().reverse()`: the distinct completion days, strictly decreasing, non-empty for a non-empty log. |
| ClientDb.RunLengthSpec | src/lib/client-db.ts:191-201 | The counted run is the days `d0, d0-1, ...` at the head of the list, and the day just before the run is missing from the list. |
| ClientDb.HeadIsLatestDay | src/lib/client-db.ts:184-187 | The first distinct day is the day of the latest session. |
| ClientDb.CurrentStreakSpec | src/lib/client-db.ts:166-207 | The streak is positive exactly when the latest session day is today or yesterday. It then counts the consecutive session days ending there, the day before them has no session, and it is at most the number of distinct days. |
| ClientDb.ComputeCurrentStreak | src/lib/client-db.ts:166-207 | The loop, including its `Math.ceil` day gap and its `break`, computes `CurrentStreak`. |
| ClientDb.FindMostProductiveDay | src/lib/client-db.ts:218-230 | The `dayCounts` accumulation and the `maxDuration` scan compute `MostProductiveDay`. |
| ClientDb.BestIsWeekday | src/lib/client-db.ts:218-222 | The day the scan picks is a weekday name. |
| ClientDb.MostProductiveDaySpec | src/lib/client-db.ts:217-230 | `"None"` exactly when no weekday's total is positive. Otherwise the answer is a weekday whose total is positive and at least every other weekday's. |
| ClientDb.MostProductiveDayFirst | src/lib/client-db.ts:225-230 | On ties the weekday recorded first wins: every weekday entered before it has a strictly smaller total. |
| ClientDb.EfficiencyTextSpec | src/lib/client-db.ts:250-256 | With a baseline, the text is the rounded percentage change (it reads back via `parseInt`) followed by `%`, with `+` exactly when this window is larger. Without a baseline it is `"+100%"` if this window has minutes, else `"0%"`. |
| ClientDb.AnalyticsTotalsFromLog | src/lib/client-db.ts:209-215 | When the counters are in step with the log, the totals and the average equal those computed from the log itself, and the longest streak equals the current one. |
| ClientDb.ClientStore.constructor | src/lib/client-db.ts:43-50 | Empty storage: no items, no log, no profile, and the counters are trivially in step. |
| ClientDb.ClientStore.GetSchedule | src/lib/client-db.ts:67-72 | Returns `ScheduleFor(schedule, date)` and changes nothing. |
| ClientDb.ClientStore.AddScheduleItem | src/lib/client-db.ts:74-81 | Appends the item with the fresh id and `completed = false`, returns it, leaves the other keys alone, and the id then finds the new item. |
| ClientDb.ClientStore.ToggleScheduleItemComplete | src/lib/client-db.ts:83-101 | An unknown id changes nothing. Otherwise only that item's flag changes. Setting it to true also appends one session with the item's subject and duration and bumps the counters, which stay in step. |
| ClientDb.ClientStore.DeleteScheduleItem | src/lib/client-db.ts:103-108 | The schedule becomes `Without(schedule, id)`; the log and the profile are unchanged. |
| ClientDb.ClientStore.RecordFocusSession | src/lib/client-db.ts:111-133 | Appends the new entry and bumps the (possibly default) profile's counters, keeping them in step with the log. |
| ClientDb.ClientStore.GetProfile | src/lib/client-db.ts:275-291 | Returns the stored profile, or the default one, which then becomes stored. |
| ClientDb.ClientStore.UpdateProfile | src/lib/client-db.ts:293-299 | Stores and returns `Merge(profile or default, data)`. A patch that leaves the counters out keeps them in step. |
| ClientDb.ClientStore.GetAnalytics | src/lib/client-db.ts:136-272 | Returns `AnalyticsOf(log, profile, now)` after storing the default profile if none exists; the schedule and the log are unchanged. |
| Tally.Accumulate | src/app/_api/analytics/route.ts:118-123 | The loop that sets each key to its stored total, or 0, plus the pair's value, builds `Totals(pairs)`. |
| Tally.TotalsEntries | src/app/_api/analytics/route.ts:118-123 | The map has distinct keys, exactly those of the pairs. Each key's value is the sum of the values paired with it, and an absent key sums to 0. |
| Tally.TotalsKeys | src/app/_api/analytics/route.ts:118-123 | The map's keys are in order of first occurrence. |
| Tally.PickMax | src/app/_api/analytics/route.ts:187-194 | The `> max` scan from 0 picks `BestIndex`, or nothing when no total is positive. |
| Tally.BestIndex | src/app/_api/analytics/route.ts:187-194 | -1 exactly when no value is positive. Otherwise a positive value at least every other value and strictly greater than every earlier one. |
| Numeric.RoundDiv | src/app/_api/analytics/route.ts:146-148 | `Math.round(n / d)`: the result is within half a unit of the quotient, ties rounding up. |
| Numeric.RoundDivUnique | src/app/_api/analytics/route.ts:146-148 | Those bounds determine the rounded value. |
| Numeric.PercentChange | src/app/_api/analytics/route.ts:207-209 | `Math.round((cur - base) / base * 100)` within half a unit. |
| Numeric.PercentChangeSign | src/app/_api/analytics/route.ts:207-209 | The change is non-negative when the week grew and non-positive when it shrank. |
| Numeric.PercentChangeExamples | src/app/_api/analytics/route.ts:207-209 | Equal weeks give 0, a doubled week 100, an empty week -100, and a halved week -50. |
| Numeric.WeekdayAfter | src/app/_api/analytics/route.ts:70-73 | Weekdays advance with the day number, modulo 7. |
| AnalyticsRoute.StartDaySpec | src/app/_api/analytics/route.ts:64-67 | `getDate() - getDay() + 1` is always a Monday: that of the current week, or the next day when today is Sunday. |
| AnalyticsRoute.WeeklyFocusDataSpec | src/app/_api/analytics/route.ts:69-82 | Seven entries labelled Mon..Sun, each labelled with its date's weekday. Entry i rounds the seconds started on day `start + i` to the nearest tenth of an hour, and the unrounded days add up to the week. |
| AnalyticsRoute.WeeklyBarsTotal | src/app/_api/analytics/route.ts:211-223 | Bar i is the number of completed sessions started on day i of the week, capped at 7. The bars add up to at most the week's completed sessions, and to exactly that number when and only when no day of the week has more than 7. |
| AnalyticsRoute.MonthlyTrend | src/app/_api/analytics/route.ts:89-115 | The in-place bucket loop computes `TrendOf`. A recent session after now (negative index) is the 500 error. |
| AnalyticsRoute.BucketPartition | src/app/_api/analytics/route.ts:105-111 | Every recent session lands in exactly one bucket: the bucket counts add up to the number of recent sessions. |
| AnalyticsRoute.BucketOfSpec | src/app/_api/analytics/route.ts:107-108 | A session `w` whole weeks old goes to bucket `w`, and anything at least three weeks old goes to bucket 3. |
| AnalyticsRoute.ColourShares | src/app/_api/analytics/route.ts:133-139 | The `.map` with `colorIndex++` colours the i-th entry `colorMap[i % 5]`. |
| AnalyticsRoute.ComputeSubjectDistribution | src/app/_api/analytics/route.ts:117-141 | The map, colouring, sort and slice compute `SubjectDistribution`. |
| AnalyticsRoute.ColouredEntries | src/app/_api/analytics/route.ts:118-139 | Share j is the j-th subject in first-seen order, with its total hours and colour `j % 5`. |
| AnalyticsRoute.SubjectDistributionShape | src/app/_api/analytics/route.ts:134-141 | At most five shares (as many as the distinct subjects, up to five), with distinct subjects, in non-increasing order of hours. |
| AnalyticsRoute.SubjectDistributionEntries | src/app/_api/analytics/route.ts:134-141 | Every share kept is one of the coloured subject totals. |
| AnalyticsRoute.SubjectDistributionTop | src/app/_api/analytics/route.ts:140-141 | A subject left out has no more hours than any kept share, and shares of equal hours keep first-seen order. |
| AnalyticsRoute.TopFromShares | src/app/_api/analytics/route.ts:141 | `.slice(0, 5)` keeps only shares from the ranked list. |
| AnalyticsRoute.TopBeatsRest | src/app/_api/analytics/route.ts:140-141 | After a descending sort, anything beyond the first five has no more hours than each of them. |
| AnalyticsRoute.ComputeStreaks | src/app/_api/analytics/route.ts:156-177 | The `for` loop and the fix-up after it compute `StreaksOf`. |
| AnalyticsRoute.TrailingRunSpec | src/app/_api/analytics/route.ts:160-173 | The run left in `tempStreak` is the block of positive rows at the end of the list, bounded by a non-positive row. |
| AnalyticsRoute.LongestRunSpec | src/app/_api/analytics/route.ts:160-173 | `maxStreak` is the length of the longest block of consecutive positive rows: every block is at most that long, and one block is exactly that long. |
| AnalyticsRoute.StreaksSpec | src/app/_api/analytics/route.ts:156-177 | The current streak is 0 when there are no rows or the first row is zero, and otherwise the trailing run. It never exceeds the longest streak, and with all rows positive both equal the number of rows. |
| AnalyticsRoute.StreaksExamples | src/app/_api/analytics/route.ts:156-177 | Rows 1,0,1,1 give (2, 2) although the newest run has one day; rows 1,1,0 give (0, 2). |
| AnalyticsRoute.DayNameSpec | src/app/_api/analytics/route.ts:183 | Sunday maps to "Sun" and every other weekday w to label w - 1. |
| AnalyticsRoute.FindBestDay | src/app/_api/analytics/route.ts:180-194 | The `dayTotals` map and the `maxHours` scan compute `BestDay`. |
| AnalyticsRoute.BestIsDay | src/app/_api/analytics/route.ts:180-185 | The day picked is one of Mon..Sun. |
| AnalyticsRoute.BestDaySpec | src/app/_api/analytics/route.ts:180-194 | `""` exactly when no weekday's total is positive. Otherwise a weekday whose total is positive and at least every weekday's, and strictly above every weekday entered before it. |
| AnalyticsRoute.EfficiencyTextSpec | src/app/_api/analytics/route.ts:196-209 | With a baseline, the rounded percentage change (it reads back via `parseInt`) then `%`, never a `+`, and `-` exactly when it is negative; doubling gives `"100%"`. Without a baseline, `"+0%"`. |
| AnalyticsRoute.HoursOf | src/app/_api/analytics/route.ts:236 | `weeklyData` is the hours of `weeklyFocusData`, entry by entry. |
| AnalyticsRoute.Get | src/app/_api/analytics/route.ts:8-61 | With no user, one is created and the all-zero report is returned. Otherwise no table changes. |
| AnalyticsRoute.EmptyReportSpec | src/app/_api/analytics/route.ts:17-49 | The new-user report: seven zero days Mon..Sun, four zero buckets, no subjects, zero streaks and totals, no productive day, and `"0%"`. |
| AnalyticsRoute.ComputeReport | src/app/_api/analytics/route.ts:63-244 | The report steps, with the trend, subject, streak and best-day loops as methods, compute `ReportOf` of the loaded rows, including the 500 error of the trend. |
| AnalyticsRoute.GetAnalytics | src/app/_api/analytics/route.ts:5-252 | The route body (the user lookup, the two ordered queries and the report) computes `Get`. |
| Text.Split | src/app/_api/schedule/route.ts:40 | `split(':')` gives at least one piece, and no piece contains the separator. |
| Text.JoinSplit | src/app/_api/schedule/route.ts:40 | Joining the pieces gives back the original text. |
| Text.SplitJoin | src/app/_api/schedule/route.ts:40 | Splitting a join of separator-free pieces gives back the pieces. |
| Decimal.ParseInt | src/app/_api/schedule/route.ts:41 | `parseInt` with no radix: after the optional sign, a `0x` or `0X` prefix is read as hexadecimal and is NaN exactly when no hexadecimal digit follows it; otherwise NaN exactly when no decimal digit follows the sign; a negative result comes only from a leading `-`. |
| Decimal.ParseIntHexExamples | src/app/_api/schedule/route.ts:41 | `"0x"` is NaN, `"0x1A"` is 26 and `"-0Xf"` is -15. |
| Decimal.IntToStringRoundTrip | src/app/_api/schedule/route.ts:48 | Printing an integer and reading it back with `parseInt` gives the integer. |
| Decimal.IntToStringInjective | src/app/_api/schedule/route.ts:47 | Distinct integers print differently. |
| ScheduleRoute.MatchesTimeSound | src/app/_api/schedule/route.ts:90-96 | A time that passes the `HH:mm` pattern (one or two hour digits up to 23, a colon, two minute digits up to 59) splits at its colon into hours and minutes, with the hour from 0 to 23 and the minutes below 60. |
| ScheduleRoute.MatchesTimeComplete | src/app/_api/schedule/route.ts:90 | Every hour 0..23 and minute 0..59 passes, written with a two-digit or shortest hour, and reads back as that hour. |
| ScheduleRoute.MatchesTimeExamples | src/app/_api/schedule/route.ts:90 | `9:30`, `09:30` and `23:59` pass. `24:00`, `9:60`, `9:5`, `123:00` and a trailing space do not. |
| ScheduleRoute.JsRem | src/app/_api/schedule/route.ts:43 | JavaScript `%`: for a non-negative dividend the mathematical remainder; for a negative one minus the remainder of its magnitude, between -b and 0. |
| ScheduleRoute.JsRemOdd | src/app/_api/schedule/route.ts:43 | Negating the dividend negates the remainder. |
| ScheduleRoute.FormatTimeSpec | src/app/_api/schedule/route.ts:39-47 | For a valid time, the shown hour lies in 1..12 and agrees with the hour modulo 12. The minutes are copied, and the suffix is AM exactly when the hour is below 12. |
| ScheduleRoute.FormatTimeKeepsHour | src/app/_api/schedule/route.ts:39-47 | Two valid times shown alike have the same hour and minutes. |
| ScheduleRoute.FormatTimeCases | src/app/_api/schedule/route.ts:40-47 | The display of a valid time with minutes `mm`: hour 0 shows as `12:mm AM`, hours 1 to 11 as themselves with AM, hour 12 as `12:mm PM`, and hours 13 to 23 minus twelve with PM. |
| ScheduleRoute.ViewSpec | src/app/_api/schedule/route.ts:39-53 | Id, subject, completion and order pass through. The duration text reads back as the minutes before ` min`. The tag is `General` exactly when it is missing, empty or `General`. A valid time is shown on the 12-hour clock. |
| ScheduleRoute.ItemsOnSpec | src/app/_api/schedule/route.ts:28-36 | Exactly the user's rows of that date, ascending by `order`; rows of equal order stay in storage order. |
| ScheduleRoute.Views | src/app/_api/schedule/route.ts:39 | One formatted item per row, in order. |
| ScheduleRoute.Get | src/app/_api/schedule/route.ts:5-58 | A missing or empty date is a 400 that writes nothing. Otherwise the user is found or created, and the reply lists the formatted items of that date. |
| ScheduleRoute.Rejection | src/app/_api/schedule/route.ts:74-96 | A request passes exactly when subject, time and date are truthy, the duration is a positive number and the time is a valid string. A missing field is reported first. |
| ScheduleRoute.Post | src/app/_api/schedule/route.ts:69-137 | A rejected request is a 400 with no write. A storable one appends one row for the found or created user and echoes it. One the database refuses is a 500 after the user was created. |
| ScheduleRoute.PostSpec | src/app/_api/schedule/route.ts:109-129 | Success appends exactly one row after the existing ones: not completed, positive duration, valid time, tag `General` iff none (or `General`) was given, order 0 iff none (or 0) was given. A 400 leaves every table as it was. |
| ScheduleRoute.PostRejectionOrder | src/app/_api/schedule/route.ts:75-96 | The checks run in order: missing fields, then duration, then time format. |
| ProfileRoute.Get | src/app/_api/profile/route.ts:5-47 | With no user, one is created and shown with zero totals. Otherwise nothing is written, the user's fields are shown and the bio is null. |
| ProfileRoute.GetTotalsFollowSessions | src/app/_api/profile/route.ts:32-37 | A new completed session of the user adds one session and its duration to the totals; any other new session changes neither. |
| ProfileRoute.GetTotalsEmpty | src/app/_api/profile/route.ts:20-37 | With no sessions stored, both totals are 0, whether or not the user existed. |
| ProfileRoute.ProfileAgreesWithAnalytics | src/app/_api/profile/route.ts:32-37 | The analytics report's session count is the profile's, and its focus hours are the profile's focus seconds in tenths of an hour. |
| ProfileRoute.Rejection | src/app/_api/profile/route.ts:63-86 | A request passes exactly when a given name is a 2..50 character string and a given bio is a string of at most 200 characters. Each failure carries its own message, name first. |
| ProfileRoute.OrNull | src/app/_api/profile/route.ts:102 | The `or null` of the update: a non-empty string is kept, and anything else becomes null. |
| ProfileRoute.OrNullExamples | src/app/_api/profile/route.ts:116 | An empty bio is stored as null, like an explicit null. |
| ProfileRoute.Put | src/app/_api/profile/route.ts:58-135 | A rejected request is a 400 with no write. Otherwise the user is found or created, and the name changes only when one is given. A given bio updates or creates the settings row. The other tables are untouched, and the reply echoes the bio as sent. |
| ProfileRoute.SettingsUpsertSpec | src/app/_api/profile/route.ts:107-127 | After the upsert the user's first settings row holds the new value, other users' rows are unchanged, and at most one row is added. |

## Left out

- I/O and timing:
  - local storage, JSON parsing and `delay` are not modelled;
  - storage failures are not modelled;
  - `uuidv4()` and database-generated ids are parameters;
  - the clock is a `now` parameter.
- Time zones: every day and weekday is the UTC one. The source mixes UTC (`toISOString`,
  stored dates) with local time (`setHours`, `getDay`, `toLocaleDateString`). The two agree
  only when the device runs in UTC.
- Floating point: hours are integer tenths of an hour and percentages are exact rationals
  rounded once. Binary rounding of `x / 3600 * 10` near a half is not modelled.
- The subject sort uses a stable insertion sort, as JavaScript's `sort` is stable. Prisma's
  order for equal keys is not specified; the model keeps storage order.
- `parseInt`:
  - leading whitespace is not modelled;
  - numbers beyond the safe integer range are not modelled.
- Field lengths are counted in characters, not UTF-16 code units.
- Request values:
  - non-integer numbers are not modelled (durations, orders);
  - an array-valued `time` that `RegExp.test` would turn into text is not modelled.
- Database errors: a 500 is modelled only where the source's own logic causes it:
  - a recent session after now in the monthly trend;
  - an unstorable schedule item.
- Other failing database calls are not modelled, nor are the routes' other `catch` branches.
- `ClientDb.ClientStore.UpdateProfile`: a patch key that is present with the value
  `undefined` (which the spread copies) cannot be expressed. A field is either supplied or not.
- `AnalyticsRoute.Get`: the report fields `weeklyStreak`/`bestStreak`/`avgSessionLength` are
  the same values as `currentStreak`/`longestStreak`/`averageSessionLength`. No lemma states
  this separately beyond the report's construction.
- `ProfileRoute.Get`: the bio built from `defaultSessionDuration` would need settings loaded
  with the user, which the route never does, so it is always null.
- Out of this model:
  - the settings and focus-session routes and the `[id]` routes;
  - the screens and components;
  - the native Android services.
