/**
 * The on-device record store of the packaged mobile build and its analytics
 * (src/lib/client-db.ts). Three storage keys hold the schedule list, the focus
 * session log (durations in minutes) and the profile with its running counters
 * `totalSessions` and `totalFocusTime` (seconds). The keys become the fields of
 * `ClientStore`; an instant is integer milliseconds, read in UTC.
 */
module ClientDb {
  import opened Wrappers
  import opened Numeric
  import opened Decimal
  import opened Collections
  import Tally

  /** A planned study block (`Session` in the source). Duration in minutes. */
  datatype ScheduleItem = ScheduleItem(
    id: string, subject: string, tag: Option<string>, time: string,
    duration: int, date: string, order: int, completed: bool)

  /** What a caller passes to addScheduleItem: an item without its id and flag. */
  datatype NewItem = NewItem(
    subject: string, tag: Option<string>, time: string, duration: int, date: string, order: int)

  /** One entry of the focus log. Duration in minutes, instants in milliseconds. */
  datatype FocusSession = FocusSession(
    id: string, userId: string, subject: string, duration: int,
    startedAt: int, completedAt: int, ambientSound: Option<string>)

  datatype Profile = Profile(
    id: string, name: Option<string>, email: string, bio: Option<string>,
    avatar: Option<string>, totalSessions: int, totalFocusTime: int)

  /** `Partial<UserProfile>`: a field is None when the caller leaves it out. */
  datatype ProfilePatch = ProfilePatch(
    id: Option<string>, name: Option<Option<string>>, email: Option<string>,
    bio: Option<Option<string>>, avatar: Option<Option<string>>,
    totalSessions: Option<int>, totalFocusTime: Option<int>)

  /** What getAnalytics returns; hour values are integer tenths of an hour. */
  datatype Analytics = Analytics(
    weeklyData: seq<int>, weeklyBars: seq<int>, currentStreak: int, longestStreak: int,
    totalFocusHours: int, totalSessions: int, sessionsThisWeek: int,
    averageSessionLength: int, mostProductiveDay: string, efficiency: string)

  const UserId: string := "user_default"

  /** The profile getProfile stores when the profile key is empty. */
  const DefaultProfile: Profile :=
    Profile(UserId, Some("Student"), "student@example.com", Some("Focusing on my goals."), None, 0, 0)

  const WeekdayNames: seq<string> :=
    ["Sunday", "Monday", "Tuesday", "Wednesday", "Thursday", "Friday", "Saturday"]

  // ---------------------------------------------------------------------------
  // Schedule

  function ItemOrder(i: ScheduleItem): int
  {
    i.order
  }

  /** The items stored for one date, in stored order. */
  function OnDate(items: seq<ScheduleItem>, date: string): seq<ScheduleItem>
  {
    Filter(items, (i: ScheduleItem) => i.date == date)
  }

  /** getSchedule's `filter(date).sort(by order)`. */
  function ScheduleFor(items: seq<ScheduleItem>, date: string): (r: seq<ScheduleItem>)
    ensures |r| == |OnDate(items, date)|
  {
    SortBy(OnDate(items, date), ItemOrder)
  }

  /**
   * The schedule of a date is exactly the stored items of that date, ascending by
   * `order`, items of equal order in stored order.
   */
  lemma ScheduleForSpec(items: seq<ScheduleItem>, date: string)
    ensures var r := ScheduleFor(items, date);
      (forall i :: 0 <= i < |r| ==> r[i].date == date && r[i] in items) &&
      (forall i :: 0 <= i < |items| && items[i].date == date ==> items[i] in r)
    ensures multiset(ScheduleFor(items, date)) == multiset(OnDate(items, date))
    ensures SortedBy(ScheduleFor(items, date), ItemOrder)
    ensures forall k :: WithKey(ScheduleFor(items, date), ItemOrder, k) == WithKey(OnDate(items, date), ItemOrder, k)
  {
    var chosen := OnDate(items, date);
    SortByMembers(chosen, ItemOrder);
    forall k ensures WithKey(ScheduleFor(items, date), ItemOrder, k) == WithKey(chosen, ItemOrder, k) {
      SortByStable(chosen, ItemOrder, k);
    }
  }

  /** The key `findIndex` compares against an id. */
  function ItemId(i: ScheduleItem): string
  {
    i.id
  }

  /** deleteScheduleItem's `filter(s => s.id !== id)`. */
  function Without(items: seq<ScheduleItem>, id: string): (r: seq<ScheduleItem>)
    ensures forall i :: 0 <= i < |r| ==> r[i].id != id
    ensures forall i :: 0 <= i < |items| && items[i].id != id ==> items[i] in r
  {
    Filter(items, (i: ScheduleItem) => i.id != id)
  }

  /**
   * Deleting keeps exactly the items with another id, each as often as it was
   * there, and changes nothing when no item has the id.
   */
  lemma WithoutSpec(items: seq<ScheduleItem>, id: string)
    ensures forall x :: x in Without(items, id) <==> x in items && x.id != id
    ensures forall x :: multiset(Without(items, id))[x] == if x.id == id then 0 else multiset(items)[x]
    ensures IndexOf(items, ItemId, id) < 0 ==> Without(items, id) == items
  {
    FilterMultiset(items, (i: ScheduleItem) => i.id != id);
    if IndexOf(items, ItemId, id) < 0 {
      FilterAll(items, (i: ScheduleItem) => i.id != id);
    }
  }

  /**
   * Deleting works item by item and keeps the order: a list with the id deleted is
   * its parts with the id deleted, and one item stays exactly when it has another id.
   */
  lemma WithoutOrder(a: seq<ScheduleItem>, b: seq<ScheduleItem>, x: ScheduleItem, id: string)
    ensures Without(a + b, id) == Without(a, id) + Without(b, id)
    ensures Without([x], id) == if x.id == id then [] else [x]
  {
    FilterAppend(a, b, (i: ScheduleItem) => i.id != id);
    assert [x][1..] == [];
  }

  // ---------------------------------------------------------------------------
  // Focus log and profile

  function Minutes(s: FocusSession): int
  {
    s.duration
  }

  function CompletedDay(s: FocusSession): int
  {
    DayOf(s.completedAt)
  }

  /** The log entry recordFocusSession writes at instant `now`. */
  function NewSession(id: string, subject: string, duration: int, ambient: Option<string>, now: int): FocusSession
  {
    FocusSession(id, UserId, subject, duration, now - duration * 60000, now, ambient)
  }

  /** The counter update of recordFocusSession: one more session, `60 * duration` more seconds. */
  function Bumped(p: Profile, duration: int): (q: Profile)
    ensures q.totalSessions == p.totalSessions + 1
    ensures q.totalFocusTime == p.totalFocusTime + 60 * duration
    ensures q.(totalSessions := p.totalSessions, totalFocusTime := p.totalFocusTime) == p
  {
    p.(totalSessions := p.totalSessions + 1, totalFocusTime := p.totalFocusTime + duration * 60)
  }

  /** `{ ...profile, ...data }`: every field the patch supplies replaces the stored one. */
  function Merge(p: Profile, d: ProfilePatch): (q: Profile)
    ensures d == ProfilePatch(None, None, None, None, None, None, None) ==> q == p
    ensures (d.id.Some? ==> q.id == d.id.value) && (d.id.None? ==> q.id == p.id)
    ensures (d.name.Some? ==> q.name == d.name.value) && (d.name.None? ==> q.name == p.name)
    ensures (d.email.Some? ==> q.email == d.email.value) && (d.email.None? ==> q.email == p.email)
    ensures (d.bio.Some? ==> q.bio == d.bio.value) && (d.bio.None? ==> q.bio == p.bio)
    ensures (d.avatar.Some? ==> q.avatar == d.avatar.value) && (d.avatar.None? ==> q.avatar == p.avatar)
    ensures (d.totalSessions.Some? ==> q.totalSessions == d.totalSessions.value) &&
      (d.totalSessions.None? ==> q.totalSessions == p.totalSessions)
    ensures (d.totalFocusTime.Some? ==> q.totalFocusTime == d.totalFocusTime.value) &&
      (d.totalFocusTime.None? ==> q.totalFocusTime == p.totalFocusTime)
  {
    Profile(
      d.id.GetOr(p.id), d.name.GetOr(p.name), d.email.GetOr(p.email), d.bio.GetOr(p.bio),
      d.avatar.GetOr(p.avatar), d.totalSessions.GetOr(p.totalSessions),
      d.totalFocusTime.GetOr(p.totalFocusTime))
  }

  /** The counters agree with the log: one session per entry, 60 seconds per logged minute. */
  predicate CountersMatch(p: Profile, log: seq<FocusSession>)
  {
    p.totalSessions == |log| && p.totalFocusTime == 60 * SumAll(log, Minutes)
  }

  // ---------------------------------------------------------------------------
  // Analytics: the seven-day series

  /** Logged minutes per UTC day for the seven days ending today. */
  function RawWeek(log: seq<FocusSession>, now: int): seq<int>
  {
    DaySeries(log, CompletedDay, Minutes, DayOf(now) - 6, 7)
  }

  /** `weeklyData`: the last seven days ending today, oldest first, in tenths of an hour. */
  function WeeklyData(log: seq<FocusSession>, now: int): seq<int>
  {
    var raw := RawWeek(log, now);
    seq(7, i requires 0 <= i < 7 => TenthsOfMinutes(raw[i]))
  }

  /**
   * Entry i of the series rounds the minutes logged on day `today - 6 + i` to the
   * nearest tenth of an hour, and the unrounded entries add up to the minutes logged
   * on the last seven days.
   */
  lemma WeeklyDataSpec(log: seq<FocusSession>, now: int)
    ensures |WeeklyData(log, now)| == 7
    ensures forall i :: 0 <= i < 7 ==>
      var m := SumOnDay(log, CompletedDay, Minutes, DayOf(now) - 6 + i);
      12 * WeeklyData(log, now)[i] - 6 <= 2 * m < 12 * WeeklyData(log, now)[i] + 6
    ensures Total(RawWeek(log, now)) == SumInDays(log, CompletedDay, Minutes, DayOf(now) - 6, DayOf(now) + 1)
  {
    DaySeriesPartition(log, CompletedDay, Minutes, DayOf(now) - 6, 7);
  }

  // ---------------------------------------------------------------------------
  // Analytics: the streak

  /** The latest completion instant (`sortedSessions[0]` after sorting descending). */
  function Latest(log: seq<FocusSession>): (t: int)
    requires log != []
    ensures forall i :: 0 <= i < |log| ==> log[i].completedAt <= t
    ensures exists i :: 0 <= i < |log| && log[i].completedAt == t
  {
    if |log| == 1 then log[0].completedAt
    else
      var rest := Latest(log[1..]);
      assert forall i :: 1 <= i < |log| ==> log[i] == log[1..][i - 1];
      if log[0].completedAt >= rest then log[0].completedAt else rest
  }

  ghost predicate StrictlyDecreasing(ds: seq<int>)
  {
    forall i, j :: 0 <= i < j < |ds| ==> ds[i] > ds[j]
  }

  /** Inserts a day into a strictly decreasing list, unless it is already there. */
  function InsertDesc(ds: seq<int>, d: int): (r: seq<int>)
    requires StrictlyDecreasing(ds)
    ensures StrictlyDecreasing(r)
    ensures forall x :: x in r <==> x in ds || x == d
    ensures |r| <= |ds| + 1
  {
    if ds == [] then [d]
    else if d == ds[0] then ds
    else if d > ds[0] then [d] + ds
    else
      var rest := InsertDesc(ds[1..], d);
      assert forall i :: 0 <= i < |rest| ==> rest[i] in rest;
      [ds[0]] + rest
  }

  /** The set of UTC days on which some session completed. */
  ghost function DaySet(log: seq<FocusSession>): set<int>
  {
    set i | 0 <= i < |log| :: CompletedDay(log[i])
  }

  /**
   * `Array.from(new Set(dates)).sort().reverse()`: the distinct completion days, latest
   * first (ISO date text sorts as the day number does).
   */
  function DistinctDaysDesc(log: seq<FocusSession>): (ds: seq<int>)
    ensures StrictlyDecreasing(ds)
    ensures forall x :: x in ds <==> x in DaySet(log)
    ensures |ds| <= |log|
    ensures log != [] ==> ds != []
  {
    if log == [] then []
    else
      var n := |log| - 1;
      var prev := DistinctDaysDesc(log[..n]);
      assert forall i :: 0 <= i < n ==> log[..n][i] == log[i];
      assert DaySet(log) == DaySet(log[..n]) + {CompletedDay(log[n])};
      InsertDesc(prev, CompletedDay(log[n]))
  }

  /** Length of the run of consecutive days at the head of a decreasing day list. */
  function RunLength(ds: seq<int>): nat
  {
    if |ds| <= 1 then |ds|
    else if ds[0] - ds[1] == 1 then 1 + RunLength(ds[1..])
    else 1
  }

  /**
   * getAnalytics' `currentStreak`: 0 for an empty log, for a latest session more
   * than one whole day before now, or when now is 48 hours or more past the UTC
   * midnight of the latest session day; otherwise the run of consecutive days
   * counted back from the latest session day.
   */
  function CurrentStreak(log: seq<FocusSession>, now: int): nat
  {
    if log == [] then 0
    else if (now - Latest(log)) / MsPerDay > 1 then 0
    else
      var ds := DistinctDaysDesc(log);
      if now - MidnightOf(ds[0]) < 48 * MsPerHour then RunLength(ds) else 0
  }

  lemma {:induction false} RunLengthSpec(ds: seq<int>)
    requires StrictlyDecreasing(ds) && ds != []
    ensures 1 <= RunLength(ds) <= |ds|
    ensures forall j :: 0 <= j < RunLength(ds) ==> ds[j] == ds[0] - j
    ensures forall i :: 0 <= i < |ds| ==> ds[i] != ds[0] - RunLength(ds)
  {
    if |ds| > 1 && ds[0] - ds[1] == 1 {
      var tail := ds[1..];
      RunLengthSpec(tail);
      forall j | 0 <= j < RunLength(ds) ensures ds[j] == ds[0] - j {
        if j > 0 {
          assert ds[j] == tail[j - 1];
        }
      }
      forall i | 0 <= i < |ds| ensures ds[i] != ds[0] - RunLength(ds) {
        if i > 0 {
          assert ds[i] == tail[i - 1];
        }
      }
    }
  }

  /** The latest day in the distinct-day list is the day of the latest session. */
  lemma HeadIsLatestDay(log: seq<FocusSession>)
    requires log != []
    ensures DistinctDaysDesc(log)[0] == DayOf(Latest(log))
  {
    var ds := DistinctDaysDesc(log);
    var t := Latest(log);
    var k :| 0 <= k < |log| && log[k].completedAt == t;
    assert CompletedDay(log[k]) in DaySet(log);
    var m :| 0 <= m < |ds| && ds[m] == DayOf(t);
    assert ds[0] in DaySet(log);
    var i :| 0 <= i < |log| && CompletedDay(log[i]) == ds[0];
    assert log[i].completedAt <= t;
    assert DayOf(log[i].completedAt) <= DayOf(t);
    HeadIsGreatest(ds, m);
  }

  lemma HeadIsGreatest(ds: seq<int>, m: int)
    requires StrictlyDecreasing(ds) && 0 <= m < |ds|
    ensures ds[0] >= ds[m]
  {
    if m > 0 {
      assert ds[0] > ds[m];
    }
  }

  /**
   * What the streak means: it is positive exactly when the log is not empty and the
   * latest session day is today or yesterday (in UTC); then it counts the days
   * `latest, latest - 1, ...` that all have a session, the day before them has none,
   * and it is at most the number of distinct session days.
   */
  lemma CurrentStreakSpec(log: seq<FocusSession>, now: int)
    ensures log == [] ==> CurrentStreak(log, now) == 0
    ensures CurrentStreak(log, now) > 0 <==> log != [] && DayOf(now) <= DayOf(Latest(log)) + 1
    ensures log != [] && CurrentStreak(log, now) > 0 ==>
      var latest := DayOf(Latest(log));
      var r := CurrentStreak(log, now);
      r <= |DistinctDaysDesc(log)| &&
      (forall d :: latest - r < d <= latest ==> d in DaySet(log)) &&
      latest - r !in DaySet(log)
  {
    if log != [] {
      var ds := DistinctDaysDesc(log);
      var t := Latest(log);
      HeadIsLatestDay(log);
      RunLengthSpec(ds);
      MidnightBounds(t);
      MidnightBounds(now);
      assert MidnightOf(ds[0]) <= t;
      if now - MidnightOf(ds[0]) < 48 * MsPerHour {
        assert now - t < 2 * MsPerDay;
        assert (now - t) / MsPerDay <= 1;
        assert CurrentStreak(log, now) == RunLength(ds);
        forall d | ds[0] - RunLength(ds) < d <= ds[0] ensures d in DaySet(log) {
          assert ds[ds[0] - d] == d;
          assert ds[ds[0] - d] in ds;
        }
      }
    }
  }

  /** The streak loop of getAnalytics, counting back over the distinct days. */
  method ComputeCurrentStreak(log: seq<FocusSession>, now: int) returns (streak: int)
    ensures streak == CurrentStreak(log, now)
  {
    streak := 0;
    if |log| > 0 {
      var diffDays := (now - Latest(log)) / MsPerDay;
      if diffDays <= 1 {
        streak := 1;
        var days := DistinctDaysDesc(log);
        if |days| > 0 {
          if now - MidnightOf(days[0]) < 48 * MsPerHour {
            streak := 1;
            var i := 0;
            while i < |days| - 1
              invariant 0 <= i <= |days| - 1
              invariant streak == i + 1
              invariant RunLength(days) == i + RunLength(days[i..])
            {
              var diffTime := MidnightOf(days[i]) - MidnightOf(days[i + 1]);
              var gap := CeilDiv(if diffTime < 0 then -diffTime else diffTime, MsPerDay);
              DaysBetweenMidnights(days[i], days[i + 1]);
              assert days[i..][1..] == days[i + 1..];
              if gap == 1 {
                streak := streak + 1;
              } else {
                assert RunLength(days[i..]) == 1;
                break;
              }
              i := i + 1;
            }
            assert RunLength(days[i..]) == 1;
          } else {
            streak := 0;
          }
        }
      }
    }
  }

  // ---------------------------------------------------------------------------
  // Analytics: the most productive weekday

  function WeekdayName(day: int): string
  {
    WeekdayNames[Weekday(day)]
  }

  /** The (weekday name, minutes) pairs the `dayCounts` loop adds up, one per log entry. */
  function DayPairs(log: seq<FocusSession>): Tally.Entries<string>
  {
    seq(|log|, i requires 0 <= i < |log| => (WeekdayName(CompletedDay(log[i])), log[i].duration))
  }

  /** Minutes logged on one weekday, over the whole history. */
  function WeekdayMinutes(log: seq<FocusSession>, name: string): int
  {
    Tally.SumFor(DayPairs(log), name)
  }

  /** The `dayCounts` record: weekday totals in first-seen order. */
  function DayTotals(log: seq<FocusSession>): Tally.Entries<string>
  {
    Tally.Totals(DayPairs(log))
  }

  /** getAnalytics' `mostProductiveDay`. */
  function MostProductiveDay(log: seq<FocusSession>): string
  {
    var es := DayTotals(log);
    var b := Tally.BestIndex(es);
    if b < 0 then "None" else es[b].0
  }

  /** The `dayCounts` accumulation and the `maxDuration` scan. */
  method FindMostProductiveDay(log: seq<FocusSession>) returns (day: string)
    ensures day == MostProductiveDay(log)
  {
    var counts := Tally.Accumulate(DayPairs(log));
    var best := Tally.PickMax(counts);
    day := if best.None? then "None" else best.value;
  }

  /** The weekday the scan picks is a weekday name. */
  lemma BestIsWeekday(log: seq<FocusSession>)
    ensures var es := DayTotals(log); var b := Tally.BestIndex(es);
      b >= 0 ==> es[b].0 in WeekdayNames
  {
    var ps := DayPairs(log);
    var es := DayTotals(log);
    var b := Tally.BestIndex(es);
    if b >= 0 {
      Tally.TotalsEntries(ps);
      var ks := Tally.Keys(ps);
      assert es[b].0 in ks;
      var i :| 0 <= i < |ks| && ks[i] == es[b].0;
      assert es[b].0 == WeekdayName(CompletedDay(log[i]));
    }
  }

  /**
   * `"None"` exactly when no weekday has a positive total; otherwise a weekday whose
   * total is positive and at least every other weekday's.
   */
  lemma MostProductiveDaySpec(log: seq<FocusSession>)
    ensures MostProductiveDay(log) == "None" <==>
      forall w :: 0 <= w < 7 ==> WeekdayMinutes(log, WeekdayNames[w]) <= 0
    ensures MostProductiveDay(log) != "None" ==>
      var r := MostProductiveDay(log);
      r in WeekdayNames && WeekdayMinutes(log, r) > 0 &&
      forall w :: 0 <= w < 7 ==> WeekdayMinutes(log, WeekdayNames[w]) <= WeekdayMinutes(log, r)
  {
    var ps := DayPairs(log);
    var es := DayTotals(log);
    var b := Tally.BestIndex(es);
    Tally.TotalsBest(ps);
    if b >= 0 {
      BestIsWeekday(log);
      var w :| 0 <= w < 7 && WeekdayNames[w] == es[b].0;
      assert WeekdayNames[w] != "None";
      assert MostProductiveDay(log) == es[b].0;
      assert WeekdayMinutes(log, WeekdayNames[w]) > 0;
    } else {
      assert MostProductiveDay(log) == "None";
      forall w | 0 <= w < 7 ensures WeekdayMinutes(log, WeekdayNames[w]) <= 0 {
        assert Tally.SumFor(ps, WeekdayNames[w]) <= 0;
      }
    }
  }

  /**
   * Ties go to the weekday that entered the record first: every weekday recorded
   * before the answer has a strictly smaller total.
   */
  lemma MostProductiveDayFirst(log: seq<FocusSession>)
    ensures MostProductiveDay(log) != "None" ==>
      var order := Tally.Keys(DayTotals(log));
      forall i, j :: 0 <= i < j < |order| && order[j] == MostProductiveDay(log) ==>
        WeekdayMinutes(log, order[i]) < WeekdayMinutes(log, order[j])
  {
    var ps := DayPairs(log);
    var es := DayTotals(log);
    var keys := Tally.Keys(es);
    var b := Tally.BestIndex(es);
    Tally.TotalsBest(ps);
    Tally.TotalsEntries(ps);
    if b >= 0 {
      BestIsWeekday(log);
      forall i, j | 0 <= i < j < |keys| && keys[j] == es[b].0
        ensures WeekdayMinutes(log, keys[i]) < WeekdayMinutes(log, keys[j])
      {
        assert keys[b] == es[b].0;
        assert j == b;
      }
    }
  }

  // ---------------------------------------------------------------------------
  // Analytics: efficiency and weekly counts

  /** Minutes of sessions completed strictly after `t`. */
  function MinutesAfter(log: seq<FocusSession>, t: int): int
  {
    if log == [] then 0
    else (if log[0].completedAt > t then log[0].duration else 0) + MinutesAfter(log[1..], t)
  }

  /** Minutes of sessions completed in `(lo, hi]`. */
  function MinutesBetween(log: seq<FocusSession>, lo: int, hi: int): int
  {
    if log == [] then 0
    else (if lo < log[0].completedAt <= hi then log[0].duration else 0) + MinutesBetween(log[1..], lo, hi)
  }

  /** Sessions completed strictly after `t`. */
  function CountAfter(log: seq<FocusSession>, t: int): (n: nat)
    ensures n <= |log|
  {
    if log == [] then 0 else (if log[0].completedAt > t then 1 else 0) + CountAfter(log[1..], t)
  }

  /**
   * The efficiency text for this window's minutes `cur` against the previous
   * window's `last`.
   */
  function EfficiencyText(cur: int, last: int): string
  {
    if last > 0 then (if cur - last > 0 then "+" else "") + IntToString(PercentChange(cur, last)) + "%"
    else if cur > 0 then "+100%"
    else "0%"
  }

  /** Efficiency over the seven days before now against the seven days before those. */
  function Efficiency(log: seq<FocusSession>, now: int): string
  {
    EfficiencyText(MinutesAfter(log, now - 7 * MsPerDay),
                   MinutesBetween(log, now - 14 * MsPerDay, now - 7 * MsPerDay))
  }

  /**
   * With a baseline the text is the rounded percentage change read back by
   * `parseInt`, with a '+' exactly when this window is larger, and a final '%';
   * without one it is "+100%" when this window has minutes and "0%" otherwise.
   */
  lemma EfficiencyTextSpec(cur: int, last: int)
    ensures last > 0 ==>
      var t := EfficiencyText(cur, last);
      |t| >= 2 && t[|t| - 1] == '%' &&
      (t[0] == '+' <==> cur > last) &&
      ParseInt(t[..|t| - 1]) == Some(PercentChange(cur, last))
    ensures last <= 0 && cur > 0 ==> EfficiencyText(cur, last) == "+100%"
    ensures last <= 0 && cur <= 0 ==> EfficiencyText(cur, last) == "0%"
  {
    if last > 0 {
      var p := PercentChange(cur, last);
      var digits := IntToString(p);
      var t := EfficiencyText(cur, last);
      IntToStringRoundTrip(p);
      PercentChangeSign(cur, last);
      if cur > last {
        assert t[..|t| - 1] == "+" + digits;
        assert p >= 0;
        assert digits[0] != '-';
        assert ("+" + digits)[1..] == digits;
      } else {
        assert t[..|t| - 1] == digits;
        assert t[0] == digits[0];
        if cur == last {
          PercentChangeExamples(last);
        }
        assert digits[0] == '-' || digits[0] in "0123456789";
      }
    }
  }

  // ---------------------------------------------------------------------------
  // The whole snapshot

  /** Everything getAnalytics computes from the log, the profile and the instant. */
  function AnalyticsOf(log: seq<FocusSession>, p: Profile, now: int): Analytics
  {
    var weekly := WeeklyData(log, now);
    var streak := CurrentStreak(log, now);
    Analytics(
      weekly, weekly, streak, if streak > 0 then streak else 0,
      TenthsOfSeconds(p.totalFocusTime), p.totalSessions, CountAfter(log, now - 7 * MsPerDay),
      if |log| > 0 then RoundDiv(p.totalFocusTime, 60 * |log|) else 0,
      MostProductiveDay(log), Efficiency(log, now))
  }

  /**
   * When the counters are in step with the log, the totals of the snapshot are
   * those of the log itself, and the longest streak is the current one.
   */
  lemma AnalyticsTotalsFromLog(log: seq<FocusSession>, p: Profile, now: int)
    requires CountersMatch(p, log)
    ensures AnalyticsOf(log, p, now).totalSessions == |log|
    ensures AnalyticsOf(log, p, now).totalFocusHours == TenthsOfMinutes(SumAll(log, Minutes))
    ensures |log| > 0 ==> AnalyticsOf(log, p, now).averageSessionLength == RoundDiv(SumAll(log, Minutes), |log|)
    ensures AnalyticsOf(log, p, now).longestStreak == AnalyticsOf(log, p, now).currentStreak
  {
    var m := SumAll(log, Minutes);
    RoundDivScale(m, 6, 60);
    assert 60 * 6 == 360;
    if |log| > 0 {
      RoundDivScale(m, |log|, 60);
    }
  }

  // ---------------------------------------------------------------------------
  // The store

  class ClientStore {
    var schedule: seq<ScheduleItem>
    var sessions: seq<FocusSession>
    /** None while the profile key is empty. */
    var profile: Option<Profile>

    /** Counters in step with the log; an absent profile goes with an empty log. */
    ghost predicate CountersInStep()
      reads this
    {
      match profile
      case None => sessions == []
      case Some(p) => CountersMatch(p, sessions)
    }

    /** Empty storage. */
    constructor ()
      ensures schedule == [] && sessions == [] && profile == None
      ensures CountersInStep()
    {
      schedule := [];
      sessions := [];
      profile := None;
    }

    /** getSchedule(date). */
    method GetSchedule(date: string) returns (items: seq<ScheduleItem>)
      ensures items == ScheduleFor(schedule, date)
    {
      items := ScheduleFor(schedule, date);
    }

    /** addScheduleItem: appends the item with a fresh id and `completed = false`. */
    method AddScheduleItem(item: NewItem, id: string) returns (created: ScheduleItem)
      requires forall i :: 0 <= i < |schedule| ==> schedule[i].id != id
      modifies this
      ensures created == ScheduleItem(id, item.subject, item.tag, item.time, item.duration, item.date, item.order, false)
      ensures schedule == old(schedule) + [created]
      ensures sessions == old(sessions) && profile == old(profile)
      ensures IndexOf(schedule, ItemId, id) == |old(schedule)|
    {
      created := ScheduleItem(id, item.subject, item.tag, item.time, item.duration, item.date, item.order, false);
      schedule := schedule + [created];
      assert schedule[|old(schedule)|].id == id;
      assert forall i :: 0 <= i < |old(schedule)| ==> schedule[i] == old(schedule)[i];
    }

    /** deleteScheduleItem: drops every item with that id. */
    method DeleteScheduleItem(id: string)
      modifies this
      ensures schedule == Without(old(schedule), id)
      ensures sessions == old(sessions) && profile == old(profile)
    {
      schedule := Without(schedule, id);
    }

    /** getProfile: the stored profile, or the default one, which is then stored. */
    method GetProfile() returns (p: Profile)
      modifies this
      ensures p == old(profile).GetOr(DefaultProfile) && profile == Some(p)
      ensures schedule == old(schedule) && sessions == old(sessions)
      ensures old(CountersInStep()) ==> CountersInStep()
    {
      if profile.Some? {
        p := profile.value;
      } else {
        p := DefaultProfile;
        profile := Some(p);
      }
    }

    /** updateProfile: merges the supplied fields into the profile. */
    method UpdateProfile(data: ProfilePatch) returns (updated: Profile)
      modifies this
      ensures updated == Merge(old(profile).GetOr(DefaultProfile), data) && profile == Some(updated)
      ensures schedule == old(schedule) && sessions == old(sessions)
      ensures old(CountersInStep()) && data.totalSessions.None? && data.totalFocusTime.None? ==> CountersInStep()
    {
      var p := GetProfile();
      updated := Merge(p, data);
      profile := Some(updated);
    }

    /**
     * recordFocusSession: appends one entry to the log and bumps both counters,
     * which keeps them in step with the log.
     */
    method RecordFocusSession(subject: string, duration: int, ambient: Option<string>, now: int, id: string)
      returns (s: FocusSession)
      requires forall i :: 0 <= i < |sessions| ==> sessions[i].id != id
      modifies this
      ensures s == NewSession(id, subject, duration, ambient, now)
      ensures sessions == old(sessions) + [s]
      ensures profile == Some(Bumped(old(profile).GetOr(DefaultProfile), duration))
      ensures schedule == old(schedule)
      ensures old(CountersInStep()) ==> CountersInStep()
    {
      s := NewSession(id, subject, duration, ambient, now);
      ghost var before := sessions;
      sessions := sessions + [s];
      var p := GetProfile();
      profile := Some(Bumped(p, duration));
      SumAllAppend(before, s, Minutes);
    }

    /**
     * toggleScheduleItemComplete: an unknown id changes nothing; otherwise only that
     * item's flag changes, and setting it to true also records one focus session
     * with the item's subject and duration, even when it was already completed.
     */
    method ToggleScheduleItemComplete(id: string, completed: bool, now: int, sessionId: string)
      requires forall i :: 0 <= i < |sessions| ==> sessions[i].id != sessionId
      modifies this
      ensures var j := IndexOf(old(schedule), ItemId, id);
        j < 0 ==> schedule == old(schedule) && sessions == old(sessions) && profile == old(profile)
      ensures var j := IndexOf(old(schedule), ItemId, id);
        j >= 0 ==> schedule == old(schedule)[j := old(schedule)[j].(completed := completed)]
      ensures var j := IndexOf(old(schedule), ItemId, id);
        j >= 0 && !completed ==> sessions == old(sessions) && profile == old(profile)
      ensures var j := IndexOf(old(schedule), ItemId, id);
        j >= 0 && completed ==>
          sessions == old(sessions) + [NewSession(sessionId, old(schedule)[j].subject, old(schedule)[j].duration, Some("None"), now)]
          && profile == Some(Bumped(old(profile).GetOr(DefaultProfile), old(schedule)[j].duration))
      ensures old(CountersInStep()) ==> CountersInStep()
    {
      var index := IndexOf(schedule, ItemId, id);
      if index != -1 {
        schedule := schedule[index := schedule[index].(completed := completed)];
        if completed {
          var item := schedule[index];
          var _ := RecordFocusSession(item.subject, item.duration, Some("None"), now, sessionId);
        }
      }
    }

    /** getAnalytics at instant `now`; reading the profile may store the default one. */
    method GetAnalytics(now: int) returns (a: Analytics)
      modifies this
      ensures profile == Some(old(profile).GetOr(DefaultProfile))
      ensures schedule == old(schedule) && sessions == old(sessions)
      ensures a == AnalyticsOf(sessions, profile.value, now)
      ensures old(CountersInStep()) ==> CountersInStep()
    {
      var log := sessions;
      var p := GetProfile();
      var weekly := WeeklyData(log, now);
      var currentStreak := ComputeCurrentStreak(log, now);
      var longestStreak := if currentStreak > 0 then currentStreak else 0;
      var totalFocusHours := TenthsOfSeconds(p.totalFocusTime);
      var averageSessionLength := if |log| > 0 then RoundDiv(p.totalFocusTime, 60 * |log|) else 0;
      var mostProductiveDay := FindMostProductiveDay(log);
      var efficiency := Efficiency(log, now);
      var sessionsThisWeek := CountAfter(log, now - 7 * MsPerDay);
      a := Analytics(weekly, weekly, currentStreak, longestStreak, totalFocusHours, p.totalSessions,
                     sessionsThisWeek, averageSessionLength, mostProductiveDay, efficiency);
    }
  }
}
