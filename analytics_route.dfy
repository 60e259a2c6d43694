/**
 * The server's analytics report (src/app/_api/analytics/route.ts, GET). It reads
 * the first user's completed sessions, newest `startedAt` first, and their daily
 * rows, newest date first, and aggregates them for the instant `now`. Durations are
 * seconds; hour values are integer tenths of an hour.
 */
module AnalyticsRoute {
  import opened Wrappers
  import opened Numeric
  import opened Decimal
  import opened Collections
  import Tally
  import opened Tables

  datatype DayHours = DayHours(day: string, hours: int)
  datatype Trend = Trend(week: string, sessions: int, hours: int)
  datatype SubjectShare = SubjectShare(subject: string, hours: int, color: string)

  datatype Report = Report(
    weeklyFocusData: seq<DayHours>, subjectDistribution: seq<SubjectShare>,
    monthlyTrend: seq<Trend>, totalFocusHours: int, totalSessions: int,
    averageSessionLength: int, weeklyStreak: int, longestStreak: int,
    mostProductiveDay: string, weeklyData: seq<int>, weeklyBars: seq<int>,
    currentStreak: int, bestStreak: int, sessionsThisWeek: int, totalFocusWeek: int,
    avgSessionLength: int, efficiency: string)

  const Days: seq<string> := ["Mon", "Tue", "Wed", "Thu", "Fri", "Sat", "Sun"]

  const Palette: seq<string> := [
    "oklch(0.6 0.2 250)", "oklch(0.7 0.12 200)", "oklch(0.65 0.15 300)",
    "oklch(0.6 0.12 145)", "oklch(0.55 0.15 25)"]

  const FailureMessage: string := "Failed to fetch analytics"

  // ---------------------------------------------------------------------------
  // The week

  /** `now.getDate() - now.getDay() + 1`: the day the report's week starts on. */
  function StartDay(now: int): int
  {
    DayOf(now) - Weekday(DayOf(now)) + 1
  }

  /** `startOfWeek` after `setHours(0, 0, 0, 0)`. */
  function StartOfWeek(now: int): int
  {
    MidnightOf(StartDay(now))
  }

  /**
   * The week always starts on a Monday: on Monday to Saturday the Monday of the
   * current week, on a Sunday the Monday after it, so the whole week lies ahead.
   */
  lemma StartDaySpec(now: int)
    ensures Weekday(StartDay(now)) == 1
    ensures Weekday(DayOf(now)) != 0 ==> StartDay(now) <= DayOf(now) <= StartDay(now) + 5
    ensures Weekday(DayOf(now)) == 0 ==> StartDay(now) == DayOf(now) + 1
  {
    var d := DayOf(now);
    assert d + 4 == 7 * ((d + 4) / 7) + (d + 4) % 7;
    assert StartDay(now) + 4 == 7 * ((d + 4) / 7) + 1;
  }

  function StartedDay(s: SessionRow): int
  {
    DayOf(s.startedAt)
  }

  /** `weeklyFocusData`: hours per day of the week, by the day each session started. */
  function WeeklyFocusData(ss: seq<SessionRow>, now: int): seq<DayHours>
  {
    seq(7, i requires 0 <= i < 7 =>
      DayHours(Days[i], TenthsOfSeconds(SumOnDay(ss, StartedDay, Seconds, StartDay(now) + i))))
  }

  /**
   * Seven entries, Mon to Sun, each labelled with the weekday of its date; entry i
   * rounds the seconds started on day `StartDay + i` to the nearest tenth of an
   * hour, and the unrounded days add up to the seconds of the whole week.
   */
  lemma WeeklyFocusDataSpec(ss: seq<SessionRow>, now: int)
    ensures |WeeklyFocusData(ss, now)| == 7
    ensures forall i :: 0 <= i < 7 ==> WeeklyFocusData(ss, now)[i].day == Days[i]
    ensures forall d :: StartDay(now) <= d < StartDay(now) + 7 ==>
      WeeklyFocusData(ss, now)[d - StartDay(now)].day == Days[(Weekday(d) + 6) % 7]
    ensures forall i :: 0 <= i < 7 ==>
      var secs := SumOnDay(ss, StartedDay, Seconds, StartDay(now) + i);
      720 * WeeklyFocusData(ss, now)[i].hours - 360 <= 2 * secs < 720 * WeeklyFocusData(ss, now)[i].hours + 360
    ensures Total(DaySeries(ss, StartedDay, Seconds, StartDay(now), 7))
         == SumInDays(ss, StartedDay, Seconds, StartDay(now), StartDay(now) + 7)
  {
    StartDaySpec(now);
    var d := StartDay(now);
    var r := WeeklyFocusData(ss, now);
    forall i | 0 <= i < 7 ensures r[i].day == Days[i] {
      assert r[i] == DayHours(Days[i], TenthsOfSeconds(SumOnDay(ss, StartedDay, Seconds, d + i)));
    }
    forall e | d <= e < d + 7 ensures r[e - d].day == Days[(Weekday(e) + 6) % 7] {
      WeekdayAfter(d, e - d);
      assert r[e - d].day == Days[e - d];
    }
    forall i | 0 <= i < 7 ensures
      var secs := SumOnDay(ss, StartedDay, Seconds, d + i);
      720 * r[i].hours - 360 <= 2 * secs < 720 * r[i].hours + 360
    {
      assert r[i] == DayHours(Days[i], TenthsOfSeconds(SumOnDay(ss, StartedDay, Seconds, d + i)));
    }
    DaySeriesPartition(ss, StartedDay, Seconds, d, 7);
  }

  /** `weeklyBars`: completed sessions started on each day of the week, at most 7. */
  function WeeklyBars(ss: seq<SessionRow>, now: int): seq<int>
  {
    seq(7, i requires 0 <= i < 7 =>
      Min(CountOnDay(Filter(ss, IsCompleted), StartedDay, StartDay(now) + i), 7))
  }

  /** One for a completed session, none for any other: summed, the completed sessions. */
  function CompletedOne(s: SessionRow): int
  {
    if s.completed then 1 else 0
  }

  /** The number of completed sessions whose start day lies in the week of `now`. */
  function CompletedInWeek(ss: seq<SessionRow>, now: int): int
  {
    SumInDays(ss, StartedDay, CompletedOne, StartDay(now), StartDay(now) + 7)
  }

  /** Counting a day among the completed sessions counts the completed ones of that day. */
  lemma {:induction false} CountCompletedOnDay(ss: seq<SessionRow>, d: int)
    ensures CountOnDay(Filter(ss, IsCompleted), StartedDay, d) == SumOnDay(ss, StartedDay, CompletedOne, d)
  {
    if ss != [] {
      CountCompletedOnDay(ss[1..], d);
      var rest := Filter(ss[1..], IsCompleted);
      if ss[0].completed {
        assert Filter(ss, IsCompleted) == [ss[0]] + rest;
        assert ([ss[0]] + rest)[1..] == rest;
      } else {
        assert Filter(ss, IsCompleted) == rest;
      }
    }
  }

  /**
   * Bar i is the number of completed sessions started on day `StartDay + i`, capped
   * at 7. The bars add up to at most the completed sessions of the week, and to
   * exactly that number when no day of the week has more than 7.
   */
  lemma WeeklyBarsTotal(ss: seq<SessionRow>, now: int)
    ensures |WeeklyBars(ss, now)| == 7
    ensures forall i :: 0 <= i < 7 ==>
      0 <= WeeklyBars(ss, now)[i] <= 7 &&
      WeeklyBars(ss, now)[i] == Min(SumOnDay(ss, StartedDay, CompletedOne, StartDay(now) + i), 7)
    ensures Total(WeeklyBars(ss, now)) <= CompletedInWeek(ss, now)
    ensures Total(WeeklyBars(ss, now)) == CompletedInWeek(ss, now) <==>
      forall d :: StartDay(now) <= d < StartDay(now) + 7 ==> SumOnDay(ss, StartedDay, CompletedOne, d) <= 7
  {
    var lo := StartDay(now);
    var raw := DaySeries(ss, StartedDay, CompletedOne, lo, 7);
    var bars := WeeklyBars(ss, now);
    forall i | 0 <= i < 7 ensures 0 <= bars[i] <= 7 && bars[i] == Min(raw[i], 7) {
      assert bars[i] == Min(CountOnDay(Filter(ss, IsCompleted), StartedDay, lo + i), 7);
      CountCompletedOnDay(ss, lo + i);
    }
    TotalBelowCap(raw, bars, 7);
    DaySeriesPartition(ss, StartedDay, CompletedOne, lo, 7);
    assert (forall i :: 0 <= i < 7 ==> raw[i] <= 7) <==>
      (forall d :: lo <= d < lo + 7 ==> SumOnDay(ss, StartedDay, CompletedOne, d) <= 7) by {
      forall d | lo <= d < lo + 7 ensures raw[d - lo] == SumOnDay(ss, StartedDay, CompletedOne, d) {
      }
    }
  }

  /** Seconds of the sessions started in `[lo, hi)`. */
  function SecondsIn(ss: seq<SessionRow>, lo: int, hi: int): int
  {
    if ss == [] then 0
    else (if lo <= ss[0].startedAt < hi then ss[0].duration else 0) + SecondsIn(ss[1..], lo, hi)
  }

  /** Seconds of the sessions started at or after `t`. */
  function SecondsFrom(ss: seq<SessionRow>, t: int): int
  {
    if ss == [] then 0 else (if ss[0].startedAt >= t then ss[0].duration else 0) + SecondsFrom(ss[1..], t)
  }

  /** Sessions started at or after `t`. */
  function CountFrom(ss: seq<SessionRow>, t: int): (n: nat)
    ensures n <= |ss|
  {
    if ss == [] then 0 else (if ss[0].startedAt >= t then 1 else 0) + CountFrom(ss[1..], t)
  }

  // ---------------------------------------------------------------------------
  // The monthly trend

  /** On or after the calendar day 28 days before now (`fourWeeksAgoStr`). */
  predicate IsRecent(s: SessionRow, now: int)
  {
    DayOf(s.startedAt) >= DayOf(now) - 28
  }

  /** `Math.floor((now - startedAt) / week)`. */
  function WeeksAgo(s: SessionRow, now: int): int
  {
    (now - s.startedAt) / MsPerWeek
  }

  /** `Math.min(weeksAgo, 3)`: the bucket a recent session goes to. */
  function BucketOf(s: SessionRow, now: int): int
  {
    Min(WeeksAgo(s, now), 3)
  }

  /** Recent sessions in bucket `k`. */
  function BucketCount(ss: seq<SessionRow>, now: int, k: int): nat
  {
    if ss == [] then 0
    else
      var s := ss[|ss| - 1];
      BucketCount(ss[..|ss| - 1], now, k) + (if IsRecent(s, now) && BucketOf(s, now) == k then 1 else 0)
  }

  /** Seconds of the recent sessions in bucket `k`. */
  function BucketSeconds(ss: seq<SessionRow>, now: int, k: int): int
  {
    if ss == [] then 0
    else
      var s := ss[|ss| - 1];
      BucketSeconds(ss[..|ss| - 1], now, k) + (if IsRecent(s, now) && BucketOf(s, now) == k then s.duration else 0)
  }

  function RecentCount(ss: seq<SessionRow>, now: int): nat
  {
    if ss == [] then 0
    else RecentCount(ss[..|ss| - 1], now) + (if IsRecent(ss[|ss| - 1], now) then 1 else 0)
  }

  /** No recent session starts after now, so every bucket index exists. */
  predicate NoFutureRecent(ss: seq<SessionRow>, now: int)
  {
    forall i :: 0 <= i < |ss| && IsRecent(ss[i], now) ==> ss[i].startedAt <= now
  }

  /**
   * The four buckets, most recent first, labelled W4 to W1; None when a recent
   * session starts after now: its index is negative, `monthlyTrend[weekIndex]` is
   * undefined and the increment throws.
   */
  function TrendOf(ss: seq<SessionRow>, now: int): Option<seq<Trend>>
  {
    if !NoFutureRecent(ss, now) then None
    else Some([
      Trend("W4", BucketCount(ss, now, 0), TenthsOfSeconds(BucketSeconds(ss, now, 0))),
      Trend("W3", BucketCount(ss, now, 1), TenthsOfSeconds(BucketSeconds(ss, now, 1))),
      Trend("W2", BucketCount(ss, now, 2), TenthsOfSeconds(BucketSeconds(ss, now, 2))),
      Trend("W1", BucketCount(ss, now, 3), TenthsOfSeconds(BucketSeconds(ss, now, 3)))])
  }

  /** The `recentSessions.forEach` that fills the four buckets in place. */
  method MonthlyTrend(ss: seq<SessionRow>, now: int) returns (trend: Option<seq<Trend>>)
    ensures trend == TrendOf(ss, now)
  {
    var counts := new int[4](_ => 0);
    var seconds := new int[4](_ => 0);
    var i := 0;
    while i < |ss|
      invariant 0 <= i <= |ss|
      invariant NoFutureRecent(ss[..i], now)
      invariant forall k :: 0 <= k < 4 ==>
        counts[k] == BucketCount(ss[..i], now, k) && seconds[k] == BucketSeconds(ss[..i], now, k)
    {
      var s := ss[i];
      assert ss[..i + 1][..i] == ss[..i];
      if IsRecent(s, now) {
        var weekIndex := Min(WeeksAgo(s, now), 3);
        if weekIndex < 0 {
          assert ss[i] == s && !NoFutureRecent(ss, now);
          return None;
        }
        counts[weekIndex] := counts[weekIndex] + 1;
        seconds[weekIndex] := seconds[weekIndex] + s.duration;
      }
      i := i + 1;
    }
    assert ss[..i] == ss;
    trend := Some([
      Trend("W4", counts[0], TenthsOfSeconds(seconds[0])),
      Trend("W3", counts[1], TenthsOfSeconds(seconds[1])),
      Trend("W2", counts[2], TenthsOfSeconds(seconds[2])),
      Trend("W1", counts[3], TenthsOfSeconds(seconds[3]))]);
  }

  /**
   * Every recent session that starts no later than now lands in exactly one of the
   * buckets 0..3, so the bucket counts add up to the number of recent sessions.
   */
  lemma {:induction false} BucketPartition(ss: seq<SessionRow>, now: int)
    requires NoFutureRecent(ss, now)
    ensures BucketCount(ss, now, 0) + BucketCount(ss, now, 1) + BucketCount(ss, now, 2)
          + BucketCount(ss, now, 3) == RecentCount(ss, now)
  {
    if ss != [] {
      var n := |ss| - 1;
      assert forall i :: 0 <= i < n ==> ss[..n][i] == ss[i];
      BucketPartition(ss[..n], now);
      var s := ss[n];
      if IsRecent(s, now) {
        assert s.startedAt <= now;
        assert 0 <= BucketOf(s, now) <= 3;
      }
    }
  }

  /** The bucket of a session that started `w` whole weeks before now (w >= 3 gives 3). */
  lemma BucketOfSpec(s: SessionRow, now: int)
    requires s.startedAt <= now
    ensures 0 <= BucketOf(s, now) <= 3
    ensures BucketOf(s, now) < 3 ==>
      MsPerWeek * BucketOf(s, now) <= now - s.startedAt < MsPerWeek * (BucketOf(s, now) + 1)
    ensures BucketOf(s, now) == 3 ==> now - s.startedAt >= 3 * MsPerWeek
  {
  }

  // ---------------------------------------------------------------------------
  // The subject distribution

  function SubjectPairs(ss: seq<SessionRow>): Tally.Entries<string>
  {
    seq(|ss|, i requires 0 <= i < |ss| => (ss[i].subject, ss[i].duration))
  }

  /** The shares in map order, the i-th coloured `colorMap[i % 5]`. */
  function Coloured(es: Tally.Entries<string>): seq<SubjectShare>
  {
    seq(|es|, i requires 0 <= i < |es| => SubjectShare(es[i].0, TenthsOfSeconds(es[i].1), Palette[i % 5]))
  }

  /**
   * `x` is the share of the subject first seen at position j: that subject, its
   * total hours, colour `Palette[j % 5]`.
   */
  ghost predicate ColouredAt(ss: seq<SessionRow>, x: SubjectShare, j: int)
  {
    var ps := SubjectPairs(ss);
    var order := Tally.FirstSeen(Tally.Keys(ps));
    0 <= j < |order| && x.subject == order[j] && x.color == Palette[j % 5] &&
    x.hours == TenthsOfSeconds(Tally.SumFor(ps, order[j]))
  }

  /** The `.map` with `colorIndex++`. */
  method ColourShares(es: Tally.Entries<string>) returns (shares: seq<SubjectShare>)
    ensures shares == Coloured(es)
  {
    shares := [];
    var colorIndex := 0;
    while colorIndex < |es|
      invariant 0 <= colorIndex <= |es|
      invariant shares == Coloured(es[..colorIndex])
    {
      var (subject, seconds) := es[colorIndex];
      shares := shares + [SubjectShare(subject, TenthsOfSeconds(seconds), Palette[colorIndex % |Palette|])];
      colorIndex := colorIndex + 1;
    }
    assert es[..colorIndex] == es;
  }

  function NegHours(x: SubjectShare): int
  {
    -x.hours
  }

  function Subject(x: SubjectShare): string
  {
    x.subject
  }

  function Top5<T>(s: seq<T>): seq<T>
  {
    s[..Min(5, |s|)]
  }

  /** The shares sorted by hours, largest first, before `.slice(0, 5)`. */
  function RankedShares(ss: seq<SessionRow>): seq<SubjectShare>
  {
    SortBy(Coloured(Tally.Totals(SubjectPairs(ss))), NegHours)
  }

  /** `subjectDistribution`. */
  function SubjectDistribution(ss: seq<SessionRow>): seq<SubjectShare>
  {
    Top5(RankedShares(ss))
  }

  method ComputeSubjectDistribution(ss: seq<SessionRow>) returns (dist: seq<SubjectShare>)
    ensures dist == SubjectDistribution(ss)
  {
    var subjectMap := Tally.Accumulate(SubjectPairs(ss));
    var shares := ColourShares(subjectMap);
    var ranked := SortBy(shares, NegHours);
    dist := Top5(ranked);
  }

  /**
   * At most five shares, as many as there are distinct subjects up to five, with
   * distinct subjects, in non-increasing order of hours.
   */
  lemma SubjectDistributionShape(ss: seq<SessionRow>)
    ensures var r := SubjectDistribution(ss);
      |r| == Min(5, |Tally.FirstSeen(Tally.Keys(SubjectPairs(ss)))|) &&
      (forall i, j :: 0 <= i < j < |r| ==> r[i].subject != r[j].subject) &&
      (forall i, j :: 0 <= i < j < |r| ==> r[i].hours >= r[j].hours)
  {
    var ps := SubjectPairs(ss);
    var es := Tally.Totals(ps);
    var c := Coloured(es);
    Tally.TotalsEntries(ps);
    Tally.TotalsKeys(ps);
    assert DistinctBy(c, Subject) by {
      forall i, j | 0 <= i < j < |c| ensures Subject(c[i]) != Subject(c[j]) {
        assert Tally.Keys(es)[i] == es[i].0;
      }
    }
    SortByDistinct(c, NegHours, Subject);
    var r := SubjectDistribution(ss);
    var ranked := RankedShares(ss);
    forall i, j | 0 <= i < j < |r| ensures r[i].subject != r[j].subject && r[i].hours >= r[j].hours {
      assert r[i] == ranked[i] && r[j] == ranked[j];
      assert Subject(ranked[i]) != Subject(ranked[j]);
      assert NegHours(ranked[i]) <= NegHours(ranked[j]);
    }
  }

  /** Share j of the coloured list is subject j in first-seen order, with its hours and colour. */
  lemma ColouredEntries(ss: seq<SessionRow>)
    ensures var ps := SubjectPairs(ss); var c := Coloured(Tally.Totals(ps)); var order := Tally.FirstSeen(Tally.Keys(ps));
      |c| == |order| &&
      forall j :: 0 <= j < |c| ==> ColouredAt(ss, c[j], j)
  {
    var ps := SubjectPairs(ss);
    var es := Tally.Totals(ps);
    Tally.TotalsEntries(ps);
    Tally.TotalsKeys(ps);
    var c := Coloured(es);
    forall j | 0 <= j < |c| ensures ColouredAt(ss, c[j], j) {
      assert Tally.Keys(es)[j] == es[j].0;
    }
  }

  /** Each of the top five is one of the shares that were ranked. */
  lemma TopFromShares(c: seq<SubjectShare>, ranked: seq<SubjectShare>, r: seq<SubjectShare>)
    requires forall i :: 0 <= i < |ranked| ==> ranked[i] in c
    requires r == Top5(ranked)
    ensures forall i :: 0 <= i < |r| ==> r[i] in c
  {
    forall i | 0 <= i < |r| ensures r[i] in c {
      assert r[i] == ranked[i];
    }
  }

  /** A share whose subject is not in the top five has no more hours than any of them. */
  lemma TopBeatsRest(c: seq<SubjectShare>, ranked: seq<SubjectShare>, r: seq<SubjectShare>)
    requires SortedBy(ranked, NegHours)
    requires forall i :: 0 <= i < |c| ==> c[i] in ranked
    requires r == Top5(ranked)
    ensures forall j, i :: 0 <= j < |c| && (forall m :: 0 <= m < |r| ==> r[m].subject != c[j].subject) && 0 <= i < |r| ==>
        c[j].hours <= r[i].hours
  {
    forall j, i | 0 <= j < |c| && (forall m :: 0 <= m < |r| ==> r[m].subject != c[j].subject) && 0 <= i < |r|
      ensures c[j].hours <= r[i].hours
    {
      var p :| 0 <= p < |ranked| && ranked[p] == c[j];
      assert p >= |r|;
      assert r[i] == ranked[i];
      assert NegHours(ranked[i]) <= NegHours(ranked[p]);
    }
  }

  /**
   * Every share kept is one of the coloured shares, which by `ColouredEntries` are
   * the subjects of the sessions with their total hours, coloured from their
   * first-seen position.
   */
  lemma SubjectDistributionEntries(ss: seq<SessionRow>)
    ensures forall i :: 0 <= i < |SubjectDistribution(ss)| ==>
      SubjectDistribution(ss)[i] in Coloured(Tally.Totals(SubjectPairs(ss)))
  {
    var c := Coloured(Tally.Totals(SubjectPairs(ss)));
    SortByMembers(c, NegHours);
    TopFromShares(c, RankedShares(ss), SubjectDistribution(ss));
  }

  /**
   * The five are the top five: a subject left out has no more hours than any share
   * kept, and shares of equal hours keep first-seen order.
   */
  lemma SubjectDistributionTop(ss: seq<SessionRow>)
    ensures var r := SubjectDistribution(ss); var ps := SubjectPairs(ss);
      forall k, i :: k in Tally.Keys(ps) && (forall m :: 0 <= m < |r| ==> r[m].subject != k) && 0 <= i < |r| ==>
        TenthsOfSeconds(Tally.SumFor(ps, k)) <= r[i].hours
    ensures forall h :: WithKey(RankedShares(ss), NegHours, h)
                     == WithKey(Coloured(Tally.Totals(SubjectPairs(ss))), NegHours, h)
  {
    var ps := SubjectPairs(ss);
    var c := Coloured(Tally.Totals(ps));
    var order := Tally.FirstSeen(Tally.Keys(ps));
    var ranked := RankedShares(ss);
    var r := SubjectDistribution(ss);
    ColouredEntries(ss);
    SortByMembers(c, NegHours);
    TopBeatsRest(c, ranked, r);
    Tally.FirstSeenDistinct(Tally.Keys(ps));
    forall k, i | k in Tally.Keys(ps) && (forall m :: 0 <= m < |r| ==> r[m].subject != k) && 0 <= i < |r|
      ensures TenthsOfSeconds(Tally.SumFor(ps, k)) <= r[i].hours
    {
      assert k in order;
      var j :| 0 <= j < |order| && order[j] == k;
      assert ColouredAt(ss, c[j], j);
      assert c[j].subject == k;
      assert c[j].hours <= r[i].hours;
    }
    forall h ensures WithKey(RankedShares(ss), NegHours, h) == WithKey(c, NegHours, h) {
      SortByStable(c, NegHours, h);
    }
  }

  // ---------------------------------------------------------------------------
  // The streak over daily rows

  predicate Positive(r: DailyRow)
  {
    r.sessionsCompleted > 0
  }

  /** Length of the run of positive rows at the end of the list. */
  function TrailingRun(rows: seq<DailyRow>): nat
  {
    if rows == [] || !Positive(rows[|rows| - 1]) then 0 else TrailingRun(rows[..|rows| - 1]) + 1
  }

  /** Length of the longest run of positive rows anywhere in the list, scanned front to back. */
  function LongestRun(rows: seq<DailyRow>): nat
  {
    if rows == [] then 0
    else
      var prev := LongestRun(rows[..|rows| - 1]);
      if TrailingRun(rows) > prev then TrailingRun(rows) else prev
  }

  /**
   * `(currentStreak, maxStreak)`: when the first row is positive the current
   * streak is the run at the END of the list (the `tempStreak` left by the loop);
   * otherwise it is 0.
   */
  function StreaksOf(rows: seq<DailyRow>): (int, int)
  {
    (if rows != [] && Positive(rows[0]) then TrailingRun(rows) else 0, LongestRun(rows))
  }

  /** The `for` loop over `dailyStats` and the fix-up after it. */
  method ComputeStreaks(rows: seq<DailyRow>) returns (currentStreak: int, maxStreak: int)
    ensures (currentStreak, maxStreak) == StreaksOf(rows)
  {
    currentStreak := 0;
    maxStreak := 0;
    var tempStreak := 0;
    var i := 0;
    while i < |rows|
      invariant 0 <= i <= |rows|
      invariant tempStreak == TrailingRun(rows[..i])
      invariant maxStreak == LongestRun(rows[..i])
      invariant currentStreak == 0
    {
      var stats := rows[i];
      assert rows[..i + 1][..i] == rows[..i];
      if stats.sessionsCompleted > 0 {
        tempStreak := tempStreak + 1;
        if tempStreak > maxStreak {
          maxStreak := tempStreak;
        }
      } else {
        if i == 0 {
          currentStreak := tempStreak;
        }
        tempStreak := 0;
      }
      i := i + 1;
    }
    assert rows[..i] == rows;
    if |rows| > 0 && rows[0].sessionsCompleted > 0 {
      currentStreak := tempStreak;
    }
  }

  lemma {:induction false} TrailingRunSpec(rows: seq<DailyRow>)
    ensures TrailingRun(rows) <= |rows|
    ensures forall k :: |rows| - TrailingRun(rows) <= k < |rows| ==> Positive(rows[k])
    ensures TrailingRun(rows) < |rows| ==> !Positive(rows[|rows| - TrailingRun(rows) - 1])
  {
    if rows != [] && Positive(rows[|rows| - 1]) {
      var n := |rows| - 1;
      TrailingRunSpec(rows[..n]);
      assert forall k :: 0 <= k < n ==> rows[..n][k] == rows[k];
    }
  }

  /** A run of positive rows ending just before position b is at most the trailing run of `rows[..b]`. */
  lemma {:induction false} RunBelowTrailing(rows: seq<DailyRow>, a: int)
    requires 0 <= a <= |rows|
    requires forall k :: a <= k < |rows| ==> Positive(rows[k])
    ensures |rows| - a <= TrailingRun(rows)
  {
    if a < |rows| {
      var n := |rows| - 1;
      assert forall k :: a <= k < n ==> rows[..n][k] == rows[k];
      RunBelowTrailing(rows[..n], a);
    }
  }

  lemma {:induction false} LongestAbovePrefixes(rows: seq<DailyRow>, b: int)
    requires 0 <= b <= |rows|
    ensures TrailingRun(rows[..b]) <= LongestRun(rows)
  {
    if b < |rows| {
      var n := |rows| - 1;
      assert rows[..n][..b] == rows[..b];
      LongestAbovePrefixes(rows[..n], b);
    } else {
      assert rows[..b] == rows;
    }
  }

  lemma {:induction false} LongestAttained(rows: seq<DailyRow>)
    ensures exists b :: 0 <= b <= |rows| && TrailingRun(rows[..b]) == LongestRun(rows)
  {
    if rows == [] {
      assert TrailingRun(rows[..0]) == 0;
    } else {
      var n := |rows| - 1;
      LongestAttained(rows[..n]);
      var b :| 0 <= b <= n && TrailingRun(rows[..n][..b]) == LongestRun(rows[..n]);
      assert rows[..n][..b] == rows[..b];
      assert rows[..|rows|] == rows;
    }
  }

  /** Rows `a` to `b - 1` all have sessions. */
  predicate AllPositive(rows: seq<DailyRow>, a: int, b: int)
    requires 0 <= a <= b <= |rows|
  {
    forall k :: a <= k < b ==> Positive(rows[k])
  }

  /**
   * The longest streak is the length of the longest block of consecutive positive
   * rows, with no check of calendar gaps: every such block is at most that long,
   * and one block is exactly that long.
   */
  lemma LongestRunSpec(rows: seq<DailyRow>)
    ensures forall a, b :: 0 <= a <= b <= |rows| && AllPositive(rows, a, b) ==> b - a <= LongestRun(rows)
    ensures exists a, b :: 0 <= a <= b <= |rows| && AllPositive(rows, a, b) && b - a == LongestRun(rows)
  {
    forall a, b | 0 <= a <= b <= |rows| && AllPositive(rows, a, b)
      ensures b - a <= LongestRun(rows)
    {
      assert forall k :: a <= k < b ==> rows[..b][k] == rows[k];
      RunBelowTrailing(rows[..b], a);
      LongestAbovePrefixes(rows, b);
    }
    LongestAttained(rows);
    var b :| 0 <= b <= |rows| && TrailingRun(rows[..b]) == LongestRun(rows);
    TrailingRunSpec(rows[..b]);
    var a := b - LongestRun(rows);
    assert forall k :: a <= k < b ==> rows[..b][k] == rows[k];
    assert AllPositive(rows, a, b);
  }

  /**
   * The current streak is 0 for no rows or a first row without sessions, otherwise
   * the positive run at the end of the list; it never exceeds the longest streak,
   * and when every row is positive both are the number of rows.
   */
  lemma StreaksSpec(rows: seq<DailyRow>)
    ensures rows == [] || !Positive(rows[0]) ==> StreaksOf(rows).0 == 0
    ensures rows != [] && Positive(rows[0]) ==> StreaksOf(rows).0 == TrailingRun(rows)
    ensures 0 <= StreaksOf(rows).0 <= StreaksOf(rows).1 <= |rows|
    ensures (forall k :: 0 <= k < |rows| ==> Positive(rows[k])) ==>
      StreaksOf(rows).0 == StreaksOf(rows).1 == |rows|
  {
    LongestAbovePrefixes(rows, |rows|);
    assert rows[..|rows|] == rows;
    LongestRunSpec(rows);
    if forall k :: 0 <= k < |rows| ==> Positive(rows[k]) {
      assert AllPositive(rows, 0, |rows|);
      RunBelowTrailing(rows, 0);
      TrailingRunSpec(rows);
    }
  }

  function DayRow(completed: int): DailyRow
  {
    DailyRow("u", 0, completed, 0)
  }

  /**
   * The current streak is taken from the oldest end: with rows (newest first)
   * 1, 0, 1, 1 it is 2 although the newest run has one day, and with 1, 1, 0 it is 0.
   */
  lemma {:induction false} StreaksExamples()
    ensures StreaksOf([DayRow(1), DayRow(0), DayRow(1), DayRow(1)]) == (2, 2)
    ensures StreaksOf([DayRow(1), DayRow(1), DayRow(0)]) == (0, 2)
  {
    var one, zero := DayRow(1), DayRow(0);
    assert TrailingRun([]) == 0 && LongestRun([]) == 0;
    assert [one][..0] == [];
    assert TrailingRun([one]) == 1 && LongestRun([one]) == 1;
    assert [one, zero][..1] == [one];
    assert TrailingRun([one, zero]) == 0 && LongestRun([one, zero]) == 1;
    assert [one, zero, one][..2] == [one, zero];
    assert TrailingRun([one, zero, one]) == 1 && LongestRun([one, zero, one]) == 1;
    assert [one, zero, one, one][..3] == [one, zero, one];
    assert TrailingRun([one, zero, one, one]) == 2 && LongestRun([one, zero, one, one]) == 2;
    assert [one, one][..1] == [one];
    assert TrailingRun([one, one]) == 2 && LongestRun([one, one]) == 2;
    assert [one, one, zero][..2] == [one, one];
    assert TrailingRun([one, one, zero]) == 0 && LongestRun([one, one, zero]) == 2;
  }

  // ---------------------------------------------------------------------------
  // The most productive day

  /** `days[date.getDay() === 0 ? 6 : date.getDay() - 1]`. */
  function DayName(date: int): string
  {
    var wd := Weekday(DayOf(date));
    Days[if wd == 0 then 6 else wd - 1]
  }

  /** Sunday is "Sun", the last label; every other weekday w gets label w - 1. */
  lemma DayNameSpec(date: int)
    ensures Weekday(DayOf(date)) == 0 ==> DayName(date) == "Sun"
    ensures Weekday(DayOf(date)) == 1 ==> DayName(date) == "Mon"
    ensures DayName(date) == Days[(Weekday(DayOf(date)) + 6) % 7]
  {
  }

  function DailyPairs(rows: seq<DailyRow>): Tally.Entries<string>
  {
    seq(|rows|, i requires 0 <= i < |rows| => (DayName(rows[i].date), rows[i].totalFocusTime))
  }

  /** `mostProductiveDay`, with `""` when no weekday total is positive. */
  function BestDay(rows: seq<DailyRow>): string
  {
    var es := Tally.Totals(DailyPairs(rows));
    var b := Tally.BestIndex(es);
    if b < 0 then "" else es[b].0
  }

  /** The `dayTotals` map and the `maxHours` scan. */
  method FindBestDay(rows: seq<DailyRow>) returns (day: string)
    ensures day == BestDay(rows)
  {
    var dayTotals := Tally.Accumulate(DailyPairs(rows));
    var best := Tally.PickMax(dayTotals);
    day := if best.None? then "" else best.value;
  }

  lemma BestIsDay(rows: seq<DailyRow>)
    ensures var es := Tally.Totals(DailyPairs(rows)); var b := Tally.BestIndex(es);
      b >= 0 ==> es[b].0 in Days
  {
    var ps := DailyPairs(rows);
    var es := Tally.Totals(ps);
    var b := Tally.BestIndex(es);
    if b >= 0 {
      Tally.TotalsEntries(ps);
      var ks := Tally.Keys(ps);
      assert es[b].0 in ks;
      var i :| 0 <= i < |ks| && ks[i] == es[b].0;
      assert es[b].0 == DayName(rows[i].date);
    }
  }

  /**
   * `""` exactly when no weekday's summed focus time is positive; otherwise a
   * weekday label whose sum is positive, at least every weekday's, and strictly
   * greater than that of every weekday entered into the map before it.
   */
  lemma BestDaySpec(rows: seq<DailyRow>)
    ensures BestDay(rows) == "" <==> forall w :: 0 <= w < 7 ==> Tally.SumFor(DailyPairs(rows), Days[w]) <= 0
    ensures BestDay(rows) != "" ==>
      var ps := DailyPairs(rows);
      BestDay(rows) in Days && Tally.SumFor(ps, BestDay(rows)) > 0 &&
      forall w :: 0 <= w < 7 ==> Tally.SumFor(ps, Days[w]) <= Tally.SumFor(ps, BestDay(rows))
    ensures BestDay(rows) != "" ==>
      var ps := DailyPairs(rows); var order := Tally.Keys(Tally.Totals(ps));
      forall i, j :: 0 <= i < j < |order| && order[j] == BestDay(rows) ==>
        Tally.SumFor(ps, order[i]) < Tally.SumFor(ps, order[j])
  {
    var ps := DailyPairs(rows);
    var es := Tally.Totals(ps);
    var keys := Tally.Keys(es);
    var b := Tally.BestIndex(es);
    Tally.TotalsBest(ps);
    if b >= 0 {
      BestIsDay(rows);
      Tally.TotalsEntries(ps);
      var w :| 0 <= w < 7 && Days[w] == es[b].0;
      assert Days[w] != "";
      assert BestDay(rows) == es[b].0;
      forall i, j | 0 <= i < j < |keys| && keys[j] == es[b].0
        ensures Tally.SumFor(ps, keys[i]) < Tally.SumFor(ps, keys[j])
      {
        assert keys[b] == es[b].0;
        assert j == b;
      }
    } else {
      assert BestDay(rows) == "";
    }
  }

  // ---------------------------------------------------------------------------
  // Efficiency

  /** This week's seconds against last week's; a '+' is never added. */
  function EfficiencyText(thisWeek: int, lastWeek: int): string
  {
    if lastWeek > 0 then IntToString(PercentChange(thisWeek, lastWeek)) + "%" else "+0%"
  }

  /**
   * With last week's total positive the text is the rounded percentage change read
   * back by `parseInt`, then '%', with no leading '+' and a '-' exactly when the
   * rounded change is negative; otherwise it is "+0%". Doubling gives "100%".
   */
  lemma EfficiencyTextSpec(thisWeek: int, lastWeek: int)
    ensures lastWeek > 0 ==>
      var t := EfficiencyText(thisWeek, lastWeek);
      |t| >= 2 && t[|t| - 1] == '%' && t[0] != '+' &&
      (t[0] == '-' <==> PercentChange(thisWeek, lastWeek) < 0) &&
      ParseInt(t[..|t| - 1]) == Some(PercentChange(thisWeek, lastWeek))
    ensures lastWeek > 0 ==> EfficiencyText(2 * lastWeek, lastWeek) == "100%"
    ensures lastWeek <= 0 ==> EfficiencyText(thisWeek, lastWeek) == "+0%"
  {
    if lastWeek > 0 {
      var p := PercentChange(thisWeek, lastWeek);
      var t := EfficiencyText(thisWeek, lastWeek);
      IntToStringRoundTrip(p);
      assert t[..|t| - 1] == IntToString(p);
      assert t[0] == IntToString(p)[0];
      PercentChangeExamples(lastWeek);
      assert NatToString(100) == "100" by {
        assert NatToString(10) == "10";
      }
    }
  }

  // ---------------------------------------------------------------------------
  // The report

  /** The reply for a user that has just been created. */
  const EmptyReport: Report := Report(
    [DayHours("Mon", 0), DayHours("Tue", 0), DayHours("Wed", 0), DayHours("Thu", 0),
     DayHours("Fri", 0), DayHours("Sat", 0), DayHours("Sun", 0)], [],
    [Trend("W1", 0, 0), Trend("W2", 0, 0), Trend("W3", 0, 0), Trend("W4", 0, 0)],
    0, 0, 0, 0, 0, "", [], [], 0, 0, 0, 0, 0, "0%")

  /** `weeklyFocusData.map(d => d.hours)`. */
  function HoursOf(days: seq<DayHours>): (r: seq<int>)
    ensures |r| == |days| && forall i :: 0 <= i < |days| ==> r[i] == days[i].hours
  {
    if days == [] then [] else [days[0].hours] + HoursOf(days[1..])
  }

  /** The report from the user's sessions and daily rows, or the 500 reply. */
  function ReportOf(ss: seq<SessionRow>, rows: seq<DailyRow>, now: int): Reply<Report>
  {
    match TrendOf(ss, now)
    case None => Error(500, FailureMessage)
    case Some(trend) =>
      var weekly := WeeklyFocusData(ss, now);
      var total := SumAll(ss, Seconds);
      var average := if |ss| > 0 then RoundDiv(total, 60 * |ss|) else 0;
      var streaks := StreaksOf(rows);
      var current := streaks.0;
      var longest := streaks.1;
      var start := StartOfWeek(now);
      var thisWeek := SecondsFrom(ss, start);
      Ok(Report(
        weekly, SubjectDistribution(ss), trend, TenthsOfSeconds(total), |ss|, average,
        current, longest, BestDay(rows), HoursOf(weekly),
        WeeklyBars(ss, now), current, longest, CountFrom(ss, start), TenthsOfSeconds(thisWeek),
        average, EfficiencyText(thisWeek, SecondsIn(ss, start - 7 * MsPerDay, start))))
  }

  function NegStartedAt(s: SessionRow): int
  {
    -s.startedAt
  }

  function NegDate(r: DailyRow): int
  {
    -r.date
  }

  /** The user's completed sessions, newest `startedAt` first, ties in storage order. */
  function UserSessions(db: Db, userId: string): seq<SessionRow>
  {
    SortBy(CompletedOf(db.sessions, userId), NegStartedAt)
  }

  /** The user's daily rows, newest date first, ties in storage order. */
  function UserDaily(db: Db, userId: string): seq<DailyRow>
  {
    SortBy(Filter(db.daily, (r: DailyRow) => r.userId == userId), NegDate)
  }

  /**
   * GET: with no user, one is created and the all-zero report returned; otherwise
   * the tables are unchanged and the report is computed from the first user's rows.
   */
  function Get(db: Db, now: int, newUserId: string): (r: (Db, Reply<Report>))
    ensures db.users == [] ==> r.0 == GetOrCreateUser(db, newUserId).0 && r.1 == Ok(EmptyReport)
    ensures db.users != [] ==> r.0 == db
  {
    if db.users == [] then (GetOrCreateUser(db, newUserId).0, Ok(EmptyReport))
    else
      var user := db.users[0];
      (db, ReportOf(UserSessions(db, user.id), UserDaily(db, user.id), now))
  }

  /**
   * The report for a new user: seven zero days Mon..Sun, four zero buckets W1..W4,
   * no subjects, zero streaks and totals, no productive day and "0%".
   */
  lemma EmptyReportSpec()
    ensures |EmptyReport.weeklyFocusData| == 7
    ensures forall i :: 0 <= i < 7 ==> EmptyReport.weeklyFocusData[i] == DayHours(Days[i], 0)
    ensures |EmptyReport.monthlyTrend| == 4
    ensures forall i :: 0 <= i < 4 ==> EmptyReport.monthlyTrend[i].sessions == 0 == EmptyReport.monthlyTrend[i].hours
    ensures EmptyReport.subjectDistribution == [] && EmptyReport.mostProductiveDay == ""
    ensures EmptyReport.currentStreak == 0 == EmptyReport.longestStreak == EmptyReport.totalSessions
    ensures EmptyReport.efficiency == "0%"
  {
  }

  /** The report from the loaded rows, with the steps the source performs in place as methods. */
  method ComputeReport(sessions: seq<SessionRow>, dailyStats: seq<DailyRow>, now: int) returns (reply: Reply<Report>)
    ensures reply == ReportOf(sessions, dailyStats, now)
  {
    var trend := MonthlyTrend(sessions, now);
    if trend.None? {
      reply := Error(500, FailureMessage);
      return;
    }
    var weeklyFocusData := WeeklyFocusData(sessions, now);
    var subjectDistribution := ComputeSubjectDistribution(sessions);
    var total := SumAll(sessions, Seconds);
    var averageSessionLength := if |sessions| > 0 then RoundDiv(total, 60 * |sessions|) else 0;
    var currentStreak, maxStreak := ComputeStreaks(dailyStats);
    var mostProductiveDay := FindBestDay(dailyStats);
    var startOfWeek := StartOfWeek(now);
    var thisWeek := SecondsFrom(sessions, startOfWeek);
    var lastWeek := SecondsIn(sessions, startOfWeek - 7 * MsPerDay, startOfWeek);
    reply := Ok(Report(
      weeklyFocusData, subjectDistribution, trend.value, TenthsOfSeconds(total), |sessions|,
      averageSessionLength, currentStreak, maxStreak, mostProductiveDay,
      HoursOf(weeklyFocusData), WeeklyBars(sessions, now),
      currentStreak, maxStreak, CountFrom(sessions, startOfWeek), TenthsOfSeconds(thisWeek),
      averageSessionLength, EfficiencyText(thisWeek, lastWeek)));
  }

  /** The route body: the user lookup, the two queries and the report. */
  method GetAnalytics(db: Db, now: int, newUserId: string) returns (db': Db, reply: Reply<Report>)
    ensures (db', reply) == Get(db, now, newUserId)
  {
    if db.users == [] {
      db' := GetOrCreateUser(db, newUserId).0;
      reply := Ok(EmptyReport);
      return;
    }
    db' := db;
    var user := db.users[0];
    reply := ComputeReport(UserSessions(db, user.id), UserDaily(db, user.id), now);
  }
}
