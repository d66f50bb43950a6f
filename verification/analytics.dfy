/** The figures src/components/AnalyticsView.tsx derives from the logs it is
    given: the 7-day chart, this week's logs, the stress breakdown, the
    totals and the display streak capped at 30 days. `today` is the
    calendar day of the clock reading. */
module Analytics {
  import opened Domain
  import Statistics

  /** `logs.some(log => same calendar day as day)`. */
  function HasEntryOn(logs: seq<MoodLog>, day: int): (b: bool)
    ensures b <==> day in DaysOf(logs)
  {
    if logs == [] then false
    else
      assert forall l :: l in logs <==> l == logs[0] || l in logs[1..];
      DayOf(logs[0].createdAt) == day || HasEntryOn(logs[1..], day)
  }

  /** The display streak: `streak` days back from `today` all have a log,
      and the day before them has none, unless the 30-day cap stopped the count. */
  predicate IsDisplayStreak(days: set<int>, today: int, streak: int)
  {
    && 0 <= streak <= 30
    && (forall d :: today - streak < d <= today ==> d in days)
    && (streak < 30 ==> today - streak !in days)
  }

  /** At most one count satisfies the description. */
  lemma DisplayStreakUnique(days: set<int>, today: int, a: int, b: int)
    requires IsDisplayStreak(days, today, a) && IsDisplayStreak(days, today, b)
    ensures a == b
  {
  }

  /** `calculateStreak`: counts the days back from today that have a log,
      at most 30, stopping at the first day without one. */
  method CalculateStreak(logs: seq<MoodLog>, today: int) returns (streak: nat)
    ensures IsDisplayStreak(DaysOf(logs), today, streak)
    ensures logs == [] ==> streak == 0
  {
    if |logs| == 0 {
      return 0;
    }
    streak := 0;
    var i := 0;
    while i < 30
      invariant 0 <= i <= 30
      invariant streak == i
      invariant forall d :: today - i < d <= today ==> d in DaysOf(logs)
    {
      var checkDate := today - i;
      var hasEntry := HasEntryOn(logs, checkDate);
      if hasEntry {
        streak := streak + 1;
      } else {
        break;
      }
      i := i + 1;
    }
  }

  /** With no log dated after today, the display streak is the achievement
      engine's current streak, capped at 30. */
  lemma DisplayStreakMatchesCurrentStreak(logs: seq<MoodLog>, today: int, streak: int)
    requires forall l :: l in logs ==> DayOf(l.createdAt) <= today
    requires IsDisplayStreak(DaysOf(logs), today, streak)
    ensures var c := Statistics.CurrentStreakOf(Statistics.UniqueDaysDescending(logs), today);
      streak == if c < 30 then c else 30
  {
    var ds := Statistics.UniqueDaysDescending(logs);
    var c := Statistics.CurrentStreakOf(ds, today);
    Statistics.CurrentStreakCharacterized(ds, today, c);
    StreakDaysPresent(logs, ds, today, c);
    DayBeforeStreakAbsent(logs, ds, today, c);
    var capped := if c < 30 then c else 30;
    assert IsDisplayStreak(DaysOf(logs), today, capped);
    DisplayStreakUnique(DaysOf(logs), today, streak, capped);
  }

  /** Every day of the current streak has a log. */
  lemma StreakDaysPresent(logs: seq<MoodLog>, ds: seq<int>, today: int, c: int)
    requires ds == Statistics.UniqueDaysDescending(logs)
    requires Statistics.IsStreakPrefix(ds, today, c)
    ensures forall d :: today - c < d <= today ==> d in DaysOf(logs)
  {
    forall d | today - c < d <= today
      ensures d in DaysOf(logs)
    {
      assert ds[today - d] == d;
    }
  }

  /** The day just before the current streak has no log, when none is dated after today. */
  lemma DayBeforeStreakAbsent(logs: seq<MoodLog>, ds: seq<int>, today: int, c: int)
    requires ds == Statistics.UniqueDaysDescending(logs)
    requires forall l :: l in logs ==> DayOf(l.createdAt) <= today
    requires Statistics.IsStreakPrefix(ds, today, c)
    ensures today - c !in DaysOf(logs)
  {
    if today - c in DaysOf(logs) {
      var m :| 0 <= m < |ds| && ds[m] == today - c;
      if m >= c {
        AtMostToday(logs, ds, c, today);
      }
    }
  }

  /** Past the current streak the days drop below `today - c`. */
  lemma AtMostToday(logs: seq<MoodLog>, ds: seq<int>, c: nat, today: int)
    requires ds == Statistics.UniqueDaysDescending(logs)
    requires forall l :: l in logs ==> DayOf(l.createdAt) <= today
    requires Statistics.IsStreakPrefix(ds, today, c)
    requires c < |ds|
    ensures ds[c] < today - c
  {
    assert ds[c] in DaysOf(logs);
    if c > 0 {
      assert ds[c - 1] > ds[c];
    }
  }

  // ---------------------------------------------------------------- chart

  /** The logs written on calendar day `day`, in list order. */
  function DayLogs(logs: seq<MoodLog>, day: int): (r: seq<MoodLog>)
    ensures |r| <= |logs|
    ensures forall l :: l in r <==> l in logs && DayOf(l.createdAt) == day
    ensures forall l :: multiset(r)[l] == if DayOf(l.createdAt) == day then multiset(logs)[l] else 0
  {
    if logs == [] then []
    else
      var init, last := logs[..|logs| - 1], logs[|logs| - 1];
      assert logs == init + [last];
      DayLogs(init, day) + (if DayOf(last.createdAt) == day then [last] else [])
  }

  /** `Math.round(sum / n * 10) / 10`: the mean rounded half up to one decimal. */
  function RoundedMean(sum: int, n: nat): (r: real)
    requires n > 0
    ensures (r * 10.0).Floor as real == r * 10.0
  {
    ((20 * sum + n) / (2 * n)) as real / 10.0
  }

  /** The rounded mean lies within half a tenth of the exact mean, above it
      by at most 0.05 and below it by less (a half rounds up). */
  lemma RoundedMeanNearMean(sum: int, n: nat)
    requires n > 0
    ensures var mean := sum as real / n as real;
      mean - 0.05 < RoundedMean(sum, n) <= mean + 0.05
  {
    var q := (20 * sum + n) / (2 * n);
    var d := 2 * q * n - 20 * sum;
    assert q * (2 * n) <= 20 * sum + n < q * (2 * n) + 2 * n;
    assert -(n as int) < d <= n;
    var x, nr := sum as real, n as real;
    var diff := q as real / 10.0 - x / nr;
    assert (x / nr) * nr == x;
    assert diff * (20.0 * nr) == d as real;
    ScaledBound(diff, 20.0 * nr, d as real, nr);
  }

  /** `diff * c == e` with `-k < e <= k` and `c == 20 k > 0` gives `-0.05 < diff <= 0.05`. */
  lemma ScaledBound(diff: real, c: real, e: real, k: real)
    requires k > 0.0 && c == 20.0 * k && diff * c == e && -k < e <= k
    ensures -0.05 < diff <= 0.05
  {
    if diff > 0.05 {
      assert diff * c > 0.05 * c;
    }
  }

  /** The rounded mean of moods on the 1-10 scale stays on that scale. */
  lemma RoundedMeanInRange(sum: int, n: nat)
    requires n > 0 && n <= sum <= 10 * n
    ensures 1.0 <= RoundedMean(sum, n) <= 10.0
  {
    QuotientBounds(sum as real, n as real, 1.0, 10.0);
    RoundedMeanNearMean(sum, n);
    TenthsInScale(RoundedMean(sum, n));
  }

  /** Dividing by a positive `c` keeps `lo * c <= a <= hi * c` as bounds on `a / c`. */
  lemma QuotientBounds(a: real, c: real, lo: real, hi: real)
    requires c > 0.0 && lo * c <= a <= hi * c
    ensures lo <= a / c <= hi
  {
  }

  /** A whole number of tenths strictly above 0.95 and at most 10.05 is on 1-10. */
  lemma TenthsInScale(r: real)
    requires (r * 10.0).Floor as real == r * 10.0
    requires 0.95 < r <= 10.05
    ensures 1.0 <= r <= 10.0
  {
    var k := (r * 10.0).Floor;
    assert 9.5 < k as real <= 100.5;
    assert 10 <= k <= 100;
  }

  /** One bar of the 7-day chart. */
  datatype ChartPoint = ChartPoint(day: int, mood: real, entries: nat)

  function PointFor(logs: seq<MoodLog>, day: int): (p: ChartPoint)
    ensures p.day == day && p.entries == |DayLogs(logs, day)|
    ensures p.entries == 0 ==> p.mood == 0.0
  {
    var dayLogs := DayLogs(logs, day);
    ChartPoint(day,
               if |dayLogs| > 0 then RoundedMean(Statistics.MoodSum(dayLogs), |dayLogs|) else 0.0,
               |dayLogs|)
  }

  /** `chartData`: one point per day of the last seven, oldest first. */
  function ChartData(logs: seq<MoodLog>, today: int): (r: seq<ChartPoint>)
    ensures |r| == 7
    ensures forall i :: 0 <= i < 7 ==> r[i].day == today - 6 + i
    ensures forall i :: 0 <= i < 7 ==> r[i].entries == |DayLogs(logs, today - 6 + i)|
    ensures forall i :: 0 <= i < 7 && r[i].entries == 0 ==> r[i].mood == 0.0
  {
    var points := seq(7, i => PointFor(logs, today - 6 + i));
    assert forall i :: 0 <= i < 7 ==> points[i] == PointFor(logs, today - 6 + i);
    points
  }

  /** A day's mood bar lies on the 1-10 scale when it has logs with moods on that scale. */
  lemma ChartMoodInRange(logs: seq<MoodLog>, today: int, i: nat)
    requires i < 7
    requires forall l :: l in logs ==> 1 <= l.mood <= 10
    ensures var p := ChartData(logs, today)[i];
      p.entries > 0 ==> 1.0 <= p.mood <= 10.0
  {
    var dayLogs := DayLogs(logs, today - 6 + i);
    assert ChartData(logs, today)[i] == PointFor(logs, today - 6 + i);
    if |dayLogs| > 0 {
      Statistics.MoodSumBounds(dayLogs);
      RoundedMeanInRange(Statistics.MoodSum(dayLogs), |dayLogs|);
    }
  }

  // ----------------------------------------------------------- this week

  /** `thisWeekLogs`: the logs from the start of this week to its end. */
  function ThisWeekLogs(logs: seq<MoodLog>, now: int): (r: seq<MoodLog>)
    ensures |r| <= |logs|
    ensures forall l :: l in r <==> l in logs && StartOfWeek(now) <= l.createdAt <= EndOfWeek(now)
    ensures forall l :: multiset(r)[l] == (if StartOfWeek(now) <= l.createdAt <= EndOfWeek(now)
                                           then multiset(logs)[l] else 0)
  {
    if logs == [] then []
    else
      var init, last := logs[..|logs| - 1], logs[|logs| - 1];
      assert logs == init + [last];
      ThisWeekLogs(init, now)
      + (if StartOfWeek(now) <= last.createdAt <= EndOfWeek(now) then [last] else [])
  }

  // ------------------------------------------------------------- stress

  /** Number of logs with the given stress level. */
  function CountStress(logs: seq<MoodLog>, level: string): (n: nat)
    ensures n <= |logs|
  {
    if logs == [] then 0
    else CountStress(logs[..|logs| - 1], level) + (if logs[|logs| - 1].stressLevel == level then 1 else 0)
  }

  /** The positions of the logs with the given stress level. */
  function StressPositions(logs: seq<MoodLog>, level: string): set<nat>
  {
    set i: nat | i < |logs| && logs[i].stressLevel == level
  }

  /** The count is the number of positions holding a log of that level,
      which is the length of the array `logs.filter` returns. */
  lemma {:induction false} CountStressCounts(logs: seq<MoodLog>, level: string)
    ensures CountStress(logs, level) == |StressPositions(logs, level)|
  {
    if logs != [] {
      var init := logs[..|logs| - 1];
      var last := |logs| - 1;
      CountStressCounts(init, level);
      var before := StressPositions(init, level);
      var after := StressPositions(logs, level);
      if logs[last].stressLevel == level {
        assert after == before + {last};
        assert last !in before;
      } else {
        assert after == before;
      }
    }
  }

  /** One bar of the stress chart. */
  datatype StressBar = StressBar(level: string, count: nat, color: string)

  /** `stressData`: the low, medium and high counts. */
  function StressData(logs: seq<MoodLog>): (r: seq<StressBar>)
    ensures |r| == 3
    ensures r[0].level == "Low" && r[0].count == CountStress(logs, "low") && r[0].color == "#10b981"
    ensures r[1].level == "Medium" && r[1].count == CountStress(logs, "medium") && r[1].color == "#f59e0b"
    ensures r[2].level == "High" && r[2].count == CountStress(logs, "high") && r[2].color == "#ef4444"
    ensures r[0].count + r[1].count + r[2].count <= 3 * |logs|
  {
    [StressBar("Low", CountStress(logs, "low"), "#10b981"),
     StressBar("Medium", CountStress(logs, "medium"), "#f59e0b"),
     StressBar("High", CountStress(logs, "high"), "#ef4444")]
  }

  /** When every log has one of the three declared levels, the bars add up to the log count. */
  lemma {:induction false} StressCountsCoverAll(logs: seq<MoodLog>)
    requires forall l :: l in logs ==> KnownStress(l.stressLevel)
    ensures var r := StressData(logs); r[0].count + r[1].count + r[2].count == |logs|
  {
    if logs != [] {
      var init := logs[..|logs| - 1];
      assert forall l :: l in init ==> l in logs;
      assert logs[|logs| - 1] in logs;
      StressCountsCoverAll(init);
    }
  }

  // -------------------------------------------------------------- totals

  /** `bestMood`: the highest mood, 0 without logs. */
  function BestMood(logs: seq<MoodLog>): (m: int)
    ensures logs == [] ==> m == 0
    ensures logs != [] ==> (exists l :: l in logs && l.mood == m) && forall l :: l in logs ==> l.mood <= m
  {
    if logs == [] then 0
    else if |logs| == 1 then logs[0].mood
    else
      var rest := BestMood(logs[1..]);
      assert forall l :: l in logs <==> l == logs[0] || l in logs[1..];
      if logs[0].mood >= rest then logs[0].mood else rest
  }

  /** `avgMood`: the mean mood rounded to one decimal, 0 without logs. */
  function AvgMood(logs: seq<MoodLog>): (r: real)
    ensures logs == [] ==> r == 0.0
    ensures logs != [] ==>
      var mean := Statistics.MoodSum(logs) as real / |logs| as real;
      mean - 0.05 < r <= mean + 0.05
  {
    if |logs| > 0 then
      RoundedMeanNearMean(Statistics.MoodSum(logs), |logs|);
      RoundedMean(Statistics.MoodSum(logs), |logs|)
    else 0.0
  }

  /** The displayed mean lies on the 1-10 scale when every mood does. */
  lemma AvgMoodInRange(logs: seq<MoodLog>)
    requires logs != []
    requires forall l :: l in logs ==> 1 <= l.mood <= 10
    ensures 1.0 <= AvgMood(logs) <= 10.0
  {
    Statistics.MoodSumBounds(logs);
    RoundedMeanInRange(Statistics.MoodSum(logs), |logs|);
  }
}
