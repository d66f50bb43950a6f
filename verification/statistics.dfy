/** The statistics the achievement engine derives from a user's mood logs
    (`getUserStats` and its helpers in src/lib/achievementSystem.ts). */
module Statistics {
  import opened Domain

  /** The summary the achievement rules are evaluated against. */
  datatype UserStats = UserStats(
    totalEntries: nat,
    currentStreak: nat,
    longestStreak: nat,
    averageMood: real,
    moodImprovement: real,
    journalEntries: nat,
    aiInteractions: nat,
    daysActive: nat,
    weeklyConsistency: real)

  /** The summary returned when the user has no logs. */
  const ZeroStats := UserStats(0, 0, 0, 0.0, 0.0, 0, 0, 0, 0.0)

  function Max(a: int, b: int): int
  {
    if a >= b then a else b
  }

  // ---------------------------------------------------------------- counts

  /** Number of logs with a journal text (`logs.filter(log => log.journal_entry).length`). */
  function JournalCount(logs: seq<MoodLog>): (n: nat)
    ensures n <= |logs|
  {
    if logs == [] then 0
    else (if HasText(logs[0].journalEntry) then 1 else 0) + JournalCount(logs[1..])
  }

  /** Number of logs with an AI response (`logs.filter(log => log.ai_response).length`). */
  function AiCount(logs: seq<MoodLog>): (n: nat)
    ensures n <= |logs|
  {
    if logs == [] then 0
    else (if HasText(logs[0].aiResponse) then 1 else 0) + AiCount(logs[1..])
  }

  /** Adding a log at the end adds one to the count when it has a journal text. */
  lemma {:induction false} JournalCountSnoc(logs: seq<MoodLog>, x: MoodLog)
    ensures JournalCount(logs + [x]) == JournalCount(logs) + (if HasText(x.journalEntry) then 1 else 0)
  {
    if logs != [] {
      assert (logs + [x])[1..] == logs[1..] + [x];
      JournalCountSnoc(logs[1..], x);
    }
  }

  /** The count is the number of positions whose log has a journal text,
      the length of the array `filter` returns. */
  lemma {:induction false} JournalCountCounts(logs: seq<MoodLog>)
    ensures JournalCount(logs) == |set i: nat | i < |logs| && HasText(logs[i].journalEntry)|
  {
    if logs != [] {
      var init, last := logs[..|logs| - 1], |logs| - 1;
      assert logs == init + [logs[last]];
      JournalCountSnoc(init, logs[last]);
      JournalCountCounts(init);
      var before := set i: nat | i < |init| && HasText(init[i].journalEntry);
      var after := set i: nat | i < |logs| && HasText(logs[i].journalEntry);
      if HasText(logs[last].journalEntry) {
        assert after == before + {last};
      } else {
        assert after == before;
      }
    }
  }

  /** Adding a log at the end adds one to the count when it has an AI reply. */
  lemma {:induction false} AiCountSnoc(logs: seq<MoodLog>, x: MoodLog)
    ensures AiCount(logs + [x]) == AiCount(logs) + (if HasText(x.aiResponse) then 1 else 0)
  {
    if logs != [] {
      assert (logs + [x])[1..] == logs[1..] + [x];
      AiCountSnoc(logs[1..], x);
    }
  }

  /** The count is the number of positions whose log has an AI reply. */
  lemma {:induction false} AiCountCounts(logs: seq<MoodLog>)
    ensures AiCount(logs) == |set i: nat | i < |logs| && HasText(logs[i].aiResponse)|
  {
    if logs != [] {
      var init, last := logs[..|logs| - 1], |logs| - 1;
      assert logs == init + [logs[last]];
      AiCountSnoc(init, logs[last]);
      AiCountCounts(init);
      var before := set i: nat | i < |init| && HasText(init[i].aiResponse);
      var after := set i: nat | i < |logs| && HasText(logs[i].aiResponse);
      if HasText(logs[last].aiResponse) {
        assert after == before + {last};
      } else {
        assert after == before;
      }
    }
  }

  /** Sum of the moods of the logs. */
  function MoodSum(logs: seq<MoodLog>): int
  {
    if logs == [] then 0 else logs[0].mood + MoodSum(logs[1..])
  }

  /** With every mood on the 1-10 scale the sum lies between |logs| and 10|logs|. */
  lemma {:induction false} MoodSumBounds(logs: seq<MoodLog>)
    requires forall l :: l in logs ==> 1 <= l.mood <= 10
    ensures |logs| <= MoodSum(logs) <= 10 * |logs|
  {
    if logs != [] {
      assert forall l :: l in logs[1..] ==> l in logs;
      MoodSumBounds(logs[1..]);
    }
  }

  /** The mean mood stays on the 1-10 scale. */
  lemma AverageMoodInRange(logs: seq<MoodLog>)
    requires logs != []
    requires forall l :: l in logs ==> 1 <= l.mood <= 10
    ensures 1.0 <= (MoodSum(logs) as real) / (|logs| as real) <= 10.0
  {
    MoodSumBounds(logs);
    MeanBounds(MoodSum(logs) as real, |logs| as real);
  }

  lemma MeanBounds(sum: real, n: real)
    requires n > 0.0 && n <= sum <= 10.0 * n
    ensures 1.0 <= sum / n <= 10.0
  {
  }

  // ---------------------------------------------------------- active days

  predicate StrictlyDescending(ds: seq<int>)
  {
    forall i, j :: 0 <= i < j < |ds| ==> ds[i] > ds[j]
  }

  /** The head of a strictly descending list is above all the rest. */
  lemma HeadIsAbove(ds: seq<int>)
    requires ds != [] && StrictlyDescending(ds)
    ensures forall x :: x in ds[1..] ==> x < ds[0]
  {
  }

  /** Putting a larger day in front keeps a list strictly descending. */
  lemma ConsDescending(h: int, rest: seq<int>)
    requires StrictlyDescending(rest)
    requires forall x :: x in rest ==> x < h
    ensures StrictlyDescending([h] + rest)
  {
    var r := [h] + rest;
    forall i, j | 0 <= i < j < |r|
      ensures r[i] > r[j]
    {
      assert r[j] == rest[j - 1] && rest[j - 1] in rest;
      if i > 0 {
        assert r[i] == rest[i - 1];
      }
    }
  }

  /** Adds a day to a strictly descending list of days unless it is there already. */
  function InsertDay(ds: seq<int>, d: int): (r: seq<int>)
    requires StrictlyDescending(ds)
    ensures StrictlyDescending(r)
    ensures forall x :: x in r <==> x in ds || x == d
  {
    if ds == [] then [d]
    else
      assert ds == [ds[0]] + ds[1..];
      HeadIsAbove(ds);
      if d > ds[0] then
        ConsDescending(d, ds);
        [d] + ds
      else if d == ds[0] then ds
      else
        var rest := InsertDay(ds[1..], d);
        ConsDescending(ds[0], rest);
        [ds[0]] + rest
  }

  /** `[...new Set(dates)].sort(newest first)`: the distinct days with a log, newest first. */
  function UniqueDaysDescending(logs: seq<MoodLog>): (ds: seq<int>)
    ensures StrictlyDescending(ds)
    ensures forall d :: d in ds <==> d in DaysOf(logs)
  {
    if logs == [] then []
    else
      var init, last := logs[..|logs| - 1], logs[|logs| - 1];
      assert logs == init + [last];
      assert forall l :: l in logs <==> l in init || l == last;
      InsertDay(UniqueDaysDescending(init), DayOf(last.createdAt))
  }

  lemma {:induction false} DistinctLength(ds: seq<int>)
    requires StrictlyDescending(ds)
    ensures |set x | x in ds| == |ds|
  {
    if ds != [] {
      DistinctLength(ds[1..]);
      assert (set x | x in ds) == {ds[0]} + (set x | x in ds[1..]);
      assert ds[0] !in (set x | x in ds[1..]);
    }
  }

  /** The list of distinct days is as long as the number of active days. */
  lemma UniqueDaysCount(logs: seq<MoodLog>)
    ensures |UniqueDaysDescending(logs)| == |DaysOf(logs)|
  {
    var ds := UniqueDaysDescending(logs);
    DistinctLength(ds);
    assert (set x | x in ds) == DaysOf(logs);
  }

  /** Each log adds at most one active day. */
  lemma {:induction false} DaysActiveAtMostEntries(logs: seq<MoodLog>)
    ensures |DaysOf(logs)| <= |logs|
  {
    if logs != [] {
      var init, last := logs[..|logs| - 1], logs[|logs| - 1];
      assert logs == init + [last];
      DaysActiveAtMostEntries(init);
      var d := DayOf(last.createdAt);
      assert DaysOf(logs) == DaysOf(init) + {d};
      if d !in DaysOf(init) {
        assert |DaysOf(init) + {d}| == |DaysOf(init)| + 1;
      } else {
        assert DaysOf(init) + {d} == DaysOf(init);
      }
    }
  }

  // ------------------------------------------------------- current streak

  /** Length of the run of days starting at index `i` whose day at index k is `today - k`. */
  function StreakFrom(ds: seq<int>, today: int, i: nat): nat
    requires i <= |ds|
    decreases |ds| - i
  {
    if i < |ds| && ds[i] == today - i then 1 + StreakFrom(ds, today, i + 1) else 0
  }

  /** The current streak over the distinct days, newest first. */
  function CurrentStreakOf(ds: seq<int>, today: int): (c: nat)
    ensures c <= |ds|
    ensures forall k :: 0 <= k < c ==> ds[k] == today - k
  {
    StreakFromMeaning(ds, today, 0);
    StreakFrom(ds, today, 0)
  }

  /** `c` is the length of the longest prefix whose i-th day is `today - i`. */
  predicate IsStreakPrefix(ds: seq<int>, today: int, c: int)
  {
    && 0 <= c <= |ds|
    && (forall k :: 0 <= k < c ==> ds[k] == today - k)
    && (c < |ds| ==> ds[c] != today - c)
  }

  lemma {:induction false} StreakFromMeaning(ds: seq<int>, today: int, i: nat)
    requires i <= |ds|
    ensures i + StreakFrom(ds, today, i) <= |ds|
    ensures forall k :: i <= k < i + StreakFrom(ds, today, i) ==> ds[k] == today - k
    ensures i + StreakFrom(ds, today, i) < |ds| ==> ds[i + StreakFrom(ds, today, i)] != today - (i + StreakFrom(ds, today, i))
    decreases |ds| - i
  {
    if i < |ds| && ds[i] == today - i {
      StreakFromMeaning(ds, today, i + 1);
    }
  }

  lemma {:induction false} StreakFromUnique(ds: seq<int>, today: int, i: nat, c: nat)
    requires i <= c <= |ds|
    requires forall k :: i <= k < c ==> ds[k] == today - k
    requires c < |ds| ==> ds[c] != today - c
    ensures StreakFrom(ds, today, i) == c - i
    decreases c - i
  {
    if i < c {
      StreakFromUnique(ds, today, i + 1, c);
    }
  }

  /** The current streak is exactly the length of the longest prefix of days
      that runs back one day at a time from today. */
  lemma CurrentStreakCharacterized(ds: seq<int>, today: int, c: int)
    ensures c == CurrentStreakOf(ds, today) <==> IsStreakPrefix(ds, today, c)
  {
    StreakFromMeaning(ds, today, 0);
    if IsStreakPrefix(ds, today, c) {
      StreakFromUnique(ds, today, 0, c);
    }
  }

  /** Without a log today there is no current streak. */
  lemma NoEntryTodayNoStreak(ds: seq<int>, today: int)
    requires today !in ds
    ensures CurrentStreakOf(ds, today) == 0
  {
  }

  // ------------------------------------------------------- longest streak

  /** Days `ds[i..j]` follow each other one calendar day apart. */
  predicate Consecutive(ds: seq<int>, i: int, j: int)
  {
    0 <= i <= j <= |ds| && forall k :: i <= k < j - 1 ==> ds[k] - ds[k + 1] == 1
  }

  /** Length of the run of consecutive days that ends at index `k`. */
  function RunEndingAt(ds: seq<int>, k: nat): nat
    requires k < |ds|
  {
    if k == 0 then 1
    else if ds[k - 1] - ds[k] == 1 then RunEndingAt(ds, k - 1) + 1
    else 1
  }

  /** The longest run ending among the first `m` days. */
  function MaxRun(ds: seq<int>, m: nat): nat
    requires m <= |ds|
  {
    if m == 0 then 0 else Max(MaxRun(ds, m - 1), RunEndingAt(ds, m - 1))
  }

  /** The longest streak over the distinct days, newest first. */
  function LongestStreakOf(ds: seq<int>): (n: nat)
    ensures n <= |ds|
  {
    MaxRunBounds(ds, |ds|);
    MaxRun(ds, |ds|)
  }

  lemma {:induction false} RunEndingAtSpan(ds: seq<int>, k: nat)
    requires k < |ds|
    ensures 1 <= RunEndingAt(ds, k) <= k + 1
    ensures Consecutive(ds, k + 1 - RunEndingAt(ds, k), k + 1)
  {
    if k > 0 && ds[k - 1] - ds[k] == 1 {
      RunEndingAtSpan(ds, k - 1);
    }
  }

  lemma {:induction false} RunEndingAtCovers(ds: seq<int>, i: nat, k: nat)
    requires i <= k < |ds|
    requires Consecutive(ds, i, k + 1)
    ensures k + 1 - i <= RunEndingAt(ds, k)
  {
    if i < k {
      assert ds[k - 1] - ds[k] == 1;
      RunEndingAtCovers(ds, i, k - 1);
    }
  }

  lemma {:induction false} MaxRunBounds(ds: seq<int>, m: nat)
    requires m <= |ds|
    ensures MaxRun(ds, m) <= m
    ensures forall k :: 0 <= k < m ==> RunEndingAt(ds, k) <= MaxRun(ds, m)
    ensures m > 0 ==> exists k :: 0 <= k < m && MaxRun(ds, m) == RunEndingAt(ds, k)
  {
    if m > 0 {
      MaxRunBounds(ds, m - 1);
      RunEndingAtSpan(ds, m - 1);
      if MaxRun(ds, m - 1) < RunEndingAt(ds, m - 1) {
        assert MaxRun(ds, m) == RunEndingAt(ds, m - 1);
      }
    }
  }

  /** The longest streak is the length of the longest block of consecutive days. */
  lemma LongestStreakIsLongestRun(ds: seq<int>)
    ensures forall i, j :: Consecutive(ds, i, j) ==> j - i <= LongestStreakOf(ds)
    ensures ds != [] ==> exists i, j :: Consecutive(ds, i, j) && j - i == LongestStreakOf(ds)
  {
    MaxRunBounds(ds, |ds|);
    forall i, j | Consecutive(ds, i, j)
      ensures j - i <= LongestStreakOf(ds)
    {
      if i < j {
        RunEndingAtCovers(ds, i, j - 1);
      }
    }
    if ds != [] {
      var k :| 0 <= k < |ds| && LongestStreakOf(ds) == RunEndingAt(ds, k);
      RunEndingAtSpan(ds, k);
      assert Consecutive(ds, k + 1 - RunEndingAt(ds, k), k + 1);
    }
  }

  /** Every day from `top - len + 1` up to `top` is in `ds`. */
  predicate Block(ds: seq<int>, top: int, len: int)
  {
    forall d :: top - len < d <= top ==> d in ds
  }

  lemma {:induction false} RunSteps(ds: seq<int>, i: nat, j: nat, t: nat)
    requires Consecutive(ds, i, j) && t < j - i
    ensures ds[i + t] == ds[i] - t
  {
    if t > 0 {
      RunSteps(ds, i, j, t - 1);
    }
  }

  /** A run of consecutive days covers a block of calendar days. */
  lemma RunGivesBlock(ds: seq<int>, i: nat, j: nat)
    requires Consecutive(ds, i, j) && i < j
    ensures Block(ds, ds[i], j - i)
  {
    forall d | ds[i] - (j - i) < d <= ds[i]
      ensures d in ds
    {
      RunSteps(ds, i, j, ds[i] - d);
    }
  }

  lemma {:induction false} BlockSteps(ds: seq<int>, top: int, len: int, i: nat, t: nat)
    requires StrictlyDescending(ds) && Block(ds, top, len)
    requires i < |ds| && ds[i] == top && t < len
    ensures i + t < |ds| && ds[i + t] == top - t
  {
    if t > 0 {
      BlockSteps(ds, top, len, i, t - 1);
      assert top - t in ds;
      var m :| 0 <= m < |ds| && ds[m] == top - t;
    }
  }

  /** In a strictly descending list, a block of calendar days is a run of consecutive entries. */
  lemma BlockGivesRun(ds: seq<int>, top: int, len: int)
    requires StrictlyDescending(ds) && Block(ds, top, len) && len >= 1
    ensures exists i, j :: Consecutive(ds, i, j) && j - i == len
  {
    assert top in ds;
    var i :| 0 <= i < |ds| && ds[i] == top;
    BlockSteps(ds, top, len, i, len - 1);
    forall k | i <= k < i + len - 1
      ensures ds[k] - ds[k + 1] == 1
    {
      BlockSteps(ds, top, len, i, k - i);
      BlockSteps(ds, top, len, i, k + 1 - i);
    }
    assert Consecutive(ds, i, i + len);
  }

  /** More active days never shorten the longest streak. */
  lemma LongestStreakMonotone(ds1: seq<int>, ds2: seq<int>)
    requires StrictlyDescending(ds2)
    requires forall d :: d in ds1 ==> d in ds2
    ensures LongestStreakOf(ds1) <= LongestStreakOf(ds2)
  {
    if ds1 != [] {
      LongestStreakIsLongestRun(ds1);
      LongestStreakBounds(ds1);
      var i, j :| Consecutive(ds1, i, j) && j - i == LongestStreakOf(ds1);
      RunGivesBlock(ds1, i, j);
      BlockGivesRun(ds2, ds1[i], j - i);
      LongestStreakIsLongestRun(ds2);
    }
  }

  /** With at least one active day the longest streak is between 1 and the number of days. */
  lemma LongestStreakBounds(ds: seq<int>)
    requires ds != []
    ensures 1 <= LongestStreakOf(ds) <= |ds|
  {
    MaxRunBounds(ds, |ds|);
    RunEndingAtSpan(ds, 0);
  }

  /** The current streak never exceeds the longest streak. */
  lemma CurrentAtMostLongest(ds: seq<int>, today: int)
    ensures CurrentStreakOf(ds, today) <= LongestStreakOf(ds)
  {
    var c := CurrentStreakOf(ds, today);
    CurrentStreakCharacterized(ds, today, c);
    assert Consecutive(ds, 0, c);
    LongestStreakIsLongestRun(ds);
  }

  /** `calculateStreaks`: the current and the longest streak of the logs,
      judged against the clock reading `now`. */
  method CalculateStreaks(logs: seq<MoodLog>, now: int) returns (currentStreak: nat, longestStreak: nat)
    ensures currentStreak == CurrentStreakOf(UniqueDaysDescending(logs), DayOf(now))
    ensures longestStreak == LongestStreakOf(UniqueDaysDescending(logs))
  {
    if |logs| == 0 {
      return 0, 0;
    }
    var uniqueDates := UniqueDaysDescending(logs);
    currentStreak := CountCurrentStreak(uniqueDates, now);
    longestStreak := CountLongestStreak(uniqueDates);
  }

  /** The first loop of `calculateStreaks`: counts the dates that lie exactly
      `i` days before `now`, stopping at the first that does not. */
  method CountCurrentStreak(uniqueDates: seq<int>, now: int) returns (currentStreak: nat)
    ensures currentStreak == CurrentStreakOf(uniqueDates, DayOf(now))
  {
    ghost var today := DayOf(now);
    currentStreak := 0;
    var i := 0;
    while i < |uniqueDates|
      invariant 0 <= i <= |uniqueDates|
      invariant currentStreak == i
      invariant forall k :: 0 <= k < i ==> uniqueDates[k] == today - k
    {
      var daysDiff := (now - Midnight(uniqueDates[i])) / MsPerDay;
      DaysSince(now, uniqueDates[i]);
      if daysDiff == i {
        currentStreak := currentStreak + 1;
      } else {
        break;
      }
      i := i + 1;
    }
    StreakFromUnique(uniqueDates, today, 0, currentStreak);
  }

  /** The second loop of `calculateStreaks`: the length of the longest run of
      dates one day apart, over a non-empty list. */
  method CountLongestStreak(uniqueDates: seq<int>) returns (longestStreak: nat)
    requires uniqueDates != []
    ensures longestStreak == LongestStreakOf(uniqueDates)
  {
    longestStreak := 0;
    var tempStreak := 0;
    var j := 0;
    while j < |uniqueDates| - 1
      invariant 0 <= j <= |uniqueDates| - 1
      invariant tempStreak + 1 == RunEndingAt(uniqueDates, j)
      invariant Max(longestStreak, tempStreak + 1) == MaxRun(uniqueDates, j + 1)
    {
      var daysDiff := (Midnight(uniqueDates[j]) - Midnight(uniqueDates[j + 1])) / MsPerDay;
      DaysBetweenMidnights(uniqueDates[j], uniqueDates[j + 1]);
      if daysDiff == 1 {
        tempStreak := tempStreak + 1;
      } else {
        longestStreak := Max(longestStreak, tempStreak + 1);
        tempStreak := 0;
      }
      j := j + 1;
    }
    longestStreak := Max(longestStreak, tempStreak + 1);
  }

  // ----------------------------------------------------- mood improvement

  /** Newest first: no log is older than a log after it. */
  predicate SortedByRecency(s: seq<MoodLog>)
  {
    forall i, j :: 0 <= i < j < |s| ==> s[i].createdAt >= s[j].createdAt
  }

  /** Places `x` after every log of `s` that is at least as recent as `x`. */
  function InsertByRecency(s: seq<MoodLog>, x: MoodLog): (r: seq<MoodLog>)
    ensures |r| == |s| + 1
  {
    if s == [] || s[|s| - 1].createdAt >= x.createdAt then s + [x]
    else InsertByRecency(s[..|s| - 1], x) + [s[|s| - 1]]
  }

  lemma {:induction false} InsertByRecencyPermutes(s: seq<MoodLog>, x: MoodLog)
    ensures multiset(InsertByRecency(s, x)) == multiset(s) + multiset{x}
  {
    if !(s == [] || s[|s| - 1].createdAt >= x.createdAt) {
      var init := s[..|s| - 1];
      assert s == init + [s[|s| - 1]];
      InsertByRecencyPermutes(init, x);
    }
  }

  lemma AppendSorted(s: seq<MoodLog>, x: MoodLog)
    requires SortedByRecency(s)
    requires forall y :: y in s ==> y.createdAt >= x.createdAt
    ensures SortedByRecency(s + [x])
  {
    forall i, j | 0 <= i < j < |s| + 1
      ensures (s + [x])[i].createdAt >= (s + [x])[j].createdAt
    {
      if j == |s| {
        assert (s + [x])[i] == s[i];
        assert s[i] in s;
      }
    }
  }

  lemma {:induction false} InsertByRecencySorted(s: seq<MoodLog>, x: MoodLog)
    requires SortedByRecency(s)
    ensures SortedByRecency(InsertByRecency(s, x))
  {
    if s == [] || s[|s| - 1].createdAt >= x.createdAt {
      forall y | y in s
        ensures y.createdAt >= x.createdAt
      {
        var k :| 0 <= k < |s| && s[k] == y;
      }
      AppendSorted(s, x);
    } else {
      var init, last := s[..|s| - 1], s[|s| - 1];
      assert s == init + [last];
      assert SortedByRecency(init);
      InsertByRecencySorted(init, x);
      InsertByRecencyPermutes(init, x);
      var r := InsertByRecency(init, x);
      forall y | y in r
        ensures y.createdAt >= last.createdAt
      {
        assert y in multiset(init) + multiset{x};
      }
      AppendSorted(r, last);
    }
  }

  /** The logs ordered newest first, ties kept in their original order:
      the result of the stable `Array.prototype.sort` with the comparator
      `b.created_at - a.created_at`. */
  function ByRecency(s: seq<MoodLog>): (r: seq<MoodLog>)
    ensures |r| == |s|
  {
    if s == [] then [] else InsertByRecency(ByRecency(s[..|s| - 1]), s[|s| - 1])
  }

  /** The ordering is a permutation of the logs. */
  lemma {:induction false} ByRecencyPermutes(s: seq<MoodLog>)
    ensures multiset(ByRecency(s)) == multiset(s)
  {
    if s != [] {
      ByRecencyPermutes(s[..|s| - 1]);
      InsertByRecencyPermutes(ByRecency(s[..|s| - 1]), s[|s| - 1]);
      assert s == s[..|s| - 1] + [s[|s| - 1]];
    }
  }

  /** The ordering puts the newest logs first. */
  lemma {:induction false} ByRecencySorted(s: seq<MoodLog>)
    ensures SortedByRecency(ByRecency(s))
  {
    if s != [] {
      ByRecencySorted(s[..|s| - 1]);
      InsertByRecencySorted(ByRecency(s[..|s| - 1]), s[|s| - 1]);
    }
  }

  /** The logs of `s` created at instant `t`, in their order in `s`. */
  function CreatedAt(s: seq<MoodLog>, t: int): seq<MoodLog>
  {
    if s == [] then []
    else CreatedAt(s[..|s| - 1], t) + (if s[|s| - 1].createdAt == t then [s[|s| - 1]] else [])
  }

  lemma {:induction false} CreatedAtInsert(s: seq<MoodLog>, x: MoodLog, t: int)
    ensures CreatedAt(InsertByRecency(s, x), t) == CreatedAt(s, t) + (if x.createdAt == t then [x] else [])
  {
    if s == [] || s[|s| - 1].createdAt >= x.createdAt {
      assert (s + [x])[..|s|] == s;
    } else {
      var init, last := s[..|s| - 1], s[|s| - 1];
      var r := InsertByRecency(init, x) + [last];
      assert r[..|r| - 1] == InsertByRecency(init, x);
      CreatedAtInsert(init, x, t);
    }
  }

  /** The ordering is stable: logs created at the same instant keep their relative order. */
  lemma {:induction false} ByRecencyStable(s: seq<MoodLog>, t: int)
    ensures CreatedAt(ByRecency(s), t) == CreatedAt(s, t)
  {
    if s != [] {
      ByRecencyStable(s[..|s| - 1], t);
      CreatedAtInsert(ByRecency(s[..|s| - 1]), s[|s| - 1], t);
    }
  }

  /** Logs that are already newest first, as the store returns them, are left as they are. */
  lemma {:induction false} ByRecencyKeepsSorted(s: seq<MoodLog>)
    requires SortedByRecency(s)
    ensures ByRecency(s) == s
  {
    if s != [] {
      var init := s[..|s| - 1];
      assert SortedByRecency(init);
      ByRecencyKeepsSorted(init);
      assert s == init + [s[|s| - 1]];
    }
  }

  /** Where the insertion puts `x`: after `p[..j]`, when every log of `p[j..]`
      is older than `x` and `p[j - 1]` (if any) is not. */
  lemma {:induction false} InsertByRecencyAt(p: seq<MoodLog>, x: MoodLog, j: nat)
    requires j <= |p|
    requires forall k :: j <= k < |p| ==> p[k].createdAt < x.createdAt
    requires j == 0 || p[j - 1].createdAt >= x.createdAt
    ensures InsertByRecency(p, x) == p[..j] + [x] + p[j..]
    decreases |p|
  {
    if j < |p| {
      var init := p[..|p| - 1];
      InsertByRecencyAt(init, x, j);
      assert init[..j] == p[..j];
      assert p[j..] == init[j..] + [p[|p| - 1]];
    }
  }

  /** Moves `a[i]` left past the logs before it that are older. */
  method InsertInPlace(a: array<MoodLog>, i: nat)
    requires i < a.Length
    modifies a
    ensures a[..i + 1] == InsertByRecency(old(a[..i]), old(a[i]))
    ensures forall k :: i < k < a.Length ==> a[k] == old(a[k])
  {
    ghost var s := a[..];
    var x := a[i];
    var j := i;
    while j > 0 && a[j - 1].createdAt < x.createdAt
      invariant 0 <= j <= i
      invariant forall k :: 0 <= k < j ==> a[k] == s[k]
      invariant forall k :: j <= k < i ==> a[k + 1] == s[k]
      invariant forall k :: i < k < a.Length ==> a[k] == s[k]
      invariant forall k :: j <= k < i ==> s[k].createdAt < x.createdAt
    {
      a[j] := a[j - 1];
      j := j - 1;
    }
    a[j] := x;
    assert s[..i] == old(a[..i]) && s[i] == old(a[i]);
    ShiftedInsert(s, a[..], x, i, j);
  }

  /** The array after the shifting loop, as a sequence `t`: the first `i + 1`
      entries are `x` inserted into `s[..i]`. */
  lemma ShiftedInsert(s: seq<MoodLog>, t: seq<MoodLog>, x: MoodLog, i: nat, j: nat)
    requires j <= i < |s| == |t|
    requires forall k :: 0 <= k < j ==> t[k] == s[k]
    requires t[j] == x
    requires forall k :: j <= k < i ==> t[k + 1] == s[k]
    requires forall k :: j <= k < i ==> s[k].createdAt < x.createdAt
    requires j == 0 || s[j - 1].createdAt >= x.createdAt
    ensures t[..i + 1] == InsertByRecency(s[..i], x)
  {
    var r := s[..j] + [x] + s[j..i];
    forall k | 0 <= k < i + 1
      ensures t[k] == r[k]
    {
      if k < j {
        assert r[k] == s[k];
      } else if k == j {
        assert r[k] == x;
      } else {
        assert r[k] == s[j..i][k - j - 1] == s[k - 1];
        assert t[(k - 1) + 1] == s[k - 1];
      }
    }
    assert t[..i + 1] == r;
    InsertByRecencyAt(s[..i], x, j);
    assert s[..i][..j] == s[..j] && s[..i][j..] == s[j..i];
  }

  /** Sorts the array in place, newest first (`logs.sort(...)`). */
  method SortByRecency(a: array<MoodLog>)
    modifies a
    ensures a[..] == ByRecency(old(a[..]))
  {
    ghost var s := a[..];
    var i := 0;
    while i < a.Length
      invariant 0 <= i <= a.Length
      invariant a[..i] == ByRecency(s[..i])
      invariant forall k :: i <= k < a.Length ==> a[k] == s[k]
    {
      assert s[..i + 1][..i] == s[..i];
      InsertInPlace(a, i);
      i := i + 1;
    }
    assert a[..] == a[..a.Length];
    assert s == s[..a.Length];
  }

  /** Mean of the seven newest moods minus the mean of the seven before them. */
  function ImprovementOf(sorted: seq<MoodLog>): real
    requires |sorted| >= 14
  {
    (MoodSum(sorted[..7]) as real) / 7.0 - (MoodSum(sorted[7..14]) as real) / 7.0
  }

  /** `calculateMoodImprovement` as a value: 0 below fourteen logs. */
  function MoodImprovementOf(logs: seq<MoodLog>): (r: real)
    ensures |logs| < 14 ==> r == 0.0
    ensures (forall l :: l in logs ==> 1 <= l.mood <= 10) ==> -9.0 <= r <= 9.0
  {
    if |logs| < 14 then 0.0
    else
      ImprovementInScale(logs);
      ImprovementOf(ByRecency(logs))
  }

  /** With moods on 1-10 each weekly mean is on 1-10, so their difference is within 9. */
  lemma ImprovementInScale(logs: seq<MoodLog>)
    requires |logs| >= 14
    ensures (forall l :: l in logs ==> 1 <= l.mood <= 10) ==> -9.0 <= ImprovementOf(ByRecency(logs)) <= 9.0
  {
    if forall l :: l in logs ==> 1 <= l.mood <= 10 {
      var s := ByRecency(logs);
      ByRecencyPermutes(logs);
      forall l | l in s
        ensures 1 <= l.mood <= 10
      {
        assert l in multiset(s);
      }
      assert forall l :: l in s[..7] ==> l in s;
      assert forall l :: l in s[7..14] ==> l in s;
      MoodSumBounds(s[..7]);
      MoodSumBounds(s[7..14]);
    }
  }

  /** The improvement threshold of the catalogue in whole mood points:
      an improvement of 2 means the newer week's moods sum to 14 more. */
  lemma ImprovementThreshold(logs: seq<MoodLog>)
    requires |logs| >= 14
    ensures var s := ByRecency(logs);
      MoodImprovementOf(logs) >= 2.0 <==> MoodSum(s[..7]) - MoodSum(s[7..14]) >= 14
  {
  }

  /** `calculateMoodImprovement`: sorts the caller's array in place when it
      holds at least fourteen logs, then compares the two newest weeks' means. */
  method CalculateMoodImprovement(logs: array<MoodLog>) returns (improvement: real)
    modifies logs
    ensures improvement == MoodImprovementOf(old(logs[..]))
    ensures logs[..] == if logs.Length < 14 then old(logs[..]) else ByRecency(old(logs[..]))
  {
    if logs.Length < 14 {
      return 0.0;
    }
    SortByRecency(logs);
    var recent7 := logs[..7];
    var previous7 := logs[7..14];
    var recentAvg := (MoodSum(recent7) as real) / (|recent7| as real);
    var previousAvg := (MoodSum(previous7) as real) / (|previous7| as real);
    improvement := recentAvg - previousAvg;
  }

  // -------------------------------------------------- weekly consistency

  /** Days with a log at or after `since` (the 28-day window keeps the time of day of `now`). */
  function WindowDays(logs: seq<MoodLog>, since: int): set<int>
  {
    set l | l in logs && l.createdAt >= since :: DayOf(l.createdAt)
  }

  /** `calculateWeeklyConsistency`: distinct days with a log in the window
      starting 28 days before `now`, over 28. */
  function WeeklyConsistencyOf(logs: seq<MoodLog>, now: int): (r: real)
    ensures 0.0 <= r <= |logs| as real / 28.0
    ensures r == 0.0 || r >= 1.0 / 28.0
  {
    var days := WindowDays(logs, now - 28 * MsPerDay);
    assert days <= DaysOf(logs);
    SubsetSize(days, DaysOf(logs));
    DaysActiveAtMostEntries(logs);
    if days == {} then 0.0 else (|days| as real) / 28.0
  }

  /** The ratio is 0 exactly when no log falls in the window. */
  lemma WeeklyConsistencyZero(logs: seq<MoodLog>, now: int)
    ensures WeeklyConsistencyOf(logs, now) == 0.0 <==> forall l :: l in logs ==> l.createdAt < now - 28 * MsPerDay
  {
    var days := WindowDays(logs, now - 28 * MsPerDay);
    if l :| l in logs && l.createdAt >= now - 28 * MsPerDay {
      assert DayOf(l.createdAt) in days;
      assert |days| >= 1;
    }
  }

  /** The days from `lo` to `hi`, both included. */
  function Interval(lo: int, hi: int): (r: set<int>)
    requires lo <= hi + 1
    ensures |r| == hi - lo + 1
    ensures forall x :: x in r <==> lo <= x <= hi
    decreases hi - lo + 1
  {
    if lo > hi then {} else Interval(lo, hi - 1) + {hi}
  }

  lemma SubsetSize(a: set<int>, b: set<int>)
    requires a <= b
    ensures |a| <= |b|
  {
    assert b == a + (b - a);
    assert a * (b - a) == {};
  }

  /** Twenty-nine calendar days meet the window, so with no log dated after
      today the ratio is at most 29/28 (and can exceed 1). */
  lemma WeeklyConsistencyBound(logs: seq<MoodLog>, now: int)
    requires forall l :: l in logs ==> DayOf(l.createdAt) <= DayOf(now)
    ensures 0.0 <= WeeklyConsistencyOf(logs, now) <= 29.0 / 28.0
  {
    var since := now - 28 * MsPerDay;
    var days := WindowDays(logs, since);
    assert DayOf(since) == DayOf(now) - 28;
    assert days <= Interval(DayOf(now) - 28, DayOf(now));
    SubsetSize(days, Interval(DayOf(now) - 28, DayOf(now)));
  }

  /** The ratio depends only on which logs there are, not on their order. */
  lemma WeeklyConsistencyOrderFree(a: seq<MoodLog>, b: seq<MoodLog>, now: int)
    requires multiset(a) == multiset(b)
    ensures WeeklyConsistencyOf(a, now) == WeeklyConsistencyOf(b, now)
  {
    assert forall l :: l in a <==> l in multiset(a);
    assert forall l :: l in b <==> l in multiset(b);
    assert WindowDays(a, now - 28 * MsPerDay) == WindowDays(b, now - 28 * MsPerDay);
  }

  // ------------------------------------------------------------- summary

  /** `getUserStats` as a value, for the logs the store returned and the clock reading `now`. */
  function StatsOf(logs: seq<MoodLog>, now: int): (s: UserStats)
    ensures s.totalEntries == |logs|
    ensures logs == [] ==> s == ZeroStats
    ensures s.journalEntries <= s.totalEntries && s.aiInteractions <= s.totalEntries
    ensures s.daysActive <= s.totalEntries
  {
    if |logs| == 0 then ZeroStats
    else
      DaysActiveAtMostEntries(logs);
      var ds := UniqueDaysDescending(logs);
      UserStats(
        totalEntries := |logs|,
        currentStreak := CurrentStreakOf(ds, DayOf(now)),
        longestStreak := LongestStreakOf(ds),
        averageMood := (MoodSum(logs) as real) / (|logs| as real),
        moodImprovement := MoodImprovementOf(logs),
        journalEntries := JournalCount(logs),
        aiInteractions := AiCount(logs),
        daysActive := |DaysOf(logs)|,
        weeklyConsistency := WeeklyConsistencyOf(logs, now))
  }

  /** The summary's invariants: counts bounded by the number of logs, the
      streak order, and the all-zero summary for an empty history. */
  lemma StatsInvariants(logs: seq<MoodLog>, now: int)
    ensures var s := StatsOf(logs, now);
      && s.totalEntries == |logs|
      && (logs == [] ==> s == ZeroStats)
      && s.journalEntries <= s.totalEntries
      && s.aiInteractions <= s.totalEntries
      && s.daysActive <= s.totalEntries
      && s.currentStreak <= s.longestStreak
      && (logs != [] ==> 1 <= s.longestStreak <= s.daysActive)
      && (DayOf(now) !in DaysOf(logs) ==> s.currentStreak == 0)
      && (|logs| < 14 ==> s.moodImprovement == 0.0)
  {
    if logs != [] {
      var ds := UniqueDaysDescending(logs);
      DaysActiveAtMostEntries(logs);
      CurrentAtMostLongest(ds, DayOf(now));
      assert logs[0] in logs;
      assert DayOf(logs[0].createdAt) in ds;
      LongestStreakBounds(ds);
      UniqueDaysCount(logs);
      if DayOf(now) !in DaysOf(logs) {
        NoEntryTodayNoStreak(ds, DayOf(now));
      }
    }
  }

  /** Adding a log never lowers the entry count, the active days or the longest streak. */
  lemma StatsMonotone(logs: seq<MoodLog>, l: MoodLog, now: int)
    ensures StatsOf(logs, now).totalEntries < StatsOf(logs + [l], now).totalEntries
    ensures StatsOf(logs, now).daysActive <= StatsOf(logs + [l], now).daysActive
    ensures StatsOf(logs, now).longestStreak <= StatsOf(logs + [l], now).longestStreak
  {
    if logs != [] {
      var more := logs + [l];
      assert DaysOf(logs) <= DaysOf(more) by {
        forall d | d in DaysOf(logs)
          ensures d in DaysOf(more)
        {
          var x :| x in logs && DayOf(x.createdAt) == d;
          assert x in more;
        }
      }
      SubsetSize(DaysOf(logs), DaysOf(more));
      LongestStreakMonotone(UniqueDaysDescending(logs), UniqueDaysDescending(more));
    }
  }

  /** `getUserStats` over the logs the store returned. Like the source, it
      sorts the caller's array in place when there are fourteen logs or more. */
  method GetUserStats(logs: array<MoodLog>, now: int) returns (stats: UserStats)
    modifies logs
    ensures stats == StatsOf(old(logs[..]), now)
    ensures logs[..] == if logs.Length < 14 then old(logs[..]) else ByRecency(old(logs[..]))
  {
    if logs.Length == 0 {
      return ZeroStats;
    }
    var all := logs[..];
    var totalEntries := logs.Length;
    var journalEntries := JournalCount(all);
    var aiInteractions := AiCount(all);
    var averageMood := (MoodSum(all) as real) / (totalEntries as real);
    var currentStreak, longestStreak := CalculateStreaks(all, now);
    var moodImprovement := CalculateMoodImprovement(logs);
    var uniqueDays := |DaysOf(all)|;
    ByRecencyPermutes(all);
    WeeklyConsistencyOrderFree(logs[..], all, now);
    var weeklyConsistency := WeeklyConsistencyOf(logs[..], now);
    stats := UserStats(totalEntries, currentStreak, longestStreak, averageMood, moodImprovement,
                       journalEntries, aiInteractions, uniqueDays, weeklyConsistency);
  }
}
