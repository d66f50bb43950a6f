/** The journal list of src/components/JournalView.tsx: which logs the
    `filteredLogs` filter keeps for a date filter, a search term and the
    clock reading `now`. */
module Journal {
  import opened Domain
  import opened Text

  /** The three choices of the date filter. */
  datatype DateFilter = All | Week | Month

  /** The date condition: none for `All`; from the start of this week up to
      now for `Week`; the same calendar month and year as now for `Month`. */
  function DateMatch(filter: DateFilter, createdAt: int, now: int): (b: bool)
    ensures filter == All ==> b
    ensures filter == Week ==> (b <==> StartOfWeek(now) <= createdAt <= now)
    ensures filter == Week ==>
      (b <==> DayOf(now) - WeekdayOf(DayOf(now)) <= DayOf(createdAt) && createdAt <= now)
    ensures filter == Month ==> (b <==> CivilYearMonth(DayOf(createdAt)) == CivilYearMonth(DayOf(now)))
    ensures DayOf(createdAt) == DayOf(now) && createdAt <= now ==> b
  {
    match filter
    case All => true
    case Week => StartOfWeek(now) <= createdAt <= now
    case Month => CivilYearMonth(DayOf(createdAt)) == CivilYearMonth(DayOf(now))
  }

  /** `field?.toLowerCase().includes(term.toLowerCase())`. */
  predicate FieldMatches(field: Option<string>, term: string)
  {
    field.Some? && Contains(ToLower(field.value), ToLower(term))
  }

  /** An empty term matches; otherwise the journal text or the AI reply
      must contain it, ignoring case. */
  function SearchMatch(log: MoodLog, term: string): (b: bool)
    ensures term == "" ==> b
    ensures b && term != "" ==> HasText(log.journalEntry) || HasText(log.aiResponse)
  {
    term == "" || FieldMatches(log.journalEntry, term) || FieldMatches(log.aiResponse, term)
  }

  /** The filter's predicate: date, search, and some text to show. */
  function Keep(log: MoodLog, filter: DateFilter, term: string, now: int): (b: bool)
    ensures b ==> HasText(log.journalEntry) || HasText(log.aiResponse)
    ensures filter == All && term == "" ==> (b <==> HasText(log.journalEntry) || HasText(log.aiResponse))
  {
    DateMatch(filter, log.createdAt, now) && SearchMatch(log, term)
    && (HasText(log.journalEntry) || HasText(log.aiResponse))
  }

  /** `filteredLogs`. */
  function FilteredLogs(logs: seq<MoodLog>, filter: DateFilter, term: string, now: int): (r: seq<MoodLog>)
    ensures |r| <= |logs|
    ensures forall l :: l in r <==> l in logs && Keep(l, filter, term, now)
    ensures forall l :: l in r ==> HasText(l.journalEntry) || HasText(l.aiResponse)
  {
    if logs == [] then []
    else
      assert forall l :: l in logs <==> l == logs[0] || l in logs[1..];
      (if Keep(logs[0], filter, term, now) then [logs[0]] else []) + FilteredLogs(logs[1..], filter, term, now)
  }

  /** The month filter keeps a log exactly when it was written on a date of
      the calendar month, of the same year, in which `now` falls. */
  lemma MonthFilterIsCalendarMonth(createdAt: int, now: int, y: int, m: int, d: int)
    requires 1 <= m <= 12 && 1 <= d <= DaysInMonth(y, m) && DayOf(now) == DaysFromCivil(y, m, d)
    ensures DateMatch(Month, createdAt, now) <==>
      exists d' :: 1 <= d' <= DaysInMonth(y, m) && DaysFromCivil(y, m, d') == DayOf(createdAt)
  {
    CivilRoundTrip(y, m, d);
    CivilYearMonthIff(DayOf(createdAt), y, m);
  }

  /** Each kept log appears in the filtered list as many times as in the
      logs, every other log never. */
  lemma {:induction false} FilteredLogsCounts(logs: seq<MoodLog>, filter: DateFilter, term: string, now: int)
    ensures forall l :: multiset(FilteredLogs(logs, filter, term, now))[l]
                        == if Keep(l, filter, term, now) then multiset(logs)[l] else 0
  {
    if logs != [] {
      assert logs == [logs[0]] + logs[1..];
      FilteredLogsCounts(logs[1..], filter, term, now);
    }
  }

  /** `r` is `s` with some logs left out, the rest in their order. */
  predicate IsSubsequence(r: seq<MoodLog>, s: seq<MoodLog>)
    decreases |s|
  {
    if s == [] then r == []
    else (r != [] && r[0] == s[0] && IsSubsequence(r[1..], s[1..])) || IsSubsequence(r, s[1..])
  }

  /** The filtered list keeps the logs in their order. */
  lemma {:induction false} FilteredIsSubsequence(logs: seq<MoodLog>, filter: DateFilter, term: string, now: int)
    ensures IsSubsequence(FilteredLogs(logs, filter, term, now), logs)
  {
    if logs != [] {
      var r := FilteredLogs(logs, filter, term, now);
      var rest := FilteredLogs(logs[1..], filter, term, now);
      FilteredIsSubsequence(logs[1..], filter, term, now);
      if Keep(logs[0], filter, term, now) {
        assert r[0] == logs[0] && r[1..] == rest;
      } else {
        assert r == rest;
      }
    }
  }

  /** An empty search keeps, under `All`, exactly the logs with some text. */
  lemma EmptySearchKeepsAllWithText(logs: seq<MoodLog>, now: int)
    ensures forall l :: l in FilteredLogs(logs, All, "", now) <==>
      l in logs && (HasText(l.journalEntry) || HasText(l.aiResponse))
  {
  }

  /** The search ignores the case of the term. */
  lemma {:induction false} SearchIgnoresCase(logs: seq<MoodLog>, filter: DateFilter, term: string, now: int)
    ensures FilteredLogs(logs, filter, ToLower(term), now) == FilteredLogs(logs, filter, term, now)
  {
    ToLowerIdempotent(term);
    assert ToLower(term) == "" <==> term == "";
    if logs != [] {
      SearchIgnoresCase(logs[1..], filter, term, now);
    }
  }

  /** Under `All` the result does not depend on the clock. */
  lemma {:induction false} AllIgnoresDate(logs: seq<MoodLog>, term: string, now1: int, now2: int)
    ensures FilteredLogs(logs, All, term, now1) == FilteredLogs(logs, All, term, now2)
  {
    if logs != [] {
      AllIgnoresDate(logs[1..], term, now1, now2);
    }
  }
}
