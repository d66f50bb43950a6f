/** The guided-meditation timer of src/components/MeditationView.tsx: the
    session catalogue, the timer state the handlers and the one-second tick
    update, and the `m:ss` rendering of the time left. */
module Meditation {
  import opened Domain
  import opened Text

  /** A guided session; `duration` is in minutes. */
  datatype Session = Session(id: string, title: string, description: string, duration: nat)

  const Sessions: seq<Session> := [
    Session("breathing", "4-7-8 Breathing", "Calm your nervous system with this powerful breathing technique", 5),
    Session("mindfulness", "Mindful Awareness", "Focus on the present moment and observe your thoughts", 10),
    Session("loving_kindness", "Loving Kindness", "Cultivate compassion for yourself and others", 15),
    Session("body_scan", "Body Scan", "Release tension by scanning through your entire body", 20)
  ]

  /** The part of the state the tick effect reads and writes. */
  datatype TimerState = TimerState(isActive: bool, timeLeft: int, showMoodAfter: bool)

  /** One run of the tick effect: a running timer with time left loses a
      second; a running timer at zero stops and asks for the mood after. */
  function Ticked(t: TimerState): (r: TimerState)
    ensures t.timeLeft >= 0 ==> r.timeLeft >= 0
    ensures !t.isActive ==> r == t
    ensures t.isActive && t.timeLeft > 0 ==> r == t.(timeLeft := t.timeLeft - 1)
  {
    if t.isActive && t.timeLeft > 0 then t.(timeLeft := t.timeLeft - 1)
    else if t.timeLeft == 0 && t.isActive then t.(isActive := false, showMoodAfter := true)
    else t
  }

  /** `n` ticks in a row. */
  function TickedTimes(t: TimerState, n: nat): TimerState
    decreases n
  {
    if n == 0 then t else TickedTimes(Ticked(t), n - 1)
  }

  /** A running timer with `s` seconds left is still running, at zero, after
      `s` ticks, and one more tick ends it and asks for the mood after. */
  lemma {:induction false} RunningTimerEnds(s: nat, show: bool)
    ensures TickedTimes(TimerState(true, s, show), s) == TimerState(true, 0, show)
    ensures TickedTimes(TimerState(true, s, show), s + 1) == TimerState(false, 0, true)
  {
    if s > 0 {
      RunningTimerEnds(s - 1, show);
    }
  }

  /** A paused timer never moves. */
  lemma {:induction false} PausedTimerStays(t: TimerState, n: nat)
    requires !t.isActive
    ensures TickedTimes(t, n) == t
  {
    if n > 0 {
      PausedTimerStays(t, n - 1);
    }
  }

  /** What `completeSession` records about the finished session. */
  datatype Completion = Completion(sessionType: string, durationMinutes: nat, moodBefore: int, moodAfter: int)

  class MeditationTimer {
    var selectedSession: Option<Session>
    var isActive: bool
    var timeLeft: int
    var moodBefore: int
    var moodAfter: int
    var showMoodAfter: bool

    function Timer(): TimerState
      reads this
    {
      TimerState(isActive, timeLeft, showMoodAfter)
    }

    /** The time left is never negative and both mood sliders stay on the 1-10 scale. */
    predicate Valid()
      reads this
    {
      timeLeft >= 0 && 1 <= moodBefore <= 10 && 1 <= moodAfter <= 10
    }

    constructor()
      ensures Valid()
      ensures selectedSession == None && !isActive && timeLeft == 0
      ensures moodBefore == 5 && moodAfter == 5 && !showMoodAfter
    {
      selectedSession := None;
      isActive := false;
      timeLeft := 0;
      moodBefore := 5;
      moodAfter := 5;
      showMoodAfter := false;
    }

    /** Choosing a session card: selects it and resets the mood before to 5. */
    method SelectSession(session: Session)
      requires Valid()
      modifies this
      ensures Valid()
      ensures selectedSession == Some(session) && moodBefore == 5
      ensures Timer() == old(Timer()) && moodAfter == old(moodAfter)
    {
      selectedSession := Some(session);
      moodBefore := 5;
    }

    /** The back button of the session screen. */
    method Deselect()
      requires Valid()
      modifies this
      ensures Valid()
      ensures selectedSession == None
      ensures Timer() == old(Timer()) && moodBefore == old(moodBefore) && moodAfter == old(moodAfter)
    {
      selectedSession := None;
    }

    /** `startSession`: runs the timer for the session's whole duration. */
    method StartSession(session: Session)
      requires Valid()
      modifies this
      ensures Valid()
      ensures selectedSession == Some(session)
      ensures Timer() == TimerState(true, session.duration * 60, false)
      ensures moodBefore == old(moodBefore) && moodAfter == old(moodAfter)
    {
      selectedSession := Some(session);
      timeLeft := session.duration * 60;
      isActive := true;
      showMoodAfter := false;
    }

    /** `pauseSession`: toggles between running and paused, nothing else. */
    method PauseSession()
      requires Valid()
      modifies this
      ensures Valid()
      ensures isActive == !old(isActive)
      ensures timeLeft == old(timeLeft) && showMoodAfter == old(showMoodAfter)
      ensures selectedSession == old(selectedSession)
      ensures moodBefore == old(moodBefore) && moodAfter == old(moodAfter)
    {
      isActive := !isActive;
    }

    /** `resetSession`: stops the timer and rewinds it to the selected
        session's full duration, or to zero with nothing selected. */
    method ResetSession()
      requires Valid()
      modifies this
      ensures Valid()
      ensures !isActive && !showMoodAfter
      ensures timeLeft == if old(selectedSession).Some? then old(selectedSession).value.duration * 60 else 0
      ensures selectedSession == old(selectedSession)
      ensures moodBefore == old(moodBefore) && moodAfter == old(moodAfter)
    {
      isActive := false;
      timeLeft := if selectedSession.Some? then selectedSession.value.duration * 60 else 0;
      showMoodAfter := false;
    }

    /** One second of the timer effect. */
    method Tick()
      requires Valid()
      modifies this
      ensures Valid()
      ensures Timer() == Ticked(old(Timer()))
      ensures selectedSession == old(selectedSession)
      ensures moodBefore == old(moodBefore) && moodAfter == old(moodAfter)
    {
      if isActive && timeLeft > 0 {
        timeLeft := timeLeft - 1;
      } else if timeLeft == 0 && isActive {
        isActive := false;
        showMoodAfter := true;
      }
    }

    /** The "before" slider, which offers 1 to 10. */
    method SetMoodBefore(value: int)
      requires Valid() && 1 <= value <= 10
      modifies this
      ensures Valid()
      ensures moodBefore == value
      ensures Timer() == old(Timer()) && selectedSession == old(selectedSession) && moodAfter == old(moodAfter)
    {
      moodBefore := value;
    }

    /** The "after" slider, which offers 1 to 10. */
    method SetMoodAfter(value: int)
      requires Valid() && 1 <= value <= 10
      modifies this
      ensures Valid()
      ensures moodAfter == value
      ensures Timer() == old(Timer()) && selectedSession == old(selectedSession) && moodBefore == old(moodBefore)
    {
      moodAfter := value;
    }

    /** `completeSession`: records the session and both moods, then leaves
        the session. It dereferences the selected session, so one must be selected. */
    method CompleteSession() returns (record: Completion)
      requires Valid() && selectedSession.Some?
      modifies this
      ensures Valid()
      ensures record == Completion(old(selectedSession).value.id, old(selectedSession).value.duration,
                                   old(moodBefore), old(moodAfter))
      ensures selectedSession == None && !showMoodAfter
      ensures isActive == old(isActive) && timeLeft == old(timeLeft)
      ensures moodBefore == old(moodBefore) && moodAfter == old(moodAfter)
    {
      record := Completion(selectedSession.value.id, selectedSession.value.duration, moodBefore, moodAfter);
      selectedSession := None;
      showMoodAfter := false;
    }
  }

  /** The "your mood improved by n points" note: shown only when the mood
      after is higher, and `n` is the gain. */
  function MoodGain(before: int, after: int): (r: Option<nat>)
    ensures r.Some? <==> after > before
    ensures r.Some? ==> before + r.value == after
  {
    if after > before then Some(after - before) else None
  }

  // ------------------------------------------------------------ formatTime

  /** `secs.toString().padStart(2, '0')` for `secs < 60`. */
  function TwoDigits(n: nat): (r: string)
    requires n < 60
    ensures |r| == 2 && IsDigit(r[0]) && IsDigit(r[1])
    ensures ParseDecimal(r) == n
  {
    DecimalRoundTrip(n);
    var d := NatToDecimal(n);
    if |d| < 2 then
      assert ParseDecimal(['0'] + d) == n by {
        assert (['0'] + d)[..1] == ['0'];
        assert (['0'] + d)[1..] == d;
        assert ParseDecimal(['0']) == 0;
      }
      ['0'] + d
    else
      assert |d| == 2;
      d
  }

  /** `formatTime`: whole minutes, a colon, and the remaining seconds as two digits. */
  function FormatTime(seconds: nat): (r: string)
    ensures |r| >= 4 && r[|r| - 3] == ':'
    ensures forall i :: 0 <= i < |r| - 3 ==> IsDigit(r[i])
    ensures IsDigit(r[|r| - 2]) && IsDigit(r[|r| - 1])
  {
    NatToDecimal(seconds / 60) + [':'] + TwoDigits(seconds % 60)
  }

  /** Reads `m:ss` back: minutes before the colon, seconds after it. */
  function ParseTime(t: string): nat
    requires |t| >= 4 && t[|t| - 3] == ':'
    requires forall i :: 0 <= i < |t| - 3 ==> IsDigit(t[i])
    requires IsDigit(t[|t| - 2]) && IsDigit(t[|t| - 1])
  {
    ParseDecimal(t[..|t| - 3]) * 60 + ParseDecimal(t[|t| - 2..])
  }

  /** The rendering loses nothing, and its seconds field is below 60. */
  lemma FormatTimeRoundTrip(seconds: nat)
    ensures ParseTime(FormatTime(seconds)) == seconds
    ensures var r := FormatTime(seconds); ParseDecimal(r[|r| - 2..]) < 60
  {
    var m := NatToDecimal(seconds / 60);
    var s := TwoDigits(seconds % 60);
    var r := FormatTime(seconds);
    assert r[..|r| - 3] == m;
    assert r[|r| - 2..] == s;
    DecimalRoundTrip(seconds / 60);
  }
}
