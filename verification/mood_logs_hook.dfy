/** The `useMoodLogs` hook of src/hooks/useMoodLogs.ts: the list of the
    user's mood logs it holds, how fetching and adding change it, and the
    canned reply it attaches to a new log. */
module MoodLogsHook {
  import opened Domain
  import AIService

  const CalmReplies: seq<string> := [
    "It's wonderful that you're feeling calm and centered today. Keep nurturing this positive energy!",
    "Your peaceful state is a strength. Consider what's working well for you right now.",
    "Feeling good is something to celebrate. Take a moment to appreciate this feeling."
  ]

  const BalancedReplies: seq<string> := [
    "You're doing great by checking in with yourself. It's normal to have ups and downs.",
    "This balanced feeling shows your resilience. What small thing could make today even better?",
    "You're handling things well. Remember that it's okay to take breaks when you need them."
  ]

  const StrainedReplies: seq<string> := [
    "I hear that you're going through a challenging time. Take a deep breath - you're stronger than you know.",
    "Difficult moments are temporary. Try the 4-7-8 breathing technique: breathe in for 4, hold for 7, out for 8.",
    "You're not alone in this. Consider reaching out to someone you trust or trying a short mindfulness exercise."
  ]

  /** The reply category `getAIResponse` picks: "high" for a low mood or high
      stress, "low" for a good mood with low stress, "medium" otherwise. */
  function HookCategory(mood: int, stress: string): (c: string)
    ensures c == "high" <==> mood <= 4 || stress == "high"
    ensures c == "low" <==> mood >= 8 && stress == "low"
    ensures c == "medium" <==> !(mood <= 4 || stress == "high") && !(mood >= 8 && stress == "low")
  {
    var category := if mood >= 8 && stress == "low" then "low" else "medium";
    if mood <= 4 || stress == "high" then "high" else category
  }

  function RepliesFor(category: string): (r: seq<string>)
    ensures |r| == 3
  {
    if category == "low" then CalmReplies
    else if category == "high" then StrainedReplies
    else BalancedReplies
  }

  /** `getAIResponse`; `pick` is the index the random draw selects. */
  function GetAIResponse(mood: int, stress: string, pick: nat): (r: string)
    requires pick < 3
    ensures r in RepliesFor(HookCategory(mood, stress))
    ensures mood <= 4 || stress == "high" ==> r in StrainedReplies
    ensures mood >= 8 && stress == "low" ==> r in CalmReplies
  {
    RepliesFor(HookCategory(mood, stress))[pick]
  }

  /** The hook and the AI service classify alike except at mood 4: the
      service's "support" replies imply the hook's "high" ones, the two
      "good mood, low stress" categories coincide, and they part only when
      the mood is exactly 4 without high stress. */
  lemma CategoriesAgree(mood: int, stress: string)
    ensures AIService.Category(mood, stress) == "support" ==> HookCategory(mood, stress) == "high"
    ensures AIService.Category(mood, stress) == "celebrate" <==> HookCategory(mood, stress) == "low"
    ensures (HookCategory(mood, stress) == "high" && AIService.Category(mood, stress) != "support")
      <==> (mood == 4 && stress != "high")
  {
  }

  /** What `addMoodLog` returns: nothing without a user, null when the
      insert fails, the stored row otherwise. */
  datatype AddOutcome = NoUser | Failed | Added(log: MoodLog)

  /** What the store assigns to an inserted row: its id and creation time. */
  datatype Stored = Stored(id: string, createdAt: int)

  class MoodLogs {
    var userId: Option<string>
    var logs: seq<MoodLog>
    var loading: bool

    /** The hook's initial state: no logs, loading. */
    constructor(userId: Option<string>)
      ensures this.userId == userId && logs == [] && loading
    {
      this.userId := userId;
      logs := [];
      loading := true;
    }

    /** `fetchLogs`; `response` is the query's data, `None` on error or
        when no data came back. */
    method FetchLogs(response: Option<seq<MoodLog>>)
      modifies this
      ensures userId == old(userId)
      ensures !HasText(userId) ==> logs == old(logs) && loading == old(loading)
      ensures HasText(userId) ==> !loading
      ensures HasText(userId) && response.Some? ==> logs == response.value
      ensures response.None? ==> logs == old(logs)
    {
      if !HasText(userId) {
        return;
      }
      loading := true;
      if response.Some? {
        logs := response.value;
      }
      loading := false;
    }

    /** `addMoodLog`; `pick` is the reply drawn at random and `stored` what
        the insert returns, `None` on error. */
    method AddMoodLog(mood: int, stressLevel: string, journalEntry: Option<string>, pick: nat, stored: Option<Stored>)
      returns (outcome: AddOutcome)
      requires pick < 3
      modifies this
      ensures userId == old(userId) && loading == old(loading)
      ensures !HasText(userId) ==> outcome == NoUser && logs == old(logs)
      ensures HasText(userId) && stored.None? ==> outcome == Failed && logs == old(logs)
      ensures HasText(userId) && stored.Some? ==>
        && outcome.Added?
        && outcome.log == MoodLog(stored.value.id, userId.value, mood, stressLevel, journalEntry,
                                  Some(GetAIResponse(mood, stressLevel, pick)), stored.value.createdAt)
        && logs == [outcome.log] + old(logs)
    {
      if !HasText(userId) {
        return NoUser;
      }
      var aiResponse := GetAIResponse(mood, stressLevel, pick);
      if stored.None? {
        return Failed;
      }
      var data := MoodLog(stored.value.id, userId.value, mood, stressLevel, journalEntry,
                          Some(aiResponse), stored.value.createdAt);
      logs := [data] + logs;
      outcome := Added(data);
    }
  }
}
