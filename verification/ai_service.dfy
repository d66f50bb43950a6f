/** The response logic of src/lib/aiService.ts: emergency keyword detection,
    the choice of a response category, the fixed response tables with their
    fallbacks, and `processAIRequest`'s choice between the emergency reply,
    the webhook reply and the locally built reply. */
module AIService {
  import opened Domain
  import opened Text

  /** A request as the form sends it; absent optional fields are `None`. */
  datatype AIRequest = AIRequest(
    mood: int,
    stressLevel: string,
    journalEntry: Option<string>,
    userPersona: Option<string>)

  datatype AIResponse = AIResponse(
    response: string,
    copingStrategies: seq<string>,
    emergencyDetected: bool,
    confidenceScore: real,
    followUpQuestions: seq<string>,
    meditationSuggestion: Option<string>,
    breathingExercise: Option<string>)

  // ------------------------------------------------------------ emergency

  const EmergencyKeywords: seq<string> := [
    "suicide", "kill myself", "end it all", "hurt myself", "self harm",
    "want to die", "no point living", "better off dead", "harm myself"
  ]

  /** Some keyword of `keywords` occurs in `text` (`keywords.some(k => text.includes(k))`). */
  function AnyOccurs(text: string, keywords: seq<string>): (b: bool)
    ensures b <==> exists k :: k in keywords && Contains(text, k)
  {
    if keywords == [] then false
    else Contains(text, keywords[0]) || AnyOccurs(text, keywords[1..])
  }

  /** `detectEmergency`: some keyword occurs in the lower-cased text. */
  function DetectEmergency(text: string): (b: bool)
    ensures b <==> exists k :: k in EmergencyKeywords && Contains(ToLower(text), k)
  {
    AnyOccurs(ToLower(text), EmergencyKeywords)
  }

  /** Detection ignores the case of the letters. */
  lemma DetectEmergencyIgnoresCase(text: string)
    ensures DetectEmergency(ToLower(text)) == DetectEmergency(text)
  {
    ToLowerIdempotent(text);
  }

  /** A keyword surrounded by any other text is still detected. */
  lemma DetectEmergencyInContext(before: string, text: string, after: string)
    requires DetectEmergency(text)
    ensures DetectEmergency(before + text + after)
  {
    var k :| k in EmergencyKeywords && Contains(ToLower(text), k);
    ToLowerAppend(before + text, after);
    ToLowerAppend(before, text);
    ContainsInContext(ToLower(before), ToLower(text), ToLower(after), k);
  }

  /** Every keyword, written as it is listed, is detected. */
  lemma KeywordsAreDetected(i: nat)
    requires i < |EmergencyKeywords|
    ensures DetectEmergency(EmergencyKeywords[i])
  {
    var k := EmergencyKeywords[i];
    assert ToLower(k) == k;
    assert OccursAt(k, k, 0);
    assert Contains(ToLower(k), k);
    assert k in EmergencyKeywords;
  }

  /** A journal entry that JavaScript treats as present and that holds a keyword. */
  predicate EmergencyIn(request: AIRequest)
  {
    HasText(request.journalEntry) && DetectEmergency(request.journalEntry.value)
  }

  // ------------------------------------------------------------- category

  /** The category `getLocalAIResponse` answers in. */
  function Category(mood: int, stress: string): (c: string)
    ensures c == "support" <==> mood <= 3 || stress == "high"
    ensures c == "celebrate" <==> mood > 3 && stress == "low" && mood >= 8
    ensures c == "encourage" <==> mood > 3 && stress != "high" && !(mood >= 8 && stress == "low") && mood >= 6
    ensures c == "neutral" <==> 3 < mood < 6 && stress != "high"
  {
    if mood <= 3 || stress == "high" then "support"
    else if mood >= 8 && stress == "low" then "celebrate"
    else if mood >= 6 then "encourage"
    else "neutral"
  }

  // --------------------------------------------------------------- tables

  const TherapistSupport: seq<string> := [
    "I hear that you're going through a difficult time right now. It's completely valid to feel this way, and I want you to know that these feelings are temporary.",
    "Thank you for sharing this with me. It takes courage to acknowledge when we're struggling. Let's work through this together.",
    "Your feelings are important and deserve attention. What you're experiencing is real, and there are ways we can help you feel better."
  ]

  const TherapistEncourage: seq<string> := [
    "It sounds like you're managing things well despite some challenges. That shows real resilience on your part.",
    "I notice you're maintaining a balanced perspective even when things aren't perfect. That's a valuable skill.",
    "You're doing better than you might realize. Sometimes we need to pause and acknowledge our progress."
  ]

  const TherapistCelebrate: seq<string> := [
    "It's wonderful to hear that you're feeling so positive! This is a great time to reflect on what's contributing to this good feeling.",
    "Your positive energy is evident, and it's beautiful to witness. What do you think is working well for you right now?",
    "This is a moment to savor. High points like these can teach us a lot about what brings us joy and peace."
  ]

  const TherapistNeutral: seq<string> := [
    "Thank you for checking in today. How would you like to use our time together?",
    "I'm here to listen and support you. What's on your mind today?",
    "Every day brings its own experiences. What would be most helpful to explore right now?"
  ]

  const CoachSupport: seq<string> := [
    "Champions face tough moments - that's what makes the victories so sweet. You've got the strength to push through this.",
    "This is your training ground. Every challenge you face is building your mental muscle for bigger wins ahead.",
    "I see a fighter in you. Let's turn this struggle into your comeback story. What's one small step you can take right now?"
  ]

  const CoachEncourage: seq<string> := [
    "You're in the game and playing well! Keep that momentum going - you're closer to your breakthrough than you think.",
    "I love seeing this steady progress. You're building something great, one day at a time.",
    "This is exactly the kind of consistency that leads to major wins. Stay focused on your goals!"
  ]

  const CoachCelebrate: seq<string> := [
    "YES! This is what I'm talking about! You're absolutely crushing it right now - soak in this victory!",
    "Look at you go! This high energy and positive mindset is your secret weapon. How can we bottle this feeling?",
    "You're on fire! This is the energy that moves mountains. What big dreams are calling your name right now?"
  ]

  const CoachNeutral: seq<string> := [
    "Ready to level up today? I'm here to help you unlock your potential.",
    "Every day is a new opportunity to grow stronger. What's your focus today?",
    "You've got this! What challenge are we tackling together today?"
  ]

  const SpiritualSupport: seq<string> := [
    "In this moment of difficulty, remember that you are held by something greater than yourself. This pain is not your final destination.",
    "The universe has a way of using our darkest moments to prepare us for our greatest light. Trust in the process, even when it's hard to see.",
    "Your soul is stronger than any temporary storm. Breathe deeply and connect with the peace that exists within you, always."
  ]

  const SpiritualEncourage: seq<string> := [
    "I sense a beautiful balance in your energy today. You're learning to dance with life's rhythms with grace.",
    "There's a quiet wisdom in how you're navigating this journey. Trust your inner guidance - it knows the way.",
    "Your spirit is growing stronger through both the challenges and the calm moments. This is sacred work you're doing."
  ]

  const SpiritualCelebrate: seq<string> := [
    "Your light is shining so brightly today! This joy you're feeling is your soul's natural state - remember this feeling.",
    "What a beautiful reminder of the abundance that flows through you when you're aligned with your highest self.",
    "This radiant energy you're experiencing is a gift not just to you, but to everyone whose life you touch. Shine on!"
  ]

  const SpiritualNeutral: seq<string> := [
    "Welcome to this sacred space of reflection. What is your heart calling you to explore today?",
    "In this moment of stillness, what wisdom is trying to emerge from within you?",
    "You are exactly where you need to be. What would serve your highest good right now?"
  ]

  const FriendSupport: seq<string> := [
    "Hey, I'm really glad you felt comfortable sharing this with me. You don't have to go through this alone - I'm here for you.",
    "That sounds really tough, and I want you to know that what you're feeling makes total sense given what you're dealing with.",
    "I care about you, and I can see you're hurting right now. Let's figure out some ways to help you feel a bit better, okay?"
  ]

  const FriendEncourage: seq<string> := [
    "You know what? I think you're handling this really well. It might not feel like it, but you're stronger than you give yourself credit for.",
    "I've been thinking about how much you've grown lately. Even on the harder days, you keep showing up, and that means something.",
    "You're doing great, honestly. Life isn't always easy, but you're navigating it with such grace."
  ]

  const FriendCelebrate: seq<string> := [
    "Oh my gosh, I LOVE seeing you this happy! Your energy is absolutely contagious right now - tell me everything!",
    "This is amazing! You deserve all this good stuff that's happening. I'm so happy for you!",
    "YES! This is the energy I love to see from you! You're absolutely glowing right now!"
  ]

  const FriendNeutral: seq<string> := [
    "Hey there! How's your day going? I'm here if you want to chat about anything.",
    "What's up? I'm all ears if you want to share what's on your mind.",
    "Good to see you! What's been happening in your world lately?"
  ]

  const SupportQuestions: seq<string> := [
    "What's one small thing that might bring you a moment of peace today?",
    "Who in your life makes you feel supported and understood?",
    "What has helped you get through difficult times before?"
  ]

  const EncourageQuestions: seq<string> := [
    "What's one thing you're proud of about how you're handling things?",
    "What positive changes have you noticed in yourself lately?",
    "What are you looking forward to in the coming days?"
  ]

  const CelebrateQuestions: seq<string> := [
    "What do you think is contributing most to this positive feeling?",
    "How can you carry this energy into the rest of your week?",
    "What would you like to do to honor this good moment?"
  ]

  const NeutralQuestions: seq<string> := [
    "What's been on your mind lately?",
    "How would you like to focus your energy today?",
    "What would make today feel meaningful for you?"
  ]

  const GroundingStrategies: seq<string> := [
    "Try the 5-4-3-2-1 grounding technique: 5 things you see, 4 you can touch, 3 you hear, 2 you smell, 1 you taste",
    "Practice deep breathing: 4 counts in, hold for 4, out for 6",
    "Take a 10-minute walk outside if possible",
    "Write down 3 things you're grateful for today"
  ]

  const RelaxationStrategies: seq<string> := [
    "Try progressive muscle relaxation",
    "Listen to calming music or nature sounds",
    "Do some gentle stretching or yoga",
    "Call a friend or family member"
  ]

  const UpliftStrategies: seq<string> := [
    "Engage in a creative activity you enjoy",
    "Plan something fun for later this week",
    "Share your positive energy with someone else",
    "Reflect on what's working well in your life"
  ]

  /** `responses[persona]?.[category]` over the four personas and four categories. */
  function PersonaResponses(persona: string, category: string): Option<seq<string>>
  {
    if persona == "therapist" then
      ByCategory(category, TherapistSupport, TherapistEncourage, TherapistCelebrate, TherapistNeutral)
    else if persona == "coach" then
      ByCategory(category, CoachSupport, CoachEncourage, CoachCelebrate, CoachNeutral)
    else if persona == "spiritual" then
      ByCategory(category, SpiritualSupport, SpiritualEncourage, SpiritualCelebrate, SpiritualNeutral)
    else if persona == "friend" then
      ByCategory(category, FriendSupport, FriendEncourage, FriendCelebrate, FriendNeutral)
    else None
  }

  function ByCategory<T>(category: string, support: T, encourage: T, celebrate: T, neutral: T): Option<T>
  {
    if category == "support" then Some(support)
    else if category == "encourage" then Some(encourage)
    else if category == "celebrate" then Some(celebrate)
    else if category == "neutral" then Some(neutral)
    else None
  }

  predicate KnownPersona(persona: string)
  {
    persona == "therapist" || persona == "coach" || persona == "spiritual" || persona == "friend"
  }

  predicate KnownCategory(category: string)
  {
    category == "support" || category == "encourage" || category == "celebrate" || category == "neutral"
  }

  /** `getResponsesByPersona`: three candidate replies, the therapist's
      neutral ones when the persona or the category is not in the table. */
  function GetResponsesByPersona(persona: string, category: string): (r: seq<string>)
    ensures |r| == 3
    ensures !KnownPersona(persona) || !KnownCategory(category) ==> r == TherapistNeutral
    ensures KnownPersona(persona) && KnownCategory(category) ==> PersonaResponses(persona, category) == Some(r)
  {
    var found := PersonaResponses(persona, category);
    if found.Some? then found.value else TherapistNeutral
  }

  /** `getFollowUpQuestions`: three questions, the neutral ones for an unknown category. */
  function GetFollowUpQuestions(category: string): (r: seq<string>)
    ensures |r| == 3
    ensures !KnownCategory(category) ==> r == NeutralQuestions
    ensures KnownCategory(category) ==>
      ByCategory(category, SupportQuestions, EncourageQuestions, CelebrateQuestions, NeutralQuestions) == Some(r)
  {
    var found := ByCategory(category, SupportQuestions, EncourageQuestions, CelebrateQuestions, NeutralQuestions);
    if found.Some? then found.value else NeutralQuestions
  }

  /** `suggestions[stress] || suggestions.medium` over a table keyed by stress level. */
  function ByStress(stress: string, high: string, medium: string, low: string): (r: string)
    ensures !KnownStress(stress) ==> r == medium
    ensures stress == "high" ==> r == high
    ensures stress == "low" ==> r == low
    ensures stress == "medium" ==> r == medium
  {
    if stress == "high" then high else if stress == "low" then low else medium
  }

  const MeditationForHigh := "Try a 5-minute loving-kindness meditation: Start by sending love to yourself, then extend it to loved ones, neutral people, difficult people, and finally all beings."
  const MeditationForMedium := "Practice a 10-minute mindfulness meditation: Focus on your breath and gently return attention to breathing whenever your mind wanders."
  const MeditationForLow := "Enjoy a 15-minute gratitude meditation: Reflect on things you're thankful for, allowing feelings of appreciation to fill your heart."

  const BreathingForHigh := "4-7-8 Breathing: Inhale for 4 counts, hold for 7, exhale for 8. Repeat 4 times. This activates your parasympathetic nervous system."
  const BreathingForMedium := "Box Breathing: Inhale for 4, hold for 4, exhale for 4, hold for 4. Repeat for 2-3 minutes. Used by Navy SEALs for stress management."
  const BreathingForLow := "Coherent Breathing: Breathe in and out for 5 counts each. This creates heart rate variability and promotes calm alertness."

  /** `getMeditationSuggestion`, falling back to the medium entry. */
  function GetMeditationSuggestion(stress: string): (r: string)
    ensures !KnownStress(stress) ==> r == MeditationForMedium
  {
    ByStress(stress, MeditationForHigh, MeditationForMedium, MeditationForLow)
  }

  /** `getBreathingExercise`, falling back to the medium entry. */
  function GetBreathingExercise(stress: string): (r: string)
    ensures !KnownStress(stress) ==> r == BreathingForMedium
  {
    ByStress(stress, BreathingForHigh, BreathingForMedium, BreathingForLow)
  }

  // ------------------------------------------------------ coping strategies

  /** The first three strategies of the first block whose condition holds:
      grounding for low mood or high stress, relaxation for medium stress or
      a middling mood, uplifting activities for a good mood with low stress. */
  function TopStrategies(mood: int, stress: string): (r: seq<string>)
    ensures |r| <= 3
    ensures KnownStress(stress) ==> |r| == 3
    ensures mood <= 4 || stress == "high" ==> r == GroundingStrategies[..3]
    ensures mood > 4 && stress != "high" && (stress == "medium" || mood <= 7) ==> r == RelaxationStrategies[..3]
    ensures mood > 7 && stress == "low" ==> r == UpliftStrategies[..3]
    ensures mood > 7 && !KnownStress(stress) ==> r == []
  {
    if mood <= 4 || stress == "high" then GroundingStrategies[..3]
    else if stress == "medium" || (4 <= mood <= 7) then RelaxationStrategies[..3]
    else if mood >= 7 && stress == "low" then UpliftStrategies[..3]
    else []
  }

  /** `getCopingStrategies`: pushes every block whose condition holds, then
      keeps the first three. */
  method GetCopingStrategies(mood: int, stress: string) returns (top: seq<string>)
    ensures top == TopStrategies(mood, stress)
  {
    var strategies: seq<string> := [];
    if mood <= 4 || stress == "high" {
      strategies := strategies + GroundingStrategies;
    }
    if stress == "medium" || (mood >= 4 && mood <= 7) {
      strategies := strategies + RelaxationStrategies;
    }
    if mood >= 7 && stress == "low" {
      strategies := strategies + UpliftStrategies;
    }
    top := if |strategies| <= 3 then strategies else strategies[..3];
  }

  // ------------------------------------------------------------ responses

  const EmergencyResponse := AIResponse(
    "I'm very concerned about what you've shared. You're not alone, and there are people who want to help. Please reach out to a crisis helpline: National Suicide Prevention Lifeline: 988 or Crisis Text Line: Text HOME to 741741. Your life has value, and there are people trained to support you through this difficult time.",
    ["Call 988 (National Suicide Prevention Lifeline) immediately", "Text HOME to 741741 (Crisis Text Line)", "Go to your nearest emergency room", "Call a trusted friend or family member to stay with you"],
    true,
    1.0,
    ["Do you have someone who can stay with you right now?", "Have you contacted a crisis helpline before?", "What has helped you feel safer in the past?"],
    Some("Focus on staying present and safe. Try counting your breaths: 1 on inhale, 2 on exhale, up to 10, then start over."),
    Some("Emergency grounding: Take slow, deep breaths while naming 5 things you can see around you right now."))

  /** `getLocalAIResponse`; `pick` is the index `selectRandomResponse` draws
      from the three candidates. */
  function LocalResponse(request: AIRequest, pick: nat): (r: AIResponse)
    requires pick < 3
    ensures !r.emergencyDetected && r.confidenceScore == 0.85
    ensures var category := Category(request.mood, request.stressLevel);
      var persona := if request.userPersona.Some? then request.userPersona.value else "therapist";
      && r.response in GetResponsesByPersona(persona, category)
      && r.followUpQuestions == GetFollowUpQuestions(category)
      && r.copingStrategies == TopStrategies(request.mood, request.stressLevel)
      && r.meditationSuggestion == Some(GetMeditationSuggestion(request.stressLevel))
      && r.breathingExercise == Some(GetBreathingExercise(request.stressLevel))
  {
    var category := Category(request.mood, request.stressLevel);
    var persona := if request.userPersona.Some? then request.userPersona.value else "therapist";
    var responses := GetResponsesByPersona(persona, category);
    AIResponse(
      responses[pick],
      TopStrategies(request.mood, request.stressLevel),
      false,
      0.85,
      GetFollowUpQuestions(category),
      Some(GetMeditationSuggestion(request.stressLevel)),
      Some(GetBreathingExercise(request.stressLevel)))
  }

  /** The JSON the webhook answers with; missing fields are `None`. */
  datatype WebhookData = WebhookData(
    aiResponse: Option<string>,
    response: string,
    copingStrategies: Option<seq<string>>,
    confidenceScore: Option<real>,
    followUpQuestions: Option<seq<string>>,
    meditationSuggestion: Option<string>,
    breathingExercise: Option<string>)

  /** The reply `callN8nWebhook` builds from the webhook's JSON, with its defaults. */
  function FromWebhook(data: WebhookData): (r: AIResponse)
    ensures !r.emergencyDetected
    ensures r.confidenceScore != 0.0
    ensures data.confidenceScore.None? ==> r.confidenceScore == 0.8
  {
    AIResponse(
      if HasText(data.aiResponse) then data.aiResponse.value else data.response,
      if data.copingStrategies.Some? then data.copingStrategies.value else [],
      false,
      if data.confidenceScore.Some? && data.confidenceScore.value != 0.0 then data.confidenceScore.value else 0.8,
      if data.followUpQuestions.Some? then data.followUpQuestions.value else [],
      data.meditationSuggestion,
      data.breathingExercise)
  }

  /** `processAIRequest`. `webhook` is the webhook's answer, `None` when no
      webhook is configured or the call fails; `pick` is the random draw. */
  function ProcessAIRequest(request: AIRequest, webhook: Option<WebhookData>, pick: nat): (r: AIResponse)
    requires pick < 3
    ensures r.emergencyDetected <==> EmergencyIn(request)
    ensures EmergencyIn(request) ==> r == EmergencyResponse
    ensures !EmergencyIn(request) && webhook.Some? ==> r == FromWebhook(webhook.value)
    ensures !EmergencyIn(request) && webhook.None? ==> r == LocalResponse(request, pick)
    ensures !EmergencyIn(request) && webhook.None? ==> r.confidenceScore == 0.85
  {
    if EmergencyIn(request) then EmergencyResponse
    else if webhook.Some? then FromWebhook(webhook.value)
    else LocalResponse(request, pick)
  }
}
