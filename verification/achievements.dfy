/** The achievement engine of src/lib/achievementSystem.ts: the fixed rule
    catalogue, the award loop over it, the `achievements` table it writes
    to, and the level derived from the points earned. */
module Achievements {
  import opened Domain
  import opened Statistics

  /** The `type` tag of a rule in the catalogue. */
  datatype RuleType = Streak | Milestone | FirstTime | MoodImprovement | Consistency

  /** The threshold a rule tests on the user's statistics. */
  datatype Condition =
    | TotalEntriesAtLeast(entries: nat)
    | JournalEntriesAtLeast(journals: nat)
    | CurrentStreakAtLeast(days: nat)
    | MoodImprovementAtLeast(gain: real)
    | AiInteractionsAtLeast(interactions: nat)
    | WeeklyConsistencyAtLeast(ratio: real)
    | AverageMoodAndStreakAtLeast(mood: real, streakDays: nat)

  function Holds(c: Condition, s: UserStats): bool
  {
    match c
    case TotalEntriesAtLeast(n) => s.totalEntries >= n
    case JournalEntriesAtLeast(n) => s.journalEntries >= n
    case CurrentStreakAtLeast(n) => s.currentStreak >= n
    case MoodImprovementAtLeast(g) => s.moodImprovement >= g
    case AiInteractionsAtLeast(n) => s.aiInteractions >= n
    case WeeklyConsistencyAtLeast(r) => s.weeklyConsistency >= r
    case AverageMoodAndStreakAtLeast(m, n) => s.averageMood >= m && s.currentStreak >= n
  }

  datatype Rule = Rule(
    id: string,
    ruleType: RuleType,
    title: string,
    description: string,
    icon: string,
    condition: Condition,
    points: nat)

  /** The ten rules, in the order the award loop visits them. */
  const Catalogue: seq<Rule> := [
    Rule("first_entry", FirstTime, "First Step", "Logged your first mood entry",
         "\U{1F331}", TotalEntriesAtLeast(1), 10),
    Rule("first_journal", FirstTime, "Opening Up", "Wrote your first journal entry",
         "\U{1F4DD}", JournalEntriesAtLeast(1), 15),
    Rule("week_streak", Streak, "Week Warrior", "7 days in a row of mood tracking",
         "\U{1F525}", CurrentStreakAtLeast(7), 50),
    Rule("month_streak", Streak, "Monthly Master", "30 days of consistent tracking",
         "\U{1F48E}", CurrentStreakAtLeast(30), 200),
    Rule("mood_improver", MoodImprovement, "Rising Star", "Improved average mood by 2 points",
         "\U{2B50}", MoodImprovementAtLeast(2.0), 75),
    Rule("ai_friend", Milestone, "AI Companion", "Had 10 conversations with AI",
         "\U{1F916}", AiInteractionsAtLeast(10), 30),
    Rule("journal_master", Milestone, "Reflection Master", "Written 25 journal entries",
         "\U{1F4DA}", JournalEntriesAtLeast(25), 100),
    Rule("consistency_king", Consistency, "Consistency Champion", "90% weekly consistency for a month",
         "\U{1F451}", WeeklyConsistencyAtLeast(0.9), 150),
    Rule("hundred_club", Milestone, "Century Club", "100 mood entries logged",
         "\U{1F4AF}", TotalEntriesAtLeast(100), 300),
    Rule("wellness_guru", Milestone, "Wellness Guru", "Maintained 8+ average mood for 2 weeks",
         "\U{1F9D8}", AverageMoodAndStreakAtLeast(8.0, 14), 250)
  ]

  function Ids(rules: seq<Rule>): seq<string>
  {
    if rules == [] then [] else Ids(rules[..|rules| - 1]) + [rules[|rules| - 1].id]
  }

  predicate DistinctIds(rules: seq<Rule>)
  {
    forall i, j :: 0 <= i < j < |rules| ==> rules[i].id != rules[j].id
  }

  /** No two rules of the catalogue share an id, so the id is a sound key
      for "already earned". */
  lemma CatalogueIdsDistinct()
    ensures DistinctIds(Catalogue)
    ensures forall r :: r in Catalogue ==> r.points > 0
  {
  }

  /** A row of the `achievements` table; `kind` is its `type` column, which
      the award loop fills with the rule id. */
  datatype Achievement = Achievement(
    id: nat,
    userId: string,
    kind: string,
    title: string,
    description: string,
    icon: string,
    points: int)

  /** The row stored for `rule` when the user earns it. */
  function RowFor(id: nat, userId: string, rule: Rule): Achievement
  {
    Achievement(id, userId, rule.id, rule.title, rule.description, rule.icon, rule.points)
  }

  /** The rows of one user, in table order (`.eq('user_id', userId)`). */
  function UserRows(rows: seq<Achievement>, userId: string): (r: seq<Achievement>)
    ensures forall a :: a in r <==> a in rows && a.userId == userId
  {
    if rows == [] then []
    else UserRows(rows[..|rows| - 1], userId)
         + (if rows[|rows| - 1].userId == userId then [rows[|rows| - 1]] else [])
  }

  /** Each of the user's rows is selected as many times as it is stored,
      every other row never. */
  lemma {:induction false} UserRowsCounts(rows: seq<Achievement>, userId: string)
    ensures forall a :: multiset(UserRows(rows, userId))[a]
                        == if a.userId == userId then multiset(rows)[a] else 0
  {
    if rows != [] {
      var init, last := rows[..|rows| - 1], rows[|rows| - 1];
      assert rows == init + [last];
      UserRowsCounts(init, userId);
    }
  }

  lemma {:induction false} UserRowsAppend(a: seq<Achievement>, b: seq<Achievement>, userId: string)
    ensures UserRows(a + b, userId) == UserRows(a, userId) + UserRows(b, userId)
    decreases |b|
  {
    if b == [] {
      assert a + b == a;
    } else {
      var init, last := b[..|b| - 1], b[|b| - 1];
      assert (a + b)[..|a + b| - 1] == a + init;
      UserRowsAppend(a, init, userId);
    }
  }

  /** The `type` of each row (`existingAchievements.map(a => a.type)`). */
  function Kinds(rows: seq<Achievement>): (r: seq<string>)
    ensures |r| == |rows|
    ensures forall i :: 0 <= i < |rows| ==> r[i] == rows[i].kind
  {
    if rows == [] then [] else Kinds(rows[..|rows| - 1]) + [rows[|rows| - 1].kind]
  }

  lemma {:induction false} KindsAppend(a: seq<Achievement>, b: seq<Achievement>)
    ensures Kinds(a + b) == Kinds(a) + Kinds(b)
  {
  }

  /** Whether the award loop grants `rule`. */
  predicate Grants(rule: Rule, existingIds: seq<string>, stats: UserStats, refused: set<string>)
  {
    rule.id !in existingIds && Holds(rule.condition, stats) && rule.id !in refused
  }

  /** The rules the award loop grants, in catalogue order: not yet earned,
      condition met, and accepted by the store. */
  function AwardedRules(rules: seq<Rule>, existingIds: seq<string>, stats: UserStats, refused: set<string>): seq<Rule>
  {
    if rules == [] then []
    else
      var last := rules[|rules| - 1];
      AwardedRules(rules[..|rules| - 1], existingIds, stats, refused)
      + (if Grants(last, existingIds, stats, refused) then [last] else [])
  }

  /** A rule is granted exactly when it is in the catalogue, not yet earned,
      its condition holds and its insert succeeds. */
  lemma {:induction false} AwardedRulesMembers(rules: seq<Rule>, existingIds: seq<string>, stats: UserStats, refused: set<string>)
    ensures forall r :: r in AwardedRules(rules, existingIds, stats, refused) <==>
      r in rules && Grants(r, existingIds, stats, refused)
  {
    if rules != [] {
      var init := rules[..|rules| - 1];
      assert rules == init + [rules[|rules| - 1]];
      AwardedRulesMembers(init, existingIds, stats, refused);
    }
  }

  lemma {:induction false} NoGrantsNoAwards(rules: seq<Rule>, existingIds: seq<string>, stats: UserStats, refused: set<string>)
    requires forall r :: r in rules ==> !Grants(r, existingIds, stats, refused)
    ensures AwardedRules(rules, existingIds, stats, refused) == []
  {
    if rules != [] {
      var init := rules[..|rules| - 1];
      assert forall r :: r in init ==> r in rules;
      NoGrantsNoAwards(init, existingIds, stats, refused);
    }
  }

  /** The granted rules keep the catalogue's order: they are the catalogue
      with some rules dropped, so ids stay distinct. */
  lemma {:induction false} AwardedRulesDistinct(rules: seq<Rule>, existingIds: seq<string>, stats: UserStats, refused: set<string>)
    requires DistinctIds(rules)
    ensures DistinctIds(AwardedRules(rules, existingIds, stats, refused))
    ensures |AwardedRules(rules, existingIds, stats, refused)| <= |rules|
  {
    if rules != [] {
      var init, last := rules[..|rules| - 1], rules[|rules| - 1];
      AwardedRulesDistinct(init, existingIds, stats, refused);
      AwardedRulesMembers(init, existingIds, stats, refused);
      var prev := AwardedRules(init, existingIds, stats, refused);
      forall r | r in prev
        ensures r.id != last.id
      {
        var k :| 0 <= k < |init| && init[k] == r;
        assert rules[k] == r;
      }
    }
  }

  /** Once a run's awards are stored, a second run over the same statistics
      grants nothing. */
  lemma {:induction false} AwardingIsIdempotent(rules: seq<Rule>, existingIds: seq<string>, stats: UserStats, refused: set<string>)
    ensures var granted := AwardedRules(rules, existingIds, stats, refused);
      AwardedRules(rules, existingIds + Ids(granted), stats, refused) == []
  {
    var granted := AwardedRules(rules, existingIds, stats, refused);
    AwardedRulesMembers(rules, existingIds, stats, refused);
    IdsMembers(granted);
    forall r | r in rules
      ensures !Grants(r, existingIds + Ids(granted), stats, refused)
    {
      if r in granted {
        assert r.id in existingIds + Ids(granted);
      }
    }
    NoGrantsNoAwards(rules, existingIds + Ids(granted), stats, refused);
  }

  /** A rule granted once is not granted again once its row is stored,
      whatever statistics and insert failures a later run meets. */
  lemma AwardedNeverRegranted(rules: seq<Rule>, existingIds: seq<string>,
                              stats1: UserStats, refused1: set<string>,
                              stats2: UserStats, refused2: set<string>)
    ensures var granted := AwardedRules(rules, existingIds, stats1, refused1);
      forall r :: r in AwardedRules(rules, existingIds + Ids(granted), stats2, refused2) ==> r !in granted
  {
    var granted := AwardedRules(rules, existingIds, stats1, refused1);
    AwardedRulesMembers(rules, existingIds + Ids(granted), stats2, refused2);
    IdsMembers(granted);
  }

  lemma {:induction false} IdsMembers(rules: seq<Rule>)
    ensures forall r :: r in rules ==> r.id in Ids(rules)
  {
    if rules != [] {
      var init := rules[..|rules| - 1];
      assert rules == init + [rules[|rules| - 1]];
      IdsMembers(init);
    }
  }

  /** One more rule visited by the award loop. */
  lemma AwardedRulesStep(rules: seq<Rule>, i: nat, existingIds: seq<string>, stats: UserStats, refused: set<string>)
    requires i < |rules|
    ensures AwardedRules(rules[..i + 1], existingIds, stats, refused)
      == AwardedRules(rules[..i], existingIds, stats, refused)
         + (if Grants(rules[i], existingIds, stats, refused) then [rules[i]] else [])
  {
    assert rules[..i + 1][..i] == rules[..i];
  }

  /** The rows granted for `rules`, numbered from `firstId` on. */
  function Granted(userId: string, rules: seq<Rule>, firstId: nat): (r: seq<Achievement>)
    ensures |r| == |rules|
  {
    if rules == [] then []
    else Granted(userId, rules[..|rules| - 1], firstId) + [RowFor(firstId + |rules| - 1, userId, rules[|rules| - 1])]
  }

  /** Row `i` is the row for rule `i`, numbered `firstId + i`. */
  lemma {:induction false} GrantedRows(userId: string, rules: seq<Rule>, firstId: nat)
    ensures forall i :: 0 <= i < |rules| ==> Granted(userId, rules, firstId)[i] == RowFor(firstId + i, userId, rules[i])
  {
    if rules != [] {
      GrantedRows(userId, rules[..|rules| - 1], firstId);
    }
  }

  lemma GrantedStep(userId: string, rules: seq<Rule>, rule: Rule, firstId: nat)
    ensures Granted(userId, rules + [rule], firstId)
      == Granted(userId, rules, firstId) + [RowFor(firstId + |rules|, userId, rule)]
  {
  }

  /** The stored kinds of granted rows are the rule ids. */
  lemma GrantedKinds(userId: string, rules: seq<Rule>, firstId: nat)
    ensures Kinds(Granted(userId, rules, firstId)) == Ids(rules)
  {
  }

  lemma {:induction false} IdsShape(rules: seq<Rule>)
    ensures |Ids(rules)| == |rules|
    ensures forall i :: 0 <= i < |rules| ==> Ids(rules)[i] == rules[i].id
  {
    if rules != [] {
      IdsShape(rules[..|rules| - 1]);
    }
  }

  /** Granted rows all belong to the user. */
  lemma GrantedUserRows(userId: string, rules: seq<Rule>, firstId: nat)
    ensures UserRows(Granted(userId, rules, firstId), userId) == Granted(userId, rules, firstId)
  {
  }

  /** Sum of the `points` of the rows. */
  function PointsSum(rows: seq<Achievement>): int
  {
    if rows == [] then 0 else PointsSum(rows[..|rows| - 1]) + rows[|rows| - 1].points
  }

  lemma {:induction false} PointsSumAppend(a: seq<Achievement>, b: seq<Achievement>)
    ensures PointsSum(a + b) == PointsSum(a) + PointsSum(b)
    decreases |b|
  {
    if b == [] {
      assert a + b == a;
    } else {
      var init := b[..|b| - 1];
      assert (a + b)[..|a + b| - 1] == a + init;
      PointsSumAppend(a, init);
    }
  }

  lemma {:induction false} GrantedPointsNonNegative(userId: string, rules: seq<Rule>, firstId: nat)
    ensures PointsSum(Granted(userId, rules, firstId)) >= 0
  {
    if rules != [] {
      var g := Granted(userId, rules, firstId);
      assert g[..|g| - 1] == Granted(userId, rules[..|rules| - 1], firstId);
      GrantedPointsNonNegative(userId, rules[..|rules| - 1], firstId);
    }
  }

  /** The result of `getUserLevel`. */
  datatype Level = Level(level: int, points: int, nextLevelPoints: int)

  /** The level reached with `points` points: one level per hundred points. */
  function LevelFor(points: int): (r: Level)
    ensures r.points == points
    ensures r.nextLevelPoints == 100 * r.level
    ensures r.nextLevelPoints - 100 <= points < r.nextLevelPoints
    ensures points >= 0 ==> r.level >= 1
  {
    var level := points / 100 + 1;
    Level(level, points, level * 100)
  }

  /** More points never mean a lower level. */
  lemma LevelMonotone(p: int, q: int)
    requires p <= q
    ensures LevelFor(p).level <= LevelFor(q).level
  {
  }

  /** The `achievements` table as the engine sees it. `refused` holds the
      rule ids whose insert the store rejects, `readFails` whether reading
      the table fails; the engine handles both. */
  class AchievementTable {
    var rows: seq<Achievement>
    var nextId: nat
    var refused: set<string>
    var readFails: bool

    constructor(rows: seq<Achievement>, nextId: nat, refused: set<string>, readFails: bool)
      ensures this.rows == rows && this.nextId == nextId
      ensures this.refused == refused && this.readFails == readFails
    {
      this.rows := rows;
      this.nextId := nextId;
      this.refused := refused;
      this.readFails := readFails;
    }

    /** `getUserAchievements`: the user's rows, or none when the read fails. */
    function UserAchievements(userId: string): (r: seq<Achievement>)
      reads this
      ensures readFails ==> r == []
      ensures forall a :: a in r ==> a in rows && a.userId == userId
      ensures !readFails ==> forall a :: a in rows && a.userId == userId ==> a in r
      ensures !readFails ==>
        forall a :: multiset(r)[a] == (if a.userId == userId then multiset(rows)[a] else 0)
    {
      if readFails then []
      else
        UserRowsCounts(rows, userId);
        UserRows(rows, userId)
    }

    /** `getUserLevel`: the level for the points of the rows the read returns. */
    function GetUserLevel(userId: string): (r: Level)
      reads this
      ensures r.points == PointsSum(UserAchievements(userId))
      ensures readFails ==> r == Level(1, 0, 100)
      ensures r == LevelFor(r.points)
    {
      LevelFor(PointsSum(UserAchievements(userId)))
    }

    /** `awardAchievement`: inserts the row for `rule`, or reports failure
      (the caught error) with the table unchanged. */
    method AwardAchievement(userId: string, rule: Rule) returns (a: Option<Achievement>)
      modifies this
      ensures rule.id in refused ==> a == None && rows == old(rows) && nextId == old(nextId)
      ensures rule.id !in refused ==>
        && a == Some(RowFor(old(nextId), userId, rule))
        && rows == old(rows) + [a.value]
        && nextId == old(nextId) + 1
      ensures refused == old(refused) && readFails == old(readFails)
    {
      if rule.id in refused {
        return None;
      }
      var row := RowFor(nextId, userId, rule);
      rows := rows + [row];
      nextId := nextId + 1;
      a := Some(row);
    }

    /** The loop of `checkAndAwardAchievements` over `rules`: grants, in
        order, each rule not yet earned whose condition holds, skipping the
        inserts that fail. */
    method AwardRules(userId: string, rules: seq<Rule>, existingIds: seq<string>, stats: UserStats)
      returns (newAchievements: seq<Achievement>)
      modifies this
      ensures newAchievements == Granted(userId, AwardedRules(rules, existingIds, stats, refused), old(nextId))
      ensures rows == old(rows) + newAchievements
      ensures nextId == old(nextId) + |newAchievements|
      ensures refused == old(refused) && readFails == old(readFails)
    {
      newAchievements := [];
      var i := 0;
      while i < |rules|
        invariant 0 <= i <= |rules|
        invariant newAchievements == Granted(userId, AwardedRules(rules[..i], existingIds, stats, refused), old(nextId))
        invariant rows == old(rows) + newAchievements
        invariant nextId == old(nextId) + |newAchievements|
        invariant refused == old(refused) && readFails == old(readFails)
      {
        var rule := rules[i];
        ghost var before := AwardedRules(rules[..i], existingIds, stats, refused);
        AwardedRulesStep(rules, i, existingIds, stats, refused);
        GrantedStep(userId, before, rule, old(nextId));
        assert before + [] == before;
        if rule.id !in existingIds && Holds(rule.condition, stats) {
          var achievement := AwardAchievement(userId, rule);
          if achievement.Some? {
            newAchievements := newAchievements + [achievement.value];
          }
        }
        i := i + 1;
      }
      assert rules[..i] == rules;
    }

    /** `checkAndAwardAchievements` for the user whose logs are `logs`, at
        clock reading `now`: the statistics of the logs, the kinds the user
        already holds, then the award loop over the catalogue. */
    method CheckAndAwardAchievements(userId: string, logs: seq<MoodLog>, now: int)
      returns (newAchievements: seq<Achievement>)
      modifies this
      ensures newAchievements == Granted(userId,
        AwardedRules(Catalogue, Kinds(old(UserAchievements(userId))), StatsOf(logs, now), refused),
        old(nextId))
      ensures rows == old(rows) + newAchievements
      ensures nextId == old(nextId) + |newAchievements|
      ensures refused == old(refused) && readFails == old(readFails)
    {
      var copy := new MoodLog[|logs|](i requires 0 <= i < |logs| => logs[i]);
      assert copy[..] == logs;
      var userStats := GetUserStats(copy, now);
      var existingIds := Kinds(UserAchievements(userId));
      newAchievements := AwardRules(userId, Catalogue, existingIds, userStats);
    }
  }

  /** When the table's read fails, `CheckAndAwardAchievements` sees no
      existing types, so every catalogue rule the user already holds whose
      condition holds and whose insert succeeds is granted a second time. */
  lemma FailedReadRegrants(table: AchievementTable, userId: string, stats: UserStats)
    requires table.readFails
    ensures forall r :: (r in Catalogue && r.id in Kinds(UserRows(table.rows, userId))
                         && Holds(r.condition, stats) && r.id !in table.refused)
                        ==> r in AwardedRules(Catalogue, Kinds(table.UserAchievements(userId)), stats, table.refused)
  {
    assert Kinds(table.UserAchievements(userId)) == [];
    AwardedRulesMembers(Catalogue, [], stats, table.refused);
  }

  /** After a run whose read succeeded, the user's stored kinds include every
      granted rule, so a second run over the same statistics grants nothing. */
  lemma SecondRunGrantsNothing(rows: seq<Achievement>, userId: string, stats: UserStats, refused: set<string>, firstId: nat)
    ensures var existing := Kinds(UserRows(rows, userId));
      var granted := AwardedRules(Catalogue, existing, stats, refused);
      var after := rows + Granted(userId, granted, firstId);
      AwardedRules(Catalogue, Kinds(UserRows(after, userId)), stats, refused) == []
  {
    var existing := Kinds(UserRows(rows, userId));
    var granted := AwardedRules(Catalogue, existing, stats, refused);
    var g := Granted(userId, granted, firstId);
    UserRowsAppend(rows, g, userId);
    GrantedUserRows(userId, granted, firstId);
    KindsAppend(UserRows(rows, userId), g);
    GrantedKinds(userId, granted, firstId);
    AwardingIsIdempotent(Catalogue, existing, stats, refused);
  }

  /** After a run whose read succeeded, a later run whose read also succeeds
      grants none of the rules the first run granted, whatever its
      statistics and insert failures. */
  lemma LaterRunNeverRegrants(rows: seq<Achievement>, userId: string, rules: seq<Rule>,
                              stats1: UserStats, refused1: set<string>,
                              stats2: UserStats, refused2: set<string>, firstId: nat)
    ensures var granted := AwardedRules(rules, Kinds(UserRows(rows, userId)), stats1, refused1);
      var after := rows + Granted(userId, granted, firstId);
      forall r :: r in AwardedRules(rules, Kinds(UserRows(after, userId)), stats2, refused2) ==> r !in granted
  {
    var existing := Kinds(UserRows(rows, userId));
    var granted := AwardedRules(rules, existing, stats1, refused1);
    var g := Granted(userId, granted, firstId);
    UserRowsAppend(rows, g, userId);
    GrantedUserRows(userId, granted, firstId);
    KindsAppend(UserRows(rows, userId), g);
    GrantedKinds(userId, granted, firstId);
    AwardedNeverRegranted(rules, existing, stats1, refused1, stats2, refused2);
  }

  /** Awards only add points: the user's level never drops after a run. */
  lemma AwardingNeverLowersLevel(rows: seq<Achievement>, userId: string, rules: seq<Rule>, firstId: nat)
    ensures PointsSum(UserRows(rows, userId)) <= PointsSum(UserRows(rows + Granted(userId, rules, firstId), userId))
    ensures LevelFor(PointsSum(UserRows(rows, userId))).level
      <= LevelFor(PointsSum(UserRows(rows + Granted(userId, rules, firstId), userId))).level
  {
    var g := Granted(userId, rules, firstId);
    UserRowsAppend(rows, g, userId);
    GrantedUserRows(userId, rules, firstId);
    PointsSumAppend(UserRows(rows, userId), g);
    GrantedPointsNonNegative(userId, rules, firstId);
    LevelMonotone(PointsSum(UserRows(rows, userId)), PointsSum(UserRows(rows + g, userId)));
  }

  /** An empty history earns nothing: no rule of the catalogue holds for the all-zero summary. */
  lemma NothingForEmptyHistory(existingIds: seq<string>, refused: set<string>, now: int)
    ensures AwardedRules(Catalogue, existingIds, StatsOf([], now), refused) == []
  {
    NoGrantsNoAwards(Catalogue, existingIds, ZeroStats, refused);
  }
}
