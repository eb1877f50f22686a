/** Experience points, levels, streak badges and achievements: the tables of
    the gamification layer and the pure functions that read them. */
module Gamification {
  import opened Common

  // ----- rewards -----

  /** XP granted per point of Lucid Score gained between assessments. */
  const AssessmentImprovementXP: int := 50

  /** XP for completing an assessment, a daily check-in, and one AI exchange. */
  const CompleteAssessmentXP: int := 100
  const DailyCheckinXP: int := 20
  const AiConversationXP: int := 10

  // ----- levels -----

  datatype Level = Level(level: int, xpRequired: int, name: string)

  /** The ten levels in ascending order of the XP they require. */
  const Levels: seq<Level> := [
    Level(1, 0, "Awakening"),
    Level(2, 200, "Aware"),
    Level(3, 500, "Rising"),
    Level(4, 1000, "Focused"),
    Level(5, 2000, "Disciplined"),
    Level(6, 4000, "Integrated"),
    Level(7, 7500, "Elevated"),
    Level(8, 12000, "Mastering"),
    Level(9, 20000, "Transcendent"),
    Level(10, 35000, "Unlocked")
  ]

  /** Thresholds strictly increase along the table. */
  predicate Ascending(t: seq<Level>) {
    forall i, j :: 0 <= i < j < |t| ==> t[i].xpRequired < t[j].xpRequired
  }

  /** A level table as the lookup expects it: at least two rows, the first
      needing no XP, thresholds strictly increasing, and row `i` being level `i + 1`. */
  predicate WellFormedLevels(t: seq<Level>) {
    |t| >= 2 && t[0].xpRequired == 0 && Ascending(t)
    && forall i :: 0 <= i < |t| ==> t[i].level == i + 1
  }

  lemma LevelsWellFormed()
    ensures WellFormedLevels(Levels) && |Levels| == 10
  {
  }

  /** The highest row whose threshold `xp` reaches, found by scanning down from
      the top; row 0 when none is reached (negative XP). */
  function HighestReached(t: seq<Level>, xp: int): (k: nat)
    requires |t| > 0
    ensures k < |t|
    decreases |t|
  {
    if |t| == 1 || t[|t| - 1].xpRequired <= xp then |t| - 1
    else HighestReached(t[..|t| - 1], xp)
  }

  /** In an ascending table the row found is reached (unless it is row 0) and
      no higher row is. */
  lemma {:induction false} HighestReachedSpec(t: seq<Level>, xp: int)
    requires |t| > 0 && Ascending(t)
    ensures var k := HighestReached(t, xp);
            (k == 0 || t[k].xpRequired <= xp) && forall j :: k < j < |t| ==> xp < t[j].xpRequired
    decreases |t|
  {
    if |t| > 1 && t[|t| - 1].xpRequired > xp {
      var p := t[..|t| - 1];
      assert Ascending(p);
      HighestReachedSpec(p, xp);
    }
  }

  /** Any row that satisfies the characterisation is the one found. */
  lemma HighestReachedUnique(t: seq<Level>, xp: int, k: nat)
    requires |t| > 0 && Ascending(t) && k < |t|
    requires k == 0 || t[k].xpRequired <= xp
    requires forall j :: k < j < |t| ==> xp < t[j].xpRequired
    ensures HighestReached(t, xp) == k
  {
    HighestReachedSpec(t, xp);
  }

  /** More XP never means a lower row. */
  lemma HighestReachedMonotone(t: seq<Level>, xp1: int, xp2: int)
    requires |t| > 0 && Ascending(t) && xp1 <= xp2
    ensures HighestReached(t, xp1) <= HighestReached(t, xp2)
  {
    HighestReachedSpec(t, xp1);
    HighestReachedSpec(t, xp2);
  }

  /** Negative XP sits on the first level. */
  lemma NegativeXPIsFirstLevel(t: seq<Level>, xp: int)
    requires WellFormedLevels(t) && xp < 0
    ensures HighestReached(t, xp) == 0
  {
    HighestReachedSpec(t, xp);
  }

  /** The level number the level table assigns to `xp`. */
  function LevelOf(xp: int): int {
    Levels[HighestReached(Levels, xp)].level
  }

  /** Levels only go up as XP grows, and stay within 1..10. */
  lemma LevelOfMonotone(xp1: int, xp2: int)
    requires xp1 <= xp2
    ensures 1 <= LevelOf(xp1) <= LevelOf(xp2) <= 10
  {
    LevelsWellFormed();
    HighestReachedMonotone(Levels, xp1, xp2);
  }

  /** What the XP lookup reports. `progress` is the percentage of the way from
      the current level's threshold to the next one. */
  datatype LevelInfo = LevelInfo(level: int, name: string, currentXP: int,
                                 xpForCurrentLevel: int, xpForNextLevel: int, progress: real)

  /** Walks the table upwards and stops at the first threshold not reached;
      the result is the index of the last level reached (the first level when
      none is). */
  method ScanLevels(xp: int) returns (k: nat)
    ensures k < |Levels| && k == HighestReached(Levels, xp)
  {
    LevelsWellFormed();
    var i := 0;
    while i < |Levels|
      invariant 0 <= i <= |Levels|
      invariant forall j :: 0 <= j < i ==> Levels[j].xpRequired <= xp
    {
      if xp >= Levels[i].xpRequired {
        i := i + 1;
      } else {
        break;
      }
    }
    k := if i == 0 then 0 else i - 1;
    assert forall j :: k < j < |Levels| ==> xp < Levels[j].xpRequired by {
      assert i < |Levels| ==> xp < Levels[i].xpRequired;
    }
    HighestReachedUnique(Levels, xp, k);
  }

  /** The progress percentage clamped into [0, 100]; 100 when there is no
      next threshold to progress towards. Within a level it is exactly the
      share of the level's span already earned, times 100. */
  function ClampedProgress(inLevel: int, needed: int): (p: real)
    ensures 0.0 <= p <= 100.0
    ensures needed <= 0 ==> p == 100.0
    ensures needed > 0 && 0 <= inLevel <= needed ==> p == (inLevel as real / needed as real) * 100.0
    ensures needed > 0 && inLevel < needed ==> p < 100.0
    ensures needed > 0 && inLevel >= needed ==> p == 100.0
    ensures needed > 0 && inLevel < 0 ==> p == 0.0
  {
    var progress := if needed > 0 then (inLevel as real / needed as real) * 100.0 else 100.0;
    if needed > 0 then
      ProgressBelowFull(inLevel, needed);
      RealMin(100.0, RealMax(0.0, progress))
    else RealMin(100.0, RealMax(0.0, progress))
  }

  /** Looks up the level for `xp`: the last level reached, and the next level
      is the following row, or the same row at the top. Progress is clamped
      into [0, 100] and is 100 when there is no next level. */
  method GetLevelFromXP(xp: int) returns (r: LevelInfo)
    ensures var k := HighestReached(Levels, xp);
            r.level == Levels[k].level && r.name == Levels[k].name
            && r.xpForCurrentLevel == Levels[k].xpRequired
            && r.xpForNextLevel == Levels[if k + 1 < |Levels| then k + 1 else k].xpRequired
    ensures r.currentXP == xp
    ensures 1 <= r.level <= 10
    ensures xp < 0 ==> r.level == 1 && r.progress == 0.0
    ensures xp >= 0 ==> r.xpForCurrentLevel <= xp
    ensures r.level < 10 ==> xp < r.xpForNextLevel
    ensures 0.0 <= r.progress <= 100.0
    ensures r.level == 10 <==> r.progress == 100.0
    ensures xp >= 0 && r.level < 10 ==>
              r.progress == ((xp - r.xpForCurrentLevel) as real / (r.xpForNextLevel - r.xpForCurrentLevel) as real) * 100.0
  {
    LevelsWellFormed();
    var k := ScanLevels(xp);
    HighestReachedSpec(Levels, xp);
    var current := Levels[k];
    var next := Levels[if k + 1 < |Levels| then k + 1 else k];
    if xp < 0 {
      NegativeXPIsFirstLevel(Levels, xp);
    }
    var progress := ClampedProgress(xp - current.xpRequired, next.xpRequired - current.xpRequired);
    r := LevelInfo(current.level, current.name, xp, current.xpRequired, next.xpRequired, progress);
  }

  /** Short of the next threshold the raw progress is below 100. */
  lemma ProgressBelowFull(inLevel: int, needed: int)
    requires needed > 0
    ensures inLevel < needed ==> (inLevel as real / needed as real) * 100.0 < 100.0
    ensures inLevel < 0 ==> (inLevel as real / needed as real) * 100.0 < 0.0
    ensures 0 <= inLevel ==> 0.0 <= (inLevel as real / needed as real) * 100.0
    ensures needed <= inLevel ==> 100.0 <= (inLevel as real / needed as real) * 100.0
  {
    var q := inLevel as real / needed as real;
    assert q * needed as real == inLevel as real;
  }

  // ----- streak badges -----

  /** The four streak milestones in days. */
  const StreakMilestones: seq<int> := [7, 30, 90, 365]

  /** The badge icon: fire, lightning, diamond or crown. */
  datatype StreakEmoji = Fire | Lightning | Diamond | Crown

  datatype StreakBadge = StreakBadge(milestone: Option<int>, nextMilestone: Option<int>, emoji: StreakEmoji)

  /** The icon tier for a streak length. Below 7 days and from 7 to 29 days
      both show fire. */
  function EmojiFor(streak: int): StreakEmoji {
    if streak >= 365 then Crown
    else if streak >= 90 then Diamond
    else if streak >= 30 then Lightning
    else Fire
  }

  /** Walks the milestones upwards, stopping at the first not reached. The last
      milestone reached is the badge; the one after it (looked up by position,
      `null` past the end) is the next goal. */
  method GetStreakBadge(streak: int) returns (b: StreakBadge)
    ensures b.milestone.Some? <==> exists m :: m in StreakMilestones && m <= streak
    ensures b.milestone.Some? ==> b.milestone.value in StreakMilestones && b.milestone.value <= streak
                                  && forall m :: m in StreakMilestones && m <= streak ==> m <= b.milestone.value
    ensures b.nextMilestone.Some? <==> exists m :: m in StreakMilestones && m > streak
    ensures b.nextMilestone.Some? ==> b.nextMilestone.value in StreakMilestones && b.nextMilestone.value > streak
                                      && forall m :: m in StreakMilestones && m > streak ==> b.nextMilestone.value <= m
    ensures b.emoji == EmojiFor(streak)
  {
    var milestone: Option<int> := None;
    var nextMilestone: Option<int> := Some(StreakMilestones[0]);
    var i := 0;
    while i < |StreakMilestones|
      invariant 0 <= i <= |StreakMilestones|
      invariant forall j :: 0 <= j < i ==> StreakMilestones[j] <= streak
      invariant i == 0 ==> milestone == None && nextMilestone == Some(7)
      invariant i > 0 ==> milestone == Some(StreakMilestones[i - 1])
                          && nextMilestone == (if i < |StreakMilestones| then Some(StreakMilestones[i]) else None)
    {
      var m := StreakMilestones[i];
      if streak >= m {
        milestone := Some(m);
        var index := IndexOf(StreakMilestones, m);
        assert index == i;
        nextMilestone := if index + 1 < |StreakMilestones| then Some(StreakMilestones[index + 1]) else None;
        i := i + 1;
      } else {
        break;
      }
    }
    assert i < |StreakMilestones| ==> streak < StreakMilestones[i];
    if i > 0 {
      assert StreakMilestones[i - 1] in StreakMilestones;
    }
    if i < |StreakMilestones| {
      assert StreakMilestones[i] in StreakMilestones;
    }
    b := StreakBadge(milestone, nextMilestone, EmojiFor(streak));
  }

  /** The icon changes only when the streak crosses 30, 90 or 365 days. */
  lemma EmojiChangesOnlyAtTiers(s1: int, s2: int)
    requires s1 <= s2
    requires !(s1 < 30 <= s2) && !(s1 < 90 <= s2) && !(s1 < 365 <= s2)
    ensures EmojiFor(s1) == EmojiFor(s2)
  {
  }

  /** Crossing a tier always changes the icon. */
  lemma EmojiChangesAtEveryTier(s: int)
    requires s in {30, 90, 365}
    ensures EmojiFor(s - 1) != EmojiFor(s)
  {
  }

  // ----- achievements -----

  datatype UserStats = UserStats(totalXP: int, level: int, streak: int, postsCount: int,
                                 conversationsCount: int, assessmentsTaken: int, lucidScore: int,
                                 lucidScoreImprovement: int, challengesCompleted: int, daysActive: int)

  /** The unlock conditions the achievement table uses: a statistic reaching a bound. */
  datatype Condition =
    | AssessmentsAtLeast(n: int)
    | ConversationsAtLeast(n: int)
    | StreakAtLeast(n: int)
    | PostsAtLeast(n: int)
    | LevelAtLeast(n: int)
    | ImprovementAtLeast(n: int)
    | ChallengesAtLeast(n: int)
  {
    predicate Holds(s: UserStats) {
      match this
      case AssessmentsAtLeast(n) => s.assessmentsTaken >= n
      case ConversationsAtLeast(n) => s.conversationsCount >= n
      case StreakAtLeast(n) => s.streak >= n
      case PostsAtLeast(n) => s.postsCount >= n
      case LevelAtLeast(n) => s.level >= n
      case ImprovementAtLeast(n) => s.lucidScoreImprovement >= n
      case ChallengesAtLeast(n) => s.challengesCompleted >= n
    }
  }

  datatype Achievement = Achievement(id: string, name: string, xpReward: int, condition: Condition)

  /** The achievement table, in the order the source lists it. */
  const Achievements: seq<Achievement> := [
    Achievement("first-steps", "First Steps", 50, AssessmentsAtLeast(1)),
    Achievement("voice-found", "Voice Found", 25, ConversationsAtLeast(1)),
    Achievement("showing-up", "Showing Up", 100, StreakAtLeast(7)),
    Achievement("consistent", "Consistent", 250, StreakAtLeast(30)),
    Achievement("unbreakable", "Unbreakable", 500, StreakAtLeast(90)),
    Achievement("community-voice", "Community Voice", 50, PostsAtLeast(1)),
    Achievement("level-5", "Disciplined", 200, LevelAtLeast(5)),
    Achievement("level-10", "Unlocked", 1000, LevelAtLeast(10)),
    Achievement("growth", "Growth", 150, ImprovementAtLeast(10)),
    Achievement("challenger", "Challenger", 200, ChallengesAtLeast(5))
  ]

  /** An achievement is newly earned when it is not unlocked yet and its condition holds. */
  predicate Earned(a: Achievement, stats: UserStats, unlocked: seq<string>) {
    a.id !in unlocked && a.condition.Holds(stats)
  }

  /** The achievements of `table` newly earned, in table order. */
  function NewAchievements(table: seq<Achievement>, stats: UserStats, unlocked: seq<string>): (r: seq<Achievement>)
    ensures forall a :: a in r <==> a in table && Earned(a, stats, unlocked)
    ensures Subsequence(r, table)
    decreases |table|
  {
    if |table| == 0 then []
    else
      var rest := NewAchievements(table[1..], stats, unlocked);
      if Earned(table[0], stats, unlocked) then [table[0]] + rest else rest
  }

  /** Every earned entry of the table is reported as many times as the table
      lists it, and no other entry is reported. */
  lemma {:induction false} NewAchievementsCopies(table: seq<Achievement>, stats: UserStats, unlocked: seq<string>)
    ensures forall a :: multiset(NewAchievements(table, stats, unlocked))[a]
                        == if Earned(a, stats, unlocked) then multiset(table)[a] else 0
    decreases |table|
  {
    if |table| > 0 {
      NewAchievementsCopies(table[1..], stats, unlocked);
      assert table == [table[0]] + table[1..];
    }
  }

  /** `checkNewAchievements` against the fixed table. */
  function CheckNewAchievements(stats: UserStats, unlocked: seq<string>): (r: seq<Achievement>)
    ensures forall a :: a in r <==> a in Achievements && Earned(a, stats, unlocked)
    ensures forall a :: a in r ==> a.id !in unlocked
    ensures Subsequence(r, Achievements)
  {
    NewAchievements(Achievements, stats, unlocked)
  }

  function Ids(achievements: seq<Achievement>): (ids: seq<string>)
    ensures |ids| == |achievements| && forall i :: 0 <= i < |achievements| ==> ids[i] == achievements[i].id
  {
    if |achievements| == 0 then [] else [achievements[0].id] + Ids(achievements[1..])
  }

  /** Nothing is new when every achievement whose condition holds is already unlocked. */
  lemma {:induction false} NoneNewWhenCovered(table: seq<Achievement>, stats: UserStats, unlocked: seq<string>)
    requires forall a :: a in table && a.condition.Holds(stats) ==> a.id in unlocked
    ensures NewAchievements(table, stats, unlocked) == []
    decreases |table|
  {
    if |table| > 0 {
      assert forall a :: a in table[1..] ==> a in table;
      NoneNewWhenCovered(table[1..], stats, unlocked);
    }
  }

  /** Once everything reported is unlocked, asking again with the same
      statistics reports nothing. */
  lemma NothingNewAfterUnlocking(stats: UserStats, unlocked: seq<string>)
    ensures var r := CheckNewAchievements(stats, unlocked);
            CheckNewAchievements(stats, unlocked + Ids(r)) == []
  {
    var r := CheckNewAchievements(stats, unlocked);
    var u := unlocked + Ids(r);
    forall a | a in Achievements && a.condition.Holds(stats) ensures a.id in u {
      if a.id !in unlocked {
        var i :| 0 <= i < |r| && r[i] == a;
        assert Ids(r)[i] == a.id;
      }
    }
    NoneNewWhenCovered(Achievements, stats, u);
  }

  /** Unlocking more ids can only drop achievements from the report, never add. */
  lemma {:induction false} MoreUnlockedFewerNew(table: seq<Achievement>, stats: UserStats, u1: seq<string>, u2: seq<string>)
    requires forall id :: id in u1 ==> id in u2
    ensures Subsequence(NewAchievements(table, stats, u2), NewAchievements(table, stats, u1))
    decreases |table|
  {
    if |table| > 0 {
      MoreUnlockedFewerNew(table[1..], stats, u1, u2);
      var r1 := NewAchievements(table[1..], stats, u1);
      var r2 := NewAchievements(table[1..], stats, u2);
      if Earned(table[0], stats, u1) && !Earned(table[0], stats, u2) {
        SubsequenceDropHead(r2, table[0], r1);
      }
    }
  }

  // ----- score improvement -----

  /** XP for moving the Lucid Score from `oldScore` to `newScore`: 50 per point
      gained, nothing for a drop. */
  function CalculateScoreImprovementXP(oldScore: int, newScore: int): (xp: int)
    ensures xp >= 0 && xp % AssessmentImprovementXP == 0
    ensures xp == 0 <==> newScore <= oldScore
    ensures newScore > oldScore ==> xp / AssessmentImprovementXP == newScore - oldScore
  {
    var improvement := if newScore - oldScore > 0 then newScore - oldScore else 0;
    improvement * AssessmentImprovementXP
  }

  /** Improving in two rising steps earns the same as improving in one. */
  lemma ImprovementXPAdditive(a: int, b: int, c: int)
    requires a <= b <= c
    ensures CalculateScoreImprovementXP(a, c) == CalculateScoreImprovementXP(a, b) + CalculateScoreImprovementXP(b, c)
  {
  }

  /** A higher new score never earns less. */
  lemma ImprovementXPMonotone(base: int, n1: int, n2: int)
    requires n1 <= n2
    ensures CalculateScoreImprovementXP(base, n1) <= CalculateScoreImprovementXP(base, n2)
  {
  }

  // ----- level colours -----

  datatype LevelColor = Gray | Indigo | Purple | Gold {
    /** The hex code the source returns. */
    function Hex(): string {
      match this
      case Gray => "#A0A0A0"
      case Indigo => "#6366F1"
      case Purple => "#8B5CF6"
      case Gold => "#F59E0B"
    }

    function Rank(): nat {
      match this
      case Gray => 0
      case Indigo => 1
      case Purple => 2
      case Gold => 3
    }
  }

  /** The colour for a level: gray below 4, indigo from 4, purple from 7, gold from 10. */
  function GetLevelColor(level: int): (c: LevelColor)
    ensures c == Gold <==> level >= 10
    ensures c == Purple <==> 7 <= level < 10
    ensures c == Indigo <==> 4 <= level < 7
    ensures c == Gray <==> level < 4
  {
    if level >= 10 then Gold
    else if level >= 7 then Purple
    else if level >= 4 then Indigo
    else Gray
  }

  /** A higher level never has a lower colour. */
  lemma LevelColorMonotone(l1: int, l2: int)
    requires l1 <= l2
    ensures GetLevelColor(l1).Rank() <= GetLevelColor(l2).Rank()
  {
  }

  /** More XP never means a lower colour. */
  lemma XPColorMonotone(xp1: int, xp2: int)
    requires xp1 <= xp2
    ensures GetLevelColor(LevelOf(xp1)).Rank() <= GetLevelColor(LevelOf(xp2)).Rank()
  {
    LevelOfMonotone(xp1, xp2);
    LevelColorMonotone(LevelOf(xp1), LevelOf(xp2));
  }
}
