/**
 * The daily-challenge card and the next-milestone panel: how the store's
 * counters turn into progress figures, and what a click on a daily module
 * does to the store.
 */
module Milestones {
  import opened Wrappers
  import opened JsMath
  import opened Achievements
  import opened Seqs
  import opened Store

  // ---------------------------------------------------------------------------
  // Daily challenges

  /** Daily modules to complete. */
  const DAILY_GOAL := 3

  /** The progress bar: completed challenges as a percentage of three. */
  function Progress(s: State): real {
    |s.completedChallenges| as real / DAILY_GOAL as real * 100.0
  }

  predicate IsComplete(s: State) {
    |s.completedChallenges| >= DAILY_GOAL
  }

  /**
   * `handleModuleClick(id)` on day `today`.  The count it tests is the one
   * the card rendered with, from before `completeChallenge`; so the streak
   * grows on the click that takes the count from 2 to 3.
   */
  function HandleModuleClick(s: State, today: string, id: string): (r: State) {
    var rendered := s.completedChallenges;
    if id in rendered then s
    else
      var s2 := IncrementSessionCount(CompleteChallenge(s, id), today);
      if |rendered| == 2 then IncrementStreak(s2, today) else s2
  }

  /**
   * A click on an already completed module changes nothing.  A click on a
   * new one records the challenge and a session, and touches the streak
   * only when it completes the third challenge; the rest of the store is
   * unchanged.
   */
  lemma ModuleClickEffect(s: State, today: string, id: string)
    ensures var r := HandleModuleClick(s, today, id);
            id in s.completedChallenges ==> r == s
    ensures var r := HandleModuleClick(s, today, id);
            var third := |s.completedChallenges| == 2;
            id !in s.completedChallenges ==>
              && r.completedChallenges == s.completedChallenges + [id]
              && r.totalSessions == s.totalSessions + 1
              && SessionsOn(r.activityHistory, today) == SessionsOn(s.activityHistory, today) + 1
              && r.dailyStreak == s.dailyStreak + (if third && s.lastPracticeDate != Some(today) then 1 else 0)
              && r.lastPracticeDate == (if third then Some(today) else s.lastPracticeDate)
              && r == s.(completedChallenges := r.completedChallenges, totalSessions := r.totalSessions,
                         activityHistory := r.activityHistory, dailyStreak := r.dailyStreak,
                         lastPracticeDate := r.lastPracticeDate)
  {
  }

  /**
   * A day's run: after the reset of a new day, clicks on three different
   * modules complete the day, fill the bar, add three sessions and grow
   * the streak by one (unless the day was already counted); the first two
   * clicks leave the streak alone and a further click changes nothing.
   */
  lemma ThreeClicksCompleteTheDay(s: State, today: string, a: string, b: string, c: string)
    requires s.lastChallengeResetDate != Some(today)
    requires a != b && b != c && a != c
    ensures var s0 := CheckDailyReset(s, today);
            var s1 := HandleModuleClick(s0, today, a);
            var s2 := HandleModuleClick(s1, today, b);
            var s3 := HandleModuleClick(s2, today, c);
            && s3.completedChallenges == [a, b, c]
            && !IsComplete(s2) && s2.dailyStreak == s.dailyStreak
            && IsComplete(s3) && Progress(s3) == 100.0
            && s3.dailyStreak == s.dailyStreak + (if s.lastPracticeDate == Some(today) then 0 else 1)
            && s3.totalSessions == s.totalSessions + 3
            && HandleModuleClick(s3, today, b) == s3
  {
    var s0 := CheckDailyReset(s, today);
    var s1 := HandleModuleClick(s0, today, a);
    var s2 := HandleModuleClick(s1, today, b);
    var s3 := HandleModuleClick(s2, today, c);
    assert s0.completedChallenges == [] && s0.dailyStreak == s.dailyStreak;
    assert s0.lastPracticeDate == s.lastPracticeDate && s0.totalSessions == s.totalSessions;
    NewClick(s0, today, a);
    assert s1.completedChallenges == [a];
    NewClick(s1, today, b);
    assert s2.completedChallenges == [a, b];
    NewClick(s2, today, c);
    assert s3.completedChallenges == [a, b, c];
    ModuleClickEffect(s3, today, b);
  }

  /** The counters a click on a new module moves. */
  lemma NewClick(s: State, today: string, id: string)
    requires id !in s.completedChallenges
    ensures var r := HandleModuleClick(s, today, id);
            var third := |s.completedChallenges| == 2;
            && r.completedChallenges == s.completedChallenges + [id]
            && r.totalSessions == s.totalSessions + 1
            && r.dailyStreak == s.dailyStreak + (if third && s.lastPracticeDate != Some(today) then 1 else 0)
            && r.lastPracticeDate == (if third then Some(today) else s.lastPracticeDate)
  {
    var s1 := CompleteChallenge(s, id);
    var s2 := IncrementSessionCount(s1, today);
    assert s2.completedChallenges == s.completedChallenges + [id];
    assert s2.dailyStreak == s.dailyStreak && s2.lastPracticeDate == s.lastPracticeDate;
  }

  /** Distinct elements of a set of three number at most three. */
  lemma {:induction false} DistinctWithin(xs: seq<string>, ys: set<string>)
    requires NoDuplicates(xs)
    requires forall i :: 0 <= i < |xs| ==> xs[i] in ys
    ensures |xs| <= |ys|
    decreases |xs|
  {
    if |xs| > 0 {
      var rest := xs[1..];
      assert NoDuplicates(rest);
      assert forall i :: 0 <= i < |rest| ==> rest[i] in ys - {xs[0]} by {
        forall i | 0 <= i < |rest| ensures rest[i] in ys - {xs[0]} {
          assert rest[i] == xs[i + 1];
        }
      }
      DistinctWithin(rest, ys - {xs[0]});
    }
  }

  /** While only the day's three modules are completed, the bar never passes 100%. */
  lemma ProgressBounded(s: State, daily: set<string>)
    requires |daily| == DAILY_GOAL
    requires NoDuplicates(s.completedChallenges)
    requires forall i :: 0 <= i < |s.completedChallenges| ==> s.completedChallenges[i] in daily
    ensures 0.0 <= Progress(s) <= 100.0
    ensures Progress(s) == 100.0 <==> IsComplete(s)
  {
    DistinctWithin(s.completedChallenges, daily);
  }

  // ---------------------------------------------------------------------------
  // Next milestone

  /** XP per displayed level. */
  const XP_PER_LEVEL := 1000

  /** The level bar: XP into the current level, XP still needed, and the percentage. */
  datatype LevelBar = LevelBar(inLevel: int, toNext: int, percent: real)

  function LevelProgress(xp: int): (b: LevelBar)
    ensures xp >= 0 ==> 0 <= b.inLevel < XP_PER_LEVEL && 0 < b.toNext <= XP_PER_LEVEL
    ensures xp >= 0 ==> 0.0 <= b.percent < 100.0
    ensures xp < 0 ==> -XP_PER_LEVEL < b.inLevel <= 0 && XP_PER_LEVEL <= b.toNext < 2 * XP_PER_LEVEL
    ensures b.inLevel + b.toNext == XP_PER_LEVEL
    ensures xp == Trunc(xp, XP_PER_LEVEL) * XP_PER_LEVEL + b.inLevel
  {
    var p := Rem(xp, XP_PER_LEVEL);
    LevelBar(p, XP_PER_LEVEL - p, p as real / XP_PER_LEVEL as real * 100.0)
  }

  /** The percentage label, `Math.round(progressPercent)`, for non-negative XP: 0 to 100. */
  lemma PercentLabelRange(xp: int)
    requires xp >= 0
    ensures 0 <= Round(LevelProgress(xp).percent) <= 100
    ensures xp % XP_PER_LEVEL == 0 ==> Round(LevelProgress(xp).percent) == 0
  {
  }

  /** `ACHIEVEMENTS.find(a => !unlocked.includes(a.id))`. */
  function NextAchievement(cat: seq<Achievement>, unlocked: seq<string>): (r: Option<nat>)
    ensures r.Some? ==> r.value < |cat| && cat[r.value].id !in unlocked
    ensures r.Some? ==> forall i :: 0 <= i < r.value ==> cat[i].id in unlocked
    ensures r.None? <==> forall i :: 0 <= i < |cat| ==> cat[i].id in unlocked
  {
    if |cat| == 0 then None
    else if cat[0].id !in unlocked then Some(0)
    else match NextAchievement(cat[1..], unlocked)
      case None => None
      case Some(k) => Some(k + 1)
  }

  /**
   * Unlocking the shown milestone moves the panel on to a later entry: the
   * next one is found strictly after it, or there is none left.
   */
  lemma NextAfterUnlock(cat: seq<Achievement>, unlocked: seq<string>)
    requires NextAchievement(cat, unlocked).Some?
    ensures var k := NextAchievement(cat, unlocked).value;
            var n := NextAchievement(cat, unlocked + [cat[k].id]);
            n.Some? ==> n.value > k
  {
  }
}
