/**
 * The Monocle variant of the progress store.  Its mutators have the same
 * bodies as the main store's (it has no `setNeuralProfile`, no hydration
 * and no cloud sync), so they are the functions of `Store`; what differs
 * is the six-entry achievement catalog.  The lemmas here state the
 * store's promises over whole sequences of calls.
 */
module MonocleStore {
  import opened Wrappers
  import opened Achievements
  import opened Seqs
  import opened JsMath
  import opened Store
  import StoreLaws

  /** The store as created: level 1, nothing earned or recorded, every skill at 10, no prompt. */
  lemma InitialState()
    ensures var s := Initial();
            && s.level == 1 && s.xp == 0 && s.dailyStreak == 0 && s.totalSessions == 0
            && s.vviqScore.None? && s.lastPracticeDate.None? && s.lastChallengeResetDate.None?
            && s.completedChallenges == [] && s.unlockedAchievements == [] && s.activityHistory == map[]
            && !s.showDiagnosticPrompt && s.lastDiagnosticXP == 0
            && forall k :: s.neuralProfile.Get(k) == INITIAL_SKILL
  {
  }

  /** Applies `updateNeuralProfile(skills, amount)` for each call in turn. */
  function ApplyUpdates(s: State, calls: seq<(seq<Skill>, int)>): State
    decreases |calls|
  {
    if |calls| == 0 then s else ApplyUpdates(UpdateNeuralProfile(s, calls[0].0, calls[0].1), calls[1..])
  }

  predicate Capped(p: Profile) {
    forall k :: p.Get(k) <= SKILL_CAP
  }

  /**
   * No sequence of profile updates, whatever their amounts, drives a skill
   * above 100, and a skill no call names keeps its value.
   */
  lemma {:induction false} UpdatesStayCapped(s: State, calls: seq<(seq<Skill>, int)>)
    requires Capped(s.neuralProfile)
    ensures Capped(ApplyUpdates(s, calls).neuralProfile)
    ensures forall k :: (forall i :: 0 <= i < |calls| ==> k !in calls[i].0) ==>
      ApplyUpdates(s, calls).neuralProfile.Get(k) == s.neuralProfile.Get(k)
    ensures ApplyUpdates(s, calls) == s.(neuralProfile := ApplyUpdates(s, calls).neuralProfile)
    decreases |calls|
  {
    if |calls| > 0 {
      var s1 := UpdateNeuralProfile(s, calls[0].0, calls[0].1);
      assert Capped(s1.neuralProfile);
      UpdatesStayCapped(s1, calls[1..]);
      forall k | (forall i :: 0 <= i < |calls| ==> k !in calls[i].0)
        ensures ApplyUpdates(s, calls).neuralProfile.Get(k) == s.neuralProfile.Get(k)
      {
        assert k !in calls[0].0;
        assert forall i :: 0 <= i < |calls[1..]| ==> k !in calls[1..][i].0 by {
          forall i | 0 <= i < |calls[1..]| ensures k !in calls[1..][i].0 {
            assert calls[1..][i] == calls[i + 1];
          }
        }
      }
    }
  }

  /** Applies `incrementStreak()` once on each of the given days. */
  function PracticeOn(s: State, days: seq<string>): State
    decreases |days|
  {
    if |days| == 0 then s else PracticeOn(IncrementStreak(s, days[0]), days[1..])
  }

  /** Number of days in `days` that differ from the day before them (the first compares with `last`). */
  function DayChanges(last: Option<string>, days: seq<string>): nat
    decreases |days|
  {
    if |days| == 0 then 0
    else (if last == Some(days[0]) then 0 else 1) + DayChanges(Some(days[0]), days[1..])
  }

  /**
   * Over any run of practice calls the streak grows by exactly the number
   * of times the date changes: never twice on one date, never reset by a
   * gap.
   */
  lemma {:induction false} StreakCountsDateChanges(s: State, days: seq<string>)
    ensures PracticeOn(s, days).dailyStreak == s.dailyStreak + DayChanges(s.lastPracticeDate, days)
    ensures |days| > 0 ==> PracticeOn(s, days).lastPracticeDate == Some(days[|days| - 1])
    ensures DayChanges(s.lastPracticeDate, days) <= |days|
    decreases |days|
  {
    if |days| > 0 {
      var s1 := IncrementStreak(s, days[0]);
      StreakCountsDateChanges(s1, days[1..]);
      if |days| > 1 {
        assert days[1..][|days[1..]| - 1] == days[|days| - 1];
      }
    }
  }

  /** `n` sessions recorded on one day. */
  function SessionsToday(s: State, today: string, n: nat): State
    decreases n
  {
    if n == 0 then s else SessionsToday(IncrementSessionCount(s, today), today, n - 1)
  }

  /** `n` sessions on the same day add `n` to the total and to that day's bucket, and leave the other days alone. */
  lemma {:induction false} SessionsAccumulate(s: State, today: string, n: nat)
    ensures var r := SessionsToday(s, today, n);
            && r.totalSessions == s.totalSessions + n
            && SessionsOn(r.activityHistory, today) == SessionsOn(s.activityHistory, today) + n
            && (forall d :: d != today ==> SessionsOn(r.activityHistory, d) == SessionsOn(s.activityHistory, d))
            && r == s.(totalSessions := r.totalSessions, activityHistory := r.activityHistory)
    decreases n
  {
    if n > 0 {
      var s1 := IncrementSessionCount(s, today);
      SessionsAccumulate(s1, today, n - 1);
      forall d | d != today ensures SessionsOn(s1.activityHistory, d) == SessionsOn(s.activityHistory, d) {
        if d in s.activityHistory {
          assert d in s1.activityHistory;
        } else {
          assert d !in s1.activityHistory;
        }
      }
    }
  }

  /** `checkAchievements` with the Monocle catalog: the catalog-independent promises, instantiated. */
  lemma CheckAchievementsMonocle(s: State)
    ensures var (s', ids) := CheckAchievements(MONOCLE_CATALOG, s);
            && ids == Ids(Eligible(MONOCLE_CATALOG, Snapshot(s), s.unlockedAchievements))
            && s'.unlockedAchievements == s.unlockedAchievements + ids
            && NoDuplicates(ids)
            && (forall id :: id in ids ==> id !in s.unlockedAchievements)
            && (s'.showDiagnosticPrompt <==>
                  s.showDiagnosticPrompt || (|ids| > 0 && s'.xp - s.lastDiagnosticXP >= PROMPT_GAP))
  {
    MonocleIdsDistinct();
    RewardsPositive();
    StoreLaws.CheckAchievementsFull(MONOCLE_CATALOG, s);
  }

  /** The first recorded session on a fresh store unlocks "initiate" alone, worth 50 XP. */
  lemma FirstSessionUnlocksInitiate(today: string)
    ensures var s := IncrementSessionCount(Initial(), today);
            var (s', ids) := CheckAchievements(MONOCLE_CATALOG, s);
            ids == ["initiate"] && s'.xp == 50 && s'.unlockedAchievements == ["initiate"]
  {
    var s := IncrementSessionCount(Initial(), today);
    var c := MONOCLE_CATALOG;
    var st := Snapshot(s);
    assert st == Stats(1, 0, 0, 1, 0, 0);
    assert c[5].id == "initiate" && Holds(c[5], st) && c[5].xpReward == 50;
    assert Scan(c[6..], st, ["initiate"]) == [];
    assert Scan(c[5..], st, []) == [c[5]];
    assert !Holds(c[4], st) && Scan(c[4..], st, []) == [c[5]];
    assert !Holds(c[3], st) && Scan(c[3..], st, []) == [c[5]];
    assert !Holds(c[2], st) && Scan(c[2..], st, []) == [c[5]];
    assert !Holds(c[1], st) && Scan(c[1..], st, []) == [c[5]];
    assert !Holds(c[0], st) && Scan(c, st, []) == [c[5]];
    assert RewardSum([c[5]]) == 50;
  }

  /** `reset` keeps achievements, sessions, history and profile, so nothing is unlocked a second time after it. */
  lemma ResetKeepsEarnings(s: State)
    ensures var r := Reset(s);
            r.unlockedAchievements == s.unlockedAchievements && r.totalSessions == s.totalSessions
            && r.activityHistory == s.activityHistory && r.neuralProfile == s.neuralProfile
            && r.xp == 0 && r.level == 1 && r.dailyStreak == 0
    ensures forall id :: id in CheckAchievements(MONOCLE_CATALOG, Reset(s)).1 ==> id !in s.unlockedAchievements
  {
    MonocleIdsDistinct();
    StoreLaws.CheckAchievementsSpec(MONOCLE_CATALOG, Reset(s));
  }
}
