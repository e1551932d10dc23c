/**
 * Properties of the progress store that relate several calls, or a call
 * and an independent definition of what it should compute.
 */
module StoreLaws {
  import opened Wrappers
  import opened Achievements
  import opened Seqs
  import opened JsMath
  import opened Store

  // ---------------------------------------------------------------------------
  // Neural profile

  /** A skill at `x` after `c` raises by `amount`: unchanged when `c == 0`, else `min(100, x + c * amount)`. */
  function Raised(x: int, amount: int, c: nat): int {
    if c == 0 then x else Min(SKILL_CAP, x + c * amount)
  }

  /**
   * With a non-negative amount, a skill listed `c > 0` times ends at
   * `min(100, old + c * amount)`; an unlisted skill is untouched.
   */
  lemma {:induction false} RaiseSkillsCounts(p: Profile, skills: seq<Skill>, amount: int, k: Skill)
    requires amount >= 0
    ensures RaiseSkills(p, skills, amount).Get(k) == Raised(p.Get(k), amount, Count(skills, k))
    decreases |skills|
  {
    if |skills| > 0 {
      var j := skills[0];
      var p' := p.With(j, Min(SKILL_CAP, p.Get(j) + amount));
      RaiseSkillsCounts(p', skills[1..], amount, k);
      assert RaiseSkills(p, skills, amount) == RaiseSkills(p', skills[1..], amount);
      assert Count(skills, k) == (if j == k then 1 else 0) + Count(skills[1..], k);
      if j == k {
        RaiseOnceMore(p.Get(k), amount, Count(skills[1..], k));
      }
    }
  }

  /** One raise followed by `c` more is `c + 1` raises. */
  lemma RaiseOnceMore(x: int, amount: int, c: nat)
    requires amount >= 0
    ensures Raised(Min(SKILL_CAP, x + amount), amount, c) == Raised(x, amount, c + 1)
  {
    if c > 0 {
      CapTwice(x, amount, c);
    } else {
      assert (c + 1) * amount == amount;
    }
  }

  /** Capping after each raise is the same as capping once at the end. */
  lemma CapTwice(x: int, amount: int, c: nat)
    requires amount >= 0
    ensures Min(SKILL_CAP, Min(SKILL_CAP, x + amount) + c * amount) == Min(SKILL_CAP, x + (c + 1) * amount)
  {
    assert c * amount >= 0;
    assert (c + 1) * amount == amount + c * amount;
  }

  /** Two `updateNeuralProfile(["visual"], 60)` calls from 10 give 70, then 100 and not 130. */
  lemma VisualClampScenario()
    ensures var s1 := UpdateNeuralProfile(Initial(), [Visual], 60);
            var s2 := UpdateNeuralProfile(s1, [Visual], 60);
            s1.neuralProfile.visual == 70 && s2.neuralProfile.visual == SKILL_CAP
  {
    var s1 := UpdateNeuralProfile(Initial(), [Visual], 60);
    assert s1.neuralProfile.Get(Visual) == 70;
    var s2 := UpdateNeuralProfile(s1, [Visual], 60);
    assert s2.neuralProfile.Get(Visual) == 100;
  }

  // ---------------------------------------------------------------------------
  // XP and the recalibration prompt

  /** An XP award never lowers the prompt, and from `xp=950, lastDiagnosticXP=0` an award of 100 raises it. */
  lemma PromptLatches(s: State, amount: int)
    ensures s.showDiagnosticPrompt ==> AddXP(s, amount).showDiagnosticPrompt
    ensures s.xp == 950 && s.lastDiagnosticXP == 0 && amount == 100 ==>
      AddXP(s, amount).xp == 1050 && AddXP(s, amount).showDiagnosticPrompt
  {
  }

  /**
   * Completing a diagnostic, even with a null score, restarts the countdown:
   * afterwards an award raises the prompt exactly when it alone reaches 1000.
   */
  lemma DiagnosticRestartsCountdown(s: State, score: Option<int>, amount: int)
    ensures AddXP(SetVviqScore(s, score), amount).showDiagnosticPrompt <==> amount >= PROMPT_GAP
    ensures !DismissDiagnosticPrompt(AddXP(s, amount)).showDiagnosticPrompt
  {
  }

  /**
   * Dismissing hides the prompt but, unlike a diagnostic, does not restart the
   * countdown: the next gain brings it back whenever the gap since the last
   * diagnostic is still 1000 or more, and everything else is as before.
   */
  lemma DismissKeepsCountdown(s: State, amount: int)
    ensures var r := AddXP(DismissDiagnosticPrompt(s), amount);
            && (r.showDiagnosticPrompt <==> s.xp + amount - s.lastDiagnosticXP >= PROMPT_GAP)
            && r.(showDiagnosticPrompt := s.showDiagnosticPrompt) == AddXP(s, amount).(showDiagnosticPrompt := s.showDiagnosticPrompt)
  {
  }

  // ---------------------------------------------------------------------------
  // Days: streak, daily reset, challenges, sessions

  /** A second `incrementStreak` on the same day is a no-op; a missed day never lowers the streak. */
  lemma StreakOncePerDay(s: State, today: string, later: string)
    ensures IncrementStreak(IncrementStreak(s, today), today) == IncrementStreak(s, today)
    ensures IncrementStreak(IncrementStreak(s, today), later).dailyStreak >= s.dailyStreak
  {
  }

  /** `checkDailyReset` is idempotent within a day. */
  lemma DailyResetIdempotent(s: State, today: string)
    ensures CheckDailyReset(CheckDailyReset(s, today), today) == CheckDailyReset(s, today)
  {
  }

  /**
   * Reset on day D, complete "x", reset again on D: "x" is still there;
   * reset on a different day: it is gone.
   */
  lemma DailyResetScenario(s: State, d: string, next: string)
    requires next != d
    ensures var s1 := CompleteChallenge(CheckDailyReset(s, d), "x");
            "x" in CheckDailyReset(s1, d).completedChallenges &&
            CheckDailyReset(s1, next).completedChallenges == []
  {
  }

  /** Completing the same challenge twice is the same as once, and the list stays duplicate-free. */
  lemma CompleteChallengeIdempotent(s: State, id: string)
    ensures CompleteChallenge(CompleteChallenge(s, id), id) == CompleteChallenge(s, id)
    ensures NoDuplicates(s.completedChallenges) ==> NoDuplicates(CompleteChallenge(s, id).completedChallenges)
  {
  }

  // ---------------------------------------------------------------------------
  // Reset

  /** `reset` maps the initial state to itself and is idempotent. */
  lemma ResetIdempotent(s: State)
    ensures Reset(Initial()) == Initial()
    ensures Reset(Reset(s)) == Reset(s)
  {
  }

  // ---------------------------------------------------------------------------
  // Achievements

  /** Marking as unlocked an id that no catalog entry carries changes nothing eligible. */
  lemma {:induction false} EligibleIgnoresForeignId(cat: seq<Achievement>, stats: Stats, unlocked: seq<string>, id: string)
    requires forall i :: 0 <= i < |cat| ==> cat[i].id != id
    ensures Eligible(cat, stats, unlocked + [id]) == Eligible(cat, stats, unlocked)
  {
    if |cat| > 0 {
      assert cat[0].id != id;
      assert (cat[0].id !in unlocked + [id]) == (cat[0].id !in unlocked);
      EligibleIgnoresForeignId(cat[1..], stats, unlocked, id);
    }
  }

  /** For a catalog with distinct ids the accumulating loop unlocks exactly the eligible entries. */
  lemma {:induction false} ScanIsEligible(cat: seq<Achievement>, stats: Stats, unlocked: seq<string>)
    requires DistinctIds(cat)
    ensures Scan(cat, stats, unlocked) == Eligible(cat, stats, unlocked)
  {
    if |cat| > 0 {
      assert DistinctIds(cat[1..]);
      if cat[0].id !in unlocked && Holds(cat[0], stats) {
        ScanIsEligible(cat[1..], stats, unlocked + [cat[0].id]);
        EligibleIgnoresForeignId(cat[1..], stats, unlocked, cat[0].id);
      } else {
        ScanIsEligible(cat[1..], stats, unlocked);
      }
    }
  }

  lemma {:induction false} EligibleNoDuplicates(cat: seq<Achievement>, stats: Stats, unlocked: seq<string>)
    requires DistinctIds(cat)
    ensures NoDuplicates(Ids(Eligible(cat, stats, unlocked)))
  {
    if |cat| > 0 {
      var tail := cat[1..];
      assert DistinctIds(tail);
      EligibleNoDuplicates(tail, stats, unlocked);
      var rest := Eligible(tail, stats, unlocked);
      if cat[0].id !in unlocked && Holds(cat[0], stats) {
        assert Eligible(cat, stats, unlocked) == [cat[0]] + rest;
        assert Ids([cat[0]] + rest) == [cat[0].id] + Ids(rest);
        HeadNotEligibleLater(cat, stats, unlocked);
        ConsNoDuplicates(cat[0].id, Ids(rest));
      } else {
        assert Eligible(cat, stats, unlocked) == rest;
      }
    }
  }

  /** In a catalog with distinct ids, the first id is not among those the rest makes eligible. */
  lemma HeadNotEligibleLater(cat: seq<Achievement>, stats: Stats, unlocked: seq<string>)
    requires DistinctIds(cat) && |cat| > 0
    ensures cat[0].id !in Ids(Eligible(cat[1..], stats, unlocked))
  {
    var tail := cat[1..];
    var rest := Eligible(tail, stats, unlocked);
    forall i | 0 <= i < |rest| ensures rest[i].id != cat[0].id {
      assert rest[i] in rest;
      var m :| 0 <= m < |tail| && tail[m] == rest[i];
      assert cat[m + 1] == rest[i];
    }
  }

  lemma ConsNoDuplicates(x: string, ys: seq<string>)
    requires x !in ys && NoDuplicates(ys)
    ensures NoDuplicates([x] + ys)
  {
    var zs := [x] + ys;
    forall i, j | 0 <= i < j < |zs| ensures zs[i] != zs[j] {
      assert zs[j] == ys[j - 1];
      if i > 0 {
        assert zs[i] == ys[i - 1];
      }
    }
  }

  /**
   * `checkAchievements` on a catalog with distinct ids: it returns, in
   * catalog order, exactly the not-yet-unlocked entries whose condition
   * holds on the snapshot taken before any reward; it appends them to the
   * unlocked list, adds their rewards to `xp`, and changes nothing else
   * except the prompt.
   */
  lemma CheckAchievementsSpec(cat: seq<Achievement>, s: State)
    requires DistinctIds(cat)
    ensures var won := Eligible(cat, Snapshot(s), s.unlockedAchievements);
            var (s', ids) := CheckAchievements(cat, s);
            && ids == Ids(won)
            && s'.unlockedAchievements == s.unlockedAchievements + ids
            && s'.xp == s.xp + RewardSum(won)
            && s' == s.(xp := s'.xp, showDiagnosticPrompt := s'.showDiagnosticPrompt,
                        unlockedAchievements := s'.unlockedAchievements)
            && NoDuplicates(ids)
            && (forall id :: id in ids ==> id !in s.unlockedAchievements)
            && (NoDuplicates(s.unlockedAchievements) ==> NoDuplicates(s'.unlockedAchievements))
  {
    var won := Eligible(cat, Snapshot(s), s.unlockedAchievements);
    ScanIsEligible(cat, Snapshot(s), s.unlockedAchievements);
    EligibleNoDuplicates(cat, Snapshot(s), s.unlockedAchievements);
    var ids := Ids(won);
    forall id | id in ids ensures id !in s.unlockedAchievements {
      var i :| 0 <= i < |ids| && ids[i] == id;
      assert won[i] in won;
    }
    var u := s.unlockedAchievements + ids;
    if NoDuplicates(s.unlockedAchievements) {
      forall i, j | 0 <= i < j < |u| ensures u[i] != u[j] {
        if j >= |s.unlockedAchievements| {
          assert u[j] in ids;
          if i < |s.unlockedAchievements| {
            assert u[i] in s.unlockedAchievements;
          } else {
            assert u[i] == ids[i - |s.unlockedAchievements|] && u[j] == ids[j - |s.unlockedAchievements|];
          }
        }
      }
    }
  }

  /** Non-negative rewards, paid one after another, raise the prompt iff the final gap reaches 1000. */
  lemma {:induction false} AddRewardsPrompt(s: State, won: seq<Achievement>)
    requires |won| > 0
    requires forall i :: 0 <= i < |won| ==> won[i].xpReward >= 0
    ensures AddRewards(s, won).showDiagnosticPrompt <==>
      s.showDiagnosticPrompt || s.xp + RewardSum(won) - s.lastDiagnosticXP >= PROMPT_GAP
    decreases |won|
  {
    var s1 := AddXP(s, won[0].xpReward);
    if |won| > 1 {
      AddRewardsPrompt(s1, won[1..]);
      RewardSumNonNegative(won[1..]);
    }
  }

  lemma {:induction false} RewardSumNonNegative(won: seq<Achievement>)
    requires forall i :: 0 <= i < |won| ==> won[i].xpReward >= 0
    ensures RewardSum(won) >= 0
  {
    if |won| > 0 {
      RewardSumNonNegative(won[1..]);
    }
  }

  /**
   * The prompt after `checkAchievements` with non-negative rewards: it is
   * raised iff it was already raised, or something was unlocked and the
   * new gap reaches 1000.
   */
  lemma CheckAchievementsPrompt(cat: seq<Achievement>, s: State)
    requires DistinctIds(cat)
    requires forall i :: 0 <= i < |cat| ==> cat[i].xpReward >= 0
    ensures var (s', ids) := CheckAchievements(cat, s);
            s'.showDiagnosticPrompt <==>
              s.showDiagnosticPrompt || (|ids| > 0 && s'.xp - s.lastDiagnosticXP >= PROMPT_GAP)
  {
    var won := Eligible(cat, Snapshot(s), s.unlockedAchievements);
    ScanIsEligible(cat, Snapshot(s), s.unlockedAchievements);
    if |won| > 0 {
      forall i | 0 <= i < |won| ensures won[i].xpReward >= 0 {
        assert won[i] in won;
      }
      AddRewardsPrompt(s, won);
    }
  }

  /** An entry of a catalog with distinct ids is named in `Ids(won)` exactly when it is one of the won entries. */
  lemma IdWon(cat: seq<Achievement>, won: seq<Achievement>, i: nat)
    requires DistinctIds(cat) && i < |cat|
    requires forall a :: a in won ==> a in cat
    ensures cat[i].id in Ids(won) <==> cat[i] in won
  {
    var ids := Ids(won);
    if cat[i].id in ids {
      var j :| 0 <= j < |ids| && ids[j] == cat[i].id;
      assert won[j] in cat;
      var m :| 0 <= m < |cat| && cat[m] == won[j];
      assert m == i;
    }
    if cat[i] in won {
      var j :| 0 <= j < |won| && won[j] == cat[i];
      assert ids[j] == cat[i].id;
    }
  }

  /**
   * After `setLevel(k)`, the next `checkAchievements` unlocks a level entry
   * exactly when it is not yet unlocked and its threshold is at most `k`;
   * every other entry is unlocked exactly as it would have been before.
   */
  lemma SetLevelUnlocks(cat: seq<Achievement>, s: State, k: int, i: nat)
    requires DistinctIds(cat) && i < |cat|
    ensures var ids := CheckAchievements(cat, SetLevel(s, k)).1;
            && (cat[i].metric == Level ==>
                  (cat[i].id in ids <==> cat[i].id !in s.unlockedAchievements && k >= cat[i].threshold))
            && (cat[i].metric != Level ==>
                  (cat[i].id in ids <==> cat[i].id in CheckAchievements(cat, s).1))
  {
    var s' := SetLevel(s, k);
    var won' := Eligible(cat, Snapshot(s'), s'.unlockedAchievements);
    var won := Eligible(cat, Snapshot(s), s.unlockedAchievements);
    CheckAchievementsSpec(cat, s');
    CheckAchievementsSpec(cat, s);
    IdWon(cat, won', i);
    IdWon(cat, won, i);
    assert cat[i] in won' <==> cat[i].id !in s.unlockedAchievements && Holds(cat[i], Snapshot(s'));
    assert cat[i] in won <==> cat[i].id !in s.unlockedAchievements && Holds(cat[i], Snapshot(s));
  }

  /** The same for the main catalog, whose ids are distinct. */
  lemma SetLevelUnlocksMain(s: State, k: int, i: nat)
    requires i < |CATALOG|
    ensures var ids := CheckAchievements(CATALOG, SetLevel(s, k)).1;
            && (CATALOG[i].metric == Level ==>
                  (CATALOG[i].id in ids <==> CATALOG[i].id !in s.unlockedAchievements && k >= CATALOG[i].threshold))
            && (CATALOG[i].metric != Level ==>
                  (CATALOG[i].id in ids <==> CATALOG[i].id in CheckAchievements(CATALOG, s).1))
  {
    CatalogIdsDistinct();
    SetLevelUnlocks(CATALOG, s, k, i);
  }

  /** `CheckAchievementsSpec` and `CheckAchievementsPrompt` together, for a catalog with positive rewards. */
  lemma CheckAchievementsFull(cat: seq<Achievement>, s: State)
    requires DistinctIds(cat)
    requires forall i :: 0 <= i < |cat| ==> cat[i].xpReward > 0
    ensures var (s', ids) := CheckAchievements(cat, s);
            && ids == Ids(Eligible(cat, Snapshot(s), s.unlockedAchievements))
            && s'.unlockedAchievements == s.unlockedAchievements + ids
            && NoDuplicates(ids)
            && (forall id :: id in ids ==> id !in s.unlockedAchievements)
            && (s'.showDiagnosticPrompt <==>
                  s.showDiagnosticPrompt || (|ids| > 0 && s'.xp - s.lastDiagnosticXP >= PROMPT_GAP))
  {
    CheckAchievementsSpec(cat, s);
    CheckAchievementsPrompt(cat, s);
  }

  /**
   * Because conditions see the snapshot taken before any reward, a second
   * call can still unlock something; but only an XP achievement whose
   * condition failed on the first snapshot and was pushed over its
   * threshold by the first call's rewards.
   */
  lemma SecondCallUnlocksOnlyXp(cat: seq<Achievement>, s: State)
    requires DistinctIds(cat)
    ensures var (s1, ids1) := CheckAchievements(cat, s);
            var (s2, ids2) := CheckAchievements(cat, s1);
            forall i :: 0 <= i < |cat| && cat[i].id in ids2 ==>
              cat[i].metric == Xp && !Holds(cat[i], Snapshot(s)) && Holds(cat[i], Snapshot(s1))
  {
    var (s1, ids1) := CheckAchievements(cat, s);
    var (s2, ids2) := CheckAchievements(cat, s1);
    forall i | 0 <= i < |cat| && cat[i].id in ids2
      ensures cat[i].metric == Xp && !Holds(cat[i], Snapshot(s)) && Holds(cat[i], Snapshot(s1))
    {
      SecondCallWinner(cat, s, i);
    }
  }

  /** One entry unlocked by the second call. */
  lemma SecondCallWinner(cat: seq<Achievement>, s: State, i: nat)
    requires DistinctIds(cat) && i < |cat|
    requires cat[i].id in CheckAchievements(cat, CheckAchievements(cat, s).0).1
    ensures var s1 := CheckAchievements(cat, s).0;
      cat[i].metric == Xp && !Holds(cat[i], Snapshot(s)) && Holds(cat[i], Snapshot(s1))
  {
    var (s1, ids1) := CheckAchievements(cat, s);
    var ids2 := CheckAchievements(cat, s1).1;
    CheckAchievementsSpec(cat, s);
    CheckAchievementsSpec(cat, s1);
    var won2 := Eligible(cat, Snapshot(s1), s1.unlockedAchievements);
    assert ids2 == Ids(won2);
    var k :| 0 <= k < |won2| && won2[k].id == cat[i].id;
    assert won2[k] in won2;
    var a := won2[k];
    var j :| 0 <= j < |cat| && cat[j] == a;
    assert j == i;
    assert a.id !in s1.unlockedAchievements;
    assert a.id !in s.unlockedAchievements && a.id !in ids1;
    var won1 := Eligible(cat, Snapshot(s), s.unlockedAchievements);
    assert forall m :: 0 <= m < |won1| ==> Ids(won1)[m] == won1[m].id;
    assert !Holds(a, Snapshot(s));
    assert Snapshot(s1) == Snapshot(s).(xp := s1.xp);
  }

  // ---------------------------------------------------------------------------
  // Hydration

  lemma {:induction false} DedupOfDistinct(xs: seq<string>)
    requires NoDuplicates(xs)
    ensures Dedup(xs) == xs
  {
    if |xs| > 0 {
      var init := xs[..|xs| - 1];
      assert NoDuplicates(init);
      DedupOfDistinct(init);
      assert xs[|xs| - 1] !in init by {
        forall i | 0 <= i < |init| ensures init[i] != xs[|xs| - 1] {
          assert init[i] == xs[i];
        }
      }
      assert init + [xs[|xs| - 1]] == xs;
    }
  }

  /** Deduplicating `xs + ys` keeps the duplicate-free prefix `xs` in place. */
  lemma {:induction false} DedupKeepsPrefix(xs: seq<string>, ys: seq<string>)
    requires NoDuplicates(xs)
    ensures |Dedup(xs + ys)| >= |xs| && Dedup(xs + ys)[..|xs|] == xs
    decreases |ys|
  {
    if |ys| == 0 {
      assert xs + ys == xs;
      DedupOfDistinct(xs);
    } else {
      var zs := xs + ys;
      assert zs[..|zs| - 1] == xs + ys[..|ys| - 1];
      DedupKeepsPrefix(xs, ys[..|ys| - 1]);
    }
  }

  /**
   * Hydrating the achievements is a duplicate-free union that keeps the
   * local list first.
   */
  lemma HydrateAchievementsUnion(s: State, d: Patch)
    requires d.unlockedAchievements.Some? && NoDuplicates(s.unlockedAchievements)
    ensures var r := HydrateFromDb(s, d).unlockedAchievements;
            |r| >= |s.unlockedAchievements| && r[..|s.unlockedAchievements|] == s.unlockedAchievements
  {
    DedupKeepsPrefix(s.unlockedAchievements, d.unlockedAchievements.value);
  }

  /** Local ["b", "c"] with incoming ["a", "b"] gives ["b", "c", "a"]. */
  lemma HydrateAchievementsExample(s: State, d: Patch)
    requires s.unlockedAchievements == ["b", "c"] && d.unlockedAchievements == Some(["a", "b"])
    ensures HydrateFromDb(s, d).unlockedAchievements == ["b", "c", "a"]
  {
    var xs := ["b", "c", "a", "b"];
    assert s.unlockedAchievements + d.unlockedAchievements.value == xs;
    assert xs[..3][..2] == ["b", "c"];
    assert Dedup(xs[..3][..2]) == ["b", "c"] by { DedupOfDistinct(["b", "c"]); }
    assert Dedup(xs[..3]) == ["b", "c", "a"];
  }

  /** Hydrating with an empty patch changes nothing. */
  lemma HydrateEmptyPatch(s: State)
    ensures HydrateFromDb(s, Patch(None, None, None, None, None, None, None, None, None, None, None, None, None)) == s
  {
  }
}
