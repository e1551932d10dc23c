/**
 * The progress store: an immutable record of the user's gamification
 * state and one pure function `State -> State` per mutator.  The date the
 * original derives from the clock ("today", `YYYY-MM-DD`) is a parameter.
 */
module Store {
  import opened Wrappers
  import opened Achievements
  import opened Seqs
  import opened JsMath

  /** The five neural-profile skills. */
  datatype Skill = Visual | Auditory | Somatic | Cognitive | Focus

  datatype Profile = Profile(visual: int, auditory: int, somatic: int, cognitive: int, focus: int) {

    function Get(k: Skill): int {
      match k
      case Visual => visual
      case Auditory => auditory
      case Somatic => somatic
      case Cognitive => cognitive
      case Focus => focus
    }

    /** The profile with skill `k` set to `v`. */
    function With(k: Skill, v: int): (p: Profile)
      ensures p.Get(k) == v
      ensures forall j :: j != k ==> p.Get(j) == Get(j)
    {
      match k
      case Visual => this.(visual := v)
      case Auditory => this.(auditory := v)
      case Somatic => this.(somatic := v)
      case Cognitive => this.(cognitive := v)
      case Focus => this.(focus := v)
    }
  }

  /** A profile object with some keys missing (`Partial<neuralProfile>`). */
  datatype PartialProfile = PartialProfile(
    visual: Option<int>, auditory: Option<int>, somatic: Option<int>, cognitive: Option<int>, focus: Option<int>)
  {
    function Get(k: Skill): Option<int> {
      match k
      case Visual => visual
      case Auditory => auditory
      case Somatic => somatic
      case Cognitive => cognitive
      case Focus => focus
    }
  }

  /** The object with the single key `k` (`{ [k]: v }`). */
  function Only(k: Skill, v: int): (p: PartialProfile)
    ensures p.Get(k) == Some(v)
    ensures forall j :: j != k ==> p.Get(j) == None
  {
    match k
    case Visual => PartialProfile(Some(v), None, None, None, None)
    case Auditory => PartialProfile(None, Some(v), None, None, None)
    case Somatic => PartialProfile(None, None, Some(v), None, None)
    case Cognitive => PartialProfile(None, None, None, Some(v), None)
    case Focus => PartialProfile(None, None, None, None, Some(v))
  }

  /** `{ ...base, ...over }` on profiles: keys present in `over` win. */
  function Overlay(base: Profile, over: PartialProfile): (p: Profile)
    ensures forall k :: p.Get(k) == over.Get(k).GetOr(base.Get(k))
  {
    Profile(
      over.visual.GetOr(base.visual), over.auditory.GetOr(base.auditory), over.somatic.GetOr(base.somatic),
      over.cognitive.GetOr(base.cognitive), over.focus.GetOr(base.focus))
  }

  datatype State = State(
    level: int,
    vviqScore: Option<int>,
    dailyStreak: int,
    lastPracticeDate: Option<string>,
    lastChallengeResetDate: Option<string>,
    completedChallenges: seq<string>,
    xp: int,
    unlockedAchievements: seq<string>,
    totalSessions: int,
    activityHistory: map<string, int>,
    lastDiagnosticXP: int,
    showDiagnosticPrompt: bool,
    neuralProfile: Profile)

  /** XP earned since the last diagnostic that raises the recalibration prompt. */
  const PROMPT_GAP := 1000
  /** Upper clamp of every neural-profile skill in `updateNeuralProfile`. */
  const SKILL_CAP := 100
  /** Starting value of every neural-profile skill. */
  const INITIAL_SKILL := 10

  /** The store as created: level 1, nothing earned, every skill at 10. */
  function Initial(): State {
    State(1, None, 0, None, None, [], 0, [], 0, map[], 0, false,
          Profile(INITIAL_SKILL, INITIAL_SKILL, INITIAL_SKILL, INITIAL_SKILL, INITIAL_SKILL))
  }

  /** Occurrences of `k` in `ks`. */
  function Count(ks: seq<Skill>, k: Skill): nat {
    if |ks| == 0 then 0 else (if ks[0] == k then 1 else 0) + Count(ks[1..], k)
  }

  /** The `skills.forEach` loop of `updateNeuralProfile`, one skill at a time in list order. */
  function RaiseSkills(p: Profile, skills: seq<Skill>, amount: int): (r: Profile)
    ensures forall k :: k !in skills ==> r.Get(k) == p.Get(k)
    ensures forall k :: k in skills ==> r.Get(k) <= SKILL_CAP
    ensures NoDuplicates(skills) ==> forall k :: k in skills ==> r.Get(k) == Min(SKILL_CAP, p.Get(k) + amount)
    decreases |skills|
  {
    if |skills| == 0 then p
    else
      var k := skills[0];
      var r := RaiseSkills(p.With(k, Min(SKILL_CAP, p.Get(k) + amount)), skills[1..], amount);
      assert forall j :: j in skills ==> j == k || j in skills[1..];
      assert NoDuplicates(skills) ==> k !in skills[1..] && NoDuplicates(skills[1..]) by {
        if NoDuplicates(skills) {
          forall i | 0 <= i < |skills[1..]| ensures skills[1..][i] != k {
            assert skills[1..][i] == skills[i + 1];
          }
        }
      }
      r
  }

  /** `updateNeuralProfile(skills, amount)`: raise each listed skill by `amount`, capped at 100. */
  function UpdateNeuralProfile(s: State, skills: seq<Skill>, amount: int): (r: State)
    ensures r == s.(neuralProfile := r.neuralProfile)
    ensures forall k :: k !in skills ==> r.neuralProfile.Get(k) == s.neuralProfile.Get(k)
    ensures forall k :: k in skills ==> r.neuralProfile.Get(k) <= SKILL_CAP
    ensures NoDuplicates(skills) ==>
      forall k :: k in skills ==> r.neuralProfile.Get(k) == Min(SKILL_CAP, s.neuralProfile.Get(k) + amount)
  {
    s.(neuralProfile := RaiseSkills(s.neuralProfile, skills, amount))
  }

  /** `setNeuralProfile(profile)`: the keys present in `profile` overwrite, the others stay. */
  function SetNeuralProfile(s: State, profile: PartialProfile): (r: State)
    ensures r == s.(neuralProfile := r.neuralProfile)
    ensures forall k :: profile.Get(k).Some? ==> r.neuralProfile.Get(k) == profile.Get(k).value
    ensures forall k :: profile.Get(k).None? ==> r.neuralProfile.Get(k) == s.neuralProfile.Get(k)
  {
    s.(neuralProfile := Overlay(s.neuralProfile, profile))
  }

  /**
   * `setVviqScore(score)`: record the score (possibly null) and restart the
   * recalibration countdown from the current XP.
   */
  function SetVviqScore(s: State, score: Option<int>): (r: State)
    ensures r == s.(vviqScore := score, lastDiagnosticXP := s.xp, showDiagnosticPrompt := false)
  {
    s.(vviqScore := score, lastDiagnosticXP := s.xp, showDiagnosticPrompt := false)
  }

  /** `checkDailyReset()` on day `today`. */
  function CheckDailyReset(s: State, today: string): (r: State)
    ensures r.lastChallengeResetDate == Some(today)
    ensures s.lastChallengeResetDate != Some(today) ==> r == s.(completedChallenges := [], lastChallengeResetDate := Some(today))
    ensures s.lastChallengeResetDate == Some(today) ==> r == s
  {
    if s.lastChallengeResetDate != Some(today) then
      s.(completedChallenges := [], lastChallengeResetDate := Some(today))
    else
      s
  }

  /** `incrementStreak()` on day `today`: at most one increment per date string. */
  function IncrementStreak(s: State, today: string): (r: State)
    ensures r.lastPracticeDate == Some(today)
    ensures r == s.(dailyStreak := r.dailyStreak, lastPracticeDate := r.lastPracticeDate)
    ensures r.dailyStreak == if s.lastPracticeDate == Some(today) then s.dailyStreak else s.dailyStreak + 1
  {
    if s.lastPracticeDate != Some(today) then
      s.(dailyStreak := s.dailyStreak + 1, lastPracticeDate := Some(today))
    else
      s
  }

  /** `completeChallenge(id)`: append `id` unless it is already there. */
  function CompleteChallenge(s: State, id: string): (r: State)
    ensures r == s.(completedChallenges := r.completedChallenges)
    ensures id in r.completedChallenges
    ensures id in s.completedChallenges ==> r == s
    ensures id !in s.completedChallenges ==> r.completedChallenges == s.completedChallenges + [id]
    ensures NoDuplicates(s.completedChallenges) ==> NoDuplicates(r.completedChallenges)
  {
    if id !in s.completedChallenges then s.(completedChallenges := s.completedChallenges + [id]) else s
  }

  /**
   * `addXP(amount)`: add `amount` (the sign is not checked) and latch the
   * recalibration prompt once the gap to the last diagnostic reaches 1000.
   */
  function AddXP(s: State, amount: int): (r: State)
    ensures r == s.(xp := r.xp, showDiagnosticPrompt := r.showDiagnosticPrompt)
    ensures r.xp == s.xp + amount
    ensures r.showDiagnosticPrompt <==> s.showDiagnosticPrompt || r.xp - s.lastDiagnosticXP >= PROMPT_GAP
  {
    var newXP := s.xp + amount;
    var shouldPrompt := if !s.showDiagnosticPrompt && newXP - s.lastDiagnosticXP >= PROMPT_GAP then true
                        else s.showDiagnosticPrompt;
    s.(xp := newXP, showDiagnosticPrompt := shouldPrompt)
  }

  /** `dismissDiagnosticPrompt()`. */
  function DismissDiagnosticPrompt(s: State): (r: State)
    ensures r == s.(showDiagnosticPrompt := false)
  {
    s.(showDiagnosticPrompt := false)
  }

  /** Sessions recorded on `day` (`activityHistory[day] || 0`). */
  function SessionsOn(h: map<string, int>, day: string): int {
    if day in h then h[day] else 0
  }

  /** `incrementSessionCount()` on day `today`. */
  function IncrementSessionCount(s: State, today: string): (r: State)
    ensures r == s.(totalSessions := r.totalSessions, activityHistory := r.activityHistory)
    ensures r.totalSessions == s.totalSessions + 1
    ensures r.activityHistory.Keys == s.activityHistory.Keys + {today}
    ensures r.activityHistory[today] == SessionsOn(s.activityHistory, today) + 1
    ensures forall d :: d in s.activityHistory && d != today ==> r.activityHistory[d] == s.activityHistory[d]
  {
    var current := SessionsOn(s.activityHistory, today);
    s.(totalSessions := s.totalSessions + 1, activityHistory := s.activityHistory[today := current + 1])
  }

  /** `setLevel(level)`: unconditional overwrite. */
  function SetLevel(s: State, level: int): (r: State)
    ensures r == s.(level := level)
  {
    s.(level := level)
  }

  /**
   * `reset()`: back to the initial values for everything except the
   * achievements, the session count, the activity history and the profile.
   */
  function Reset(s: State): (r: State)
    ensures r.unlockedAchievements == s.unlockedAchievements
    ensures r.totalSessions == s.totalSessions && r.activityHistory == s.activityHistory
    ensures r.neuralProfile == s.neuralProfile
    ensures r == Initial().(unlockedAchievements := s.unlockedAchievements, totalSessions := s.totalSessions,
                            activityHistory := s.activityHistory, neuralProfile := s.neuralProfile)
  {
    s.(level := 1, vviqScore := None, dailyStreak := 0, lastPracticeDate := None, lastChallengeResetDate := None,
       completedChallenges := [], xp := 0, lastDiagnosticXP := 0, showDiagnosticPrompt := false)
  }

  // ---------------------------------------------------------------------------
  // Achievements

  /** The statistics snapshot `checkAchievements` evaluates conditions on. */
  function Snapshot(s: State): Stats {
    Stats(s.level, s.dailyStreak, s.xp, s.totalSessions, 0, 0)
  }

  /**
   * Reference definition: the catalog entries, in order, whose id is not in
   * `unlocked` and whose condition holds on `stats`.
   */
  function Eligible(cat: seq<Achievement>, stats: Stats, unlocked: seq<string>): (r: seq<Achievement>)
    ensures forall a :: a in r <==> a in cat && a.id !in unlocked && Holds(a, stats)
    ensures |r| <= |cat|
  {
    if |cat| == 0 then []
    else (if cat[0].id !in unlocked && Holds(cat[0], stats) then [cat[0]] else []) + Eligible(cat[1..], stats, unlocked)
  }

  /**
   * The `ACHIEVEMENTS.forEach` loop: `updated` starts as the unlocked list and
   * grows with every id pushed, so a repeated id is unlocked only once.
   */
  function Scan(cat: seq<Achievement>, stats: Stats, updated: seq<string>): seq<Achievement> {
    if |cat| == 0 then []
    else if cat[0].id !in updated && Holds(cat[0], stats) then
      [cat[0]] + Scan(cat[1..], stats, updated + [cat[0].id])
    else
      Scan(cat[1..], stats, updated)
  }

  /** The `addXP(reward)` calls of the loop, in order. */
  function AddRewards(s: State, won: seq<Achievement>): (r: State)
    ensures r == s.(xp := r.xp, showDiagnosticPrompt := r.showDiagnosticPrompt)
    ensures r.xp == s.xp + RewardSum(won)
    decreases |won|
  {
    if |won| == 0 then s else AddRewards(AddXP(s, won[0].xpReward), won[1..])
  }

  function RewardSum(won: seq<Achievement>): int {
    if |won| == 0 then 0 else won[0].xpReward + RewardSum(won[1..])
  }

  /**
   * `checkAchievements()` against catalog `cat`: the new state and the ids
   * unlocked by this call.
   */
  function CheckAchievements(cat: seq<Achievement>, s: State): (r: (State, seq<string>))
  {
    var won := Scan(cat, Snapshot(s), s.unlockedAchievements);
    var s' := AddRewards(s, won);
    (s'.(unlockedAchievements := s.unlockedAchievements + Ids(won)), Ids(won))
  }

  // ---------------------------------------------------------------------------
  // Hydration

  /**
   * A `Partial<UserState>` as fetched from the server: `None` is an absent
   * key; for the nullable fields, `Some(None)` is a key present with `null`.
   */
  datatype Patch = Patch(
    level: Option<int>,
    vviqScore: Option<Option<int>>,
    dailyStreak: Option<int>,
    lastPracticeDate: Option<Option<string>>,
    lastChallengeResetDate: Option<Option<string>>,
    completedChallenges: Option<seq<string>>,
    xp: Option<int>,
    unlockedAchievements: Option<seq<string>>,
    totalSessions: Option<int>,
    activityHistory: Option<map<string, int>>,
    lastDiagnosticXP: Option<int>,
    showDiagnosticPrompt: Option<bool>,
    neuralProfile: Option<PartialProfile>)

  /** `Array.from(new Set(xs))`: first occurrences, in order. */
  function Dedup(xs: seq<string>): (r: seq<string>)
    ensures NoDuplicates(r)
    ensures forall x :: x in r <==> x in xs
    ensures |r| <= |xs|
  {
    if |xs| == 0 then []
    else
      var d := Dedup(xs[..|xs| - 1]);
      var last := xs[|xs| - 1];
      assert forall x :: x in xs <==> x in xs[..|xs| - 1] || x == last;
      if last in d then d else d + [last]
  }

  /** `hydrateFromDb(data)`. */
  function HydrateFromDb(s: State, d: Patch): (r: State)
    ensures r.level == d.level.GetOr(s.level)
    ensures r.vviqScore == d.vviqScore.GetOr(s.vviqScore)
    ensures r.dailyStreak == d.dailyStreak.GetOr(s.dailyStreak)
    ensures r.lastPracticeDate == d.lastPracticeDate.GetOr(s.lastPracticeDate)
    ensures r.lastChallengeResetDate == d.lastChallengeResetDate.GetOr(s.lastChallengeResetDate)
    ensures r.completedChallenges == d.completedChallenges.GetOr(s.completedChallenges)
    ensures r.xp == d.xp.GetOr(s.xp)
    ensures r.totalSessions == d.totalSessions.GetOr(s.totalSessions)
    ensures r.activityHistory == d.activityHistory.GetOr(s.activityHistory)
    ensures r.lastDiagnosticXP == d.lastDiagnosticXP.GetOr(s.lastDiagnosticXP)
    ensures r.showDiagnosticPrompt == d.showDiagnosticPrompt.GetOr(s.showDiagnosticPrompt)
    ensures d.neuralProfile.None? ==> r.neuralProfile == s.neuralProfile
    ensures d.neuralProfile.Some? ==>
      forall k :: r.neuralProfile.Get(k) == d.neuralProfile.value.Get(k).GetOr(s.neuralProfile.Get(k))
    ensures d.unlockedAchievements.None? ==> r.unlockedAchievements == s.unlockedAchievements
    ensures d.unlockedAchievements.Some? ==> NoDuplicates(r.unlockedAchievements)
    ensures d.unlockedAchievements.Some? ==>
      forall a :: a in r.unlockedAchievements <==> a in s.unlockedAchievements || a in d.unlockedAchievements.value
  {
    State(
      d.level.GetOr(s.level),
      d.vviqScore.GetOr(s.vviqScore),
      d.dailyStreak.GetOr(s.dailyStreak),
      d.lastPracticeDate.GetOr(s.lastPracticeDate),
      d.lastChallengeResetDate.GetOr(s.lastChallengeResetDate),
      d.completedChallenges.GetOr(s.completedChallenges),
      d.xp.GetOr(s.xp),
      if d.unlockedAchievements.Some? then Dedup(s.unlockedAchievements + d.unlockedAchievements.value)
      else s.unlockedAchievements,
      d.totalSessions.GetOr(s.totalSessions),
      d.activityHistory.GetOr(s.activityHistory),
      d.lastDiagnosticXP.GetOr(s.lastDiagnosticXP),
      d.showDiagnosticPrompt.GetOr(s.showDiagnosticPrompt),
      if d.neuralProfile.Some? then Overlay(s.neuralProfile, d.neuralProfile.value) else s.neuralProfile)
  }
}
