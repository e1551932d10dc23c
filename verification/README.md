# Aphantasia training core, modelled in Dafny

Aphantasia is a web app for mental-imagery training. Beneath its 3D scenes, canvases, timers and audio sits a layer of small,
sequential rules. This project models that layer as pure Dafny functions and proves what the app's code promises about it:

- **The progress store.** One record holds level, XP, streak, daily challenges, session history, diagnostic prompt, neural
  profile and unlocked achievements. Its mutators are modelled for both the main app and the monocle app.
- **Achievement catalogs.** There are 18 main entries and 6 monocle entries. `checkAchievements` unlocks them against a
  snapshot of the stats.
- **Phantom Dice.** The die-orientation algebra behind the Mental Abacus exercise, plus the exercise's round logic.
- **Daily modules.** The deterministic choice of three modules per date: a 32-bit string hash seeds a mulberry32 generator.
- **Small page rules.** Level labels, the training page's sections and locks, daily-challenge clicks, and the
  next-milestone card.
- **Generators.** The mental-rotation, memory-quiz and face-builder puzzles, and the free-session object.
- **Questionnaires.** VVIQ and sensory scoring.
- **Library articles.** Frontmatter parsing and the order-sorted article listing.

Modelling conventions:

- Every state is an immutable record, and every mutator is a function from state to state. A frame condition is written
  `r == s.(f := r.f)`: "only `f` changes".
- Every `Math.random()` result is an explicit `real` draw in `[0, 1)`.
- An array shuffled by `sort(() => Math.random() - 0.5)` is rearranged by an explicit order sequence (`Seqs.Reorder`).
  Any order that is a permutation is allowed, and any other order leaves the array as it is.
- The current day is a `YYYY-MM-DD` string parameter.
- A JavaScript `Set` is a duplicate-free sequence in insertion order.
- The daily hash and generator work on `bv32`, so every 32-bit wrap-around is explicit.

Three behaviours of the code that a reader might not expect, which the model keeps:

- "Today" is the UTC date that `toISOString` yields, not the local date.
- `incrementStreak` never resets the streak after a missed day. It only adds one on a new date.
- `checkAchievements` tests its conditions against a snapshot taken before any reward. A second call can therefore unlock
  XP achievements that the first call's rewards pushed over their threshold (`StoreLaws.SecondCallWinner`).

## Model

| member | source | states |
|---|---|---|
| Store.Profile.With | lib/store.ts:85-87 | writing one skill changes that skill only |
| Store.Only | components/exercises/SensoryAssessment.tsx:86 | `{ [modality]: v }` carries the one key and no other |
| Store.Overlay | lib/store.ts:85-87 | spreading a partial profile over a full one: present keys win, absent keys keep the old value |
| Store.RaiseSkills | lib/store.ts:76-83 | each listed skill ends at no more than 100; unlisted skills are untouched; a skill listed once ends at `min(100, old + amount)` |
| Store.UpdateNeuralProfile | lib/store.ts:76-83 | only the profile changes; listed skills are capped at 100 and raised by the amount; unlisted skills keep their value |
| Store.SetNeuralProfile | lib/store.ts:85-87 | only the profile changes; keys in the patch take the patch value, the rest keep theirs |
| Store.CheckDailyReset | lib/store.ts:96-106 | on a new day the completed challenges are emptied and the reset date becomes today; on the same day nothing changes |
| Store.IncrementStreak | lib/store.ts:108-118 | the streak grows by one only when the last practice date differs from today; the date becomes today either way |
| Store.CompleteChallenge | lib/store.ts:120-125 | an absent id is appended once, a present id changes nothing, and the list stays duplicate-free |
| Store.AddXP | lib/store.ts:127-138 | XP grows by exactly the amount; the prompt is raised once the gain since the last diagnostic reaches 1000 and is never cleared here |
| Store.IncrementSessionCount | lib/store.ts:142-153 | the total and today's bucket grow by one (an absent day counts as 0); other days are untouched |
| Store.Reset | lib/store.ts:189-199 | returns to the initial values but keeps unlocked achievements, total sessions, history and neural profile |
| Store.Eligible | lib/store.ts:169-178 | reference set for unlocking: catalog entries not yet unlocked whose condition holds on the stats, in catalog order |
| Store.AddRewards | lib/store.ts:174-176 | the reward calls add exactly the sum of the won rewards to XP and touch only XP and the prompt |
| Store.Dedup | lib/store.ts:207-209 | `Array.from(new Set(xs))` keeps each element once and loses none |
| Store.HydrateFromDb | lib/store.ts:201-210 | every present field overwrites; the profile merges key-wise with incoming values winning; achievements become the duplicate-free union; absent fields are untouched |
| StoreLaws.RaiseSkillsCounts | lib/store.ts:76-83 | a skill listed `c` times ends at `min(100, old + c * amount)`, because the loop re-reads the updated profile |
| StoreLaws.RaiseOnceMore | lib/store.ts:79-81 | capping after each step equals capping once at the end (for a non-negative amount) |
| StoreLaws.CapTwice | lib/store.ts:79-81 | two capped raises are one capped raise by the combined amount |
| StoreLaws.VisualClampScenario | lib/store.ts:76-83 | from the initial 10, two raises of 60 give 70 and then the cap 100 |
| StoreLaws.PromptLatches | lib/store.ts:127-138 | a raised prompt stays raised; a gain from 950 to 1050 since the last diagnostic raises it |
| StoreLaws.DiagnosticRestartsCountdown | lib/store.ts:89-94 | after a score is recorded, the prompt comes back only after 1000 more XP; dismissing always hides it |
| StoreLaws.DismissKeepsCountdown | lib/store.ts:127-140 | dismissing hides the prompt without restarting the countdown: the next gain brings it back while the gap since the last diagnostic is 1000 or more |
| StoreLaws.StreakOncePerDay | lib/store.ts:108-118 | a second streak call on the same day changes nothing, and the streak never drops |
| StoreLaws.DailyResetIdempotent | lib/store.ts:96-106 | a second reset on the same day changes nothing |
| StoreLaws.DailyResetScenario | lib/store.ts:96-106 | a challenge completed today survives a same-day reset and is cleared on the next day |
| StoreLaws.CompleteChallengeIdempotent | lib/store.ts:120-125 | completing the same challenge twice is completing it once |
| StoreLaws.ResetIdempotent | lib/store.ts:189-199 | resetting a fresh store gives the fresh store, and resetting twice is resetting once |
| StoreLaws.EligibleIgnoresForeignId | lib/store.ts:169-171 | an unlocked id outside the catalog does not affect what becomes eligible |
| StoreLaws.ScanIsEligible | lib/store.ts:166-178 | the loop, which also skips ids it has just added, yields exactly the reference set when catalog ids are distinct |
| StoreLaws.EligibleNoDuplicates | lib/store.ts:166-178 | the ids unlocked by one call are pairwise distinct |
| StoreLaws.CheckAchievementsSpec | lib/store.ts:155-185 | one call unlocks exactly the eligible entries in catalog order, appends their ids, adds their rewards to XP, and changes nothing but XP, prompt and unlocked list |
| StoreLaws.SetLevelUnlocks | lib/store.ts:155-187 | after `setLevel(k)` the next check unlocks a level entry exactly when it is new and its threshold is at most `k`; other entries unlock as they would have before |
| StoreLaws.SetLevelUnlocksMain | lib/store.ts:155-187 | the same for the main catalog |
| StoreLaws.AddRewardsPrompt | lib/store.ts:127-138 | after several non-negative rewards the prompt is up iff it already was or the total gain reaches 1000 |
| StoreLaws.RewardSumNonNegative | lib/gamification/achievements.ts:22-192 | rewards that are each non-negative add up to a non-negative total |
| StoreLaws.CheckAchievementsPrompt | lib/store.ts:155-185 | the prompt is raised by a call iff something unlocked and the new XP is 1000 past the last diagnostic, or it was already up |
| StoreLaws.CheckAchievementsFull | lib/store.ts:155-185 | with positive rewards, the unlocked ids are new, distinct and in catalog order, and the prompt follows the 1000-XP rule |
| StoreLaws.SecondCallUnlocksOnlyXp | lib/store.ts:157-164 | whatever a second call unlocks is an XP achievement that failed before the first call's rewards and holds after them |
| StoreLaws.SecondCallWinner | lib/store.ts:157-164 | the same fact for one catalog entry named by its index |
| StoreLaws.DedupOfDistinct | lib/store.ts:207-209 | deduplicating a duplicate-free list returns it unchanged |
| StoreLaws.DedupKeepsPrefix | lib/store.ts:207-209 | a merged list keeps the local entries first, in their order |
| StoreLaws.HydrateAchievementsUnion | lib/store.ts:207-209 | after hydration the local achievements are a prefix of the merged list |
| StoreLaws.HydrateAchievementsExample | lib/store.ts:207-209 | local `[b, c]` merged with incoming `[a, b]` gives `[b, c, a]` |
| StoreLaws.HydrateEmptyPatch | lib/store.ts:201-210 | an empty payload leaves the store as it was |
| MonocleStore.InitialState | monocle/lib/store.ts:49-68 | level 1, no XP, no streak, nothing unlocked, empty history, every skill at 10 |
| MonocleStore.UpdatesStayCapped | monocle/lib/store.ts:70-77 | no sequence of profile updates lifts a skill above 100; an unnamed skill and the rest of the store are untouched |
| MonocleStore.StreakCountsDateChanges | monocle/lib/store.ts:98-108 | over a run of practice days the streak grows by the number of date changes, at most one per call |
| MonocleStore.SessionsAccumulate | monocle/lib/store.ts:132-143 | `n` sessions on one day add `n` to the total and to that day's bucket only |
| MonocleStore.CheckAchievementsMonocle | monocle/lib/store.ts:145-175 | with the monocle catalog a call unlocks exactly the new eligible ids, appends them, and applies the 1000-XP prompt rule |
| MonocleStore.FirstSessionUnlocksInitiate | monocle/lib/store.ts:145-175 | the first session on a fresh store unlocks `initiate` alone and earns its 50 XP |
| MonocleStore.ResetKeepsEarnings | monocle/lib/store.ts:179-189 | a reset keeps achievements, sessions, history and profile, so a later check never re-unlocks an earned id |
| Achievements.DistinctByFingerprint | lib/gamification/achievements.ts:22-192 | entries whose id fingerprints differ have different ids |
| Achievements.CatalogIdsDistinct | lib/gamification/achievements.ts:22-192 | the 18 main catalog ids are pairwise distinct |
| Achievements.MonocleIdsDistinct | monocle/lib/gamification/achievements.ts:22-82 | the 6 monocle ids are pairwise distinct |
| Achievements.IndexOfDistinct | lib/gamification/achievements.ts:22-192 | in a catalog with distinct ids, looking an entry up by its id finds that very entry |
| Achievements.ConditionMonotone | lib/gamification/achievements.ts:29-189 | raising the stats never turns a condition false |
| Achievements.ConditionIgnoresPlaceholders | lib/gamification/achievements.ts:13-20 | no condition reads `perfectScores` or `totalTimeTyped` |
| Achievements.TiersNest | lib/gamification/achievements.ts:24-191 | within each family a higher tier's condition implies the lower tier's |
| Achievements.CatalogThresholds | lib/gamification/achievements.ts:24-191 | streak thresholds 3/7/30/100, levels 2-5, sessions 1/10/50/100/500, XP 1000/5000/10000/50000/100000 |
| Achievements.RewardsPositive | monocle/lib/gamification/achievements.ts:30-79 | every reward in both catalogs is positive |
| Achievements.FoundInCatalog | lib/gamification/achievements.ts:22-192 | every main entry is found by its own id |
| Achievements.MonocleEntryMatches | monocle/lib/gamification/achievements.ts:24-81 | each monocle entry equals the main entry with the same id, in metric, threshold, reward and rarity |
| Achievements.MonocleMatchesMain | monocle/lib/gamification/achievements.ts:22-82 | the monocle catalog is a sub-catalog of the main one |
| Dice.Opposite | lib/visuals/DiceLogic.ts:11-13 | the `OPPOSITE` table pairs each face with the one it adds up to 7 with |
| Dice.OppositeInvolution | lib/visuals/DiceLogic.ts:11-13 | the opposite of the opposite is the face itself; no face is its own opposite |
| Dice.MoveInverse | lib/visuals/DiceLogic.ts:20-186 | forward/backward, right/left and spin right/left undo each other in both orders |
| Dice.FourTurnsIdentity | lib/visuals/DiceLogic.ts:20-186 | every move applied four times restores the die; the rolls left/right and the spins never restore it in two |
| Dice.HalfTurnForward | lib/visuals/DiceLogic.ts:20-50 | two forward rolls turn top and front over and never restore the die |
| Dice.AxisFacePreserved | lib/visuals/DiceLogic.ts:48-183 | rolls forward/backward keep the right face, rolls right/left keep the front, spins keep the top |
| Dice.AdjacentAxes | lib/visuals/DiceLogic.ts:11-13 | two faces are adjacent exactly when they lie on different axes |
| Dice.PermutationSwaps | lib/visuals/DiceLogic.ts:20-186 | exchanging two axes flips the orientation sign |
| Dice.MovePreservesReachable | lib/visuals/DiceLogic.ts:20-186 | every move keeps three pairwise adjacent faces and the handedness of the die |
| Dice.RollForwardKeeps | lib/visuals/DiceLogic.ts:20-50 | a forward roll keeps validity and handedness |
| Dice.RollBackwardKeeps | lib/visuals/DiceLogic.ts:52-63 | a backward roll keeps validity and handedness |
| Dice.RollRightKeeps | lib/visuals/DiceLogic.ts:65-89 | a right roll keeps validity and handedness |
| Dice.RollLeftKeeps | lib/visuals/DiceLogic.ts:91-106 | a left roll keeps validity and handedness |
| Dice.SpinRightKeeps | lib/visuals/DiceLogic.ts:139-171 | a right spin keeps validity and handedness |
| Dice.SpinLeftKeeps | lib/visuals/DiceLogic.ts:173-186 | a left spin keeps validity and handedness |
| Dice.MovesStayReachable | lib/visuals/DiceLogic.ts:20-186 | any sequence of moves keeps a real die's orientation real |
| Dice.HomeIsReachable | components/exercises/MentalAbacus.tsx:40 | the home state 1-2-3 is a real die; its mirror 1-2-4 is valid but unreachable |
| Dice.RollRightExample | lib/visuals/DiceLogic.ts:108-137 | rolling the home die right gives top 4, front 2, right 1 |
| MentalAbacus.PuzzleIsReachable | components/exercises/MentalAbacus.tsx:38-68 | start and answer are real die orientations, and the inverse command leads back |
| MentalAbacus.InitialGame | components/exercises/MentalAbacus.tsx:25-27 | a session starts in round 1 with score 0, observing |
| MentalAbacus.ReadyKeepsAnswer | components/exercises/MentalAbacus.tsx:74-92 | going dark keeps the puzzle, so any answer then has exactly the outcome it would have had with the die still shown |
| MentalAbacus.SubmitAnswerStep | components/exercises/MentalAbacus.tsx:78-92 | a right answer earns one point and 25 XP, a wrong one nothing; before round 5 a new round starts, after it the summary shows |
| MentalAbacus.SessionXpMatchesSummary | components/exercises/MentalAbacus.tsx:94-95 | playing to the end, the store gains exactly the summary's `score * 25` XP, and accuracy lies within 0-100 |
| MentalAbacus.GetOppositeFaces | components/exercises/MentalAbacus.tsx:220-231 | the mesh's `7 - n` agrees with the `OPPOSITE` table on every face, and the three hidden faces it draws again form a valid die |
| MentalAbacus.PipsLayout | components/exercises/MentalAbacus.tsx:248-258 | a face 1-6 has that many distinct pips on the half-unit grid, symmetric under a half turn; other values have none |
| Modules.ModulesWellFormed | lib/modules.ts:18-186 | sixteen modules with pairwise distinct ids |
| DailyModules.CodeUnits | lib/modules.ts:191-192 | `charCodeAt` walks UTF-16 units; a BMP string gives its own characters |
| DailyModules.ShiftSubtractIsTimes31 | lib/modules.ts:192 | `(h << 5) - h` is `31 * h` modulo 2^32 |
| DailyModules.DateHashAppend | lib/modules.ts:190-194 | the hash of the empty string is 0, and one more character folds as `31 * h + code` with 32-bit wrap-around |
| DailyModules.CodeUnitsAppend | lib/modules.ts:191-192 | appending a BMP character appends its code unit |
| DailyModules.PickIndex | lib/modules.ts:201-207 | the drawn index is `floor(u / 2^32 * 16)`: the one `i` with `i * 2^28 <= u < (i + 1) * 2^28`, so it lies below the module count |
| DailyModules.Picks | lib/modules.ts:197-202 | the `i`-th pick is the `i`-th call of the generator |
| DailyModules.IndexSet | lib/modules.ts:205-207 | the index set after `k` draws has no duplicates and at most `k` members |
| DailyModules.IndexSetIsFirsts | lib/modules.ts:205-208 | the set is the picks' first occurrences in drawing order |
| DailyModules.IndexSetInRange | lib/modules.ts:207 | every index in the set is below the module count |
| DailyModules.CollectIndices | lib/modules.ts:205-208 | the loop stops on the first draw that completes three indices; within the fuel it either returns them or the set was never full |
| DailyModules.AddDraw | lib/modules.ts:207 | one draw grows the set by at most one index |
| DailyModules.LoopExit | lib/modules.ts:206 | where the loop exits, the result is the first full set or proof that none filled |
| DailyModules.FirstFull | lib/modules.ts:206 | the first full set has exactly three indices, after at least one draw |
| DailyModules.IndexSetStep | lib/modules.ts:207 | `Set.add` grows the set by at most one |
| DailyModules.SmallBefore | lib/modules.ts:206 | a short set was short at every earlier count |
| DailyModules.SetGrows | lib/modules.ts:205-208 | the set never shrinks as draws go on |
| DailyModules.ModulesAt | lib/modules.ts:210 | each index maps to the module at that position |
| DailyModules.GetDailyModules | lib/modules.ts:188-211 | three modules with distinct ids, all from the catalog, given by the first full index set of the date's generator |
| DailyModules.DrawCountIsDetermined | lib/modules.ts:188-211 | the stopping draw is unique, so one date always gives one answer |
| Decimal.DigitChar | monocle/app/training/page.tsx:66 | a digit's character reads back as that digit |
| Decimal.ToDecimal | lib/visuals/MemoryLogic.ts:117 | `toString` of a natural is a non-empty digit string, one digit long exactly below 10 |
| Decimal.ParsePrinted | lib/content.ts:37 | `parseInt` of a printed number gives the number back |
| Decimal.PrintInjective | lib/visuals/MemoryLogic.ts:160 | different numbers print differently, so a `Set` of printed numbers counts distinct numbers |
| TrainingPage.Digits | monocle/app/training/page.tsx:66 | `replace(/\D/g, '')` leaves only digits and never lengthens the text |
| TrainingPage.DigitsMembers | monocle/app/training/page.tsx:66 | the kept characters are exactly the text's digits |
| TrainingPage.ParseLevel | monocle/app/training/page.tsx:66 | a label yields no level exactly when it has no digit (`parseInt('')` is NaN) |
| TrainingPage.ParseLevelOfLabel | monocle/app/training/page.tsx:66-74 | a number between digit-free text reads back as that number |
| TrainingPage.DigitsOfConcat | monocle/app/training/page.tsx:66 | the digits of two texts are the digits of each, in order |
| TrainingPage.ModulesByLevel | monocle/app/training/page.tsx:64-69 | a module is in the band's list exactly when its parsed level lies in the band |
| TrainingPage.UnlockIsMonotone | monocle/app/training/page.tsx:74-75 | a higher user level never locks a module a lower one unlocked |
| TrainingPage.LevelLabel | monocle/app/training/page.tsx:74 | `Level n` and `Level n+` both require level `n` |
| TrainingPage.CatalogLabel | lib/modules.ts:18-186 | each label the catalog uses parses, and "Level 2+" parses to 2 |
| TrainingPage.ModuleLabels | lib/modules.ts:18-186 | every module's label is one of Level 1, 2, 2+, 3 or 4 |
| TrainingPage.ModuleLevelRange | lib/modules.ts:18-186 | every module requires a level from 1 to 4 |
| TrainingPage.SectionsPartition | monocle/app/training/page.tsx:112-115 | a module whose level parses to 1-5 appears in exactly one section; one without digits in none |
| TrainingPage.SectionsPartitionCatalog | monocle/app/training/page.tsx:112-115 | every catalog module appears in exactly one of the four sections |
| TrainingPage.LockingByUserLevel | monocle/app/training/page.tsx:74-75 | at level 4 nothing is locked; at level 1 exactly the non-level-1 modules are |
| Milestones.ModuleClickEffect | monocle/components/DailyChallenges.tsx:44-54 | a known id changes nothing; a new one adds the challenge and one session, and moves the streak only on the third |
| Milestones.NewClick | monocle/components/DailyChallenges.tsx:44-54 | the same effect stated for a new id alone |
| Milestones.ThreeClicksCompleteTheDay | monocle/components/DailyChallenges.tsx:29-54 | on a new day three distinct clicks complete the goal, reach 100%, add one streak day (unless already practised) and three sessions; a repeat click does nothing |
| Milestones.DistinctWithin | monocle/components/DailyChallenges.tsx:37-45 | distinct challenges drawn from three modules number at most three |
| Milestones.ProgressBounded | monocle/components/DailyChallenges.tsx:40-41 | progress lies within 0-100 and is 100 exactly when the day is complete |
| Milestones.LevelProgress | components/gamification/NextMilestone.tsx:24-27 | for non-negative XP the progress in the level lies in 0-999, the XP to the next level in 1-1000 and the percentage in 0-100; JavaScript `%` keeps the sign for negative XP |
| Milestones.PercentLabelRange | components/gamification/NextMilestone.tsx:47 | the rounded label lies within 0-100 and shows 0 on a level boundary |
| Milestones.NextAchievement | components/gamification/NextMilestone.tsx:30 | the next milestone is the first catalog entry not yet unlocked; there is none exactly when all are unlocked |
| Milestones.NextAfterUnlock | components/gamification/NextMilestone.tsx:30 | unlocking the shown milestone moves the card strictly further down the catalog |
| RotationLogic.DrawShape | monocle/lib/visuals/RotationLogic.ts:19-23 | the shape is one of the six blocks, never the cube |
| RotationLogic.DrawInitial | monocle/lib/visuals/RotationLogic.ts:35-36 | the start is a quarter turn |
| RotationLogic.DrawTarget | monocle/lib/visuals/RotationLogic.ts:39-40 | the turn asked for is 90, 180 or 270 degrees |
| RotationLogic.GeneratePuzzle | monocle/lib/visuals/RotationLogic.ts:29-81 | start and turn take their allowed values and the shape is a block |
| RotationLogic.TurnAngles | monocle/lib/visuals/RotationLogic.ts:43-67 | the subtract-once sums are the angles modulo 360; the answer differs from the start, and the three option angles are pairwise distinct |
| RotationLogic.Swap | monocle/lib/visuals/RotationLogic.ts:92 | the destructuring swap exchanges two entries and keeps the rest |
| RotationLogic.SwapKeepsElements | monocle/lib/visuals/RotationLogic.ts:92 | a swap keeps the elements and their distinctness |
| RotationLogic.ShuffleDown | monocle/lib/visuals/RotationLogic.ts:89-93 | the loop permutes the array and leaves the part above the cursor alone |
| RotationLogic.ShuffleDownKeepsElements | monocle/lib/visuals/RotationLogic.ts:89-93 | the loop keeps the elements and their distinctness |
| RotationLogic.ShuffleDownNoDuplicates | monocle/lib/visuals/RotationLogic.ts:89-93 | the loop keeps distinct elements distinct |
| RotationLogic.Shuffle | monocle/lib/visuals/RotationLogic.ts:87-95 | `shuffle` returns a permutation of its input |
| RotationLogic.ShuffleExample | monocle/lib/visuals/RotationLogic.ts:87-95 | with all-zero draws, `[1, 2, 3]` becomes `[2, 3, 1]` |
| RotationLogic.UnshuffledWellFormed | monocle/lib/visuals/RotationLogic.ts:49-72 | one option is correct and carries the answer about the y axis; the rotations are pairwise distinct |
| RotationLogic.RearrangedWellFormed | monocle/lib/visuals/RotationLogic.ts:79 | any duplicate-free rearrangement of well-formed options stays well formed |
| RotationLogic.ShuffledOptionsWellFormed | monocle/lib/visuals/RotationLogic.ts:49-79 | the shuffled options are the generated ones, still with exactly one correct |
| RotationLogic.PuzzleOptions | monocle/lib/visuals/RotationLogic.ts:25-81 | the axis is y, and the puzzle's options are the three generated ones with exactly one correct |
| Seqs.SetAdd | lib/modules.ts:207 | `Set.add` adds an element once, keeping insertion order |
| Seqs.Firsts | lib/store.ts:208 | building a `Set` from a list keeps each element once |
| Seqs.FirstsStep | lib/modules.ts:205-208 | building a set element by element agrees with building it from the whole list |
| Seqs.Reorder | lib/visuals/MemoryLogic.ts:129-134 | a random sort places the elements in some permuted order |
| Seqs.ReorderKeepsElements | lib/visuals/MemoryLogic.ts:129-134 | a random sort keeps the elements and their distinctness |
| Seqs.ReorderKeepsSingle | lib/visuals/MemoryLogic.ts:134 | an element present once is still present once after a random sort |
| MemoryLogic.Without | lib/visuals/MemoryLogic.ts:127 | the filter drops exactly the correct answer, once when the pool is duplicate-free |
| MemoryLogic.GenerateOptionsSpec | lib/visuals/MemoryLogic.ts:125-135 | the correct answer once, plus up to three other pool items; distinct when the pool is |
| MemoryLogic.SelectedOptions | lib/visuals/MemoryLogic.ts:131-134 | the correct answer followed by a slice of the wrong ones contains it once and nothing from outside the pool |
| MemoryLogic.DistinctByKeys | lib/visuals/MemoryLogic.ts:22-23 | names whose keys differ are different |
| MemoryLogic.CatalogDistinct | lib/visuals/MemoryLogic.ts:22-23 | the colours and the types are duplicate-free lists of at least four |
| MemoryLogic.OptionsFromCatalog | lib/visuals/MemoryLogic.ts:95-108 | colour and shape questions get exactly four distinct options including the answer |
| MemoryLogic.Spread | lib/visuals/MemoryLogic.ts:143-149 | the offset range is 1, then 2 after 20 attempts, then 5 after 50 |
| MemoryLogic.Candidate | lib/visuals/MemoryLogic.ts:152-159 | a candidate is at least 1 and within the range of the correct count |
| MemoryLogic.RandomPhase | lib/visuals/MemoryLogic.ts:146-162 | the random loop only adds near values, stays duplicate-free and stops at four |
| MemoryLogic.Fallback | lib/visuals/MemoryLogic.ts:165-172 | the fallback reaches four values, may overshoot to five, and adds only values within 9 of the count |
| MemoryLogic.NumericValuesSpec | lib/visuals/MemoryLogic.ts:137-172 | four or five distinct values including the count, five only when the fallback ran |
| MemoryLogic.Printed | lib/visuals/MemoryLogic.ts:141-169 | each value is stored as its decimal text |
| MemoryLogic.PrintedKeepsValues | lib/visuals/MemoryLogic.ts:141-174 | the printed texts are distinct and are exactly the values' texts |
| MemoryLogic.NumericOptionsSpec | lib/visuals/MemoryLogic.ts:137-175 | count options are four or five distinct decimal texts of numbers at least 1, including the answer |
| MemoryLogic.PrintedOptions | lib/visuals/MemoryLogic.ts:174 | shuffling the printed set keeps it distinct and keeps the answer |
| MemoryLogic.MakeObjectsSpec | lib/visuals/MemoryLogic.ts:43-77 | the objects are numbered 0 to n-1 in order, each with a known type and colour |
| MemoryLogic.CountSame | lib/visuals/MemoryLogic.ts:90-91 | a same-type or same-colour count is at most the number of objects, and positive exactly when some object shares the value |
| MemoryLogic.ScenarioSpec | lib/visuals/MemoryLogic.ts:28-123 | a scenario exists iff there is an object; then there are `3 + difficulty` objects and the question follows the unique-type, unique-colour, count branches |
| FaceBuilder.ModeGovernsFlashes | components/exercises/FaceBuilder.tsx:147-172 | the mode chosen on the intro screen survives the start and every flash: binding shows one feature at the mouth flash, chaining all three |
| FaceBuilder.StartRound | components/exercises/FaceBuilder.tsx:27-35 | a new round draws one feature of each kind and begins flashing the eyes |
| FaceBuilder.FlashPhaseOrder | components/exercises/FaceBuilder.tsx:38-56 | the timer moves eyes, nose, mouth, assemble one step at a time and leaves other phases alone |
| FaceBuilder.OtherThan | components/exercises/FaceBuilder.tsx:78-88 | the filter keeps exactly the features with another id |
| FaceBuilder.CandidatesSpec | components/exercises/FaceBuilder.tsx:70-95 | the target, a copy with other eyes and a copy with another mouth; only the first matches |
| FaceBuilder.ArrangedOneMatch | components/exercises/FaceBuilder.tsx:96 | after the random sort exactly one choice still matches |
| FaceBuilder.ChoicesSpec | components/exercises/FaceBuilder.tsx:70-101 | three choices: the target and two one-feature variants, exactly one matching |
| FaceBuilder.ExactlyOneMatchingChoice | components/exercises/FaceBuilder.tsx:78-109 | with the app's feature lists exactly one choice passes the all-ids test |
| FaceBuilder.AssembleStep | components/exercises/FaceBuilder.tsx:59-68 | the assemble pause leads to verification and fills in the choices |
| FaceBuilder.AssembleChoices | components/exercises/FaceBuilder.tsx:59-68 | the choices shown at verification contain the target exactly once as a match |
| FaceBuilder.HandleChoiceStep | components/exercises/FaceBuilder.tsx:103-122 | a correct choice earns one point and 25 XP; before round 5 the next round flashes, after it the result shows |
| FaceBuilder.ChoiceWithoutTarget | components/exercises/FaceBuilder.tsx:104 | without a target a choice does nothing |
| FaceBuilder.PerfectRoundsReachResult | components/exercises/FaceBuilder.tsx:103-122 | picking the match in every remaining round reaches the result screen at round 5 with one point and 25 XP per round |
| FaceBuilder.RestartThenPerfectSession | components/exercises/FaceBuilder.tsx:124-128 | after a restart and a new round, five matching picks give the full score 5 and 125 XP, in the mode kept through the restart |
| FaceBuilder.Shown | components/exercises/FaceBuilder.tsx:170-172 | at most three features are drawn |
| FaceBuilder.VisibilityRules | components/exercises/FaceBuilder.tsx:170-172 | bind mode shows only the flashed feature; chain mode shows every feature flashed so far |
| Questionnaire.HandleNext | components/exercises/VVIQAssessment.tsx:31-51 | without a rating nothing happens; otherwise the rating is appended and cleared, and the cursor stays inside the groups |
| Questionnaire.NextKeepsCount | components/exercises/VVIQAssessment.tsx:38-50 | the cursor advances item by item and group by group, and finishing happens exactly at the last item |
| Questionnaire.RunFinishesAtTotal | components/exercises/VVIQAssessment.tsx:31-51 | the assessment finishes exactly after as many ratings as there are items, with those ratings as answers |
| Questionnaire.RunFromStart | components/exercises/VVIQAssessment.tsx:28-51 | from the start the first `totalItems` ratings are the answers |
| Questionnaire.VviqTotal | lib/vviqData.ts:7-48 | the VVIQ has 16 items |
| Questionnaire.SumBounds | lib/vviqData.ts:50 | ratings of 1-5 sum to between the count and five times it |
| Questionnaire.VviqLevel | components/exercises/VVIQAssessment.tsx:62-65 | the level is 1-4 |
| Questionnaire.VviqLevelMonotone | components/exercises/VVIQAssessment.tsx:62-65 | a higher score never gives a lower level |
| Questionnaire.VviqBands | components/exercises/VVIQAssessment.tsx:57-65 | 16-32, 33-48, 49-64, 65-80 give levels 1, 2, 3, 4 |
| Questionnaire.FinishVviq | components/exercises/VVIQAssessment.tsx:53-68 | the score is the sum, the level its band, and the diagnostic countdown restarts |
| Questionnaire.Retake | components/exercises/VVIQAssessment.tsx:94-100 | retaking clears the score, keeps the level and returns to the first item |
| Questionnaire.VviqAssessment | components/exercises/VVIQAssessment.tsx:28-67 | the VVIQ completes exactly after 16 ratings, and its score lies within 16-80 |
| Questionnaire.ScenariosFor | components/exercises/SensoryAssessment.tsx:23 | the filter keeps only scenarios of the modality |
| Questionnaire.ScenariosForMembers | components/exercises/SensoryAssessment.tsx:23 | the filter keeps exactly the scenarios of the modality |
| Questionnaire.ScenarioCounts | lib/assessmentData.ts:11-87 | cognitive and focus have no scenarios; the other modalities have two of four items each |
| Questionnaire.RatioBounds | components/exercises/SensoryAssessment.tsx:82-84 | ratings of 1-5 give a ratio within 0.2-1 of the maximum |
| Questionnaire.NormalizeRange | components/exercises/SensoryAssessment.tsx:82-84 | the normalised score lies within 20-100 and reaches both ends |
| Questionnaire.NormalizeMonotone | components/exercises/SensoryAssessment.tsx:84 | a higher sum never gives a lower score |
| Questionnaire.SensoryAssessmentSpec | components/exercises/SensoryAssessment.tsx:23-89 | no assessment for cognitive or focus; the others complete after eight ratings and write a 20-100 score to their own key only |
| Questionnaire.SensoryTotal | lib/assessmentData.ts:11-87 | two scenarios of four items make eight |
| Questionnaire.FinishSensoryRange | components/exercises/SensoryAssessment.tsx:77-89 | eight ratings of 1-5 give a 20-100 score on the assessed key, and nothing else changes |
| SessionGenerator.GenerateSession | lib/visuals/SessionGenerator.ts:22-73 | the colour is white or from the palette; an angle is a fraction of pi in `[0, 1)` |
| SessionGenerator.SessionByLevel | lib/visuals/SessionGenerator.ts:22-73 | level 1 gives a 30 s gabor or a 45 s sphere/cube; level 2 a 60 s wireframe; others a 60 s sphere, cube or wireframe |
| SessionGenerator.GaborOnlyAtLevelOne | lib/visuals/SessionGenerator.ts:24-36 | gabor only at level 1, and it alone is white, 30 s long and has an angle |
| SessionGenerator.DescriptionNamesShape | lib/visuals/SessionGenerator.ts:39-47 | the level-1 description names the shape shown |
| SessionGenerator.EveryShapeReachable | lib/visuals/SessionGenerator.ts:22-73 | each shape a level allows is produced by some draws |
| Content.QuotedFromSpec | lib/content.ts:29-31 | the lazy `(.*?)"` capture is the text up to the first quote, and never crosses a line end |
| Content.FindFieldSpec | lib/content.ts:29-31 | a field is found at the leftmost match of its pattern, and none when the pattern never matches |
| Content.FieldReadBack | lib/content.ts:29-34 | a field written as `key: "v"` reads back as `v` |
| Content.DigitsEnd | lib/content.ts:32 | `\d+` takes the longest digit run |
| Content.OrderAbsent | lib/content.ts:32-37 | no order is read exactly when `order: ` is never followed by a digit |
| Content.OrderReadBack | lib/content.ts:32-37 | `order: n` reads back as `n` |
| Content.DigitsRun | lib/content.ts:32 | a digit run followed by a non-digit is matched whole |
| Content.FindFrom | lib/content.ts:40 | the search finds the leftmost occurrence from a position, or proves there is none |
| Content.StripLeadingBlock | lib/content.ts:40 | a leading frontmatter block is removed up to its closing fence |
| Content.TrimStart | lib/content.ts:40 | removes exactly the leading white space |
| Content.TrimEnd | lib/content.ts:40 | removes exactly the trailing white space |
| Content.Trim | lib/content.ts:40 | the result begins and ends with no white space |
| Content.TrimPadded | lib/content.ts:40 | trimming padded text gives the text back |
| Content.TrimIdempotent | lib/content.ts:40 | trimming twice is trimming once |
| Content.SlugOfName | lib/content.ts:22 | the slug is the file name without a trailing `.md` |
| Content.ParseArticle | lib/content.ts:40-49 | the content never starts or ends with white space |
| Content.ParseDefaults | lib/content.ts:29-40 | with no fields, title is the slug, description empty, category General, order 99, and the content is the trimmed text |
| Content.Insert | lib/content.ts:53 | inserting keeps every article |
| Content.InsertSorted | lib/content.ts:53 | insertion keeps the list sorted by order |
| Content.SortByOrder | lib/content.ts:53 | the listing is a permutation of the articles, sorted by order |
| Content.SortStable | lib/content.ts:53 | articles with equal order keep their file order, as `Array.prototype.sort` is stable |
| Content.InsertStable | lib/content.ts:53 | insertion puts an article after every article of the same order |
| Content.GetAllArticles | lib/content.ts:16-54 | the listing holds every parsed file, sorted by order |
| Content.LookupMatchesListing | lib/content.ts:56-83 | looking an article up by slug gives the same article the listing holds for its file |

## Left out

- File-system access, persistence (`zustand/persist`), the database sync and server actions are I/O. The article listing takes
  the files as a list, and the lookup takes the file's contents or their absence.
- Timers, audio, 3D rendering, canvas drawing and object positions are presentation. This includes the memory scene's
  collision loop, which only decides where objects stand.
- `d2r` and every radian value are floating point. Rotation options carry their angle in degrees, and the gabor angle is
  kept as its multiple of pi.
- DailyModules.CollectIndices: the `while (indices.size < 3)` loop has no bound in the code. The model takes a `fuel` bound
  on the number of draws and returns `None` when the fuel runs out, stating that the set never filled.
- DailyModules.PickIndex: the generator's `hash +=` is a double in JavaScript. Every use goes through a 32-bit conversion,
  so the model's `bv32` wrap-around is exact only while the accumulated value stays below 2^53, about 2^20 draws.
- The comparator `() => Math.random() - 0.5` does not define a consistent order, so its result depends on the engine's
  sort algorithm. The model takes the resulting order as an input (any permutation).
- Decimal.ParsePrinted: `parseInt` on a very long digit run loses precision as a double. The model reads it as an exact natural.
- Content.FindFieldSpec: the regular expressions run over UTF-16 code units and the model over characters. The two agree on
  text without characters above U+FFFF.
- MemoryLogic.ScenarioSpec: with `3 + difficulty <= 0` the code reads a property of `undefined` and throws. The model
  returns `None` there.
- FaceBuilder.ChoicesSpec: the `|| EYES[0]` and `|| MOUTHS[0]` fallbacks are modelled, but the property is proved only for
  lists that offer another feature. With a one-entry list the fallback repeats the target, and no "exactly one match" holds.
- Questionnaire.Normalize: `Math.round((sum / maxScore) * 100)` rounds a double, and the model rounds the exact ratio. The two
  differ where the double lands just below a half: ratings summing to 23 over 8 items give 57 in the app and 58 in the model.
  The range and monotonicity contracts hold under both.
- Milestones.LevelProgress: the label `Math.round(progressPercent)` rounds a double, and the model rounds the exact ratio. For
  `xp % 1000` equal to 145, 285, 565 or 575 the app shows 14, 28, 56 and 57 and the model 15, 29, 57 and 58. The bounds hold
  under both.
- The monocle training page and daily challenges import the module catalog from monocle's own `lib/modules.ts`, which is not
  part of this model. Its catalog is taken to be the root `lib/modules.ts` (TrainingPage.CatalogLabel, ModuleLabels,
  ModuleLevelRange, SectionsPartitionCatalog and LockingByUserLevel, and the Milestones click rows, rest on that).
- The `perfectScores` and `totalTimeTyped` fields are always 0 in the snapshot, as in the code. No condition reads them.
