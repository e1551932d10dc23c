/**
 * The Face Studio exercise: a target face of three features is flashed one
 * feature at a time, held in mind, and then picked out of three faces
 * that differ from it in the eyes or the mouth.  Timers become explicit
 * steps and every `Math.random()` draw is a parameter.
 */
module FaceBuilder {
  import opened Wrappers
  import opened JsMath
  import opened Seqs
  import Store

  /** A drawable feature; only its id matters to the logic (the SVG path is not modelled). */
  datatype FaceFeature = FaceFeature(id: string)

  const EYES: seq<FaceFeature> := [FaceFeature("eyes-almond"), FaceFeature("eyes-round"), FaceFeature("eyes-tired")]
  const NOSES: seq<FaceFeature> := [FaceFeature("nose-button"), FaceFeature("nose-straight"), FaceFeature("nose-wide")]
  const MOUTHS: seq<FaceFeature> := [FaceFeature("mouth-smile"), FaceFeature("mouth-frown"), FaceFeature("mouth-neutral")]

  datatype Face = Face(eyes: FaceFeature, nose: FaceFeature, mouth: FaceFeature)

  datatype Mode = Bind | Chain

  datatype Phase = Intro | FlashEyes | FlashNose | FlashMouth | Assemble | Verification | Result

  datatype Game = Game(mode: Mode, phase: Phase, target: Option<Face>, score: int, round: int, choices: seq<Face>)

  const MAX_ROUNDS := 5
  const XP_PER_CORRECT := 25

  /** The component as mounted. */
  const INITIAL_GAME := Game(Bind, Intro, None, 0, 1, [])

  /** `setMode`, offered on the intro screen. */
  function SetMode(g: Game, m: Mode): (r: Game)
    ensures r.mode == m && r == g.(mode := r.mode)
  {
    g.(mode := m)
  }

  // ---------------------------------------------------------------------------
  // Rounds and phases

  /** The three draws that pick the target's eyes, nose and mouth. */
  datatype TargetDraws = TargetDraws(eyes: real, nose: real, mouth: real)

  predicate ValidTargetDraws(d: TargetDraws) {
    IsDraw(d.eyes) && IsDraw(d.nose) && IsDraw(d.mouth)
  }

  /** `startRound`: a random target, and the first feature flashes. */
  function StartRound(g: Game, d: TargetDraws): (r: Game)
    requires ValidTargetDraws(d)
    ensures r.phase == FlashEyes && r.target.Some?
    ensures r.target.value.eyes in EYES && r.target.value.nose in NOSES && r.target.value.mouth in MOUTHS
    ensures r == g.(phase := FlashEyes, target := r.target)
  {
    g.(phase := FlashEyes, target := Some(Face(PickFrom(EYES, d.eyes), PickFrom(NOSES, d.nose), PickFrom(MOUTHS, d.mouth))))
  }

  /** The flash timer running out: eyes, then nose, then mouth, then the assemble pause. */
  function FlashTimeout(g: Game): Game {
    match g.phase
    case FlashEyes => g.(phase := FlashNose)
    case FlashNose => g.(phase := FlashMouth)
    case FlashMouth => g.(phase := Assemble)
    case _ => g
  }

  /** Position of a phase in a round. */
  function PhaseIndex(p: Phase): nat {
    match p
    case Intro => 0
    case FlashEyes => 1
    case FlashNose => 2
    case FlashMouth => 3
    case Assemble => 4
    case Verification => 5
    case Result => 6
  }

  /**
   * The flash timer moves a flashing phase exactly one step forward and
   * leaves every other phase, and everything but the phase, alone; three
   * timeouts take a round from the eyes to the assemble pause.
   */
  lemma FlashPhaseOrder(g: Game)
    ensures var r := FlashTimeout(g);
            && r == g.(phase := r.phase)
            && (g.phase in {FlashEyes, FlashNose, FlashMouth} ==> PhaseIndex(r.phase) == PhaseIndex(g.phase) + 1)
            && (g.phase !in {FlashEyes, FlashNose, FlashMouth} ==> r == g)
    ensures g.phase == FlashEyes ==>
            && FlashTimeout(g).phase == FlashNose
            && FlashTimeout(FlashTimeout(g)).phase == FlashMouth
            && FlashTimeout(FlashTimeout(FlashTimeout(g))).phase == Assemble
  {
  }

  /** The draws `generateChoices` consumes: the other eyes, the other mouth, and the arrangement of the three faces. */
  datatype ChoiceDraws = ChoiceDraws(eyes: real, mouth: real, order: seq<nat>)

  predicate ValidChoiceDraws(d: ChoiceDraws) {
    IsDraw(d.eyes) && IsDraw(d.mouth)
  }

  /** `options[Math.floor(Math.random() * options.length)] || fallback`. */
  function PickOther(options: seq<FaceFeature>, r: real, fallback: FaceFeature): FaceFeature
    requires IsDraw(r)
  {
    if |options| == 0 then fallback else PickFrom(options, r)
  }

  /** `list.filter(f => f.id !== id)`. */
  function OtherThan(list: seq<FaceFeature>, id: string): (r: seq<FaceFeature>)
    ensures forall f :: f in r <==> f in list && f.id != id
  {
    if |list| == 0 then []
    else
      var rest := OtherThan(list[1..], id);
      assert forall f :: f in list <==> f == list[0] || f in list[1..];
      if list[0].id != id then [list[0]] + rest else rest
  }

  /**
   * The three faces offered, before they are arranged: the target, the
   * target with other eyes, the target with another mouth.
   */
  function Candidates(eyes: seq<FaceFeature>, mouths: seq<FaceFeature>, t: Face, d: ChoiceDraws): seq<Face>
    requires ValidChoiceDraws(d) && |eyes| > 0 && |mouths| > 0
  {
    var otherEyes := PickOther(OtherThan(eyes, t.eyes.id), d.eyes, eyes[0]);
    var otherMouth := PickOther(OtherThan(mouths, t.mouth.id), d.mouth, mouths[0]);
    [t, t.(eyes := otherEyes), t.(mouth := otherMouth)]
  }

  /** `generateChoices` for feature lists `eyes` and `mouths`. */
  function GenerateChoices(eyes: seq<FaceFeature>, mouths: seq<FaceFeature>, t: Face, d: ChoiceDraws): seq<Face>
    requires ValidChoiceDraws(d) && |eyes| > 0 && |mouths| > 0
  {
    Reorder(Candidates(eyes, mouths, t, d), d.order)
  }

  /** The id comparison `handleChoice` scores with. */
  predicate Matches(choice: Face, t: Face) {
    choice.eyes.id == t.eyes.id && choice.nose.id == t.nose.id && choice.mouth.id == t.mouth.id
  }

  /**
   * Before arranging: the target first, then a copy with eyes of another
   * id, then a copy with a mouth of another id, when the lists offer them;
   * only the first matches the target.
   */
  lemma CandidatesSpec(eyes: seq<FaceFeature>, mouths: seq<FaceFeature>, t: Face, d: ChoiceDraws)
    requires ValidChoiceDraws(d) && |eyes| > 0 && |mouths| > 0
    requires exists e :: e in eyes && e.id != t.eyes.id
    requires exists m :: m in mouths && m.id != t.mouth.id
    ensures var all := Candidates(eyes, mouths, t, d);
            && |all| == 3 && all[0] == t
            && all[1] == t.(eyes := all[1].eyes) && all[1].eyes in eyes && all[1].eyes.id != t.eyes.id
            && all[2] == t.(mouth := all[2].mouth) && all[2].mouth in mouths && all[2].mouth.id != t.mouth.id
            && forall k :: 0 <= k < 3 ==> (Matches(all[k], t) <==> k == 0)
  {
    var e :| e in eyes && e.id != t.eyes.id;
    assert e in OtherThan(eyes, t.eyes.id);
    var m :| m in mouths && m.id != t.mouth.id;
    assert m in OtherThan(mouths, t.mouth.id);
  }

  /** Arranging faces of which only the first matches leaves exactly one match. */
  lemma ArrangedOneMatch(all: seq<Face>, t: Face, order: seq<nat>)
    requires |all| == 3 && forall k :: 0 <= k < 3 ==> (Matches(all[k], t) <==> k == 0)
    ensures var cs := Reorder(all, order);
            && (exists i :: 0 <= i < 3 && Matches(cs[i], t))
            && (forall i, j :: 0 <= i < 3 && 0 <= j < 3 && Matches(cs[i], t) && Matches(cs[j], t) ==> i == j)
  {
    var cs := Reorder(all, order);
    ReorderKeepsElements(all, order);
    assert all[0] in cs;
    if IsPermutation(order, 3) {
      forall i, j | 0 <= i < 3 && 0 <= j < 3 && Matches(cs[i], t) && Matches(cs[j], t) ensures i == j {
        assert order[i] == 0 && order[j] == 0;
      }
    }
  }

  /**
   * The choices are the target, a copy differing only in the eyes and a
   * copy differing only in the mouth, in some order; when the lists offer
   * another eye id and another mouth id, exactly one choice matches the
   * target.
   */
  lemma ChoicesSpec(eyes: seq<FaceFeature>, mouths: seq<FaceFeature>, t: Face, d: ChoiceDraws)
    requires ValidChoiceDraws(d) && |eyes| > 0 && |mouths| > 0
    requires exists e :: e in eyes && e.id != t.eyes.id
    requires exists m :: m in mouths && m.id != t.mouth.id
    ensures var cs := GenerateChoices(eyes, mouths, t, d);
            && |cs| == 3
            && t in cs
            && (exists e :: e in eyes && e.id != t.eyes.id && t.(eyes := e) in cs)
            && (exists m :: m in mouths && m.id != t.mouth.id && t.(mouth := m) in cs)
            && (forall c :: c in cs ==> c == t || c == t.(eyes := c.eyes) || c == t.(mouth := c.mouth))
            && (exists i :: 0 <= i < 3 && Matches(cs[i], t))
            && (forall i, j :: 0 <= i < 3 && 0 <= j < 3 && Matches(cs[i], t) && Matches(cs[j], t) ==> i == j)
  {
    var all := Candidates(eyes, mouths, t, d);
    CandidatesSpec(eyes, mouths, t, d);
    ReorderKeepsElements(all, d.order);
    var cs := Reorder(all, d.order);
    assert all[0] in cs && all[1] in cs && all[2] in cs;
    ArrangedOneMatch(all, t, d.order);
  }

  /**
   * The face lists of the exercise each offer three different ids, so a
   * target drawn from them gets three choices of which exactly one matches.
   */
  lemma ExactlyOneMatchingChoice(t: Face, d: ChoiceDraws)
    requires ValidChoiceDraws(d) && t.eyes in EYES && t.mouth in MOUTHS
    ensures var cs := GenerateChoices(EYES, MOUTHS, t, d);
            && |cs| == 3 && t in cs
            && (exists i :: 0 <= i < 3 && Matches(cs[i], t))
            && (forall i, j :: 0 <= i < 3 && 0 <= j < 3 && Matches(cs[i], t) && Matches(cs[j], t) ==> i == j)
  {
    var e := if t.eyes == EYES[0] then EYES[1] else EYES[0];
    assert e in EYES && e.id != t.eyes.id;
    var m := if t.mouth == MOUTHS[0] then MOUTHS[1] else MOUTHS[0];
    assert m in MOUTHS && m.id != t.mouth.id;
    ChoicesSpec(EYES, MOUTHS, t, d);
  }

  /** The assemble pause ending: choices are generated (if there is a target) and verification starts. */
  function AssembleTimeout(g: Game, d: ChoiceDraws): (r: Game)
    requires ValidChoiceDraws(d)
  {
    if g.phase != Assemble then g
    else match g.target
      case None => g.(phase := Verification)
      case Some(t) => g.(phase := Verification, choices := GenerateChoices(EYES, MOUTHS, t, d))
  }

  /**
   * The assemble pause moves only the assemble phase, one step on to
   * verification, and changes nothing but the phase and the choices.
   */
  lemma AssembleStep(g: Game, d: ChoiceDraws)
    requires ValidChoiceDraws(d)
    ensures var r := AssembleTimeout(g, d);
            && r == g.(phase := r.phase, choices := r.choices)
            && (g.phase != Assemble ==> r == g)
            && (g.phase == Assemble ==> r.phase == Verification && PhaseIndex(r.phase) == PhaseIndex(g.phase) + 1)
            && (g.phase == Assemble && g.target.None? ==> r.choices == g.choices)
  {
    if g.phase != Assemble {
      assert AssembleTimeout(g, d) == g;
    } else if g.target.None? {
      assert AssembleTimeout(g, d) == g.(phase := Verification);
    } else {
      var cs := GenerateChoices(EYES, MOUTHS, g.target.value, d);
      assert AssembleTimeout(g, d) == g.(phase := Verification, choices := cs);
    }
  }

  /** With a target from the catalogs, the pause offers three choices of which exactly one matches. */
  lemma AssembleChoices(g: Game, d: ChoiceDraws)
    requires ValidChoiceDraws(d) && g.phase == Assemble && g.target.Some?
    requires g.target.value.eyes in EYES && g.target.value.mouth in MOUTHS
    ensures var t := g.target.value;
            var cs := AssembleTimeout(g, d).choices;
            && |cs| == 3 && t in cs
            && (exists i :: 0 <= i < 3 && Matches(cs[i], t))
            && (forall i, j :: 0 <= i < 3 && 0 <= j < 3 && Matches(cs[i], t) && Matches(cs[j], t) ==> i == j)
  {
    var t := g.target.value;
    assert AssembleTimeout(g, d).choices == GenerateChoices(EYES, MOUTHS, t, d);
    ExactlyOneMatchingChoice(t, d);
  }

  /**
   * `handleChoice(choice)`: a face matching the target scores a point and
   * 25 XP; then the next round starts, or the result screen after round 5.
   * Without a target nothing happens.
   */
  function HandleChoice(g: Game, store: Store.State, choice: Face, next: TargetDraws): (r: (Game, Store.State))
    requires ValidTargetDraws(next)
  {
    match g.target
    case None => (g, store)
    case Some(t) =>
      var correct := Matches(choice, t);
      var score := if correct then g.score + 1 else g.score;
      var store' := if correct then Store.AddXP(store, XP_PER_CORRECT) else store;
      if g.round < MAX_ROUNDS then
        (StartRound(g.(score := score, round := g.round + 1), next), store')
      else
        (g.(score := score, phase := Result), store')
  }

  /**
   * One choice: a match earns exactly one point and 25 XP, anything else
   * nothing; the store changes in nothing but XP and the prompt; before
   * round 5 the next round starts with its eyes flashing, after it the
   * result screen shows.
   */
  lemma HandleChoiceStep(g: Game, store: Store.State, choice: Face, next: TargetDraws)
    requires ValidTargetDraws(next) && g.target.Some?
    ensures var (g', store') := HandleChoice(g, store, choice, next);
            var correct := Matches(choice, g.target.value);
            && g'.score == g.score + (if correct then 1 else 0)
            && store'.xp == store.xp + (if correct then XP_PER_CORRECT else 0)
            && store' == store.(xp := store'.xp, showDiagnosticPrompt := store'.showDiagnosticPrompt)
            && (g.round < MAX_ROUNDS ==> g'.round == g.round + 1 && g'.phase == FlashEyes)
            && (g.round >= MAX_ROUNDS ==> g'.round == g.round && g'.phase == Result)
            && g'.mode == g.mode
  {
  }

  /** Without a target, a choice changes neither the game nor the store. */
  lemma ChoiceWithoutTarget(g: Game, store: Store.State, choice: Face, next: TargetDraws)
    requires ValidTargetDraws(next) && g.target.None?
    ensures HandleChoice(g, store, choice, next) == (g, store)
  {
  }

  /** `handleRestart`: back to the intro screen at round 1 with no score. */
  function Restart(g: Game): (r: Game)
    ensures r.round == 1 && r.score == 0 && r.phase == Intro
    ensures r == g.(round := 1, score := 0, phase := Intro)
  {
    g.(round := 1, score := 0, phase := Intro)
  }

  /** The summary screen's figures. */
  function XpEarned(score: int): int {
    score * XP_PER_CORRECT
  }

  /** Picking the matching face in every round, with `nexts[i]` drawing the target after the i-th choice. */
  function PlayPerfect(g: Game, store: Store.State, nexts: seq<TargetDraws>): (Game, Store.State)
    requires forall i :: 0 <= i < |nexts| ==> ValidTargetDraws(nexts[i])
    decreases |nexts|
  {
    if |nexts| == 0 || g.target.None? then (g, store)
    else
      var (g', store') := HandleChoice(g, store, g.target.value, nexts[0]);
      PlayPerfect(g', store', nexts[1..])
  }

  /**
   * From any round with a target, picking the matching face until the end
   * reaches the result screen with one point and 25 XP per remaining round.
   */
  lemma {:induction false} PerfectRoundsReachResult(g: Game, store: Store.State, nexts: seq<TargetDraws>)
    requires g.target.Some? && 1 <= g.round <= MAX_ROUNDS
    requires |nexts| == MAX_ROUNDS - g.round + 1
    requires forall i :: 0 <= i < |nexts| ==> ValidTargetDraws(nexts[i])
    ensures var (g', store') := PlayPerfect(g, store, nexts);
            && g'.phase == Result && g'.round == MAX_ROUNDS && g'.mode == g.mode
            && g'.score == g.score + |nexts|
            && store'.xp == store.xp + XP_PER_CORRECT * |nexts|
    decreases |nexts|
  {
    var (g1, store1) := HandleChoice(g, store, g.target.value, nexts[0]);
    HandleChoiceStep(g, store, g.target.value, nexts[0]);
    if g.round < MAX_ROUNDS {
      assert forall i :: 0 <= i < |nexts[1..]| ==> ValidTargetDraws(nexts[1..][i]) by {
        forall i | 0 <= i < |nexts[1..]| ensures ValidTargetDraws(nexts[1..][i]) {
          assert nexts[1..][i] == nexts[i + 1];
        }
      }
      PerfectRoundsReachResult(g1, store1, nexts[1..]);
    } else {
      assert nexts[1..] == [];
    }
  }

  /**
   * After a restart and a new round, five matching picks end on the result
   * screen with a full score of 5 and 125 XP gained, in the mode kept from
   * before the restart.
   */
  lemma RestartThenPerfectSession(g: Game, store: Store.State, d: TargetDraws, nexts: seq<TargetDraws>)
    requires ValidTargetDraws(d) && |nexts| == MAX_ROUNDS
    requires forall i :: 0 <= i < |nexts| ==> ValidTargetDraws(nexts[i])
    ensures var (g', store') := PlayPerfect(StartRound(Restart(g), d), store, nexts);
            && g'.phase == Result && g'.score == MAX_ROUNDS && g'.mode == g.mode
            && store'.xp == store.xp + XpEarned(MAX_ROUNDS)
  {
    PerfectRoundsReachResult(StartRound(Restart(g), d), store, nexts);
  }

  /**
   * The mode chosen on the intro screen governs the round that follows:
   * it survives the start and every flash, so binding shows one feature at
   * a time and chaining shows all three by the mouth flash.
   */
  lemma ModeGovernsFlashes(g: Game, m: Mode, d: TargetDraws)
    requires ValidTargetDraws(d)
    ensures var g1 := StartRound(SetMode(g, m), d);
            var g3 := FlashTimeout(FlashTimeout(g1));
            && g3.phase == FlashMouth && g3.mode == m
            && Shown(g3.mode, g3.phase) == (if m == Chain then 3 else 1)
            && FlashTimeout(g3).mode == m
  {
  }

  // ---------------------------------------------------------------------------
  // Visibility during the flashes

  predicate ShowEyes(m: Mode, p: Phase) {
    p == FlashEyes || (m == Chain && (p == FlashNose || p == FlashMouth))
  }

  predicate ShowNose(m: Mode, p: Phase) {
    p == FlashNose || (m == Chain && p == FlashMouth)
  }

  predicate ShowMouth(m: Mode, p: Phase) {
    p == FlashMouth
  }

  /** How many features are drawn over the head. */
  function Shown(m: Mode, p: Phase): (n: nat)
    ensures n <= 3
  {
    (if ShowEyes(m, p) then 1 else 0) + (if ShowNose(m, p) then 1 else 0) + (if ShowMouth(m, p) then 1 else 0)
  }

  /**
   * Binding shows exactly the feature being flashed; chaining adds each
   * new feature to the ones already flashed, so the count grows 1, 2, 3;
   * outside the flashes no feature is drawn.
   */
  lemma VisibilityRules(p: Phase)
    ensures p in {FlashEyes, FlashNose, FlashMouth} ==> Shown(Bind, p) == 1
    ensures ShowEyes(Bind, p) <==> p == FlashEyes
    ensures ShowNose(Bind, p) <==> p == FlashNose
    ensures ShowMouth(Bind, p) <==> p == FlashMouth
    ensures p in {FlashEyes, FlashNose, FlashMouth} ==> Shown(Chain, p) == PhaseIndex(p)
    ensures ShowNose(Chain, p) ==> ShowEyes(Chain, p)
    ensures ShowMouth(Chain, p) ==> ShowNose(Chain, p)
    ensures p !in {FlashEyes, FlashNose, FlashMouth} ==> Shown(Bind, p) == 0 && Shown(Chain, p) == 0
  {
  }
}
