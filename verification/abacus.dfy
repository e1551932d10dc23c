/**
 * The Phantom Dice round logic: scramble the die from its home
 * orientation, pick a command and a face to ask about, and score the
 * answer.  Each `Math.random()` draw is a parameter in [0, 1).
 */
module MentalAbacus {
  import opened JsMath
  import opened Dice
  import Store

  /** The face the player is asked about. */
  datatype Target = TargetTop | TargetFront | TargetRight

  const TARGETS: seq<Target> := [TargetTop, TargetFront, TargetRight]

  function FaceOf(d: DieState, t: Target): Face {
    match t
    case TargetTop => d.top
    case TargetFront => d.front
    case TargetRight => d.right
  }

  /** Rounds per session, and the XP a correct answer earns. */
  const MAX_ROUNDS := 5
  const XP_PER_CORRECT := 25

  /** The random draws one round consumes: three scramble steps, the command, the target. */
  datatype RoundDraws = RoundDraws(scramble: seq<real>, command: real, target: real)

  predicate ValidDraws(d: RoundDraws) {
    |d.scramble| == 3 && (forall i :: 0 <= i < 3 ==> IsDraw(d.scramble[i])) && IsDraw(d.command) && IsDraw(d.target)
  }

  /** The moves the scramble applies: spin right for a draw above 0.5, roll forward otherwise. */
  function ScrambleMoves(draws: seq<real>): (ms: seq<Move>)
    ensures |ms| == |draws|
    ensures forall i :: 0 <= i < |draws| ==> ms[i] == if draws[i] > 0.5 then SpinRightMove else RollForwardMove
  {
    if |draws| == 0 then [] else [if draws[0] > 0.5 then SpinRightMove else RollForwardMove] + ScrambleMoves(draws[1..])
  }

  /** A round: the orientation shown, the command, the orientation after it, the face asked about. */
  datatype Puzzle = Puzzle(start: DieState, command: Move, answer: DieState, target: Target)

  /** The puzzle part of `startRound`. */
  function NewPuzzle(d: RoundDraws): (p: Puzzle)
    requires ValidDraws(d)
    ensures p.start == ApplyAll(ScrambleMoves(d.scramble), HOME)
    ensures p.command == COMMANDS[Pick(d.command, 6)] && p.target == TARGETS[Pick(d.target, 3)]
    ensures p.answer == Apply(p.command, p.start)
  {
    var start := ApplyAll(ScrambleMoves(d.scramble), HOME);
    var cmd := COMMANDS[Pick(d.command, |COMMANDS|)];
    Puzzle(start, cmd, Apply(cmd, start), TARGETS[Pick(d.target, |TARGETS|)])
  }

  /** Every generated puzzle shows and asks about orientations a real die can take, and the command can be undone. */
  lemma PuzzleIsReachable(d: RoundDraws)
    requires ValidDraws(d)
    ensures Reachable(NewPuzzle(d).start) && Reachable(NewPuzzle(d).answer)
    ensures Apply(Inverse(NewPuzzle(d).command), NewPuzzle(d).answer) == NewPuzzle(d).start
  {
    var p := NewPuzzle(d);
    HomeIsReachable();
    MovesStayReachable(ScrambleMoves(d.scramble), HOME);
    MovesStayReachable([p.command], p.start);
    assert ApplyAll([p.command], p.start) == p.answer;
    MoveInverse(p.command, p.start);
  }

  datatype Phase = Observe | Darkness | Input | Result | Summary

  datatype Game = Game(phase: Phase, puzzle: Puzzle, score: int, round: int)

  /** The component on mount: round 1, score 0, and `startRound` run once. */
  function InitialGame(d: RoundDraws): (g: Game)
    requires ValidDraws(d)
    ensures g.phase == Observe && g.score == 0 && g.round == 1
  {
    Game(Observe, NewPuzzle(d), 0, 1)
  }

  /** `handleReady`: the die is hidden and the command shown. */
  function HandleReady(g: Game): (r: Game)
    ensures r == g.(phase := Darkness)
  {
    g.(phase := Darkness)
  }

  /**
   * `submitAnswer(val)`: a correct answer scores a point and 25 XP in the
   * store; then the next round starts, or the summary after round 5.
   */
  function SubmitAnswer(g: Game, store: Store.State, val: int, next: RoundDraws): (r: (Game, Store.State))
    requires ValidDraws(next)
  {
    var correct := val == FaceOf(g.puzzle.answer, g.puzzle.target);
    var score := if correct then g.score + 1 else g.score;
    var store' := if correct then Store.AddXP(store, XP_PER_CORRECT) else store;
    if g.round < MAX_ROUNDS then
      (Game(Observe, NewPuzzle(next), score, g.round + 1), store')
    else
      (g.(phase := Summary, score := score), store')
  }

  /**
   * Going dark changes nothing `submitAnswer` reads: whatever the player
   * answers, the outcome is the same as if the die were still shown.
   */
  lemma ReadyKeepsAnswer(g: Game, store: Store.State, val: int, next: RoundDraws)
    requires ValidDraws(next)
    ensures HandleReady(g).puzzle == g.puzzle && HandleReady(g).phase == Darkness
    ensures SubmitAnswer(HandleReady(g), store, val, next) == SubmitAnswer(g, store, val, next)
  {
  }

  /** XP and accuracy the summary screen shows. */
  function XpEarned(score: int): int {
    score * XP_PER_CORRECT
  }

  function Accuracy(score: int): real {
    score as real / MAX_ROUNDS as real * 100.0
  }

  /** While a session runs, the score counts the correct answers of the finished rounds. */
  predicate Playing(g: Game) {
    g.phase != Summary && 1 <= g.round <= MAX_ROUNDS && 0 <= g.score < g.round
  }

  /**
   * One answer: a right one earns exactly one point and 25 XP, a wrong one
   * nothing; the store changes in nothing else but the prompt; and the
   * game either moves to the next round or, after the fifth, to the
   * summary.
   */
  lemma SubmitAnswerStep(g: Game, store: Store.State, val: int, next: RoundDraws)
    requires ValidDraws(next) && Playing(g)
    ensures var (g', store') := SubmitAnswer(g, store, val, next);
            var correct := val == FaceOf(g.puzzle.answer, g.puzzle.target);
            && g'.score == g.score + (if correct then 1 else 0)
            && store'.xp == store.xp + (if correct then XP_PER_CORRECT else 0)
            && store' == store.(xp := store'.xp, showDiagnosticPrompt := store'.showDiagnosticPrompt)
            && (g.round < MAX_ROUNDS ==> Playing(g') && g'.round == g.round + 1 && g'.phase == Observe)
            && (g.round == MAX_ROUNDS ==> g'.phase == Summary && 0 <= g'.score <= MAX_ROUNDS)
  {
  }

  /** Answers the rounds in turn, each followed by the next round's draws. */
  function Play(g: Game, store: Store.State, answers: seq<int>, draws: seq<RoundDraws>): (Game, Store.State)
    requires |draws| == |answers|
    requires forall i :: 0 <= i < |draws| ==> ValidDraws(draws[i])
    decreases |answers|
  {
    if |answers| == 0 then (g, store)
    else
      var (g', store') := SubmitAnswer(g, store, answers[0], draws[0]);
      Play(g', store', answers[1..], draws[1..])
  }

  /**
   * A whole session of five answers ends on the summary, and the XP the
   * summary reports is exactly what the store gained.
   */
  lemma {:induction false} SessionXpMatchesSummary(g: Game, store: Store.State, answers: seq<int>, draws: seq<RoundDraws>)
    requires Playing(g)
    requires |draws| == |answers| == MAX_ROUNDS - g.round + 1
    requires forall i :: 0 <= i < |draws| ==> ValidDraws(draws[i])
    ensures var (g', store') := Play(g, store, answers, draws);
            && g'.phase == Summary
            && g.score <= g'.score <= MAX_ROUNDS
            && store'.xp - store.xp == XpEarned(g'.score) - XpEarned(g.score)
            && 0.0 <= Accuracy(g'.score) <= 100.0
    decreases |answers|
  {
    SubmitAnswerStep(g, store, answers[0], draws[0]);
    var (g1, store1) := SubmitAnswer(g, store, answers[0], draws[0]);
    if g.round < MAX_ROUNDS {
      assert forall i :: 0 <= i < |draws[1..]| ==> ValidDraws(draws[1..][i]) by {
        forall i | 0 <= i < |draws[1..]| ensures ValidDraws(draws[1..][i]) {
          assert draws[1..][i] == draws[i + 1];
        }
      }
      SessionXpMatchesSummary(g1, store1, answers[1..], draws[1..]);
    } else {
      assert answers[1..] == [];
    }
  }

  /** `getOpposite`, the arithmetic the die mesh uses to label its hidden faces. */
  function GetOpposite(n: int): int {
    7 - n
  }

  /**
   * The mesh's arithmetic agrees with the `OPPOSITE` table on every face, so
   * the bottom, back and left faces drawn are the table's opposites, and they
   * again form a valid die.
   */
  lemma GetOppositeFaces(d: DieState)
    requires Valid(d)
    ensures forall f: Face :: GetOpposite(f) == Opposite(f)
    ensures Valid(DieState(GetOpposite(d.top), GetOpposite(d.front), GetOpposite(d.right)))
  {
    forall f: Face ensures GetOpposite(f) == Opposite(f) {
      assert f == 1 || f == 2 || f == 3 || f == 4 || f == 5 || f == 6;
    }
  }

  /** A pip centre on a face, in face coordinates (the depth is always 0). */
  datatype Pip = Pip(x: real, y: real)

  /** `getPips`: the pip layout of a face value; other values draw nothing. */
  function Pips(v: int): seq<Pip> {
    var tl, tr, ml, mr, bl, br, c := Pip(-0.5, 0.5), Pip(0.5, 0.5), Pip(-0.5, 0.0), Pip(0.5, 0.0),
                                     Pip(-0.5, -0.5), Pip(0.5, -0.5), Pip(0.0, 0.0);
    match v
    case 1 => [c]
    case 2 => [tl, br]
    case 3 => [tl, c, br]
    case 4 => [tl, tr, bl, br]
    case 5 => [tl, tr, c, bl, br]
    case 6 => [tl, tr, ml, mr, bl, br]
    case _ => []
  }

  /**
   * A face shows as many distinct pips as its value, all on the
   * half-unit grid, in a layout symmetric under a half turn.
   */
  lemma PipsLayout(v: int)
    ensures 1 <= v <= 6 ==> |Pips(v)| == v
    ensures !(1 <= v <= 6) ==> Pips(v) == []
    ensures forall i, j :: 0 <= i < j < |Pips(v)| ==> Pips(v)[i] != Pips(v)[j]
    ensures forall p :: p in Pips(v) ==> p.x in {-0.5, 0.0, 0.5} && p.y in {-0.5, 0.0, 0.5}
    ensures forall p :: p in Pips(v) ==> Pip(-p.x, -p.y) in Pips(v)
  {
  }
}
