/**
 * The die of the Phantom Dice exercise: an orientation is the triple of
 * faces showing on top, at the front and on the right; the other three are
 * their opposites.  Each move is a quarter turn of the die.
 */
module Dice {

  /** A face value, 1 to 6. */
  type Face = f: int | 1 <= f <= 6 witness 1

  datatype DieState = DieState(top: Face, front: Face, right: Face)

  /** The `OPPOSITE` table: 1-6, 2-5, 3-4. */
  function Opposite(f: Face): (g: Face)
    ensures f + g == 7
  {
    match f
    case 1 => 6
    case 2 => 5
    case 3 => 4
    case 4 => 3
    case 5 => 2
    case 6 => 1
  }

  /** The orientation every round starts from before scrambling. */
  const HOME := DieState(1, 2, 3)

  /** Top moves to the front; the back comes up; right stays. */
  function RollForward(d: DieState): DieState {
    DieState(Opposite(d.front), d.top, d.right)
  }

  /** Front moves to the top; the bottom comes to the front; right stays. */
  function RollBackward(d: DieState): DieState {
    DieState(d.front, Opposite(d.top), d.right)
  }

  /** Top moves to the right; the left comes up; front stays. */
  function RollRight(d: DieState): DieState {
    DieState(Opposite(d.right), d.front, d.top)
  }

  /** Right moves to the top; the bottom goes right; front stays. */
  function RollLeft(d: DieState): DieState {
    DieState(d.right, d.front, Opposite(d.top))
  }

  /** Right comes to the front; the back goes right; top stays. */
  function SpinRight(d: DieState): DieState {
    DieState(d.top, d.right, Opposite(d.front))
  }

  /** The left comes to the front; front goes right; top stays. */
  function SpinLeft(d: DieState): DieState {
    DieState(d.top, Opposite(d.right), d.front)
  }

  /** The six commands, in the order the exercise lists them. */
  datatype Move = RollForwardMove | RollBackwardMove | RollRightMove | RollLeftMove | SpinRightMove | SpinLeftMove

  const COMMANDS: seq<Move> := [RollForwardMove, RollBackwardMove, RollRightMove, RollLeftMove, SpinRightMove, SpinLeftMove]

  function Apply(m: Move, d: DieState): DieState {
    match m
    case RollForwardMove => RollForward(d)
    case RollBackwardMove => RollBackward(d)
    case RollRightMove => RollRight(d)
    case RollLeftMove => RollLeft(d)
    case SpinRightMove => SpinRight(d)
    case SpinLeftMove => SpinLeft(d)
  }

  /** The move that undoes `m`. */
  function Inverse(m: Move): Move {
    match m
    case RollForwardMove => RollBackwardMove
    case RollBackwardMove => RollForwardMove
    case RollRightMove => RollLeftMove
    case RollLeftMove => RollRightMove
    case SpinRightMove => SpinLeftMove
    case SpinLeftMove => SpinRightMove
  }

  /** Applies the moves left to right. */
  function ApplyAll(ms: seq<Move>, d: DieState): DieState
    decreases |ms|
  {
    if |ms| == 0 then d else ApplyAll(ms[1..], Apply(ms[0], d))
  }

  /** The three visible faces are pairwise different and not opposite each other. */
  predicate Adjacent(a: Face, b: Face) {
    a != b && a != Opposite(b)
  }

  predicate Valid(d: DieState) {
    Adjacent(d.top, d.front) && Adjacent(d.top, d.right) && Adjacent(d.front, d.right)
  }

  /** The axis a face lies on (1/6, 2/5, 3/4) and its direction along it. */
  function Axis(f: Face): int {
    if f <= 3 then f - 1 else 6 - f
  }

  function Sign(f: Face): int {
    if f <= 3 then 1 else -1
  }

  /** Sign of `(a, b, c)` as a permutation of the axes 0, 1, 2. */
  function PermutationSign(a: int, b: int, c: int): int {
    if (a, b, c) == (0, 1, 2) || (a, b, c) == (1, 2, 0) || (a, b, c) == (2, 0, 1) then 1 else -1
  }

  /**
   * Handedness of an orientation: the determinant of the signed
   * permutation it places the three axes by.  A physical turn of the die
   * keeps it; a mirror image flips it.
   */
  function Handedness(d: DieState): int {
    PermutationSign(Axis(d.top), Axis(d.front), Axis(d.right)) * Sign(d.top) * Sign(d.front) * Sign(d.right)
  }

  /** An orientation a real right-handed die can take: like the home orientation. */
  predicate Reachable(d: DieState) {
    Valid(d) && Handedness(d) == 1
  }

  lemma OppositeInvolution(f: Face)
    ensures Opposite(Opposite(f)) == f && Opposite(f) != f
    ensures Axis(Opposite(f)) == Axis(f) && Sign(Opposite(f)) == -Sign(f)
  {
  }

  /** Each move is undone by its inverse, in either order. */
  lemma MoveInverse(m: Move, d: DieState)
    ensures Apply(Inverse(m), Apply(m, d)) == d
    ensures Apply(m, Apply(Inverse(m), d)) == d
    ensures Inverse(Inverse(m)) == m
  {
  }

  /** Four quarter turns the same way bring the die back. */
  lemma FourTurnsIdentity(m: Move, d: DieState)
    ensures Apply(m, Apply(m, Apply(m, Apply(m, d)))) == d
    ensures m != RollForwardMove && m != RollBackwardMove ==> Apply(m, Apply(m, d)) != d
  {
    if m == RollRightMove || m == RollLeftMove {
      assert Apply(m, Apply(m, d)).top == Opposite(d.top);
    } else if m == SpinRightMove || m == SpinLeftMove {
      assert Apply(m, Apply(m, d)).front == Opposite(d.front);
    }
  }

  /** Two half turns: a roll forward twice flips top and front, and is not the identity. */
  lemma HalfTurnForward(d: DieState)
    ensures ApplyAll([RollForwardMove, RollForwardMove], d) == DieState(Opposite(d.top), Opposite(d.front), d.right)
    ensures ApplyAll([RollForwardMove, RollForwardMove], d) != d
  {
  }

  /** The axis of each move keeps its face: rolls forward/back keep right, sideways rolls keep front, spins keep top. */
  lemma AxisFacePreserved(d: DieState)
    ensures RollForward(d).right == d.right && RollBackward(d).right == d.right
    ensures RollRight(d).front == d.front && RollLeft(d).front == d.front
    ensures SpinRight(d).top == d.top && SpinLeft(d).top == d.top
  {
  }

  /** Two faces are adjacent exactly when they lie on different axes. */
  lemma AdjacentAxes(a: Face, b: Face)
    ensures Adjacent(a, b) <==> Axis(a) != Axis(b)
    ensures 0 <= Axis(a) <= 2 && (Sign(a) == 1 || Sign(a) == -1)
  {
  }

  /** Swapping two entries of a permutation of 0, 1, 2 flips its sign. */
  lemma PermutationSwaps(a: int, b: int, c: int)
    requires 0 <= a <= 2 && 0 <= b <= 2 && 0 <= c <= 2 && a != b && b != c && a != c
    ensures PermutationSign(b, a, c) == -PermutationSign(a, b, c)
    ensures PermutationSign(a, c, b) == -PermutationSign(a, b, c)
    ensures PermutationSign(c, b, a) == -PermutationSign(a, b, c)
  {
  }

  /** Every move keeps an orientation valid and keeps its handedness. */
  lemma MovePreservesReachable(m: Move, d: DieState)
    requires Valid(d)
    ensures Valid(Apply(m, d))
    ensures Handedness(Apply(m, d)) == Handedness(d)
  {
    match m
    case RollForwardMove => RollForwardKeeps(d);
    case RollBackwardMove => RollBackwardKeeps(d);
    case RollRightMove => RollRightKeeps(d);
    case RollLeftMove => RollLeftKeeps(d);
    case SpinRightMove => SpinRightKeeps(d);
    case SpinLeftMove => SpinLeftKeeps(d);
  }

  /** (t, f, r) becomes (-f, t, r): the first two axes swap and one sign flips. */
  lemma RollForwardKeeps(d: DieState)
    requires Valid(d)
    ensures Valid(RollForward(d)) && Handedness(RollForward(d)) == Handedness(d)
  {
    var t, f, r := d.top, d.front, d.right;
    OppositeInvolution(f);
    AdjacentAxes(t, f);
    AdjacentAxes(t, r);
    AdjacentAxes(f, r);
    AdjacentAxes(Opposite(f), t);
    AdjacentAxes(Opposite(f), r);
    PermutationSwaps(Axis(t), Axis(f), Axis(r));
    assert Handedness(RollForward(d)) == -PermutationSign(Axis(t), Axis(f), Axis(r)) * -Sign(f) * Sign(t) * Sign(r);
  }

  /** (t, f, r) becomes (f, -t, r). */
  lemma RollBackwardKeeps(d: DieState)
    requires Valid(d)
    ensures Valid(RollBackward(d)) && Handedness(RollBackward(d)) == Handedness(d)
  {
    var t, f, r := d.top, d.front, d.right;
    OppositeInvolution(t);
    AdjacentAxes(t, f);
    AdjacentAxes(t, r);
    AdjacentAxes(f, r);
    AdjacentAxes(Opposite(t), f);
    AdjacentAxes(Opposite(t), r);
    PermutationSwaps(Axis(t), Axis(f), Axis(r));
    assert Handedness(RollBackward(d)) == -PermutationSign(Axis(t), Axis(f), Axis(r)) * Sign(f) * -Sign(t) * Sign(r);
  }

  /** (t, f, r) becomes (-r, f, t): the outer axes swap and one sign flips. */
  lemma RollRightKeeps(d: DieState)
    requires Valid(d)
    ensures Valid(RollRight(d)) && Handedness(RollRight(d)) == Handedness(d)
  {
    var t, f, r := d.top, d.front, d.right;
    OppositeInvolution(r);
    AdjacentAxes(t, f);
    AdjacentAxes(t, r);
    AdjacentAxes(f, r);
    AdjacentAxes(Opposite(r), f);
    AdjacentAxes(Opposite(r), t);
    PermutationSwaps(Axis(t), Axis(f), Axis(r));
    assert Handedness(RollRight(d)) == -PermutationSign(Axis(t), Axis(f), Axis(r)) * -Sign(r) * Sign(f) * Sign(t);
  }

  /** (t, f, r) becomes (r, f, -t). */
  lemma RollLeftKeeps(d: DieState)
    requires Valid(d)
    ensures Valid(RollLeft(d)) && Handedness(RollLeft(d)) == Handedness(d)
  {
    var t, f, r := d.top, d.front, d.right;
    OppositeInvolution(t);
    AdjacentAxes(t, f);
    AdjacentAxes(t, r);
    AdjacentAxes(f, r);
    AdjacentAxes(Opposite(t), r);
    AdjacentAxes(Opposite(t), f);
    PermutationSwaps(Axis(t), Axis(f), Axis(r));
    assert Handedness(RollLeft(d)) == -PermutationSign(Axis(t), Axis(f), Axis(r)) * Sign(r) * Sign(f) * -Sign(t);
  }

  /** (t, f, r) becomes (t, r, -f): the last two axes swap and one sign flips. */
  lemma SpinRightKeeps(d: DieState)
    requires Valid(d)
    ensures Valid(SpinRight(d)) && Handedness(SpinRight(d)) == Handedness(d)
  {
    var t, f, r := d.top, d.front, d.right;
    OppositeInvolution(f);
    AdjacentAxes(t, f);
    AdjacentAxes(t, r);
    AdjacentAxes(f, r);
    AdjacentAxes(Opposite(f), t);
    AdjacentAxes(Opposite(f), r);
    PermutationSwaps(Axis(t), Axis(f), Axis(r));
    assert Handedness(SpinRight(d)) == -PermutationSign(Axis(t), Axis(f), Axis(r)) * Sign(t) * Sign(r) * -Sign(f);
  }

  /** (t, f, r) becomes (t, -r, f). */
  lemma SpinLeftKeeps(d: DieState)
    requires Valid(d)
    ensures Valid(SpinLeft(d)) && Handedness(SpinLeft(d)) == Handedness(d)
  {
    var t, f, r := d.top, d.front, d.right;
    OppositeInvolution(r);
    AdjacentAxes(t, f);
    AdjacentAxes(t, r);
    AdjacentAxes(f, r);
    AdjacentAxes(Opposite(r), t);
    AdjacentAxes(Opposite(r), f);
    PermutationSwaps(Axis(t), Axis(f), Axis(r));
    assert Handedness(SpinLeft(d)) == -PermutationSign(Axis(t), Axis(f), Axis(r)) * Sign(t) * -Sign(r) * Sign(f);
  }

  /** Any sequence of moves from the home orientation stays physically possible. */
  lemma {:induction false} MovesStayReachable(ms: seq<Move>, d: DieState)
    requires Reachable(d)
    ensures Reachable(ApplyAll(ms, d))
    decreases |ms|
  {
    if |ms| > 0 {
      MovePreservesReachable(ms[0], d);
      MovesStayReachable(ms[1..], Apply(ms[0], d));
    }
  }

  /** The home orientation is reachable; its mirror image (top and front kept, right flipped) is not. */
  lemma HomeIsReachable()
    ensures Reachable(HOME)
    ensures Valid(DieState(1, 2, 4)) && !Reachable(DieState(1, 2, 4))
  {
  }

  /** Rolling the home die to the right shows 4 on top, 2 in front and 1 on the right. */
  lemma RollRightExample()
    ensures RollRight(HOME) == DieState(4, 2, 1)
  {
  }
}
