/**
 * Puzzle generation for the mental-rotation exercise: a shape, a start
 * angle, a quarter-turn multiple to rotate by, and three answer options
 * (the right angle and two wrong ones) in shuffled order.  Angles are in
 * degrees; the radians the renderer receives are these times pi/180.
 */
module RotationLogic {
  import opened JsMath
  import opened Seqs

  datatype ShapeType = LBlock | TBlock | Line | SBlock | ZBlock | JBlock | Cube

  /** The shapes a puzzle is drawn from (the type's `Cube` is never drawn). */
  const SHAPES: seq<ShapeType> := [LBlock, TBlock, Line, SBlock, ZBlock, JBlock]

  datatype Axis = X | Y | Z

  /** `getRandomAxis`: always the vertical axis. */
  const AXIS := Y

  const INITIAL_ROTATIONS: seq<int> := [0, 90, 180, 270]
  const TARGET_ROTATIONS: seq<int> := [90, 180, 270]

  /** Euler angles in degrees. */
  datatype Euler = Euler(x: int, y: int, z: int)

  datatype OptionItem = OptionItem(id: string, rotation: Euler, isCorrect: bool)

  datatype PuzzleState = PuzzleState(
    shape: ShapeType, axis: Axis, initialRotation: int, targetRotation: int, options: seq<OptionItem>)

  /** `a + b`, less 360 once if that reaches 360. */
  function AddAngle(a: int, b: int): int {
    var s := a + b;
    if s >= 360 then s - 360 else s
  }

  /** The Euler angles for a turn of `deg` about the puzzle's axis. */
  function TurnAbout(axis: Axis, deg: int): Euler {
    if axis == Y then Euler(0, deg, 0) else Euler(deg, 0, 0)
  }

  predicate QuarterTurn(a: int) {
    a in {0, 90, 180, 270}
  }

  /** The draws one puzzle consumes: shape, start, delta, and one per shuffle step. */
  datatype PuzzleDraws = PuzzleDraws(shape: real, initial: real, target: real, shuffle: seq<real>)

  predicate ValidDraws(d: PuzzleDraws) {
    IsDraw(d.shape) && IsDraw(d.initial) && IsDraw(d.target) &&
    |d.shuffle| == 3 && forall i :: 0 <= i < 3 ==> IsDraw(d.shuffle[i])
  }

  /** The three options before shuffling: correct, +90 degrees, +180 degrees. */
  function UnshuffledOptions(axis: Axis, correct: int): seq<OptionItem> {
    [OptionItem("correct", TurnAbout(axis, correct), true),
     OptionItem("distractor-1", TurnAbout(axis, AddAngle(correct, 90)), false),
     OptionItem("distractor-2", TurnAbout(axis, AddAngle(correct, 180)), false)]
  }

  function DrawShape(r: real): (shape: ShapeType)
    requires IsDraw(r)
    ensures shape != Cube
  {
    PickFrom(SHAPES, r)
  }

  function DrawInitial(r: real): (a: int)
    requires IsDraw(r)
    ensures QuarterTurn(a)
  {
    PickFrom(INITIAL_ROTATIONS, r)
  }

  function DrawTarget(r: real): (a: int)
    requires IsDraw(r)
    ensures a in {90, 180, 270}
  {
    PickFrom(TARGET_ROTATIONS, r)
  }

  /** `generatePuzzle(level)`; the level does not influence the result. */
  function GeneratePuzzle(level: int, d: PuzzleDraws): (p: PuzzleState)
    requires ValidDraws(d)
    ensures QuarterTurn(p.initialRotation) && p.targetRotation in {90, 180, 270} && p.shape != Cube
  {
    var shape := DrawShape(d.shape);
    var initial := DrawInitial(d.initial);
    var target := DrawTarget(d.target);
    var correct := AddAngle(initial, target);
    PuzzleState(shape, AXIS, initial, target, Shuffle(UnshuffledOptions(AXIS, correct), d.shuffle))
  }

  /** Turning a quarter-turn angle by 90, 180 or 270 degrees lands on another quarter-turn angle, modulo 360. */
  lemma TurnAngles(initial: int, target: int)
    requires QuarterTurn(initial) && target in {90, 180, 270}
    ensures var c := AddAngle(initial, target);
            c == (initial + target) % 360 && QuarterTurn(c) && c != initial
    ensures var c := AddAngle(initial, target);
            AddAngle(c, 90) == (c + 90) % 360 && AddAngle(c, 180) == (c + 180) % 360
    ensures var c := AddAngle(initial, target);
            c != AddAngle(c, 90) && c != AddAngle(c, 180) && AddAngle(c, 90) != AddAngle(c, 180)
  {
  }

  // ---------------------------------------------------------------------------
  // Shuffle

  /** Exchanges the elements at `i` and `j`. */
  function Swap<T>(a: seq<T>, i: nat, j: nat): (r: seq<T>)
    requires i < |a| && j < |a|
    ensures |r| == |a| && multiset(r) == multiset(a)
    ensures r[i] == a[j] && r[j] == a[i]
    ensures forall k :: 0 <= k < |a| && k != i && k != j ==> r[k] == a[k]
  {
    var r := a[i := a[j]][j := a[i]];
    assert multiset(a[i := a[j]]) == multiset(a) - multiset{a[i]} + multiset{a[j]};
    r
  }

  lemma SwapKeepsElements<T>(a: seq<T>, i: nat, j: nat)
    requires i < |a| && j < |a|
    ensures forall x :: x in Swap(a, i, j) <==> x in a
    ensures NoDuplicates(a) ==> NoDuplicates(Swap(a, i, j))
  {
    var r := Swap(a, i, j);
    forall x ensures x in r <==> x in a {
      assert x in r <==> x in multiset(r);
      assert x in a <==> x in multiset(a);
    }
    if NoDuplicates(a) {
      SwapNoDuplicates(a, i, j);
    }
  }

  lemma SwapNoDuplicates<T>(a: seq<T>, i: nat, j: nat)
    requires i < |a| && j < |a| && NoDuplicates(a)
    ensures NoDuplicates(Swap(a, i, j))
  {
    var r := Swap(a, i, j);
    forall k, l | 0 <= k < l < |r| ensures r[k] != r[l] {
      var k' := if k == i then j else if k == j then i else k;
      var l' := if l == i then j else if l == j then i else l;
      assert r[k] == a[k'] && r[l] == a[l'] && k' != l';
    }
  }

  /**
   * The Fisher-Yates loop from `currentIndex = n` down to 1: each step
   * swaps position `n - 1` with a position drawn below `n`.
   */
  function ShuffleDown<T>(a: seq<T>, n: nat, draws: seq<real>): (r: seq<T>)
    requires n <= |a| && |draws| >= n
    requires forall i :: 0 <= i < |draws| ==> IsDraw(draws[i])
    ensures |r| == |a| && multiset(r) == multiset(a)
    ensures forall k :: n <= k < |a| ==> r[k] == a[k]
    decreases n
  {
    if n == 0 then a
    else ShuffleDown(Swap(a, n - 1, Pick(draws[0], n)), n - 1, draws[1..])
  }

  /** The shuffle rearranges: the same elements, and no duplicates if there were none. */
  lemma ShuffleDownKeepsElements<T>(a: seq<T>, n: nat, draws: seq<real>)
    requires n <= |a| && |draws| >= n
    requires forall i :: 0 <= i < |draws| ==> IsDraw(draws[i])
    ensures forall x :: x in ShuffleDown(a, n, draws) <==> x in a
    ensures NoDuplicates(a) ==> NoDuplicates(ShuffleDown(a, n, draws))
  {
    var r := ShuffleDown(a, n, draws);
    forall x ensures x in r <==> x in a {
      assert x in r <==> x in multiset(r);
      assert x in a <==> x in multiset(a);
    }
    if NoDuplicates(a) {
      ShuffleDownNoDuplicates(a, n, draws);
    }
  }

  lemma {:induction false} ShuffleDownNoDuplicates<T>(a: seq<T>, n: nat, draws: seq<real>)
    requires n <= |a| && |draws| >= n
    requires forall i :: 0 <= i < |draws| ==> IsDraw(draws[i])
    requires NoDuplicates(a)
    ensures NoDuplicates(ShuffleDown(a, n, draws))
    decreases n
  {
    if n > 0 {
      var j := Pick(draws[0], n);
      var a' := Swap(a, n - 1, j);
      var rest := draws[1..];
      SwapNoDuplicates(a, n - 1, j);
      forall i | 0 <= i < |rest| ensures IsDraw(rest[i]) {
        assert rest[i] == draws[i + 1];
      }
      ShuffleDownNoDuplicates(a', n - 1, rest);
      assert ShuffleDown(a, n, draws) == ShuffleDown(a', n - 1, rest);
    }
  }

  /** `shuffle(array)`: one draw per element. */
  function Shuffle<T>(a: seq<T>, draws: seq<real>): (r: seq<T>)
    requires |draws| == |a|
    requires forall i :: 0 <= i < |draws| ==> IsDraw(draws[i])
    ensures |r| == |a| && multiset(r) == multiset(a)
  {
    ShuffleDown(a, |a|, draws)
  }

  /** Draws of 0 at every step rotate the elements one place: [1, 2, 3] becomes [2, 3, 1]. */
  lemma ShuffleExample()
    ensures Shuffle([1, 2, 3], [0.0, 0.0, 0.0]) == [2, 3, 1]
  {
    ShuffleFirstStep();
    ShuffleLastSteps();
  }

  lemma ShuffleFirstStep()
    ensures Shuffle([1, 2, 3], [0.0, 0.0, 0.0]) == ShuffleDown([3, 2, 1], 2, [0.0, 0.0])
  {
    assert Pick(0.0, 3) == 0;
    assert Swap([1, 2, 3], 2, 0) == [3, 2, 1];
    assert [0.0, 0.0, 0.0][1..] == [0.0, 0.0];
  }

  lemma ShuffleLastSteps()
    ensures ShuffleDown([3, 2, 1], 2, [0.0, 0.0]) == [2, 3, 1]
  {
    ShuffleSecondStep();
    ShuffleThirdStep();
  }

  lemma ShuffleSecondStep()
    ensures ShuffleDown([3, 2, 1], 2, [0.0, 0.0]) == ShuffleDown([2, 3, 1], 1, [0.0])
  {
    assert Pick(0.0, 2) == 0;
    assert Swap([3, 2, 1], 1, 0) == [2, 3, 1];
    assert [0.0, 0.0][1..] == [0.0];
  }

  lemma ShuffleThirdStep()
    ensures ShuffleDown([2, 3, 1], 1, [0.0]) == [2, 3, 1]
  {
    assert Pick(0.0, 1) == 0;
    assert Swap([2, 3, 1], 0, 0) == [2, 3, 1];
    assert ShuffleDown([2, 3, 1], 1, [0.0]) == ShuffleDown([2, 3, 1], 0, []);
  }

  // ---------------------------------------------------------------------------
  // Properties

  /**
   * Three options of which exactly one is marked correct; that one has id
   * "correct" and the correct angle about the y axis; no two share an angle.
   */
  predicate WellFormedOptions(opts: seq<OptionItem>, correct: int) {
    && |opts| == 3
    && (exists i :: 0 <= i < 3 && opts[i].isCorrect)
    && (forall i, j :: 0 <= i < 3 && 0 <= j < 3 && opts[i].isCorrect && opts[j].isCorrect ==> i == j)
    && (forall i :: 0 <= i < 3 ==> (opts[i].isCorrect <==> opts[i].id == "correct"))
    && (forall i :: 0 <= i < 3 && opts[i].isCorrect ==> opts[i].rotation == Euler(0, correct, 0))
    && (forall i, j :: 0 <= i < j < 3 ==> opts[i].rotation != opts[j].rotation)
  }

  /** The options as generated, before the shuffle, are well formed for a quarter-turn answer. */
  lemma UnshuffledWellFormed(correct: int)
    requires QuarterTurn(correct)
    ensures WellFormedOptions(UnshuffledOptions(Y, correct), correct)
    ensures NoDuplicates(UnshuffledOptions(Y, correct))
  {
    TurnAngles(correct, 90);
    var u := UnshuffledOptions(Y, correct);
    assert u[0].isCorrect;
  }

  /** Any rearrangement of well-formed options is well formed. */
  lemma RearrangedWellFormed(u: seq<OptionItem>, opts: seq<OptionItem>, correct: int)
    requires WellFormedOptions(u, correct) && |opts| == 3
    requires NoDuplicates(opts) && forall o :: o in opts <==> o in u
    ensures WellFormedOptions(opts, correct)
  {
    var c :| 0 <= c < 3 && u[c].isCorrect;
    assert u[c] in opts;
    forall i | 0 <= i < 3 ensures exists a :: 0 <= a < 3 && u[a] == opts[i] {
      assert opts[i] in u;
    }
    forall i, j | 0 <= i < 3 && 0 <= j < 3 && opts[i].isCorrect && opts[j].isCorrect ensures i == j {
      var a :| 0 <= a < 3 && u[a] == opts[i];
      var b :| 0 <= b < 3 && u[b] == opts[j];
    }
    forall i, j | 0 <= i < j < 3 ensures opts[i].rotation != opts[j].rotation {
      var a :| 0 <= a < 3 && u[a] == opts[i];
      var b :| 0 <= b < 3 && u[b] == opts[j];
      assert a != b;
    }
  }

  /** Any shuffle of the options as generated keeps them well formed, and keeps exactly those three. */
  lemma ShuffledOptionsWellFormed(correct: int, draws: seq<real>)
    requires QuarterTurn(correct)
    requires |draws| == 3 && forall i :: 0 <= i < 3 ==> IsDraw(draws[i])
    ensures var u := UnshuffledOptions(Y, correct);
            var opts := Shuffle(u, draws);
            (forall o :: o in opts <==> o in u) && WellFormedOptions(opts, correct)
  {
    var u := UnshuffledOptions(Y, correct);
    UnshuffledWellFormed(correct);
    ShuffleDownKeepsElements(u, 3, draws);
    RearrangedWellFormed(u, Shuffle(u, draws), correct);
  }

  /** A generated puzzle's options are well formed as above, about the y axis. */
  lemma PuzzleOptions(level: int, d: PuzzleDraws)
    requires ValidDraws(d)
    ensures var p := GeneratePuzzle(level, d);
            var correct := AddAngle(p.initialRotation, p.targetRotation);
            && p.axis == Y
            && (forall o :: o in p.options <==> o in UnshuffledOptions(Y, correct))
            && WellFormedOptions(p.options, correct)
  {
    var p := GeneratePuzzle(level, d);
    var correct := AddAngle(p.initialRotation, p.targetRotation);
    TurnAngles(p.initialRotation, p.targetRotation);
    ShuffledOptionsWellFormed(correct, d.shuffle);
  }
}
