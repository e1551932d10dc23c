/**
 * The spatial-memory quiz generator: a scene of `3 + difficulty` objects,
 * each a random shape in a random colour, and one question about a target
 * object whose form depends on which of its attributes is unique in the
 * scene.  Object positions (a rejection sampler over real coordinates) are
 * not modelled; every other random choice is an explicit input.
 */
module MemoryLogic {
  import opened Wrappers
  import opened JsMath
  import opened Seqs
  import opened Decimal

  const COLORS: seq<string> := ["red", "blue", "green", "yellow", "purple", "orange"]
  const TYPES: seq<string> := ["cube", "sphere", "cylinder", "cone"]

  datatype SceneObject = SceneObject(id: nat, kind: string, color: string)

  datatype QuizQuestion = QuizQuestion(text: string, options: seq<string>, correctAnswer: string)

  datatype MemoryScenario = MemoryScenario(objects: seq<SceneObject>, question: QuizQuestion)

  /** The two draws that pick an object's shape and colour. */
  datatype ObjectDraw = ObjectDraw(kind: real, color: real)

  /**
   * Every random input of one scenario: the per-object draws, the target
   * draw, the arrangements the two comparator-driven `sort` calls of an
   * option list leave behind, and the 100 offset draws of the numeric
   * option generator.
   */
  datatype MemoryDraws = MemoryDraws(
    objects: seq<ObjectDraw>,
    target: real,
    wrongsOrder: seq<nat>,
    optionsOrder: seq<nat>,
    offsets: seq<real>)

  const MAX_ATTEMPTS := 100
  const OPTION_COUNT := 4

  predicate ValidDraws(d: MemoryDraws) {
    && (forall i :: 0 <= i < |d.objects| ==> IsDraw(d.objects[i].kind) && IsDraw(d.objects[i].color))
    && IsDraw(d.target)
    && |d.offsets| == MAX_ATTEMPTS && (forall i :: 0 <= i < MAX_ATTEMPTS ==> IsDraw(d.offsets[i]))
  }

  // ---------------------------------------------------------------------------
  // Option lists

  /** `pool.filter(item => item !== x)`. */
  function Without(pool: seq<string>, x: string): (r: seq<string>)
    ensures forall y :: y in r <==> y in pool && y != x
    ensures NoDuplicates(pool) ==> NoDuplicates(r)
    ensures x in pool && NoDuplicates(pool) ==> |r| == |pool| - 1
    ensures x !in pool ==> r == pool
  {
    if |pool| == 0 then []
    else
      var rest := Without(pool[1..], x);
      assert forall y :: y in pool <==> y == pool[0] || y in pool[1..];
      assert forall k :: 0 <= k < |pool| - 1 ==> pool[1..][k] == pool[k + 1];
      assert NoDuplicates(pool) ==> NoDuplicates(pool[1..]) && pool[0] !in pool[1..];
      if pool[0] == x then rest else [pool[0]] + rest
  }

  /**
   * `generateOptions(correct, pool)`: the wrong answers of the pool,
   * rearranged, cut to three, joined after the correct answer, and the
   * whole rearranged once more.
   */
  function GenerateOptions(correct: string, pool: seq<string>, wrongsOrder: seq<nat>, optionsOrder: seq<nat>): (r: seq<string>)
  {
    var wrongs := Reorder(Without(pool, correct), wrongsOrder);
    var selected := wrongs[..Min(OPTION_COUNT - 1, |wrongs|)];
    Reorder([correct] + selected, optionsOrder)
  }

  /**
   * The options hold the correct answer exactly once, at most three other
   * answers all from the pool, as many as the pool allows, and no answer
   * twice when the pool has none twice.
   */
  lemma GenerateOptionsSpec(correct: string, pool: seq<string>, wrongsOrder: seq<nat>, optionsOrder: seq<nat>)
    ensures var r := GenerateOptions(correct, pool, wrongsOrder, optionsOrder);
            && correct in r
            && (forall i, j :: 0 <= i < |r| && 0 <= j < |r| && r[i] == correct && r[j] == correct ==> i == j)
            && (forall x :: x in r ==> x == correct || x in pool)
            && |r| == 1 + Min(OPTION_COUNT - 1, |Without(pool, correct)|)
            && (NoDuplicates(pool) ==> NoDuplicates(r))
  {
    var ws := Without(pool, correct);
    var wrongs := Reorder(ws, wrongsOrder);
    ReorderKeepsElements(ws, wrongsOrder);
    var selected := wrongs[..Min(OPTION_COUNT - 1, |wrongs|)];
    var all := [correct] + selected;
    SelectedOptions(correct, pool, wrongs, selected);
    ReorderKeepsElements(all, optionsOrder);
    ReorderKeepsSingle(all, optionsOrder, correct);
    assert GenerateOptions(correct, pool, wrongsOrder, optionsOrder) == Reorder(all, optionsOrder);
  }

  /** Before the final shuffle: the correct answer in front, once, then wrong answers of the pool. */
  lemma SelectedOptions(correct: string, pool: seq<string>, wrongs: seq<string>, selected: seq<string>)
    requires forall x :: x in wrongs <==> x in pool && x != correct
    requires NoDuplicates(pool) ==> NoDuplicates(wrongs)
    requires |selected| <= |wrongs| && selected == wrongs[..|selected|]
    ensures var all := [correct] + selected;
      && correct in all
      && (forall i, j :: 0 <= i < |all| && 0 <= j < |all| && all[i] == correct && all[j] == correct ==> i == j)
      && (forall x :: x in all ==> x == correct || x in pool)
      && (NoDuplicates(pool) ==> NoDuplicates(all))
  {
    var all := [correct] + selected;
    forall k | 1 <= k < |all| ensures all[k] != correct && all[k] in pool {
      assert all[k] == wrongs[k - 1] && wrongs[k - 1] in wrongs;
    }
    if NoDuplicates(pool) {
      forall k, l | 0 <= k < l < |all| ensures all[k] != all[l] {
        if k > 0 {
          assert all[k] == wrongs[k - 1] && all[l] == wrongs[l - 1];
        }
      }
    }
    assert all[0] == correct;
  }

  /** A number standing for the first two characters of a name. */
  function Key(name: string): int {
    if |name| < 2 then -1 else (name[0] as int) * 0x11_0000 + (name[1] as int)
  }

  lemma DistinctByKeys(pool: seq<string>, keys: seq<int>)
    requires |keys| == |pool| && forall i :: 0 <= i < |pool| ==> keys[i] == Key(pool[i])
    requires forall i, j :: 0 <= i < j < |keys| ==> keys[i] != keys[j]
    ensures NoDuplicates(pool)
  {
    forall i, j | 0 <= i < j < |pool| ensures pool[i] != pool[j] {
      assert Key(pool[i]) != Key(pool[j]);
    }
  }

  /** The colour and shape names differ already in their first two letters. */
  lemma CatalogDistinct(pool: seq<string>)
    requires pool == COLORS || pool == TYPES
    ensures NoDuplicates(pool) && |pool| >= OPTION_COUNT
  {
    var p := pool;
    if pool == COLORS {
      var keys := [Key(p[0]), Key(p[1]), Key(p[2]), Key(p[3]), Key(p[4]), Key(p[5])];
      assert forall i, j :: 0 <= i < j < |keys| ==> keys[i] != keys[j];
      DistinctByKeys(pool, keys);
    } else {
      var keys := [Key(p[0]), Key(p[1]), Key(p[2]), Key(p[3])];
      assert forall i, j :: 0 <= i < j < |keys| ==> keys[i] != keys[j];
      DistinctByKeys(pool, keys);
    }
  }

  /** With the colour or shape list as the pool, the options are four different entries of that list. */
  lemma OptionsFromCatalog(correct: string, pool: seq<string>, wrongsOrder: seq<nat>, optionsOrder: seq<nat>)
    requires pool == COLORS || pool == TYPES
    requires correct in pool
    ensures var r := GenerateOptions(correct, pool, wrongsOrder, optionsOrder);
            |r| == OPTION_COUNT && NoDuplicates(r) && correct in r && forall x :: x in r ==> x in pool
  {
    if pool == COLORS {
      CatalogDistinct(COLORS);
    } else {
      CatalogDistinct(TYPES);
    }
    GenerateOptionsSpec(correct, pool, wrongsOrder, optionsOrder);
  }

  // ---------------------------------------------------------------------------
  // Numeric options

  /** The offset spread on attempt `attempts`: 1, then 2 after 20 attempts, then 5 after 50. */
  function Spread(attempts: nat): (range: nat)
    ensures 1 <= range <= 5
  {
    if attempts > 50 then 5 else if attempts > 20 then 2 else 1
  }

  /** `Math.max(1, correct + offset)` with `offset` drawn from `-range .. range`. */
  function Candidate(correct: nat, attempts: nat, r: real): (c: nat)
    requires IsDraw(r)
    ensures 1 <= c <= correct + Spread(attempts)
    ensures c == correct || c == 1 || (correct - Spread(attempts) <= c <= correct + Spread(attempts))
  {
    var range := Spread(attempts);
    var offset := Pick(r, range * 2 + 1) - range;
    Max(1, correct + offset)
  }

  /** Every member is the correct value or a positive value at most `bound`. */
  predicate NearCorrect(acc: seq<nat>, correct: nat, bound: int) {
    forall x :: x in acc ==> x == correct || 1 <= x <= bound
  }

  /**
   * The first loop: up to 100 attempts, each adding one candidate to the
   * set, stopping as soon as the set has four members.
   */
  function RandomPhase(correct: nat, offsets: seq<real>, attempts: nat, acc: seq<nat>): (r: seq<nat>)
    requires |offsets| == MAX_ATTEMPTS && forall i :: 0 <= i < MAX_ATTEMPTS ==> IsDraw(offsets[i])
    requires attempts <= MAX_ATTEMPTS && NoDuplicates(acc)
    ensures NoDuplicates(r) && |acc| <= |r|
    ensures forall x :: x in acc ==> x in r
    ensures NearCorrect(acc, correct, correct + 5) ==> NearCorrect(r, correct, correct + 5)
    ensures |acc| <= OPTION_COUNT ==> |r| <= OPTION_COUNT
    decreases MAX_ATTEMPTS - attempts
  {
    if |acc| >= OPTION_COUNT || attempts >= MAX_ATTEMPTS then acc
    else RandomPhase(correct, offsets, attempts + 1, SetAdd(acc, Candidate(correct, attempts, offsets[attempts])))
  }

  /**
   * The fallback loop: while the set is short, add `correct + i` and
   * `max(1, correct - i)` for `i = 1, 2, ...`.  Once `i` passes 5,
   * `correct + i` exceeds everything in the set, so each round adds a new
   * member and the loop ends by `i = 9`.
   */
  function Fallback(correct: nat, acc: seq<nat>, i: nat): (r: seq<nat>)
    requires NoDuplicates(acc) && 1 <= |acc| && 1 <= i <= 9
    requires NearCorrect(acc, correct, correct + Max(5, i - 1))
    requires i >= 6 ==> |acc| >= i - 5
    ensures NoDuplicates(r) && |r| >= OPTION_COUNT
    ensures forall x :: x in acc ==> x in r
    ensures NearCorrect(r, correct, correct + 9)
    ensures |acc| >= OPTION_COUNT ==> r == acc
    ensures |acc| < OPTION_COUNT ==> |r| <= OPTION_COUNT + 1
    decreases 10 - i
  {
    if |acc| >= OPTION_COUNT then acc
    else
      var up := correct + i;
      assert i >= 6 ==> up !in acc;
      var acc' := SetAdd(SetAdd(acc, up), Max(1, correct - i));
      Fallback(correct, acc', i + 1)
  }

  /** The set of option values: the correct value, then the two loops. */
  function NumericValues(correct: nat, offsets: seq<real>): (vs: seq<nat>)
    requires |offsets| == MAX_ATTEMPTS && forall i :: 0 <= i < MAX_ATTEMPTS ==> IsDraw(offsets[i])
  {
    var first := RandomPhase(correct, offsets, 0, [correct]);
    Fallback(correct, first, 1)
  }

  /** `generateNumericOptions(correct)`: the set's members printed, rearranged. */
  function GenerateNumericOptions(correct: nat, offsets: seq<real>, order: seq<nat>): (r: seq<string>)
    requires |offsets| == MAX_ATTEMPTS && forall i :: 0 <= i < MAX_ATTEMPTS ==> IsDraw(offsets[i])
  {
    Reorder(Printed(NumericValues(correct, offsets)), order)
  }

  function Printed(vs: seq<nat>): (r: seq<string>)
    ensures |r| == |vs| && forall i :: 0 <= i < |vs| ==> r[i] == ToDecimal(vs[i])
  {
    if |vs| == 0 then [] else [ToDecimal(vs[0])] + Printed(vs[1..])
  }

  /**
   * The numeric options are four or five different numbers, among them the
   * correct one; every other one is positive and within 9 of the correct
   * value.  Five only when the first loop ended short.
   */
  lemma NumericValuesSpec(correct: nat, offsets: seq<real>)
    requires |offsets| == MAX_ATTEMPTS && forall i :: 0 <= i < MAX_ATTEMPTS ==> IsDraw(offsets[i])
    ensures var vs := NumericValues(correct, offsets);
            && NoDuplicates(vs) && OPTION_COUNT <= |vs| <= OPTION_COUNT + 1
            && correct in vs
            && NearCorrect(vs, correct, correct + 9)
            && (|vs| == OPTION_COUNT + 1 ==> |RandomPhase(correct, offsets, 0, [correct])| < OPTION_COUNT)
  {
    var first := RandomPhase(correct, offsets, 0, [correct]);
    assert NearCorrect([correct], correct, correct + 5);
    assert correct in first;
  }

  /** Printing keeps the values apart and keeps their membership. */
  lemma PrintedKeepsValues(vs: seq<nat>)
    ensures NoDuplicates(vs) ==> NoDuplicates(Printed(vs))
    ensures forall v :: v in vs ==> ToDecimal(v) in Printed(vs)
    ensures forall s :: s in Printed(vs) ==> exists v :: v in vs && s == ToDecimal(v)
  {
    if NoDuplicates(vs) {
      PrintedDistinct(vs);
    }
    PrintedHasAll(vs);
    PrintedOnlyValues(vs);
  }

  lemma PrintedDistinct(vs: seq<nat>)
    requires NoDuplicates(vs)
    ensures NoDuplicates(Printed(vs))
  {
    var p := Printed(vs);
    forall i, j | 0 <= i < j < |p| ensures p[i] != p[j] {
      PrintInjective(vs[i], vs[j]);
    }
  }

  lemma PrintedHasAll(vs: seq<nat>)
    ensures forall v :: v in vs ==> ToDecimal(v) in Printed(vs)
  {
    var p := Printed(vs);
    forall v | v in vs ensures ToDecimal(v) in p {
      var i :| 0 <= i < |vs| && vs[i] == v;
      assert p[i] == ToDecimal(v);
    }
  }

  lemma PrintedOnlyValues(vs: seq<nat>)
    ensures forall s :: s in Printed(vs) ==> exists v :: v in vs && s == ToDecimal(v)
  {
    var p := Printed(vs);
    forall s | s in p ensures exists v :: v in vs && s == ToDecimal(v) {
      var i :| 0 <= i < |p| && p[i] == s;
      assert vs[i] in vs;
    }
  }

  /**
   * The option strings: four or five different decimal numbers, one of them
   * the correct count, and all of them at least 1 when the count is.
   */
  lemma NumericOptionsSpec(correct: nat, offsets: seq<real>, order: seq<nat>)
    requires |offsets| == MAX_ATTEMPTS && forall i :: 0 <= i < MAX_ATTEMPTS ==> IsDraw(offsets[i])
    ensures var r := GenerateNumericOptions(correct, offsets, order);
            && NoDuplicates(r) && OPTION_COUNT <= |r| <= OPTION_COUNT + 1
            && ToDecimal(correct) in r
            && (correct >= 1 ==> forall s :: s in r ==> AllDigits(s) && ParseDigits(s) >= 1)
  {
    var vs := NumericValues(correct, offsets);
    NumericValuesSpec(correct, offsets);
    PrintedOptions(vs, correct, order);
  }

  /** Printing and rearranging distinct values gives distinct strings that parse back to them. */
  lemma PrintedOptions(vs: seq<nat>, correct: nat, order: seq<nat>)
    requires NoDuplicates(vs) && correct in vs && NearCorrect(vs, correct, correct + 9)
    ensures var r := Reorder(Printed(vs), order);
            && NoDuplicates(r) && |r| == |vs|
            && ToDecimal(correct) in r
            && (correct >= 1 ==> forall s :: s in r ==> AllDigits(s) && ParseDigits(s) >= 1)
  {
    var p := Printed(vs);
    PrintedKeepsValues(vs);
    ReorderKeepsElements(p, order);
    var r := Reorder(p, order);
    if correct >= 1 {
      forall s | s in r ensures AllDigits(s) && ParseDigits(s) >= 1 {
        var v :| v in vs && s == ToDecimal(v);
        ParsePrinted(v);
      }
    }
  }

  // ---------------------------------------------------------------------------
  // The scenario

  /** The objects, with ids `0 .. n - 1` in order. */
  function MakeObjects(ds: seq<ObjectDraw>): (objs: seq<SceneObject>)
    requires forall i :: 0 <= i < |ds| ==> IsDraw(ds[i].kind) && IsDraw(ds[i].color)
  {
    seq(|ds|, i requires 0 <= i < |ds| => SceneObject(i, PickFrom(TYPES, ds[i].kind), PickFrom(COLORS, ds[i].color)))
  }

  /** The objects and their attribute lists. */
  lemma MakeObjectsSpec(ds: seq<ObjectDraw>)
    requires forall i :: 0 <= i < |ds| ==> IsDraw(ds[i].kind) && IsDraw(ds[i].color)
    ensures var objs := MakeObjects(ds);
            && |objs| == |ds|
            && forall i :: 0 <= i < |objs| ==> objs[i].id == i && objs[i].kind in TYPES && objs[i].color in COLORS
  {
  }

  /** The two properties a question can ask about. */
  datatype Attribute = KindOf | ColorOf

  function AttrOf(o: SceneObject, a: Attribute): string {
    match a
    case KindOf => o.kind
    case ColorOf => o.color
  }

  /**
   * `objects.filter(o => o.type === value).length` for `KindOf`, and the
   * same over `o.color` for `ColorOf`: some object has the value exactly
   * when the count is positive.
   */
  function CountSame(objs: seq<SceneObject>, a: Attribute, value: string): (n: nat)
    ensures n <= |objs|
    ensures (exists i :: 0 <= i < |objs| && AttrOf(objs[i], a) == value) <==> n >= 1
  {
    if |objs| == 0 then 0
    else
      var rest := CountSame(objs[1..], a, value);
      assert forall i :: 1 <= i < |objs| ==> objs[i] == objs[1..][i - 1];
      assert rest >= 1 ==> exists i :: 1 <= i < |objs| && AttrOf(objs[i], a) == value;
      (if AttrOf(objs[0], a) == value then 1 else 0) + rest
  }

  /** The question about `target`. */
  function MakeQuestion(objs: seq<SceneObject>, target: SceneObject, d: MemoryDraws): QuizQuestion
    requires ValidDraws(d)
  {
    var sameType := CountSame(objs, KindOf, target.kind);
    var sameColor := CountSame(objs, ColorOf, target.color);
    if sameType == 1 then
      QuizQuestion("What color was the " + target.kind + "?", GenerateOptions(target.color, COLORS, d.wrongsOrder, d.optionsOrder), target.color)
    else if sameColor == 1 then
      QuizQuestion("What shape was the " + target.color + " object?", GenerateOptions(target.kind, TYPES, d.wrongsOrder, d.optionsOrder), target.kind)
    else
      QuizQuestion("How many " + target.kind + "s were there?", GenerateNumericOptions(sameType, d.offsets, d.optionsOrder), ToDecimal(sameType))
  }

  /**
   * `generateMemoryScenario(difficulty)`.  With no object to pick a target
   * from (`3 + difficulty <= 0`) the source fails reading a property of
   * `undefined`; that is `None` here.
   */
  function GenerateMemoryScenario(difficulty: int, d: MemoryDraws): (r: Option<MemoryScenario>)
    requires ValidDraws(d)
    requires |d.objects| == Max(0, 3 + difficulty)
  {
    var objs := MakeObjects(d.objects);
    if |objs| == 0 then None
    else
      var target := objs[Pick(d.target, |objs|)];
      Some(MemoryScenario(objs, MakeQuestion(objs, target, d)))
  }

  /**
   * The question about `target` in the scene `objs` is of the right kind.  A
   * target with a shape of its own is asked about by shape for its colour;
   * otherwise one with a colour of its own is asked about by colour for its
   * shape; otherwise the question is how many objects share its shape, and
   * that count is at least 2.  In the first two cases the options are four
   * different entries of the list asked about; in the third, four or five
   * different numbers.  The answer is always among the options.
   */
  predicate AsksAbout(objs: seq<SceneObject>, target: SceneObject, q: QuizQuestion) {
    && q.correctAnswer in q.options && NoDuplicates(q.options)
    && if CountSame(objs, KindOf, target.kind) == 1 then
         && q.correctAnswer == target.color && q.text == "What color was the " + target.kind + "?"
         && |q.options| == OPTION_COUNT && (forall x :: x in q.options ==> x in COLORS)
       else if CountSame(objs, ColorOf, target.color) == 1 then
         && q.correctAnswer == target.kind && q.text == "What shape was the " + target.color + " object?"
         && |q.options| == OPTION_COUNT && (forall x :: x in q.options ==> x in TYPES)
       else
         var n := CountSame(objs, KindOf, target.kind);
         && n >= 2 && q.correctAnswer == ToDecimal(n) && q.text == "How many " + target.kind + "s were there?"
         && OPTION_COUNT <= |q.options| <= OPTION_COUNT + 1
  }

  /**
   * A scenario exists exactly when there is at least one object; it has
   * `3 + difficulty` objects numbered in order, and its question is about
   * one of them.
   */
  lemma ScenarioSpec(difficulty: int, d: MemoryDraws)
    requires ValidDraws(d)
    requires |d.objects| == Max(0, 3 + difficulty)
    ensures var r := GenerateMemoryScenario(difficulty, d);
            r.None? <==> difficulty <= -3
    ensures var r := GenerateMemoryScenario(difficulty, d);
            r.Some? ==>
              var objs := r.value.objects;
              && |objs| == 3 + difficulty
              && (forall i :: 0 <= i < |objs| ==> objs[i].id == i && objs[i].kind in TYPES && objs[i].color in COLORS)
              && exists t :: 0 <= t < |objs| && AsksAbout(objs, objs[t], r.value.question)
  {
    var objs := MakeObjects(d.objects);
    MakeObjectsSpec(d.objects);
    if |objs| > 0 {
      var t := Pick(d.target, |objs|);
      var target := objs[t];
      var n := CountSame(objs, KindOf, target.kind);
      assert n >= 1;
      if n == 1 {
        OptionsFromCatalog(target.color, COLORS, d.wrongsOrder, d.optionsOrder);
      } else if CountSame(objs, ColorOf, target.color) == 1 {
        OptionsFromCatalog(target.kind, TYPES, d.wrongsOrder, d.optionsOrder);
      } else {
        NumericOptionsSpec(n, d.offsets, d.optionsOrder);
      }
      assert AsksAbout(objs, objs[t], MakeQuestion(objs, target, d));
    }
  }
}
