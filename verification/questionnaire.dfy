/**
 * The two self-report questionnaires: the VVIQ (sixteen vividness ratings in
 * four groups, summed into a score and a starting level) and the sensory
 * assessment (the scenarios of one modality, normalised into a 0-100 neural
 * profile entry). Both walk a (group, item) cursor over groups of items and
 * record one rating per item.
 */
module Questionnaire {
  import opened Wrappers
  import opened JsMath
  import Store

  /** A rating from the five-point scale. */
  predicate IsRating(v: int) {
    1 <= v <= 5
  }

  predicate AllRatings(xs: seq<int>) {
    forall i :: 0 <= i < |xs| ==> IsRating(xs[i])
  }

  /** The number of items of each VVIQ group, in order. */
  const VVIQ_GROUPS: seq<nat> := [4, 4, 4, 4]

  /** A sensory scenario: its modality and how many items it asks about. */
  datatype Scenario = Scenario(modality: Store.Skill, items: nat)

  const SCENARIOS: seq<Scenario> := [
    Scenario(Store.Visual, 4), Scenario(Store.Visual, 4),
    Scenario(Store.Auditory, 4), Scenario(Store.Auditory, 4),
    Scenario(Store.Somatic, 4), Scenario(Store.Somatic, 4)
  ]

  /** `reduce((acc, g) => acc + g, 0)` over item counts. */
  function Total(groups: seq<nat>): nat {
    if |groups| == 0 then 0 else Total(groups[..|groups| - 1]) + groups[|groups| - 1]
  }

  /** `reduce((a, b) => a + b, 0)` over ratings. */
  function Sum(xs: seq<int>): int {
    if |xs| == 0 then 0 else Sum(xs[..|xs| - 1]) + xs[|xs| - 1]
  }

  /** Every group has at least one item. */
  predicate Shaped(groups: seq<nat>) {
    |groups| > 0 && forall i :: 0 <= i < |groups| ==> groups[i] > 0
  }

  /** The questionnaire's state: current group and item, answers so far, the selected rating. */
  datatype Cursor = Cursor(group: nat, item: nat, answers: seq<int>, selected: Option<int>)

  const START: Cursor := Cursor(0, 0, [], None)

  /** The cursor points at an item, and every earlier item has exactly one answer. */
  predicate Valid(groups: seq<nat>, c: Cursor) {
    && c.group < |groups|
    && c.item < groups[c.group]
    && |c.answers| == Total(groups[..c.group]) + c.item
  }

  /** What `handleNext` leads to: the questionnaire goes on, or finishes with the final answers. */
  datatype Step = Continue(cursor: Cursor) | Finish(answers: seq<int>)

  /**
   * `handleNext()`: without a selection nothing happens; otherwise the rating
   * is appended and the cursor moves to the next item, the first item of the
   * next group, or finishes after the last item of the last group.
   */
  function HandleNext(groups: seq<nat>, c: Cursor): (r: Step)
    requires c.group < |groups|
    ensures c.selected.None? ==> r == Continue(c)
    ensures c.selected.Some? && r.Continue? ==>
      r.cursor.answers == c.answers + [c.selected.value] && r.cursor.selected.None?
    ensures c.selected.Some? && r.Finish? ==> r.answers == c.answers + [c.selected.value]
    ensures r.Continue? ==> r.cursor.group < |groups|
  {
    match c.selected
    case None => Continue(c)
    case Some(v) =>
      var answers := c.answers + [v];
      if c.item + 1 < groups[c.group] then
        Continue(Cursor(c.group, c.item + 1, answers, None))
      else if c.group + 1 < |groups| then
        Continue(Cursor(c.group + 1, 0, answers, None))
      else
        Finish(answers)
  }

  /** Select each rating in turn and press next, until the questionnaire finishes. */
  function Run(groups: seq<nat>, c: Cursor, ratings: seq<int>): Option<seq<int>>
    requires c.group < |groups|
    decreases |ratings|
  {
    if |ratings| == 0 then None
    else
      match HandleNext(groups, c.(selected := Some(ratings[0])))
      case Finish(answers) => Some(answers)
      case Continue(next) => Run(groups, next, ratings[1..])
  }

  lemma TotalStep(groups: seq<nat>, g: nat)
    requires g < |groups|
    ensures Total(groups[..g + 1]) == Total(groups[..g]) + groups[g]
  {
    assert groups[..g + 1][..g] == groups[..g];
  }

  lemma {:induction false} TotalPrefix(groups: seq<nat>, g: nat)
    requires g <= |groups|
    ensures Total(groups[..g]) <= Total(groups)
    decreases |groups| - g
  {
    if g < |groups| {
      TotalStep(groups, g);
      TotalPrefix(groups, g + 1);
    } else {
      assert groups[..g] == groups;
    }
  }

  /**
   * One answered `handleNext` keeps the cursor valid and finishes exactly
   * when the answers reach the total item count.
   */
  lemma NextKeepsCount(groups: seq<nat>, c: Cursor, v: int)
    requires Shaped(groups) && Valid(groups, c)
    ensures var r := HandleNext(groups, c.(selected := Some(v)));
      && (r.Finish? <==> |c.answers| + 1 == Total(groups))
      && (r.Continue? ==> Valid(groups, r.cursor))
  {
    var g := c.group;
    TotalStep(groups, g);
    if c.item + 1 < groups[g] {
      TotalPrefix(groups, g + 1);
    } else if g + 1 < |groups| {
      TotalStep(groups, g + 1);
      TotalPrefix(groups, g + 2);
    } else {
      assert groups[..g + 1] == groups;
    }
  }

  /**
   * From a valid cursor, a run of ratings finishes exactly once the answers
   * reach the total item count, with the answers given in order; the
   * ratings beyond that are never read.
   */
  lemma {:induction false} RunFinishesAtTotal(groups: seq<nat>, c: Cursor, ratings: seq<int>)
    requires Shaped(groups) && Valid(groups, c)
    ensures |c.answers| < Total(groups)
    ensures Run(groups, c, ratings) ==
      if |c.answers| + |ratings| >= Total(groups)
      then Some(c.answers + ratings[..Total(groups) - |c.answers|])
      else None
    decreases |ratings|
  {
    TotalStep(groups, c.group);
    TotalPrefix(groups, c.group + 1);
    if |ratings| > 0 {
      var v := ratings[0];
      NextKeepsCount(groups, c, v);
      match HandleNext(groups, c.(selected := Some(v)))
      case Finish(answers) =>
        assert Run(groups, c, ratings) == Some(c.answers + [v]);
        assert ratings[..1] == [v];
      case Continue(next) =>
        assert Run(groups, c, ratings) == Run(groups, next, ratings[1..]);
        RunFinishesAtTotal(groups, next, ratings[1..]);
        if |c.answers| + |ratings| >= Total(groups) {
          SpliceRatings(c.answers, ratings, Total(groups) - |next.answers|);
        }
    }
  }

  /** Answering the first rating and then `k` more is answering the first `k + 1`. */
  lemma SpliceRatings(answers: seq<int>, ratings: seq<int>, k: nat)
    requires k + 1 <= |ratings|
    ensures (answers + [ratings[0]]) + ratings[1..][..k] == answers + ratings[..k + 1]
  {
    assert ratings[1..][..k] == ratings[1..k + 1];
    assert [ratings[0]] + ratings[1..k + 1] == ratings[..k + 1];
  }

  /** From the first item, the answers collected are exactly the first `Total` ratings. */
  lemma RunFromStart(groups: seq<nat>, ratings: seq<int>)
    requires Shaped(groups)
    ensures Run(groups, START, ratings) ==
      if |ratings| >= Total(groups) then Some(ratings[..Total(groups)]) else None
  {
    assert groups[..0] == [] && groups[0] > 0;
    RunFinishesAtTotal(groups, START, ratings);
    if |ratings| >= Total(groups) {
      assert START.answers + ratings[..Total(groups)] == ratings[..Total(groups)];
    }
  }

  /** Four groups of four items: sixteen in all. */
  lemma VviqTotal()
    ensures Total(VVIQ_GROUPS) == 16
  {
    assert VVIQ_GROUPS[..3] == [4, 4, 4];
    assert [4, 4, 4][..2] == [4, 4];
    assert [4, 4][..1] == [4];
    assert [4][..0] == [];
  }

  lemma {:induction false} SumBounds(xs: seq<int>)
    requires AllRatings(xs)
    ensures |xs| <= Sum(xs) <= 5 * |xs|
  {
    if |xs| > 0 {
      SumBounds(xs[..|xs| - 1]);
    }
  }

  // VVIQ

  /** The level a VVIQ score places the user at: 1, raised to 2, 3, 4 by the thresholds 33, 49, 65. */
  function VviqLevel(score: int): (level: int)
    ensures 1 <= level <= 4
  {
    var level := 1;
    var level := if score >= 33 then 2 else level;
    var level := if score >= 49 then 3 else level;
    if score >= 65 then 4 else level
  }

  /** A higher score never gives a lower level. */
  lemma VviqLevelMonotone(a: int, b: int)
    requires a <= b
    ensures VviqLevel(a) <= VviqLevel(b)
  {
  }

  /** On the 16-80 range the levels are the four bands aphantasia, hypo-, ordinary and hyperphantasia. */
  lemma VviqBands(score: int)
    requires 16 <= score <= 80
    ensures 16 <= score <= 32 <==> VviqLevel(score) == 1
    ensures 33 <= score <= 48 <==> VviqLevel(score) == 2
    ensures 49 <= score <= 64 <==> VviqLevel(score) == 3
    ensures 65 <= score <= 80 <==> VviqLevel(score) == 4
  {
  }

  /** `finishAssessment(finalAnswers)`: store the summed score, then the level it implies. */
  function FinishVviq(s: Store.State, answers: seq<int>): (r: Store.State)
    ensures r.vviqScore == Some(Sum(answers))
    ensures r.level == VviqLevel(Sum(answers))
    ensures r == s.(vviqScore := r.vviqScore, level := r.level, lastDiagnosticXP := s.xp, showDiagnosticPrompt := false)
  {
    var total := Sum(answers);
    Store.SetLevel(Store.SetVviqScore(s, Some(total)), VviqLevel(total))
  }

  /** "Retake Assessment": clear the score (which also restarts the recalibration countdown) and rewind. */
  function Retake(s: Store.State): (r: (Store.State, Cursor))
    ensures r.0.vviqScore.None? && r.0.level == s.level
    ensures Valid(VVIQ_GROUPS, r.1) && |r.1.answers| == 0 && r.1.selected.None?
  {
    (Store.SetVviqScore(s, None), START)
  }

  /** The whole VVIQ: sixteen answers complete it, with a score of 16-80 and a level of 1-4. */
  lemma VviqAssessment(s: Store.State, ratings: seq<int>)
    requires AllRatings(ratings)
    ensures Total(VVIQ_GROUPS) == 16
    ensures Run(VVIQ_GROUPS, START, ratings).Some? <==> |ratings| >= 16
    ensures |ratings| == 16 ==>
      && Run(VVIQ_GROUPS, START, ratings) == Some(ratings)
      && 16 <= FinishVviq(s, ratings).vviqScore.value <= 80
  {
    VviqTotal();
    RunFromStart(VVIQ_GROUPS, ratings);
    if |ratings| == 16 {
      assert ratings[..16] == ratings;
      SumBounds(ratings);
    }
  }

  // Sensory assessment

  /** `assessmentData.filter(s => s.modality === modality)`. */
  function ScenariosFor(scenarios: seq<Scenario>, m: Store.Skill): (r: seq<Scenario>)
    ensures forall i :: 0 <= i < |r| ==> r[i].modality == m
    ensures |r| <= |scenarios|
  {
    if |scenarios| == 0 then []
    else
      var rest := ScenariosFor(scenarios[1..], m);
      if scenarios[0].modality == m then [scenarios[0]] + rest else rest
  }

  /** The filter keeps exactly the scenarios of the modality. */
  lemma {:induction false} ScenariosForMembers(scenarios: seq<Scenario>, m: Store.Skill)
    ensures forall x :: x in ScenariosFor(scenarios, m) <==> x in scenarios && x.modality == m
    decreases |scenarios|
  {
    if |scenarios| > 0 {
      ScenariosForMembers(scenarios[1..], m);
      assert forall x :: x in scenarios <==> x == scenarios[0] || x in scenarios[1..];
    }
  }

  function ItemCounts(scenarios: seq<Scenario>): (r: seq<nat>)
    ensures |r| == |scenarios|
    ensures forall i :: 0 <= i < |r| ==> r[i] == scenarios[i].items
  {
    seq(|scenarios|, i requires 0 <= i < |scenarios| => scenarios[i].items)
  }

  /** Visual, auditory and somatic have two four-item scenarios each; cognitive and focus have none. */
  lemma ScenarioCounts(m: Store.Skill)
    ensures m.Cognitive? || m.Focus? ==> ScenariosFor(SCENARIOS, m) == []
    ensures !(m.Cognitive? || m.Focus?) ==> ItemCounts(ScenariosFor(SCENARIOS, m)) == [4, 4]
  {
  }

  /** `Math.round((sum / maxScore) * 100)` with `maxScore = totalItems * 5`, in exact arithmetic. */
  function Normalize(sum: int, total: nat): int
    requires total > 0
  {
    Round((sum as real / (total * 5) as real) * 100.0)
  }

  /** The fraction of the maximum score: between a fifth and the whole, and exactly those at the ends. */
  lemma RatioBounds(sum: int, total: nat)
    requires total > 0 && total <= sum <= 5 * total
    ensures 0.2 <= sum as real / (total * 5) as real <= 1.0
    ensures sum == total ==> sum as real / (total * 5) as real == 0.2
    ensures sum == 5 * total ==> sum as real / (total * 5) as real == 1.0
  {
    var d := (total * 5) as real;
    DivideExact(total as real, 0.2, d);
    DivideExact(d, 1.0, d);
    DivideMonotone(total as real, sum as real, d);
    DivideMonotone(sum as real, d, d);
  }

  lemma DivideExact(x: real, y: real, d: real)
    requires d > 0.0 && x == y * d
    ensures x / d == y
  {
  }

  lemma DivideMonotone(a: real, b: real, d: real)
    requires d > 0.0 && a <= b
    ensures a / d <= b / d
  {
    assert b / d - a / d == (b - a) / d;
  }

  /** Ratings of 1-5 normalise into 20-100, all ones to 20 and all fives to 100. */
  lemma NormalizeRange(sum: int, total: nat)
    requires total > 0 && total <= sum <= 5 * total
    ensures 20 <= Normalize(sum, total) <= 100
    ensures sum == total ==> Normalize(sum, total) == 20
    ensures sum == 5 * total ==> Normalize(sum, total) == 100
  {
    RatioBounds(sum, total);
  }

  /** A larger sum never normalises lower. */
  lemma NormalizeMonotone(a: int, b: int, total: nat)
    requires total > 0 && a <= b
    ensures Normalize(a, total) <= Normalize(b, total)
  {
    DivideMonotone(a as real, b as real, (total * 5) as real);
  }

  /** `finishAssessment(finalAnswers)`: only this modality's entry of the neural profile is written. */
  function FinishSensory(s: Store.State, m: Store.Skill, answers: seq<int>, total: nat): (r: Store.State)
    requires total > 0
    ensures r == s.(neuralProfile := s.neuralProfile.With(m, Normalize(Sum(answers), total)))
  {
    var r := Store.SetNeuralProfile(s, Store.Only(m, Normalize(Sum(answers), total)));
    assert forall k :: r.neuralProfile.Get(k) == s.neuralProfile.With(m, Normalize(Sum(answers), total)).Get(k);
    r
  }

  /**
   * The sensory assessment of modality `m` answered with `ratings`: nothing
   * when the modality has no scenarios (the page shows a notice) or the
   * ratings run out first, otherwise the store after `finishAssessment`.
   */
  function SensoryAssessment(s: Store.State, m: Store.Skill, ratings: seq<int>): Option<Store.State> {
    var scenarios := ScenariosFor(SCENARIOS, m);
    if |scenarios| == 0 then None
    else
      var groups := ItemCounts(scenarios);
      ScenarioCounts(m);
      SensoryTotal(groups);
      match Run(groups, START, ratings)
      case None => None
      case Some(answers) => Some(FinishSensory(s, m, answers, Total(groups)))
  }

  /**
   * Cognitive and focus have no assessment; the other three complete after
   * eight ratings and write a 20-100 score to their own entry only.
   */
  lemma SensoryAssessmentSpec(s: Store.State, m: Store.Skill, ratings: seq<int>)
    requires AllRatings(ratings)
    ensures m.Cognitive? || m.Focus? ==> SensoryAssessment(s, m, ratings).None?
    ensures !(m.Cognitive? || m.Focus?) ==> (SensoryAssessment(s, m, ratings).Some? <==> |ratings| >= 8)
    ensures SensoryAssessment(s, m, ratings).Some? ==>
      var r := SensoryAssessment(s, m, ratings).value;
      && 20 <= r.neuralProfile.Get(m) <= 100
      && (forall k :: k != m ==> r.neuralProfile.Get(k) == s.neuralProfile.Get(k))
      && r == s.(neuralProfile := r.neuralProfile)
  {
    ScenarioCounts(m);
    if !(m.Cognitive? || m.Focus?) {
      var groups := ItemCounts(ScenariosFor(SCENARIOS, m));
      SensoryTotal(groups);
      RunFromStart(groups, ratings);
      if |ratings| >= 8 {
        FinishSensoryRange(s, m, ratings[..8]);
      }
    }
  }

  lemma SensoryTotal(groups: seq<nat>)
    requires groups == [4, 4]
    ensures Shaped(groups) && Total(groups) == 8
  {
    assert groups[..1] == [4];
    assert [4][..0] == [];
  }

  /** Eight ratings write a score of 20-100 to the assessed modality and nothing else. */
  lemma FinishSensoryRange(s: Store.State, m: Store.Skill, answers: seq<int>)
    requires AllRatings(answers) && |answers| == 8
    ensures var r := FinishSensory(s, m, answers, 8);
      && 20 <= r.neuralProfile.Get(m) <= 100
      && (forall k :: k != m ==> r.neuralProfile.Get(k) == s.neuralProfile.Get(k))
      && r == s.(neuralProfile := r.neuralProfile)
  {
    SumBounds(answers);
    NormalizeRange(Sum(answers), 8);
  }
}
