/**
 * `generateSession(level)`: the visualisation object a free practice
 * session shows, chosen by the user's level and up to three random draws.
 */
module SessionGenerator {
  import opened Wrappers
  import opened JsMath

  datatype Shape = Gabor | Sphere | Cube | Wireframe

  const COLORS: seq<string> := ["#FF0000", "#00FF00", "#0000FF", "#FFFF00", "#00FFFF", "#FF00FF"]
  const WHITE: string := "#FFFFFF"

  /**
   * A session configuration. The gabor angle `Math.random() * Math.PI` is
   * kept as the draw itself, so the angle is `anglePi` times pi.
   */
  datatype SessionConfig = SessionConfig(
    shape: Shape, color: string, duration: nat, description: string, anglePi: Option<real>)

  /** The `Math.random()` results in the order the function asks for them. */
  datatype Draws = Draws(first: real, second: real, third: real)

  predicate ValidDraws(d: Draws) {
    IsDraw(d.first) && IsDraw(d.second) && IsDraw(d.third)
  }

  function GenerateSession(level: int, d: Draws): (r: SessionConfig)
    requires ValidDraws(d)
    ensures r.color == WHITE || r.color in COLORS
    ensures r.anglePi.Some? ==> 0.0 <= r.anglePi.value < 1.0
  {
    if level == 1 then
      if d.first < 0.3 then
        SessionConfig(Gabor, WHITE, 30, "Cortical Priming Pattern", Some(d.second))
      else
        var shape := if d.second > 0.5 then Sphere else Cube;
        var color := PickFrom(COLORS, d.third);
        SessionConfig(shape, color, 45, "High Contrast " + (if shape == Sphere then "Sphere" else "Cube"), None)
    else if level == 2 then
      SessionConfig(Wireframe, PickFrom(COLORS, d.first), 60, "Complex 3D Wireframe", None)
    else
      var shape := PickFrom([Sphere, Cube, Wireframe], d.first);
      SessionConfig(shape, PickFrom(COLORS, d.second), 60, "Advanced Visualization Object", None)
  }

  /** What each level can produce. */
  lemma SessionByLevel(level: int, d: Draws)
    requires ValidDraws(d)
    ensures var r := GenerateSession(level, d);
      && (level == 1 && d.first < 0.3 ==> r.shape == Gabor && r.color == WHITE && r.duration == 30 && r.anglePi.Some?)
      && (level == 1 && d.first >= 0.3 ==>
            (r.shape == Sphere || r.shape == Cube) && r.color in COLORS && r.duration == 45 && r.anglePi.None?)
      && (level == 2 ==> r.shape == Wireframe && r.color in COLORS && r.duration == 60)
      && (level != 1 && level != 2 ==> r.shape != Gabor && r.color in COLORS && r.duration == 60)
  {
  }

  /**
   * The gabor patch is the level-1 priming pattern and nothing else: it is
   * the only white object, the only 30-second one, the only one with an
   * angle, and no other level produces it.
   */
  lemma GaborOnlyAtLevelOne(level: int, d: Draws)
    requires ValidDraws(d)
    ensures var r := GenerateSession(level, d);
      && (r.shape == Gabor ==> level == 1)
      && (r.shape == Gabor <==> r.color == WHITE)
      && (r.shape == Gabor <==> r.duration == 30)
      && (r.shape == Gabor <==> r.anglePi.Some?)
      && (r.duration == 45 <==> level == 1 && r.shape != Gabor)
  {
    assert WHITE !in COLORS;
  }

  /** At level 1 the description names the shape shown. */
  lemma DescriptionNamesShape(d: Draws)
    requires ValidDraws(d) && d.first >= 0.3
    ensures var r := GenerateSession(1, d);
      r.description == if r.shape == Sphere then "High Contrast Sphere" else "High Contrast Cube"
  {
  }

  /** Every shape a level allows is produced by some draws. */
  lemma EveryShapeReachable()
    ensures GenerateSession(1, Draws(0.0, 0.0, 0.0)).shape == Gabor
    ensures GenerateSession(1, Draws(0.5, 0.75, 0.0)).shape == Sphere
    ensures GenerateSession(1, Draws(0.5, 0.25, 0.0)).shape == Cube
    ensures GenerateSession(3, Draws(0.0, 0.0, 0.0)).shape == Sphere
    ensures GenerateSession(3, Draws(0.5, 0.0, 0.0)).shape == Cube
    ensures GenerateSession(3, Draws(0.9, 0.0, 0.0)).shape == Wireframe
  {
    assert Pick(0.5, 3) == 1;
    assert Pick(0.9, 3) == 2;
  }
}
