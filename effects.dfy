/** The field effects' distance guards and linear strengths. Four of the nine
    effects act only within a cutoff distance of the cursor and leave every
    other point exactly where it is; their strengths are `map` remaps of the
    distance. The distance, the point-minus-cursor vector and the cosines and
    sines the sketch computes with `atan2`, `cos` and `sin` are given to these
    functions as inputs. */
module Effects {
  import opened P5Math
  import Input

  datatype Option<T> = None | Some(value: T)

  /** The nine effects, in the order of the effect-name list. */
  datatype Effect =
    | Repulsion | Wavy | PerlinNoise | Ripple | Spiral
    | MagneticPull | DistortionRipple | Swirl | BubbleExpansion

  /** The `switch (effectMode)`: an index outside the nine cases selects no effect. */
  function EffectOf(mode: nat): (e: Option<Effect>)
    ensures e.Some? <==> mode < Input.EffectCount
    ensures mode == 0 ==> e == Some(Repulsion)
    ensures mode == 1 ==> e == Some(Wavy)
    ensures mode == 2 ==> e == Some(PerlinNoise)
    ensures mode == 3 ==> e == Some(Ripple)
    ensures mode == 4 ==> e == Some(Spiral)
    ensures mode == 5 ==> e == Some(MagneticPull)
    ensures mode == 6 ==> e == Some(DistortionRipple)
    ensures mode == 7 ==> e == Some(Swirl)
    ensures mode == 8 ==> e == Some(BubbleExpansion)
  {
    if mode < 9 then
      Some([Repulsion, Wavy, PerlinNoise, Ripple, Spiral, MagneticPull, DistortionRipple, Swirl, BubbleExpansion][mode])
    else None
  }

  /** Every mode the input controller can reach selects one of the nine effects. */
  lemma EveryModeHasEffect(m: Input.Mode, keys: seq<Input.Key>)
    requires Input.ValidMode(m)
    ensures EffectOf(Input.Run(m, keys).effect).Some?
  {
    Input.RunStaysValid(m, keys);
  }

  /** A displacement added to a glyph point before it is drawn. */
  datatype Offset = Offset(ox: real, oy: real)

  const Still: Offset := Offset(0.0, 0.0)

  /** One glyph point seen from the cursor: the distance `d`, the vector
      (dx, dy) = (x - mouseX, y - mouseY), the cosine and sine of
      `atan2(dy, dx)`, and the cosine and sine of that angle turned by the
      swirl. */
  datatype Probe = Probe(d: real, dx: real, dy: real, cosA: real, sinA: real, cosSwirled: real, sinSwirled: real)

  /** The cutoff distances of the guarded effects. */
  const RepulsionRadius: real := 100.0
  const PullRadius: real := 100.0
  const SwirlRadius: real := 150.0
  const BubbleRadius: real := 100.0

  /** `Math.PI`, to the precision of its decimal rendering. */
  const Pi: real := 3.141592653589793

  /** Effect 0's push, `map(d, 0, 100, 50, 0)`: 50 at the cursor, falling to
      nothing at the cutoff, and positive everywhere inside it. */
  function RepulsionStrength(d: real): (f: real)
    requires 0.0 <= d < RepulsionRadius
    ensures 0.0 < f <= 50.0
    ensures d == 0.0 ==> f == 50.0
  {
    RemapBetweenFalling(d, 0.0, RepulsionRadius, 50.0, 0.0);
    Remap(d, 0.0, RepulsionRadius, 50.0, 0.0)
  }

  /** Effect 5's pull, `map(d, 0, 100, 0.5, 0)`: the fraction of the way to
      the cursor a point is moved. */
  function PullFraction(d: real): (f: real)
    requires 0.0 <= d < PullRadius
    ensures 0.0 < f <= 0.5
    ensures d == 0.0 ==> f == 0.5
  {
    RemapBetweenFalling(d, 0.0, PullRadius, 0.5, 0.0);
    Remap(d, 0.0, PullRadius, 0.5, 0.0)
  }

  /** Effect 7's turn, `map(d, 0, 150, PI/3, 0)`: a third of a half-turn at the
      cursor, less further out. */
  function SwirlAngle(d: real): (a: real)
    requires 0.0 <= d < SwirlRadius
    ensures 0.0 < a <= Pi / 3.0
    ensures d == 0.0 ==> a == Pi / 3.0
  {
    RemapBetweenFalling(d, 0.0, SwirlRadius, Pi / 3.0, 0.0);
    Remap(d, 0.0, SwirlRadius, Pi / 3.0, 0.0)
  }

  /** Effect 8's push, `map(d, 0, 100, 15, 0)`. */
  function BubbleStrength(d: real): (f: real)
    requires 0.0 <= d < BubbleRadius
    ensures 0.0 < f <= 15.0
    ensures d == 0.0 ==> f == 15.0
  {
    RemapBetweenFalling(d, 0.0, BubbleRadius, 15.0, 0.0);
    Remap(d, 0.0, BubbleRadius, 15.0, 0.0)
  }

  /** A push of strength `f` along the cursor-to-point direction. */
  function Radial(p: Probe, f: real): Offset {
    Offset(p.cosA * f, p.sinA * f)
  }

  /** Effect 0, Repulsion: inside the cutoff, push the point straight away
      from the cursor; elsewhere leave it. */
  function RepulsionOffset(p: Probe): (o: Offset)
    requires 0.0 <= p.d
    ensures RepulsionRadius <= p.d ==> o == Still
    ensures p.d < RepulsionRadius ==> o == Radial(p, RepulsionStrength(p.d))
  {
    if p.d < RepulsionRadius then Radial(p, RepulsionStrength(p.d)) else Still
  }

  /** One axis of the pull, `(mouseX - x) * f` with delta = x - mouseX: the
      point moves toward the cursor by at most half the way, so it never
      overshoots it. */
  function PullComponent(delta: real, f: real): (w: real)
    requires 0.0 <= f <= 0.5
    ensures 0.0 <= delta ==> -delta / 2.0 <= w <= 0.0
    ensures delta <= 0.0 ==> 0.0 <= w <= -delta / 2.0
  {
    var w := 0.0 - delta * f;
    AtMostHalfway(f, delta);
    w
  }

  /** Moving back by a fraction f in [0, 1/2] of v covers at most half of it. */
  lemma AtMostHalfway(f: real, v: real)
    requires 0.0 <= f <= 0.5
    ensures 0.0 <= v ==> -v / 2.0 <= 0.0 - v * f <= 0.0
    ensures v <= 0.0 ==> 0.0 <= 0.0 - v * f <= -v / 2.0
  {
    if 0.0 <= v {
      MulMonotone(f, 0.5, v);
      MulMonotone(0.0, f, v);
      assert f * v == v * f;
    } else {
      MulMonotone(f, 0.5, -v);
      MulMonotone(0.0, f, -v);
      assert f * -v == 0.0 - v * f;
    }
  }

  /** Effect 5, Magnetic Pull: inside the cutoff, move the point part of the
      way toward the cursor on both axes. */
  function PullOffset(p: Probe): (o: Offset)
    requires 0.0 <= p.d
    ensures PullRadius <= p.d ==> o == Still
    ensures p.d < PullRadius ==> o == Offset(PullComponent(p.dx, PullFraction(p.d)), PullComponent(p.dy, PullFraction(p.d)))
  {
    if p.d < PullRadius then
      var f := PullFraction(p.d);
      Offset(PullComponent(p.dx, f), PullComponent(p.dy, f))
    else Still
  }

  /** Effect 7, Swirl: inside the cutoff, half the step from the point to
      its position turned about the cursor. */
  function SwirlOffset(p: Probe): (o: Offset)
    requires 0.0 <= p.d
    ensures SwirlRadius <= p.d ==> o == Still
    ensures p.d < SwirlRadius ==> o == Offset((p.cosSwirled * p.d - p.dx) * 0.5, (p.sinSwirled * p.d - p.dy) * 0.5)
  {
    if p.d < SwirlRadius then
      Offset((p.cosSwirled * p.d - p.dx) * 0.5, (p.sinSwirled * p.d - p.dy) * 0.5)
    else Still
  }

  /** Effect 8, Bubble Expansion: like Repulsion, with a gentler push. */
  function BubbleOffset(p: Probe): (o: Offset)
    requires 0.0 <= p.d
    ensures BubbleRadius <= p.d ==> o == Still
    ensures p.d < BubbleRadius ==> o == Radial(p, BubbleStrength(p.d))
  {
    if p.d < BubbleRadius then Radial(p, BubbleStrength(p.d)) else Still
  }

  /** The cutoff distance of each guarded effect; the others have none. */
  function CutoffRadius(e: Effect): (r: Option<real>)
    ensures r.Some? <==> e in {Repulsion, MagneticPull, Swirl, BubbleExpansion}
    ensures r.Some? ==> 0.0 < r.value
  {
    match e
    case Repulsion => Some(RepulsionRadius)
    case MagneticPull => Some(PullRadius)
    case Swirl => Some(SwirlRadius)
    case BubbleExpansion => Some(BubbleRadius)
    case _ => None
  }

  /** The offset of a guarded effect; the unguarded effects, whose offsets are
      sines, cosines and noise of the time, have none here. */
  function GuardedOffset(e: Effect, p: Probe): (o: Option<Offset>)
    requires 0.0 <= p.d
    ensures o.Some? <==> CutoffRadius(e).Some?
  {
    match e
    case Repulsion => Some(RepulsionOffset(p))
    case MagneticPull => Some(PullOffset(p))
    case Swirl => Some(SwirlOffset(p))
    case BubbleExpansion => Some(BubbleOffset(p))
    case _ => None
  }

  /** At or beyond its cutoff a guarded effect leaves the point exactly where
      it is, not merely nearly so. */
  lemma ZeroBeyondCutoff(e: Effect, p: Probe)
    requires 0.0 <= p.d
    requires CutoffRadius(e).Some? && CutoffRadius(e).value <= p.d
    ensures GuardedOffset(e, p) == Some(Still)
  {
  }

  /** The repulsion strength falls linearly: 50 at the cursor, 25 halfway. */
  lemma RepulsionSamples()
    ensures RepulsionStrength(0.0) == 50.0
    ensures RepulsionStrength(50.0) == 25.0
    ensures RepulsionStrength(99.0) == 0.5
  {
  }

  /** Nearer points are pushed harder. */
  lemma RepulsionDecreasing(d1: real, d2: real)
    requires 0.0 <= d1 <= d2 < RepulsionRadius
    ensures RepulsionStrength(d2) <= RepulsionStrength(d1)
    ensures BubbleStrength(d2) <= BubbleStrength(d1)
  {
  }

  /** With a unit direction, a radial push of strength f has length f: the
      point moves exactly f pixels. */
  lemma RadialLength(p: Probe, f: real)
    requires p.cosA * p.cosA + p.sinA * p.sinA == 1.0
    ensures Radial(p, f).ox * Radial(p, f).ox + Radial(p, f).oy * Radial(p, f).oy == f * f
  {
    calc {
      Radial(p, f).ox * Radial(p, f).ox + Radial(p, f).oy * Radial(p, f).oy;
      (p.cosA * f) * (p.cosA * f) + (p.sinA * f) * (p.sinA * f);
      (p.cosA * p.cosA + p.sinA * p.sinA) * (f * f);
      f * f;
    }
  }

  /** Inside the swirl radius the drawn point is the midpoint between the
      glyph point and its turned position about the cursor. */
  lemma SwirlMidpoint(p: Probe, x: real, y: real, mouseX: real, mouseY: real)
    requires 0.0 <= p.d < SwirlRadius
    requires p.dx == x - mouseX && p.dy == y - mouseY
    ensures x + SwirlOffset(p).ox == (x + (mouseX + p.cosSwirled * p.d)) / 2.0
    ensures y + SwirlOffset(p).oy == (y + (mouseY + p.sinSwirled * p.d)) / 2.0
  {
  }

  /** Effect 6's envelope, `map(d, 0, 200, 10, 0)`, which `map` does not
      clamp: it falls from 10 to 0 over the first 200 pixels and turns
      negative beyond them. */
  function DistortionEnvelope(d: real): (m: real)
    ensures 0.0 <= d <= 200.0 ==> 0.0 <= m <= 10.0
    ensures d == 200.0 ==> m == 0.0
    ensures 200.0 < d ==> m < 0.0
  {
    Remap(d, 0.0, 200.0, 10.0, 0.0)
  }

  /** Past 200 pixels the envelope grows again without bound: for any bound b
      there is a distance at which its size exceeds b. */
  lemma DistortionEnvelopeUnbounded(b: real)
    requires 0.0 <= b
    ensures DistortionEnvelope(220.0 + 20.0 * b) < -b
  {
  }
}
