/** The commanded end-effector force of one control step, per game state:
    a penalty spring against the slingshot wall, the thruster force after
    release, and the pull toward the device origin during free movement. */
module Forces {
  import opened Geometry
  import opened State

  const G: real := 0.0000000000667
  const EarthMass: real := 333000.0
  const MoonMass: real := 1.0

  const GravityGain: real := 400.0
  const TetherGain: real := -500.0
  const ThrustGain: real := 20.0

  /** G * (mass_earth * mass_moon), the numerator of the untethered pull. */
  const Attraction: real := G * (EarthMass * MoonMass)

  /** The component of v along the wall's constrained axis. */
  function Along(v: Vec2, o: Orientation): (c: real) {
    match o
    case Horizontal => v.y
    case Vertical => v.x
  }

  /** The component of v along the axis the wall leaves free. */
  function Across(v: Vec2, o: Orientation): (c: real) {
    match o
    case Horizontal => v.x
    case Vertical => v.y
  }

  /** Signed distance from the effector's leading edge to the wall along the
      constrained axis; negative once the effector has crossed the wall. */
  function Penetration(wall: Wall, radius: real, pos: Vec2): (d: real) {
    match wall.orientation
    case Horizontal => wall.at.y - (pos.y + radius)
    case Vertical => wall.at.x - (pos.x + radius)
  }

  /** The vector with magnitude v on the wall's constrained axis and zero on
      the other. */
  function OnAxis(o: Orientation, v: real): (a: Vec2) {
    match o
    case Horizontal => Vec2(0.0, v)
    case Vertical => Vec2(v, 0.0)
  }

  /** Slingshot: the wall reaction is the penetration vector times minus the
      stiffness while the effector is past the wall, and the commanded force
      is its negation. Only the constrained axis is ever non-zero, and there
      the force is stiffness times penetration in contact, zero otherwise. */
  function SlingshotForce(wall: Wall, radius: real, pos: Vec2): (f: Vec2)
    ensures f == OnAxis(wall.orientation,
                        if Penetration(wall, radius, pos) < 0.0
                        then wall.stiffness * Penetration(wall, radius, pos)
                        else 0.0)
  {
    var penetration := OnAxis(wall.orientation, Penetration(wall, radius, pos));
    var reaction :=
      if Along(penetration, wall.orientation) < 0.0 then Scale(-wall.stiffness, penetration) else Zero;
    Sub(Zero, reaction)
  }

  /** The force never has a component across the wall, and its component
      along the wall is stiffness times penetration in contact and zero
      otherwise; in particular a vertical wall gives
      (stiffness * penetration, 0) or (0, 0) and a horizontal wall gives
      (0, stiffness * penetration) or (0, 0). */
  lemma SlingshotAxes(wall: Wall, radius: real, pos: Vec2)
    ensures Across(SlingshotForce(wall, radius, pos), wall.orientation) == 0.0
    ensures Penetration(wall, radius, pos) >= 0.0 ==> SlingshotForce(wall, radius, pos) == Zero
    ensures wall.orientation == Vertical && Penetration(wall, radius, pos) < 0.0 ==>
              SlingshotForce(wall, radius, pos) == Vec2(wall.stiffness * (wall.at.x - (pos.x + radius)), 0.0)
    ensures wall.orientation == Horizontal && Penetration(wall, radius, pos) < 0.0 ==>
              SlingshotForce(wall, radius, pos) == Vec2(0.0, wall.stiffness * (wall.at.y - (pos.y + radius)))
  {
  }

  /** With a non-negative stiffness the wall only ever pushes the effector
      back (the force on the constrained axis is never positive), and with a
      positive stiffness the force vanishes exactly when the effector has not
      crossed the wall. */
  lemma SlingshotPushesBack(wall: Wall, radius: real, pos: Vec2)
    requires wall.stiffness >= 0.0
    ensures Along(SlingshotForce(wall, radius, pos), wall.orientation) <= 0.0
    ensures wall.stiffness > 0.0 ==>
              (SlingshotForce(wall, radius, pos) == Zero <==> Penetration(wall, radius, pos) >= 0.0)
  {
    SpringSign(wall.orientation, wall.stiffness, Penetration(wall, radius, pos));
  }

  /** The sign argument of SlingshotPushesBack, on the spring law alone. */
  lemma SpringSign(o: Orientation, k: real, pen: real)
    requires k >= 0.0
    ensures Along(OnAxis(o, if pen < 0.0 then k * pen else 0.0), o) <= 0.0
    ensures k > 0.0 ==> (OnAxis(o, if pen < 0.0 then k * pen else 0.0) == Zero <==> pen >= 0.0)
  {
    OnAxisParts(o, if pen < 0.0 then k * pen else 0.0);
    if pen < 0.0 {
      ProductSign(k, pen);
    }
  }

  /** OnAxis puts its value on the constrained axis and nothing across it. */
  lemma OnAxisParts(o: Orientation, v: real)
    ensures Along(OnAxis(o, v), o) == v
    ensures Across(OnAxis(o, v), o) == 0.0
    ensures OnAxis(o, v) == Zero <==> v == 0.0
  {
  }

  /** A non-negative factor times a negative one is never positive, and is
      negative when the first factor is positive. */
  lemma ProductSign(k: real, p: real)
    requires k >= 0.0 && p < 0.0
    ensures k * p <= 0.0
    ensures k > 0.0 ==> k * p < 0.0
  {
  }

  /** Released: the one-shot clearing on the first released step is
      overwritten in the same step, so the force is the scaled thrust while
      the thrusters fire and zero otherwise, whatever the just-released flag
      and the previous force were. */
  function ReleasedForce(justReleased: bool, firing: bool, thrust: Vec2, previous: Vec2): (f: Vec2)
    ensures firing ==> f == Vec2(20.0 * thrust.x, 20.0 * thrust.y)
    ensures !firing ==> f == Zero
  {
    if firing then Scale(ThrustGain, thrust) else Zero
  }

  /** The just-released flag and the previous force never influence the
      Released force. */
  lemma ReleasedIgnoresHistory(j1: bool, j2: bool, firing: bool, thrust: Vec2, p1: Vec2, p2: Vec2)
    ensures ReleasedForce(j1, firing, thrust, p1) == ReleasedForce(j2, firing, thrust, p2)
  {
  }

  /** A force as IEEE arithmetic produces it: finite, or infinite/NaN after a
      division by zero. */
  datatype Outcome = Finite(force: Vec2) | NonFinite

  /** The untethered pull for a non-zero previous distance: 400 times the
      normalized direction times G * M * m / distance^2. It obeys the
      inverse-square law distance^2 * pull == 400 * G * M * m * direction. */
  function Pull(previous: Vec2, direction: Vec2): (f: Vec2)
    requires NormSq(previous) != 0.0
    ensures Scale(NormSq(previous), f) == Scale(GravityGain * Attraction, direction)
  {
    Scale(GravityGain, Scale(Attraction / NormSq(previous), direction))
  }

  /** Untethered Freemovement as written: the distance is taken from the
      effector position of the PREVIOUS Freemovement step, the direction is
      Unity's normalization of the vector from the new position to the
      origin, and the magnitude divides by the squared distance without a
      guard, so a previous position at the origin gives a non-finite force. */
  function UntetheredForceAsWritten(previous: Vec2, direction: Vec2): (r: Outcome)
    ensures r.NonFinite? <==> NormSq(previous) == 0.0
    ensures r.Finite? ==> Scale(NormSq(previous), r.force) == Scale(GravityGain * Attraction, direction)
  {
    var distSq := NormSq(previous);
    if distSq == 0.0 then NonFinite else Finite(Pull(previous, direction))
  }

  /** Untethered Freemovement with the division guarded: zero force when the
      previous position is the origin, otherwise the source's inverse-square
      pull. The result is always finite. */
  function UntetheredForce(previous: Vec2, direction: Vec2): (f: Vec2)
    ensures NormSq(previous) == 0.0 ==> f == Zero
    ensures NormSq(previous) != 0.0 ==> Scale(NormSq(previous), f) == Scale(GravityGain * Attraction, direction)
  {
    var distSq := NormSq(previous);
    if distSq == 0.0 then Zero else Pull(previous, direction)
  }

  /** At the origin the as-written force is non-finite and the guarded one
      is zero. */
  lemma UntetheredAtOrigin(direction: Vec2)
    ensures UntetheredForceAsWritten(Zero, direction).NonFinite?
    ensures UntetheredForce(Zero, direction) == Zero
  {
  }

  /** The guarded force is the as-written force wherever that is finite. */
  lemma UntetheredAgreesWhereFinite(previous: Vec2, direction: Vec2)
    requires UntetheredForceAsWritten(previous, direction).Finite?
    ensures UntetheredForceAsWritten(previous, direction).force == UntetheredForce(previous, direction)
  {
  }

  /** Scaling a vector scales its squared length by the square. */
  lemma NormSqScale(c: real, a: Vec2)
    ensures NormSq(Scale(c, a)) == c * c * NormSq(a)
  {
    calc {
      NormSq(Scale(c, a));
      (c * a.x) * (c * a.x) + (c * a.y) * (c * a.y);
      c * c * (a.x * a.x) + c * c * (a.y * a.y);
    }
  }

  /** At unit distance the pull is 400 * G * M * m along the direction. */
  lemma UntetheredUnitDistance(previous: Vec2, direction: Vec2)
    requires NormSq(previous) == 1.0
    ensures UntetheredForce(previous, direction) == Scale(GravityGain * Attraction, direction)
  {
  }

  /** Inverse-square law: moving the previous position c times farther from
      the origin divides the pull by c^2. */
  lemma UntetheredInverseSquare(previous: Vec2, direction: Vec2, c: real)
    requires c != 0.0
    ensures UntetheredForce(Scale(c, previous), direction) ==
              Scale(1.0 / (c * c), UntetheredForce(previous, direction))
  {
    NormSqScale(c, previous);
    var d := NormSq(previous);
    if d != 0.0 {
      var k := Attraction / d;
      assert Attraction / (c * c * d) == (1.0 / (c * c)) * k;
    }
  }

  /** For a unit direction, the squared magnitude of the pull is
      (400 * G * M * m / distance^2)^2. */
  lemma UntetheredMagnitude(previous: Vec2, direction: Vec2)
    requires NormSq(previous) != 0.0
    requires NormSq(direction) == 1.0
    ensures NormSq(UntetheredForce(previous, direction)) ==
              (GravityGain * Attraction / NormSq(previous)) * (GravityGain * Attraction / NormSq(previous))
  {
    var d := NormSq(previous);
    var c := GravityGain * (Attraction / d);
    assert UntetheredForce(previous, direction) == Scale(c, direction);
    NormSqScale(c, direction);
    assert c == GravityGain * Attraction / d;
  }

  /** The dispatch on the game state. Freemovement pulls toward the origin,
      or, tethered, pushes against the Earth-Moon pull scaled by -500;
      Slingshot pushes back from the wall; Released fires the thrusters or
      does nothing; every other state commands zero force. */
  function CommandedForce(s: Sim, normalized: Vec2 -> Vec2, pos: Vec2): (f: Vec2)
    ensures s.mode == Freemovement && s.tethered ==>
              f == Vec2(-500.0 * s.earthForce.x, -500.0 * s.earthForce.y)
    ensures s.mode == Freemovement && !s.tethered ==>
              f == UntetheredForce(s.effector, normalized(Neg(pos)))
    ensures s.mode == Slingshot ==> f == SlingshotForce(s.wall, s.radius, pos)
    ensures s.mode == Released ==> f == (if s.firing then Scale(20.0, s.thrust) else Zero)
    ensures s.mode == GameWon || s.mode == Other ==> f == Zero
  {
    match s.mode
    case Freemovement =>
      if !s.tethered then UntetheredForce(s.effector, normalized(Sub(Zero, pos)))
      else Scale(TetherGain, s.earthForce)
    case Slingshot => SlingshotForce(s.wall, s.radius, pos)
    case Released => ReleasedForce(s.justReleased, s.firing, s.thrust, s.force)
    case _ => Zero
  }
}
