/** The per-frame side of the scene: the state part of Gravity (the
    Earth-Moon pull and the consumption of the just-released flag), the
    state part of UpdateEndEffector (thrust, engine flames, game-state
    transitions) and the state part of OnGameStateChanged. */
module Consumer {
  import opened Geometry
  import opened State

  /** m_InitialSpaceshipXPosition: crossing it in Freemovement starts the slingshot. */
  const SlingshotEntryX: real := -0.38

  /** The dead band of the engine flames. */
  const Hysteresis: real := 0.001

  /** m_thrusterStiffness, never changed by the source. */
  const ThrusterStiffness: real := 1.0

  /** The Freemovement value of m_DeviceToGraphicsFactor. */
  const FreemovementFactor: real := 6.0

  /** OnGameStateChanged as far as it touches modelled state: entering
      Freemovement switches all flames off and sets the factor to 6; every
      other state only changes the game state. */
  function EnterMode(s: Sim, m: Mode): (t: Sim)
    ensures t.mode == m
    ensures m == Freemovement ==> t.factor == 6.0 && t.flames == Flames(false, false, false, false)
    ensures m == Freemovement ==> t == s.(mode := m, factor := t.factor, flames := t.flames)
    ensures m != Freemovement ==> t == s.(mode := m)
  {
    if m == Freemovement then s.(mode := m, flames := AllOff, factor := FreemovementFactor)
    else s.(mode := m)
  }

  /** Gravity as far as it touches modelled state: the new Earth-Moon pull is
      stored, and the just-released flag is consumed by the first frame that
      sees the Released state. */
  function Gravity(s: Sim, earthForce: Vec2): (t: Sim)
    ensures t.earthForce == earthForce
    ensures t.justReleased <==> s.justReleased && s.mode != Released
    ensures t == s.(earthForce := earthForce, justReleased := t.justReleased)
  {
    var t := s.(earthForce := earthForce);
    if s.mode == Released && s.justReleased then t.(justReleased := false) else t
  }

  /** Left and right flames. A rise of more than the band lights Left, a
      fall of more than the band lights Right, an unchanged coordinate puts
      both out, and any other movement changes nothing; the vertical flames
      are left alone. */
  function HorizontalFlames(f: Flames, last: real, x: real): (g: Flames)
    ensures g.up == f.up && g.down == f.down
    ensures x > last + 0.001 ==> g == f.(left := true)
    ensures x == last ==> !g.left && !g.right
    ensures x < last - 0.001 ==> g == f.(right := true)
    ensures x != last && last - 0.001 <= x <= last + 0.001 ==> g == f
  {
    if last + Hysteresis < x then f.(left := true)
    else if last == x then f.(left := false, right := false)
    else if last - Hysteresis > x then f.(right := true)
    else f
  }

  /** Up and down flames: a fall of more than the band lights Up, a rise of
      more than the band lights Down, an unchanged coordinate puts both out,
      and any other movement changes nothing. */
  function VerticalFlames(f: Flames, last: real, y: real): (g: Flames)
    ensures g.left == f.left && g.right == f.right
    ensures y < last - 0.001 ==> g == f.(up := true)
    ensures y == last ==> !g.up && !g.down
    ensures y > last + 0.001 ==> g == f.(down := true)
    ensures y != last && last - 0.001 <= y <= last + 0.001 ==> g == f
  {
    if last - Hysteresis > y then f.(up := true)
    else if last == y then f.(up := false, down := false)
    else if last + Hysteresis < y then f.(down := true)
    else f
  }

  /** Exchanges the horizontal and the vertical flames. */
  function Swap(f: Flames): (g: Flames) {
    Flames(f.up, f.down, f.left, f.right)
  }

  /** The vertical rule is the horizontal rule on the mirrored axis, with Up
      in the place of Left and Down in the place of Right. */
  lemma VerticalMirrorsHorizontal(f: Flames, last: real, y: real)
    ensures VerticalFlames(f, last, y) == Swap(HorizontalFlames(Swap(f), -last, -y))
  {
  }

  /** A lit flame is put out only by a frame in which its coordinate did not
      change at all; no movement, however large, switches it off. */
  lemma FlamesOffOnlyWhenStill(f: Flames, last: Vec2, pos: Vec2)
    ensures f.left && !HorizontalFlames(f, last.x, pos.x).left ==> pos.x == last.x
    ensures f.right && !HorizontalFlames(f, last.x, pos.x).right ==> pos.x == last.x
    ensures f.up && !VerticalFlames(f, last.y, pos.y).up ==> pos.y == last.y
    ensures f.down && !VerticalFlames(f, last.y, pos.y).down ==> pos.y == last.y
  {
  }

  /** A flame is never switched on by a move inside the band. */
  lemma FlamesNeedMovement(f: Flames, last: Vec2, pos: Vec2)
    requires last.x - 0.001 <= pos.x <= last.x + 0.001
    requires last.y - 0.001 <= pos.y <= last.y + 0.001
    ensures var g := VerticalFlames(HorizontalFlames(f, last.x, pos.x), last.y, pos.y);
            (g.left ==> f.left) && (g.right ==> f.right) && (g.up ==> f.up) && (g.down ==> f.down)
  {
  }

  /** The thrust components: thruster stiffness times the offset of the
      published position from the anchor. */
  function Thrust(pos: Vec2, anchor: Vec2): (t: Vec2)
    ensures t == Sub(pos, anchor)
    ensures pos == anchor ==> t == Zero
  {
    Scale(ThrusterStiffness, Sub(pos, anchor))
  }

  /** UpdateEndEffector. In Freemovement, a published x at or left of -0.38
      enters Slingshot. Released with the thrusters firing updates the
      flames from the movement since the last frame, sets the thrust from
      the anchor, and enters GameWon once the avatar is at the destination
      (decided by the caller, as it depends on the rendered avatar). The
      published position is always remembered as the last position. */
  function UpdateEndEffector(s: Sim, atDestination: bool): (t: Sim)
    ensures t.lastPos == s.position
    ensures t.factor == s.factor
    ensures s.mode == Freemovement ==>
              (t.mode == Slingshot <==> s.position.x <= -0.38) &&
              (t.mode == Freemovement <==> s.position.x > -0.38)
    ensures s.mode == Released && s.firing ==>
              t.thrust == Sub(s.position, s.anchor) &&
              t.flames == VerticalFlames(HorizontalFlames(s.flames, s.lastPos.x, s.position.x),
                                         s.lastPos.y, s.position.y) &&
              (t.mode == GameWon <==> atDestination) &&
              (t.mode == Released <==> !atDestination)
    ensures !(s.mode == Released && s.firing) ==> t.thrust == s.thrust && t.flames == s.flames
    ensures s.mode != Freemovement && !(s.mode == Released && s.firing) ==>
              t == s.(lastPos := s.position)
    ensures t == s.(mode := t.mode, thrust := t.thrust, flames := t.flames, lastPos := t.lastPos)
  {
    var pos := s.position;
    var u :=
      if s.mode == Freemovement then
        if pos.x <= SlingshotEntryX then EnterMode(s, Slingshot) else s
      else if s.mode == Released && s.firing then
        var lit := VerticalFlames(HorizontalFlames(s.flames, s.lastPos.x, pos.x), s.lastPos.y, pos.y);
        var thrusting := s.(flames := lit, thrust := Thrust(pos, s.anchor));
        if atDestination then EnterMode(thrusting, GameWon) else thrusting
      else s;
    u.(lastPos := pos)
  }

  /** One rendered frame: Update (with its Gravity call) runs before
      LateUpdate (with its UpdateEndEffector call). */
  function Frame(s: Sim, earthForce: Vec2, atDestination: bool): (t: Sim)
    ensures t.earthForce == earthForce
    ensures t.position == s.position && t.force == s.force && t.factor == s.factor
    ensures t.steps == s.steps && t.torques == s.torques
    ensures t.lastPos == s.position
  {
    UpdateEndEffector(Gravity(s, earthForce), atDestination)
  }

  /** The keys Update reacts to that touch modelled state: T toggles the
      tether, F starts the thrusters and takes the anchor, S stops them and
      clears the anchor. The camera key touches only rendering. */
  datatype Key = TetherKey | FireKey | StopKey

  /** The key handling of Update for one held key. F takes the anchor at the
      published position and S resets it to the origin; nothing but the
      tether flag, the firing flag and the anchor changes. */
  function PressKey(s: Sim, k: Key): (t: Sim)
    ensures k == TetherKey ==> t.tethered != s.tethered && t.firing == s.firing && t.anchor == s.anchor
    ensures k == FireKey ==> t.firing && t.anchor == s.position && t.tethered == s.tethered
    ensures k == StopKey ==> !t.firing && t.anchor == Zero && t.tethered == s.tethered
    ensures t == s.(tethered := t.tethered, firing := t.firing, anchor := t.anchor)
  {
    match k
    case TetherKey => s.(tethered := !s.tethered)
    case FireKey => s.(firing := true, anchor := s.position)
    case StopKey => s.(firing := false, anchor := Zero)
  }

  /** Pressing T twice leaves the state as it was. */
  lemma TetherToggleTwice(s: Sim)
    ensures PressKey(PressKey(s, TetherKey), TetherKey) == s
  {
  }

  /** In Update the keys are handled after Gravity; since the two write
      disjoint fields and neither reads what the other writes, handling the
      key first gives the same state. */
  lemma KeysCommuteWithGravity(s: Sim, k: Key, earthForce: Vec2)
    ensures PressKey(Gravity(s, earthForce), k) == Gravity(PressKey(s, k), earthForce)
  {
  }

  /** Pressing F in Released and then rendering a frame gives zero thrust:
      the anchor is taken at the very position the frame reads. */
  lemma FireThenFrameZeroThrust(s: Sim, earthForce: Vec2, atDestination: bool)
    requires s.mode == Released
    ensures Frame(PressKey(s, FireKey), earthForce, atDestination).thrust == Zero
  {
  }

  /** Right after the anchor is taken at the published position, the thrust
      of a firing frame is zero. */
  lemma ThrustZeroAtAnchor(s: Sim, earthForce: Vec2, atDestination: bool)
    requires s.mode == Released && s.firing && s.anchor == s.position
    ensures Frame(s, earthForce, atDestination).thrust == Zero
  {
  }

  /** Entering and leaving keep Valid: the factor only ever becomes 6. */
  lemma ConsumerValid(s: Sim, m: Mode, earthForce: Vec2, atDestination: bool, k: Key)
    requires Valid(s)
    ensures Valid(EnterMode(s, m))
    ensures Valid(Frame(s, earthForce, atDestination))
    ensures Valid(PressKey(s, k))
  {
  }
}
