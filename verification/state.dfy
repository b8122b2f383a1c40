/** The state shared by the 1 kHz control step and the per-frame consumer of
    the Slingshot scene, as one immutable record, together with the opaque
    collaborators the step calls out to. */
module State {
  import opened Geometry

  /** The game states the core distinguishes. GameManager owns more states
      than these; every state other than the first four behaves as Other. */
  datatype Mode = Freemovement | Slingshot | Released | GameWon | Other

  datatype Orientation = Horizontal | Vertical

  /** The wall of the slingshot: orientation, position and spring stiffness. */
  datatype Wall = Wall(orientation: Orientation, at: Vec2, stiffness: real)

  /** On/off state of the four engine-flame objects. */
  datatype Flames = Flames(left: bool, right: bool, up: bool, down: bool)

  const AllOff: Flames := Flames(false, false, false, false)

  /** What the board offers in one control step: nothing, or a fresh pair of
      joint angles. */
  datatype Sample = NoData | Data(angles: Vec2)

  /** Calls the model cannot see into: the device's forward kinematics
      (angles to end-effector position), its force-to-torque map, and Unity's
      Vector2.normalized. */
  datatype Platform = Platform(
    position: Vec2 -> Vec2,
    torques: Vec2 -> Vec2,
    normalized: Vec2 -> Vec2)

  /** The fields of the Slingshot behaviour that the control step and the
      consumer read or write.
      - position: m_EndEffectorPosition, in graphics space after a step with data;
      - force: m_EndEffectorForce, the last commanded force, in device space;
      - effector: m_EffectorPosition, the device position of the last Freemovement step;
      - earthForce: m_EarthForce, the Earth-Moon pull computed per frame;
      - thrust: the horizontal and vertical thrust components;
      - lastPos: LastPos_x / LastPos_y of the consumer;
      - torques: every torque vector written to the device, oldest first. */
  datatype Sim = Sim(
    mode: Mode,
    tethered: bool,
    justReleased: bool,
    firing: bool,
    wall: Wall,
    radius: real,
    factor: real,
    position: Vec2,
    force: Vec2,
    effector: Vec2,
    earthForce: Vec2,
    thrust: Vec2,
    anchor: Vec2,
    lastPos: Vec2,
    flames: Flames,
    steps: nat,
    torques: seq<Vec2>)

  const DefaultWall: Wall := Wall(Vertical, Vec2(-0.35, 0.0), 45000.0)
  const DefaultRadius: real := 0.006

  /** The field initialisers of the behaviour; the initial game state and the
      serialized tether flag come from outside. */
  function Initial(mode: Mode, tethered: bool): (s: Sim) {
    Sim(mode, tethered, true, false, DefaultWall, DefaultRadius, 1.0,
        Zero, Zero, Zero, Zero, Zero, Zero, Zero, AllOff, 0, [])
  }

  /** The device-to-graphics factor only ever takes its initial value 1 or
      the Freemovement value 6. */
  predicate Valid(s: Sim) {
    s.factor == 1.0 || s.factor == 6.0
  }
}
