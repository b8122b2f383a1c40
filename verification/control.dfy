/** One run of the 1 kHz simulation step, and the final torque write on
    teardown. Both run under the data lock in the source, so each is one
    atomic transition of the shared record here. */
module Control {
  import opened Geometry
  import opened State
  import opened Forces

  /** SimulationStep. With fresh data the device position is read through the
      kinematics, the commanded force is computed from it by game state, the
      Freemovement effector position is updated, and the published position
      becomes the device position in graphics space. Without data position
      and force are kept. Either way a torque computed from the (new or
      retained) force is written and the step counter advances by one; no
      other field changes. */
  function ControlStep(s: Sim, p: Platform, sample: Sample): (t: Sim)
    ensures t.steps == s.steps + 1
    ensures t.torques == s.torques + [p.torques(t.force)]
    ensures sample.NoData? ==> t.position == s.position && t.force == s.force && t.effector == s.effector
    ensures sample.Data? ==>
              t.force == CommandedForce(s, p.normalized, p.position(sample.angles))
    ensures sample.Data? && s.factor != 0.0 ==>
              GraphicsToDevice(t.position, s.factor) == p.position(sample.angles)
    ensures t.effector != s.effector ==> s.mode == Freemovement && sample.Data?
    ensures s.mode == Freemovement && sample.Data? ==> t.effector == p.position(sample.angles)
    ensures t == s.(position := t.position, force := t.force, effector := t.effector,
                    steps := t.steps, torques := t.torques)
  {
    match sample
    case NoData =>
      s.(steps := s.steps + 1, torques := s.torques + [p.torques(s.force)])
    case Data(angles) =>
      var device := p.position(angles);
      var force := CommandedForce(s, p.normalized, device);
      var effector := if s.mode == Freemovement then device else s.effector;
      s.(position := DeviceToGraphics(device, s.factor), force := force, effector := effector,
         steps := s.steps + 1, torques := s.torques + [p.torques(force)])
  }

  /** OnDestroy: one torque computed from the zero force is written; the
      retained force and everything else stay as they were. */
  function Shutdown(s: Sim, p: Platform): (t: Sim)
    ensures |t.torques| == |s.torques| + 1
    ensures t.torques[..|s.torques|] == s.torques
    ensures t.torques[|s.torques|] == p.torques(Zero)
    ensures t == s.(torques := t.torques)
  {
    s.(torques := s.torques + [p.torques(Zero)])
  }

  /** Without fresh data the step re-sends the retained force: its torque
      write is the one of the previous force, whatever the game state. */
  lemma NoDataResendsForce(s: Sim, p: Platform)
    ensures ControlStep(s, p, NoData).torques[|s.torques|] == p.torques(s.force)
    ensures ControlStep(s, p, NoData).position == s.position
    ensures ControlStep(s, p, NoData).steps == s.steps + 1
  {
  }

  /** Teardown does not stop the control task, so the zero torque lasts only
      until the next step: a step without data after teardown writes the
      retained force's torque again, and a step with data writes the torque
      of the newly commanded force. */
  lemma StepAfterShutdown(s: Sim, p: Platform, angles: Vec2)
    ensures Shutdown(s, p).torques[|s.torques|] == p.torques(Zero)
    ensures ControlStep(Shutdown(s, p), p, NoData).torques[|s.torques| + 1] == p.torques(s.force)
    ensures ControlStep(Shutdown(s, p), p, Data(angles)).torques[|s.torques| + 1] ==
              p.torques(CommandedForce(s, p.normalized, p.position(angles)))
  {
  }

  /** The published position of a step with data is the device position
      negated and scaled; with a non-zero factor it determines the device
      position. */
  lemma PublishedPosition(s: Sim, p: Platform, angles: Vec2)
    ensures ControlStep(s, p, Data(angles)).position ==
              Vec2(-p.position(angles).x * s.factor, -p.position(angles).y * s.factor)
  {
  }

  /** Released ignores the just-released flag: flipping it before a step
      with data changes nothing about that step's force. */
  lemma ReleasedStepIgnoresFlag(s: Sim, p: Platform, angles: Vec2)
    requires s.mode == Released
    ensures ControlStep(s.(justReleased := true), p, Data(angles)).force ==
              ControlStep(s.(justReleased := false), p, Data(angles)).force
    ensures ControlStep(s, p, Data(angles)).force ==
              (if s.firing then Scale(20.0, s.thrust) else Zero)
  {
  }

  /** The step keeps the factor, so it keeps Valid. */
  lemma ControlStepValid(s: Sim, p: Platform, sample: Sample)
    requires Valid(s)
    ensures Valid(ControlStep(s, p, sample))
    ensures Valid(Shutdown(s, p))
  {
  }
}
