/** Interleavings of control steps, frames, key presses and game-state
    changes. Each event is taken as one atomic transition: a control step
    holds the data lock for its whole run, and the model treats a rendered
    frame (Gravity, then UpdateEndEffector), a key press and a game-state
    change the same way, although in the source only the position read of
    UpdateEndEffector is locked. What that abstraction excludes is listed
    with the rest of what the model leaves out. */
module Trace {
  import opened Geometry
  import opened State
  import opened Forces
  import opened Control
  import opened Consumer

  datatype Event =
    | Tick(sample: Sample)
    | Render(earthForce: Vec2, atDestination: bool)
    | Enter(mode: Mode)
    | Press(key: Key)

  function Apply(s: Sim, p: Platform, e: Event): (t: Sim) {
    match e
    case Tick(sample) => ControlStep(s, p, sample)
    case Render(earthForce, atDestination) => Frame(s, earthForce, atDestination)
    case Enter(m) => EnterMode(s, m)
    case Press(k) => PressKey(s, k)
  }

  /** The number of control steps in a sequence of events. */
  function Ticks(es: seq<Event>): (n: nat)
    ensures n <= |es|
  {
    if es == [] then 0 else (if es[0].Tick? then 1 else 0) + Ticks(es[1..])
  }

  /** Runs the events in order. The step counter advances once per control
      step, one torque is written per control step, and earlier torque
      writes are never altered. */
  function Run(s: Sim, p: Platform, es: seq<Event>): (t: Sim)
    ensures t.steps == s.steps + Ticks(es)
    ensures |t.torques| == |s.torques| + Ticks(es)
    ensures t.torques[..|s.torques|] == s.torques
    decreases |es|
  {
    if es == [] then s else Run(Apply(s, p, es[0]), p, es[1..])
  }

  /** Running a sequence and then one more event is running the longer sequence. */
  lemma {:induction false} RunSnoc(s: Sim, p: Platform, es: seq<Event>, e: Event)
    ensures Run(s, p, es + [e]) == Apply(Run(s, p, es), p, e)
    decreases |es|
  {
    if es == [] {
      assert [] + [e] == [e];
    } else {
      assert (es + [e])[0] == es[0];
      assert (es + [e])[1..] == es[1..] + [e];
      RunSnoc(Apply(s, p, es[0]), p, es[1..], e);
    }
  }

  /** Every reachable state keeps the factor at 1 or 6. */
  lemma {:induction false} RunValid(s: Sim, p: Platform, es: seq<Event>)
    requires Valid(s)
    ensures Valid(Run(s, p, es))
    decreases |es|
  {
    if es != [] {
      var u := Apply(s, p, es[0]);
      ControlStepValid(s, p, if es[0].Tick? then es[0].sample else NoData);
      ConsumerValid(s, if es[0].Enter? then es[0].mode else Other,
                    if es[0].Render? then es[0].earthForce else Zero,
                    es[0].Render? && es[0].atDestination,
                    if es[0].Press? then es[0].key else TetherKey);
      assert Valid(u);
      RunValid(u, p, es[1..]);
    }
  }

  /** Once Freemovement has been entered the factor stays 6 for the rest of
      the run: no later state, Slingshot and Released included, goes back to
      the initial factor 1. */
  lemma {:induction false} FactorStaysSix(s: Sim, p: Platform, es: seq<Event>)
    requires s.factor == 6.0
    ensures Run(s, p, es).factor == 6.0
    decreases |es|
  {
    if es != [] {
      FactorStaysSix(Apply(s, p, es[0]), p, es[1..]);
    }
  }

  /** The just-released flag is one-shot: once a frame has consumed it, no
      later step, frame, key press or game-state change sets it again. */
  lemma {:induction false} JustReleasedStaysCleared(s: Sim, p: Platform, es: seq<Event>)
    requires !s.justReleased
    ensures !Run(s, p, es).justReleased
    decreases |es|
  {
    if es != [] {
      JustReleasedStaysCleared(Apply(s, p, es[0]), p, es[1..]);
    }
  }

  /** No event brings fresh data. */
  predicate WithoutData(es: seq<Event>) {
    forall i :: 0 <= i < |es| ==> !(es[i].Tick? && es[i].sample.Data?)
  }

  /** While no fresh data arrives, neither frames nor game-state changes nor
      idle control steps move the published position or the commanded force,
      and every torque written is the one of the retained force. */
  lemma {:induction false} FrozenWithoutData(s: Sim, p: Platform, es: seq<Event>)
    requires WithoutData(es)
    ensures Run(s, p, es).position == s.position
    ensures Run(s, p, es).force == s.force
    ensures forall k :: |s.torques| <= k < |Run(s, p, es).torques| ==>
              Run(s, p, es).torques[k] == p.torques(s.force)
    decreases |es|
  {
    if es != [] {
      var u := Apply(s, p, es[0]);
      assert u.position == s.position && u.force == s.force;
      assert |u.torques| > |s.torques| ==> u.torques[|s.torques|] == p.torques(s.force);
      assert WithoutData(es[1..]) by {
        forall i | 0 <= i < |es[1..]|
          ensures !(es[1..][i].Tick? && es[1..][i].sample.Data?)
        {
          assert es[1..][i] == es[i + 1];
        }
      }
      FrozenWithoutData(u, p, es[1..]);
      var t := Run(u, p, es[1..]);
      forall k | |s.torques| <= k < |t.torques|
        ensures t.torques[k] == p.torques(s.force)
      {
        if k < |u.torques| {
          assert t.torques[..|u.torques|] == u.torques;
          assert t.torques[k] == t.torques[..|u.torques|][k];
        }
      }
    }
  }

  /** The control steps of a list of samples, in order. */
  function TicksOf(samples: seq<Sample>): (es: seq<Event>)
    ensures |es| == |samples|
    ensures forall i :: 0 <= i < |samples| ==> es[i] == Tick(samples[i])
  {
    if samples == [] then [] else [Tick(samples[0])] + TicksOf(samples[1..])
  }

  /** One more sample runs one more control step. */
  lemma RunTicksSnoc(s: Sim, p: Platform, samples: seq<Sample>, i: nat)
    requires i < |samples|
    ensures Run(s, p, TicksOf(samples[..i + 1])) ==
              ControlStep(Run(s, p, TicksOf(samples[..i])), p, samples[i])
  {
    assert samples[..i + 1] == samples[..i] + [samples[i]];
    assert TicksOf(samples[..i + 1]) == TicksOf(samples[..i]) + [Tick(samples[i])];
    RunSnoc(s, p, TicksOf(samples[..i]), Tick(samples[i]));
  }

  /** SimulationLoop over a finite prefix of its samples: the steps run one
      after another, never overlapping, and the result is the sequential run
      of those steps. */
  method SimulationLoop(s: Sim, p: Platform, samples: seq<Sample>) returns (t: Sim)
    requires Valid(s)
    ensures t == Run(s, p, TicksOf(samples))
    ensures t.steps == s.steps + |samples|
    ensures |t.torques| == |s.torques| + |samples|
    ensures t.torques[..|s.torques|] == s.torques
    ensures Valid(t)
  {
    t := s;
    var i := 0;
    while i < |samples|
      invariant 0 <= i <= |samples|
      invariant t == Run(s, p, TicksOf(samples[..i]))
      invariant t.steps == s.steps + i
      invariant |t.torques| == |s.torques| + i
      invariant t.torques[..|s.torques|] == s.torques
      invariant Valid(t)
    {
      RunTicksSnoc(s, p, samples, i);
      ControlStepValid(t, p, samples[i]);
      t := ControlStep(t, p, samples[i]);
      i := i + 1;
    }
    assert samples[..i] == samples;
  }

  /** The thrust a firing frame computes from the published position is what
      the next step with data commands: 20 times stiffness times the offset
      of the position from the anchor. */
  lemma ThrustReachesDevice(s: Sim, p: Platform, earthForce: Vec2, angles: Vec2)
    requires s.mode == Released && s.firing
    ensures ControlStep(Frame(s, earthForce, false), p, Data(angles)).force ==
              Scale(20.0, Sub(s.position, s.anchor))
  {
  }

  /** After a step with data in Freemovement with a positive factor, the next
      frame enters Slingshot exactly when the device x times the factor is at
      least 0.38; with the factor 6 that is a device x of at least 0.38 / 6. */
  lemma SlingshotEntryInDeviceSpace(s: Sim, p: Platform, angles: Vec2, atDestination: bool)
    requires s.mode == Freemovement && s.factor > 0.0
    ensures (UpdateEndEffector(ControlStep(s, p, Data(angles)), atDestination).mode == Slingshot
             <==> p.position(angles).x * s.factor >= 0.38)
  {
  }

  /** The first Freemovement step with data after start-up, when it is
      untethered, divides by zero in the source: the effector position it
      measures the distance from is still the initial origin, whichever game
      state came first. The model commands zero force there instead. */
  lemma FirstUntetheredStepAsWritten(m: Mode, p: Platform, angles: Vec2)
    ensures var s := EnterMode(Initial(m, false), Freemovement);
            UntetheredForceAsWritten(s.effector, p.normalized(Neg(p.position(angles)))).NonFinite?
    ensures ControlStep(EnterMode(Initial(m, false), Freemovement), p, Data(angles)).force == Zero
  {
  }
}
