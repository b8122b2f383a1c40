# Slingshot haptic control core, modelled in Dafny

This project models the force-feedback core of the `Slingshot` behaviour of
a two-degree-of-freedom Haply device game. Every millisecond a control step
reads the device position and computes a commanded force from the game
state:

- Freemovement: a pull toward the device origin (with the Earth and Moon masses), or, when tethered, −500 × the Earth–Moon pull.
- Slingshot: a penalty spring against a vertical or horizontal wall.
- Released: 20 × the thrust while the thrusters fire.
- Every other state: zero.

The step then publishes the position in graphics space, writes torques
computed from the force, and counts itself. Once per frame a consumer does
four things:

- reads the published position;
- updates the thrust and the engine-flame flags;
- switches from Freemovement to Slingshot when x ≤ −0.38;
- consumes the just-released flag.

Floats are mathematical reals. The shared record is an immutable datatype
(`State.Sim`), and every operation is a pure function on it. The device's
kinematics, its force-to-torque map and Unity's `Vector2.normalized` are
opaque. They are the function fields of `State.Platform`. Torque writes are
recorded in the `torques` log of the record, so "a torque computed from
force F was written" reads `p.torques(F)` at the log's end.

Modules:

- `Geometry`: `Vec2` and the device-to-graphics transform.
- `State`: game states, the wall, the flames, the shared record and the opaque collaborators.
- `Forces`: the per-state force laws and their dispatch.
- `Control`: the control step and the teardown write.
- `Consumer`: the frame-side updates and the game-state change handler.
- `Trace`: arbitrary interleavings of steps, frames, key presses and game-state changes, and the loop.

The model follows the source where it is easy to misread:

- The Released branch zeroes the force when just released. The thruster/zero assignment that follows always overwrites it, so the flag never reaches the force. It is consumed only by `Gravity` (`Forces.ReleasedForce`, `Consumer.Gravity`).
- The device-to-graphics factor becomes 6 on entering Freemovement and is never reset: the reset on Released is commented out. So Slingshot and Released positions are scaled by 6, not 1 (`Trace.FactorStaysSix`).
- Untethered Freemovement takes the distance from the previous step's effector position. The new position gives only the direction. The masses are the Earth's and the Moon's (`Forces.UntetheredForceAsWritten`).
- The distance is not guarded against zero (see Findings).
- Teardown writes one zero torque but does not stop the control task. The next step writes a torque again: the retained force's without data (`Control.StepAfterShutdown`), the newly commanded force's with data.
- The commanded Slingshot force is stiffness × penetration, which is ≤ 0 in contact. It is the negation of the wall reaction −stiffness × penetration.

## Model

| member | source | states |
|---|---|---|
| Geometry.DeviceToGraphics | Slingshot.cs:655-659 | published position is the device position negated and scaled; for a non-zero factor negating and dividing recovers it; a positive factor flips every sign |
| Geometry.GraphicsToDevice | Slingshot.cs:655-659 | the inverse transform, mapped forward again, gives back the graphics position |
| Geometry.TransformRoundTrip | Slingshot.cs:655-659 | both compositions of transform and inverse are the identity for a non-zero factor |
| Geometry.TransformInjective | Slingshot.cs:655-659 | with a non-zero factor distinct device positions publish distinct positions; with factor 0 all collapse |
| Forces.SlingshotForce | Slingshot.cs:443-473 | force is stiffness × penetration on the wall's constrained axis when penetration < 0, else zero; never anything on the other axis |
| Forces.SlingshotAxes | Slingshot.cs:445-472 | vertical wall: (k·(wallX − (x + r)), 0) or (0, 0); horizontal wall: (0, k·(wallY − (y + r))) or (0, 0); the free axis is always 0 |
| Forces.SlingshotPushesBack | Slingshot.cs:445-472 | with stiffness ≥ 0 the constrained component is ≤ 0; with stiffness > 0 the force is zero exactly when the wall is not crossed |
| Forces.ReleasedForce | Slingshot.cs:475-497 | Released force is (20·hThrust, 20·vThrust) when firing and (0, 0) otherwise |
| Forces.ReleasedIgnoresHistory | Slingshot.cs:477-496 | the just-released flag and the previous force never change the Released force |
| Forces.Pull | Slingshot.cs:433-435 | untethered pull obeys distance² · F = 400·G·M·m · direction |
| Forces.UntetheredForceAsWritten | Slingshot.cs:427-435 | as written, the force is non-finite exactly when the previous position has zero length, and otherwise obeys the inverse-square law |
| Forces.UntetheredForce | Slingshot.cs:427-435 | guarded force: zero at a zero previous distance, else the inverse-square pull |
| Forces.UntetheredAtOrigin | Slingshot.cs:427-433 | at the origin the as-written force is non-finite and the guarded one is zero |
| Forces.UntetheredAgreesWhereFinite | Slingshot.cs:427-435 | wherever the source's force is finite the guarded force equals it |
| Forces.UntetheredUnitDistance | Slingshot.cs:433-435 | at unit distance the pull is 400·G·M·m along the direction |
| Forces.UntetheredInverseSquare | Slingshot.cs:433 | scaling the previous position by c divides the pull by c² |
| Forces.UntetheredMagnitude | Slingshot.cs:433-435 | for a unit direction, the squared magnitude is (400·G·M·m / distance²)² |
| Forces.CommandedForce | Slingshot.cs:425-504 | Freemovement tethered −500·earthForce, untethered the guarded pull toward the origin, Slingshot the wall spring, Released thrust or zero, all other states zero |
| Control.ControlStep | Slingshot.cs:411-515 | with data: force from the game state, effector updated only in Freemovement, published position inverts to the device position; without data: position and force kept; always one torque write from the current force and steps + 1; nothing else changes |
| Control.NoDataResendsForce | Slingshot.cs:417-513 | a step without data writes the torque of the retained force, keeps the position, and counts one step |
| Control.Shutdown | Slingshot.cs:520-527 | teardown appends exactly one torque write, computed from (0, 0), and changes nothing else |
| Control.StepAfterShutdown | Slingshot.cs:509-527 | a step without data after teardown writes the retained force's torque again; a step with data writes the torque of the newly commanded force |
| Control.PublishedPosition | Slingshot.cs:506 | the published position of a data step is (−x·f, −y·f) |
| Control.ReleasedStepIgnoresFlag | Slingshot.cs:475-497 | a Released step's force does not depend on the just-released flag |
| Control.ControlStepValid | Slingshot.cs:411-527 | the control step and teardown keep the factor at 1 or 6 |
| Consumer.EnterMode | Slingshot.cs:258-361 | entering Freemovement puts all flames out and sets the factor to 6; other states change only the game state |
| Consumer.Gravity | Slingshot.cs:539-566 | the Earth–Moon pull is stored; the just-released flag is cleared by the first frame in Released and only then |
| Consumer.HorizontalFlames | Slingshot.cs:607-621 | x rising by more than 0.001 lights Left, falling by more than 0.001 lights Right, unchanged x puts both out, any other move changes nothing |
| Consumer.VerticalFlames | Slingshot.cs:624-638 | y falling by more than 0.001 lights Up, rising by more than 0.001 lights Down, unchanged y puts both out, any other move changes nothing |
| Consumer.VerticalMirrorsHorizontal | Slingshot.cs:607-638 | the vertical rule is the horizontal rule on the mirrored axis with Up for Left and Down for Right |
| Consumer.FlamesOffOnlyWhenStill | Slingshot.cs:607-638 | a lit flame goes out only in a frame where its coordinate is exactly unchanged |
| Consumer.FlamesNeedMovement | Slingshot.cs:607-638 | movement within the ±0.001 band never lights a flame |
| Consumer.Thrust | Slingshot.cs:640-641 | thrust is thruster stiffness (1) × (position − anchor) |
| Consumer.UpdateEndEffector | Slingshot.cs:570-653 | Freemovement enters Slingshot iff x ≤ −0.38; Released and firing sets thrust and flames and enters GameWon iff at the destination; otherwise only the last position changes |
| Consumer.Frame | Slingshot.cs:206-208 | a frame (Gravity, then UpdateEndEffector) never touches position, force, factor, step count or torque log |
| Consumer.PressKey | Slingshot.cs:209-235 | T flips the tether flag; F sets firing and takes the anchor at the published position; S clears firing and resets the anchor to the origin; nothing else changes |
| Consumer.TetherToggleTwice | Slingshot.cs:209-212 | pressing T twice restores the state |
| Consumer.KeysCommuteWithGravity | Slingshot.cs:206-235 | handling a key before or after Gravity gives the same state, so a key press event next to a frame covers Update's order |
| Consumer.FireThenFrameZeroThrust | Slingshot.cs:227-230 | in Released, pressing F and then rendering a frame yields zero thrust |
| Consumer.ThrustZeroAtAnchor | Slingshot.cs:640-641 | with the anchor at the published position a firing frame yields zero thrust |
| Consumer.ConsumerValid | Slingshot.cs:272 | frames, key presses and game-state changes keep the factor at 1 or 6 |
| Trace.Run | Slingshot.cs:509-513 | over any interleaving, steps grow by the number of control steps, one torque write per step, earlier writes untouched |
| Trace.RunValid | Slingshot.cs:54 | every reachable state has factor 1 or 6, so the published position is always invertible |
| Trace.JustReleasedStaysCleared | Slingshot.cs:555-559 | the just-released flag is one-shot: once cleared, no later event of any run sets it again |
| Trace.FactorStaysSix | Slingshot.cs:351-358 | after Freemovement the factor stays 6 for the rest of any run |
| Trace.FrozenWithoutData | Slingshot.cs:417-513 | while no data arrives, position and force stay put and every torque written is the retained force's |
| Trace.SimulationLoop | Slingshot.cs:388-409 | the loop runs its steps strictly one after another: the result is the sequential run, with steps + n and n torque writes |
| Trace.ThrustReachesDevice | Slingshot.cs:488-492 | after a firing frame the next data step commands 20 × (position − anchor) |
| Trace.SlingshotEntryInDeviceSpace | Slingshot.cs:598-603 | after a Freemovement data step with factor f > 0 the frame enters Slingshot iff device x · f ≥ 0.38 |
| Trace.FirstUntetheredStepAsWritten | Slingshot.cs:427-435 | the first Freemovement step with data after start-up, when it is untethered, divides by zero as written; the model commands zero there |

## Findings

| source | as written | input that shows it | evidently intended | confidence | as-written member | corrected member |
|---|---|---|---|---|---|---|
| Slingshot.cs:427-435 | the untethered pull divides by the square of the distance of the previous effector position, with no guard | the first Freemovement step with data after start-up, when it is untethered: m_EffectorPosition still holds its initial (0, 0) from Slingshot.cs:131, so the magnitude is G·M·m / 0 and the force sent to the device is infinite or NaN | a finite commanded force on every step | medium, not executed | Forces.UntetheredForceAsWritten, Trace.FirstUntetheredStepAsWritten | Forces.UntetheredForce, Forces.UntetheredAgreesWhereFinite |

The corrected force is zero at a zero distance and equals the source's force
everywhere else. `Forces.CommandedForce` and everything built on it use the
corrected force.

## Left out

- The busy-wait timing, the task spawning and the lock of `SimulationLoop`. Real time is not modelled.
- Atomic frames: `Trace` treats a frame, a key press and a game-state change as one indivisible event between control steps. In the source only the position read of `UpdateEndEffector` (Slingshot.cs:575-579) is locked, and `Gravity` (Update) and `UpdateEndEffector` (LateUpdate) are separate callbacks. The model therefore excludes a control step that runs between `Gravity` and `UpdateEndEffector`. It also excludes a step that reads the new horizontal thrust (Slingshot.cs:640) together with the old vertical one (Slingshot.cs:641), and a step that runs in the middle of a game-state change (Slingshot.cs:602, 645).
- The `m_RenderingForce` flag. It is set and cleared inside the same locked step, so no reader can see it change.
- Rendering, the camera, the GUI, avatar placement in `OnGameStateChanged`, and the camera key in `Update`. The tether, thruster and anchor keys are modelled as `Press` events; which key is held in which frame is left to the event sequence.
- The rigidbody forces in `Gravity` and `UpdateEndEffector`, and `SetInitialVelocity`. These are Unity physics. The Earth–Moon pull enters `Consumer.Gravity` as a supplied vector.
- Consumer.UpdateEndEffector: the GameWon test compares rendered avatar and destination positions with a square-root distance. It enters as the boolean `atDestination`.
- Forces.CommandedForce: the unit direction toward the origin comes from the opaque `normalized`. Its length and direction are not constrained, so the magnitude lemmas assume a unit direction.
- The device's kinematics and torque map (`GetDevicePosition`, `SetDeviceTorques`) and the board's data check. These are foreign device I/O, represented by `State.Platform` and the `Sample` input.
- The `StepCountTimer` counter reset and the frame counter. They are advisory diagnostics driven by a coroutine; the step counter is an unbounded `nat`.
- `CalculateMagnitude` and `CalculateAbsMagnitude` (Slingshot.cs:661-672). Neither is called, and the second recurses on itself forever.
- The unsynchronized reads of the anchor and the position in `Update`. These are a data race outside sequential behaviour.
- Float rounding, infinities and NaN. Reals stand in for floats; the one non-finite case is the one under Findings.
- `GameManager` is not part of this model. Its states beyond Freemovement, Slingshot, Released and GameWon are folded into `Other`.
