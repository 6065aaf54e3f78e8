# MoveController, modelled and verified in Dafny

`MoveController` is the component that drives one actor of the game. It has
four movement modes, and each mode keeps its own parameter:

- follow a transform (a stand-off point short of it);
- walk along a fixed offset;
- go to a fixed point;
- orbit a point.

On top of the modes there are two mechanisms:

- **an idle/wander cycle.** The controller idles for a while, then walks to
  a fresh point of its anchor and idles again on arrival.
- **an arrival watch.** This is the coroutine started by `SetPosition`. Once
  the actor is within 0.1 of its target position, it runs the move's
  completion callback and then fires `OnEnd`. Every mode change stops it.

Every frame, `Update` either advances the idle timer or runs one steering
step toward the current target position.

The project has four files:

- `geometry.dfy` (module `Geometry`) holds vectors over the reals, the
  constants of the controller, and the engine's geometry as a record of
  uninterpreted functions (`Engine`). These functions are:
  - distance;
  - normalisation;
  - cosine and sine;
  - the facing angle;
  - look rotation;
  - the rotate-towards step;
  - the forward vector of a rotation.
- `move_model.dfy` (module `MoveModel`) holds the controller's fields as a
  value (`State`), along with:
  - one transition function per member of the class;
  - the event log (`OnStart`, `OnEnd`, `OnUpdate`, callbacks run, animator
    writes);
  - a frame (`Tick` = `Update`, then one resumption of the arrival watch);
  - runs of calls, in which the two halves of a frame are separate calls,
    so other calls can come between them, and runs of whole frames.
- `move_properties.dfy` (module `MoveProperties`) holds what the controller
  guarantees, proved about those functions.
- `move_controller.dfy` (module `Controller`) holds the class
  `MoveController`. Its fields are the component's fields, and its methods
  update them statement by statement, as the component does. Each method is
  proved to leave the fields equal to the matching transition function
  applied to the old fields. It also keeps `Valid()`: follow mode always has
  a transform to follow, and a watch is only outstanding in position mode.

Behaviour reproduced as the code has it:

- `StartRadialMovement` does not reset the accumulated orbit angle.
- A read of `TargetPosition` is not free of effects: every read in orbit
  mode advances the angle, so one steering step advances it once at the
  destination, otherwise two or three times (`RadialAngleAdvance`).
- `UpdatePosition` overwrites the stored `direction` with the normalised
  step direction.
- `StartIdle` draws no duration bound: it sets the timer to the random draw
  (a starting offset) and does not reset it to 0. Idle ends when the timer
  passes `maxIdleDuration`.
- The animator flag is written as the negation of a second
  `IsAtDestination` read. That read only differs from the first one in orbit
  mode, so elsewhere the flag is only ever set to true.
- Forward motion is gated on `Vector3.Angle(...) < Mathf.PI`. That is an
  angle in degrees, compared against about 3.14.
- `direction != Vector3.zero` uses the engine's approximate vector equality:
  the squared length must be below `(1e-5)^2`.
- `StartIdle` does not stop an outstanding watch. With `startIdle` set, when
  `StartRandomMovement` is called before the first frame, under the
  once-per-frame resumption modelled here, the controller idles while the
  watch `Awake` started is still outstanding, and that watch fires `OnEnd`
  during the idle spell (`IdleKeepsAwakeWatch`).
- Orbit mode can arrive: an actor standing on the orbit point is at its
  destination like in any other mode.

`SetType` stops the coroutine but leaves the stale handle in
`positionReachedRoutine`. The model clears the watch instead. A stopped
coroutine never runs again, so the two behave the same.

## Model

| member | source | states |
|---|---|---|
| MoveModel.SetType | Assets/Core/Scripts/MoveController.cs:87-92 | the new mode is set, idle is cleared and the watch is stopped; nothing is fired and every other field is kept |
| MoveModel.SetTarget | Assets/Core/Scripts/MoveController.cs:60-64 | follow mode; idle cleared, the watch stopped, nothing fired, every other field kept |
| MoveModel.SetDirection | Assets/Core/Scripts/MoveController.cs:66-70 | direction mode with the given offset; idle cleared, the watch stopped, nothing fired, every other field kept |
| MoveModel.SetPosition | Assets/Core/Scripts/MoveController.cs:72-79 | position mode toward the given point; `OnStart` fires exactly once and exactly one watch, carrying `onComplete`, is outstanding; pose, angle, settings, idle timer and the other mode parameters are kept |
| MoveModel.StartRadialMovement | Assets/Core/Scripts/MoveController.cs:81-85 | orbit mode around the given origin, keeping the accumulated angle; idle cleared, the watch stopped, nothing fired, every other field kept |
| MoveModel.StartIdle | Assets/Core/Scripts/MoveController.cs:187-191 | idle with the timer at the draw; every other field, the mode, the watch, the log and the pose included, kept |
| MoveModel.StartRandomMovement | Assets/Core/Scripts/MoveController.cs:94-98 | with `startIdle` set it is `StartIdle`, otherwise it is a move to the anchor point whose watch runs `StartIdle` |
| MoveModel.Stop | Assets/Core/Scripts/MoveController.cs:100-103 | a position move to the actor's own position with no callback; `OnStart` fires once; every other field kept |
| MoveModel.SetAnimator | Assets/Core/Scripts/MoveController.cs:105-108 | only the animator binding changes: every other setting and every other field is kept |
| MoveModel.SetSpeed | Assets/Core/Scripts/MoveController.cs:115-118 | only the speed changes: every other setting and every other field is kept |
| MoveModel.SetDistanceThreshold | Assets/Core/Scripts/MoveController.cs:127-130 | only the stand-off distance changes: every other setting and every other field is kept |
| MoveModel.SetLookTarget | Assets/Core/Scripts/MoveController.cs:120-125 | only the rotation changes |
| MoveModel.TargetOf | Assets/Core/Scripts/MoveController.cs:51-57 | the target point of each mode: the way back from the followed position is the normalised way to it scaled by `distanceThreshold`; the offset from the actor is the stored direction; the offset from the origin is `radius` times `(cos angle, 0, sin angle)`; the stored point |
| MoveModel.TargetPosition | Assets/Core/Scripts/MoveController.cs:51-57 | one read leaves the state alone outside orbit mode and advances the angle by `dt * radialSpeed` in it (line 152), and yields the mode's target point at the angle after the read: the stored point in position mode, position plus offset in direction mode |
| MoveModel.IsAtDestination | Assets/Core/Scripts/MoveController.cs:49 | the answer is whether the engine's distance from the actor to the target point of one read is below 0.1, and the read has the effect of one target read |
| MoveModel.AnimatorWrite | Assets/Core/Scripts/MoveController.cs:163 | the animator write logs the negation of a fresh `IsAtDestination` read and changes nothing else but that read's angle advance |
| MoveModel.Fresh | Assets/Core/Scripts/MoveController.cs:31-40 | the fields before start-up hold their defaults: the first mode (follow), no watch, not idle, a zero timer, zero vectors and angle, an empty log |
| MoveModel.Awake | Assets/Core/Scripts/MoveController.cs:133-136 | start-up leaves the controller in position mode at the actor's position, not idle, with one watch without a callback, `OnStart` fired once, and the watch invariant holding |
| MoveModel.Steer | Assets/Core/Scripts/MoveController.cs:165-177 | the stored direction becomes the normalised way to the target; the actor advances by `speed * dt` along it exactly when the facing angle is below `Mathf.PI`; a zero direction leaves the rotation alone; `OnUpdate` fires once with the direction; nothing else changes |
| MoveModel.UpdatePosition | Assets/Core/Scripts/MoveController.cs:159-178 | at the destination only the angle of the read changes; the mode, the watch, idle, the settings, the stored point and the orbit origin are always kept, and the log only grows |
| MoveModel.UpdateIdle | Assets/Core/Scripts/MoveController.cs:193-197 | the timer advances by `dt`; past `maxIdleDuration`, and only then, the controller moves to the anchor point with `StartIdle` as the callback |
| MoveModel.Update | Assets/Core/Scripts/MoveController.cs:138-142 | idle and steering exclude each other: idle frames leave pose, direction and angle alone and fire nothing until the timer expires; steering frames keep idle, the timer, the mode and the watch |
| MoveModel.Invoke | Assets/Core/Scripts/MoveController.cs:183 | running a callback logs it, and `StartIdle` enters idle with the draw; mode, watch and pose are kept |
| MoveModel.PollWatch | Assets/Core/Scripts/MoveController.cs:180-185 | with no watch nothing happens; before arrival the watch stays and nothing fires; on arrival the callback runs, then `OnEnd` fires, then the watch retires |
| MoveModel.Tick | Assets/Core/Scripts/MoveController.cs:138-142 | a frame only appends to the log, changes mode only to position mode, and keeps the watch invariant |
| MoveProperties.TargetStandOff | Assets/Core/Scripts/MoveController.cs:144-148 | the follow target point lies exactly `distanceThreshold` short of the followed position, given a unit normalisation |
| MoveProperties.RadialOnCircle | Assets/Core/Scripts/MoveController.cs:150-157 | the orbit target lies on the circle of the configured radius around the origin, at the advanced angle |
| MoveProperties.UpdatePositionSteps | Assets/Core/Scripts/MoveController.cs:159-178 | away from the destination: the animator flag is written once, before `OnUpdate`, exactly when an animator is bound; `OnUpdate` fires once; the forward-motion gate; no turn for a zero direction |
| MoveProperties.MovingFlagOnlyTrue | Assets/Core/Scripts/MoveController.cs:161-163 | outside orbit mode a steering step never writes false to the animator flag |
| MoveProperties.RadialFlagCanBeFalse | Assets/Core/Scripts/MoveController.cs:159-163 | in orbit mode, a step whose first read is away from the destination and whose animator read, one angle step on, is at it writes false to the flag |
| MoveProperties.RadialFalseFlagExample | Assets/Core/Scripts/MoveController.cs:150-163 | a concrete orbit and engine under which a steering step writes false to the flag |
| MoveProperties.RadialAngleAdvance | Assets/Core/Scripts/MoveController.cs:159-165 | in orbit mode a steering step advances the angle once at the destination, otherwise twice, or three times with an animator |
| MoveProperties.DirectionNormalized | Assets/Core/Scripts/MoveController.cs:165 | in direction mode an active step replaces the stored offset by its normalisation |
| MoveProperties.DirectionPerpetual | Assets/Core/Scripts/MoveController.cs:54 | with an offset that normalisation keeps and that is never within the arrival distance, any number of frames keep direction mode and the offset, never idle, start no watch, and fire only `OnUpdate` with the offset and true animator writes |
| MoveProperties.StopArrivesNextTick | Assets/Core/Scripts/MoveController.cs:100-103 | after `Stop` the next frame neither moves nor turns, and the watch fires `OnEnd` and retires: the log grows by exactly `OnStart`, `OnEnd` |
| MoveProperties.WanderArrival | Assets/Core/Scripts/MoveController.cs:180-185 | a wander move that has arrived runs `StartIdle` and then `OnEnd` in the next frame, and the controller idles with the draw |
| MoveProperties.ApplyFiresOnlyIssued | Assets/Core/Scripts/MoveController.cs:72-79 | one call or half-frame runs only callbacks of a set closed under what it can issue, and keeps the outstanding watch's callback in it |
| MoveProperties.FiredCallbacksWereIssued | Assets/Core/Scripts/MoveController.cs:180-185 | over any run, every callback run is the one outstanding at the start, `StartIdle`, or one handed to `SetPosition` during the run |
| MoveProperties.SteeringFrame | Assets/Core/Scripts/MoveController.cs:159-178 | the `Update` half of a frame that is not idle keeps the mode, idle and the watch, and logs only `OnUpdate` and animator writes |
| MoveProperties.SteeringOwnEvents | Assets/Core/Scripts/MoveController.cs:159-178 | the `Update` half of a frame that is not idle fires no `OnEnd`, starts nothing and runs no callback |
| MoveProperties.QuietWithoutWatch | Assets/Core/Scripts/MoveController.cs:138-142 | with no watch outstanding and not idle, any number of frames only steer: nothing starts, ends or runs a callback, and mode, no-idle and no-watch are kept |
| MoveProperties.ModeChangeSilencesWatch | Assets/Core/Scripts/MoveController.cs:87-92 | after `SetTarget`, `SetDirection` or `StartRadialMovement`, from any state, no frame ever runs a callback or fires `OnStart` or `OnEnd`: the stopped watch's callback and its `OnEnd` never come |
| MoveProperties.PollOwnEnd | Assets/Core/Scripts/MoveController.cs:180-185 | a resumption of a watch carrying a callback other than `StartIdle` either logs nothing and keeps the watch, or runs that callback, fires exactly one `OnEnd` and retires it |
| MoveProperties.WatchFrame | Assets/Core/Scripts/MoveController.cs:180-185 | from a state that is not idle, a whole frame with such a watch fires an `OnEnd` exactly when the watch retires in it, runs no other callback, starts nothing and does not idle |
| MoveProperties.OneWatchOneEnd | Assets/Core/Scripts/MoveController.cs:180-185 | from a state that is not idle, over any number of frames such a watch fires at most one `OnEnd` (none with no watch), runs no other callback, starts nothing and the controller never idles |
| MoveProperties.SupersededMoveEndsOnce | Assets/Core/Scripts/MoveController.cs:72-92 | after a second `SetPosition` (callback not `StartIdle`) replaces a first, any frames fire at most one `OnEnd` and run only the second callback: the replaced move never runs its callback nor fires its `OnEnd` |
| MoveProperties.SupersededWatchNeverFires | Assets/Core/Scripts/MoveController.cs:87-92 | the callback of a move replaced by a second `SetPosition` is never run afterwards, unless it is passed again |
| MoveProperties.RunKeepsInv | Assets/Core/Scripts/MoveController.cs:87-92 | over any run a watch is only outstanding in position mode |
| MoveProperties.UpdateKeepsBalanced | Assets/Core/Scripts/MoveController.cs:138-142 | the `Update` half of a frame never lets the `OnEnd`s plus the outstanding watch outnumber the `OnStart`s |
| MoveProperties.PollKeepsBalanced | Assets/Core/Scripts/MoveController.cs:180-185 | a poll of the watch never lets the `OnEnd`s plus the outstanding watch outnumber the `OnStart`s |
| MoveProperties.EndsNeverOutnumberStarts | Assets/Core/Scripts/MoveController.cs:72-92 | from start-up on, whatever happens, `OnEnd` fires no more often than `OnStart`, and strictly less often while a watch is outstanding |
| MoveProperties.IdleKeepsAwakeWatch | Assets/Core/Scripts/MoveController.cs:94-98 | with `startIdle` set, when `StartRandomMovement` is called before the first frame, under the once-per-frame resumption modelled here, the wander cycle idles with the watch of start-up still outstanding, and the next frame within the idle bound fires its `OnEnd` and stays idle; the log is exactly `OnStart`, `OnEnd` |
| MoveProperties.IdleQuiet | Assets/Core/Scripts/MoveController.cs:193-197 | with no watch outstanding, idle frames that keep the timer within `maxIdleDuration` change only the timer, by the time they cover |
| MoveProperties.IdleSpell | Assets/Core/Scripts/MoveController.cs:187-197 | with no watch outstanding, an idle spell stays quiet; it ends in the frame that takes the timer past `maxIdleDuration` and not before, with a move to the anchor point that idles again; the time spent idle is more than `minIdleDuration` and at most `maxIdleDuration` plus the last frame |
| Controller.MoveController.constructor | Assets/Core/Scripts/MoveController.cs:133-136 | creation runs `Awake` on the configured fields |
| Controller.MoveController.SetType | Assets/Core/Scripts/MoveController.cs:87-92 | the fields become `MoveModel.SetType` of the old ones |
| Controller.MoveController.SetTarget | Assets/Core/Scripts/MoveController.cs:60-64 | stores the transform and follows it (`MoveModel.SetTarget`) |
| Controller.MoveController.SetDirection | Assets/Core/Scripts/MoveController.cs:66-70 | `MoveModel.SetDirection` on the fields |
| Controller.MoveController.SetPosition | Assets/Core/Scripts/MoveController.cs:72-79 | `MoveModel.SetPosition` on the fields |
| Controller.MoveController.StartRadialMovement | Assets/Core/Scripts/MoveController.cs:81-85 | `MoveModel.StartRadialMovement` on the fields |
| Controller.MoveController.StartRandomMovement | Assets/Core/Scripts/MoveController.cs:94-98 | `MoveModel.StartRandomMovement` on the fields |
| Controller.MoveController.Stop | Assets/Core/Scripts/MoveController.cs:100-103 | `MoveModel.Stop` on the fields |
| Controller.MoveController.SetAnimator | Assets/Core/Scripts/MoveController.cs:105-108 | `MoveModel.SetAnimator` on the fields |
| Controller.MoveController.SetSpeed | Assets/Core/Scripts/MoveController.cs:115-118 | `MoveModel.SetSpeed` on the fields |
| Controller.MoveController.SetLookTarget | Assets/Core/Scripts/MoveController.cs:120-125 | `MoveModel.SetLookTarget` on the fields |
| Controller.MoveController.SetDistanceThreshold | Assets/Core/Scripts/MoveController.cs:127-130 | `MoveModel.SetDistanceThreshold` on the fields |
| Controller.MoveController.GetTargetPosition | Assets/Core/Scripts/MoveController.cs:144-148 | in follow mode it is the follow case of `MoveModel.TargetOf` |
| Controller.MoveController.GetRadialPosition | Assets/Core/Scripts/MoveController.cs:150-157 | advances the angle and yields the orbit point, as `MoveModel.TargetPosition` |
| Controller.MoveController.TargetPosition | Assets/Core/Scripts/MoveController.cs:51-57 | the value and the field change of one read are those of `MoveModel.TargetPosition` |
| Controller.MoveController.IsAtDestination | Assets/Core/Scripts/MoveController.cs:49 | the answer and the field change of one read are those of `MoveModel.IsAtDestination` |
| Controller.MoveController.AnimatorWrite | Assets/Core/Scripts/MoveController.cs:163 | `MoveModel.AnimatorWrite` on the fields |
| Controller.MoveController.Steer | Assets/Core/Scripts/MoveController.cs:165-177 | `MoveModel.Steer` on the fields |
| Controller.MoveController.UpdatePosition | Assets/Core/Scripts/MoveController.cs:159-178 | `MoveModel.UpdatePosition` on the fields |
| Controller.MoveController.StartIdle | Assets/Core/Scripts/MoveController.cs:187-191 | `MoveModel.StartIdle` on the fields |
| Controller.MoveController.UpdateIdle | Assets/Core/Scripts/MoveController.cs:193-197 | `MoveModel.UpdateIdle` on the fields |
| Controller.MoveController.Update | Assets/Core/Scripts/MoveController.cs:138-142 | `MoveModel.Update` on the fields |
| Controller.MoveController.PollWatch | Assets/Core/Scripts/MoveController.cs:180-185 | one resumption of the arrival coroutine is `MoveModel.PollWatch` on the fields |
| Controller.MoveController.Tick | Assets/Core/Scripts/MoveController.cs:138-142 | one frame, `Update` and then the watch's resumption, is `MoveModel.Tick` on the fields, keeping `Valid()` |

## Left out

- Floating point: vectors and times are reals; single-precision rounding is not modelled.
- Engine geometry: `Vector3.Distance`, `.normalized`, `Mathf.Cos`/`Sin`, `Vector3.Angle`, `Quaternion.LookRotation`/`RotateTowards` and `transform.forward` are the uninterpreted functions of `Engine`. Lemmas that need one of their properties (a unit normalisation, `cos^2 + sin^2 = 1`, a zero distance from a point to itself) take it as a precondition. Neither convergence nor turn rates are proved.
- Engine frames and time: `Time.deltaTime` is the `dt` parameter of each frame.
- Coroutine scheduling: the watch is resumed once per frame, after `Update`. Runs of calls model the two halves separately (`UpdateCall`, `PollCall`), so other calls may come between them. The engine's exact resumption point, including any check in the frame the coroutine is started, is not modelled.
- Random draws: `Random.Range` is the `draw` parameter. The idle lemmas take it from the closed range `[0, maxIdleDuration - minIdleDuration]` and assume `minIdleDuration <= maxIdleDuration`, which the component does not check.
- Anchor point: `positionAnchor.Position` is the `anchor` parameter. `PositionAnchor` is not part of this model.
- `SetBounds`: it only forwards a collider to `PositionAnchor`, which is not part of this model.
- Animator: it is reduced to whether one is bound. `SetBool("isMoving", …)` is logged as a `MovingFlag` event.
- Events: `OnStart`, `OnEnd` and `OnUpdate` are logged when invoked. Their subscribers and the subscribers' effects are not modelled.
- Callbacks other than `StartIdle`: these are logged as `External` callbacks. Their effects, including calls back into the controller, are not modelled.
- Null references: following a null transform would throw. The class takes a non-null `Transform`, and `Valid()` keeps one present in follow mode. A transform destroyed later is not modelled.
- Getters: the `Speed` and `DistanceThreshold` getters only read fields and are not modelled separately. Reads of `TargetPosition` and `IsAtDestination` are calls of a run (`TargetPositionCall`, `IsAtDestinationCall`), since an orbit-mode read advances the angle.
- MovingFlagOnlyTrue: proved outside orbit mode only. In orbit mode the second `IsAtDestination` read sees an advanced angle and can write false (`RadialFlagCanBeFalse`, `RadialFalseFlagExample`).
- TargetStandOff: the distance is stated as the squared distance under a unit normalisation, not as the engine's `Vector3.Distance`.
- MoveModel.UpdatePosition: its own contract states only what every step keeps. The steps of a frame away from the destination are stated by `UpdatePositionSteps`.
- EndsNeverOutnumberStarts: a count over whole runs. That a stopped or replaced watch never fires its `OnEnd` is stated by `ModeChangeSilencesWatch` and `SupersededMoveEndsOnce`, over frames that follow the mode change; with other calls interleaved, only the count is stated.
