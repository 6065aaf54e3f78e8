/** The movement controller as a state machine over values.

    `State` holds every field of one controller together with the pose of the
    actor it drives and the log of what it has fired. Each function below is one
    member of the controller and returns the state after it ran; the class in
    module `Controller` is proved to follow these functions step by step.

    Inputs the controller takes from the engine are parameters: the elapsed
    time of the frame `dt`, the current position of the followed transform
    `targetPos`, a point drawn by the position anchor `anchor`, the value
    returned by the random draw `draw`, and the engine's geometry `e`. */
module MoveModel {
  import opened Geometry

  datatype Option<T> = None | Some(value: T)

  /** The four movement modes; the stored parameter of each lives in `State`. */
  datatype MovementType = Target | Direction | Position | Radial

  /** What a position move runs on arrival: nothing, the controller's own
      `StartIdle`, or a callback of some other component, named by `id`. */
  datatype Callback = NoCallback | StartIdleCallback | External(id: nat)

  /** What the controller makes observable, in order: the `OnStart`, `OnEnd`
      and `OnUpdate` events, the invocation of an arrival callback, and every
      value written to the animator's moving flag. */
  datatype Event =
    | Started
    | Ended
    | Updated(direction: Vec3)
    | Completed(callback: Callback)
    | MovingFlag(value: bool)

  /** The configured fields; `hasAnimator` says whether an animator is bound. */
  datatype Settings = Settings(
    speed: real,
    distanceThreshold: real,
    startIdle: bool,
    minIdleDuration: real,
    maxIdleDuration: real,
    radius: real,
    radialSpeed: real,
    hasAnimator: bool)

  /** The values the fields are declared with. */
  const DefaultSettings: Settings := Settings(2.0, 2.0, false, 2.0, 5.0, 4.0, 0.25, false)

  /** One controller: `watch` is the outstanding arrival watch with the
      callback it will run, `pos` and `rot` are the actor's transform. */
  datatype State = State(
    settings: Settings,
    mode: MovementType,
    watch: Option<Callback>,
    isIdle: bool,
    idleTimer: real,
    direction: Vec3,
    position: Vec3,
    origin: Vec3,
    angle: real,
    pos: Vec3,
    rot: Quat,
    events: seq<Event>)

  /** What one frame gives the controller. */
  datatype Frame = Frame(dt: real, targetPos: Vec3, anchor: Vec3, draw: real)

  /** An arrival watch is only ever outstanding in position mode. */
  predicate Inv(s: State) {
    s.watch.Some? ==> s.mode == Position
  }

  /** The events that running callback `cb` adds to the log. */
  function CallbackEvents(cb: Callback): seq<Event> {
    if cb == NoCallback then [] else [Completed(cb)]
  }

  // ---------------------------------------------------------------------
  // The per-mode target position

  /** The angle after one read of the target position: only a radial read
      advances it, by the frame time times the radial speed. */
  function AngleAfterRead(s: State, dt: real): real {
    if s.mode == Radial then s.angle + dt * s.settings.radialSpeed else s.angle
  }

  /** The target position of the current mode, for the state's current angle. */
  function TargetOf(s: State, targetPos: Vec3, e: Engine): (t: Vec3)
    ensures s.mode == Target ==>
      Sub(targetPos, t) == Scale(e.normalized(Sub(targetPos, s.pos)), s.settings.distanceThreshold)
    ensures s.mode == Direction ==> Sub(t, s.pos) == s.direction
    ensures s.mode == Radial ==>
      Sub(t, s.origin) == Scale(Vec3(e.cos(s.angle), 0.0, e.sin(s.angle)), s.settings.radius)
    ensures s.mode == Position ==> t == s.position
  {
    match s.mode
    case Target =>
      Sub(targetPos, Scale(e.normalized(Sub(targetPos, s.pos)), s.settings.distanceThreshold))
    case Direction => Add(s.pos, s.direction)
    case Radial =>
      Add(s.origin, Scale(Vec3(e.cos(s.angle), 0.0, e.sin(s.angle)), s.settings.radius))
    case Position => s.position
  }

  /** One read of `TargetPosition`: the position it yields and the state after
      the read (a radial read first advances the angle). */
  function TargetPosition(s: State, targetPos: Vec3, dt: real, e: Engine): (r: (Vec3, State))
    ensures s.mode != Radial ==> r.1 == s
    ensures s.mode == Radial ==> r.1 == s.(angle := s.angle + dt * s.settings.radialSpeed)
    ensures r.0 == TargetOf(r.1, targetPos, e)
    ensures s.mode == Position ==> r.0 == s.position
    ensures s.mode == Direction ==> r.0 == Add(s.pos, s.direction)
  {
    var s' := s.(angle := AngleAfterRead(s, dt));
    (TargetOf(s', targetPos, e), s')
  }

  /** One read of `IsAtDestination`: whether the actor is closer than the
      arrival distance to the target position, and the state after the read. */
  function IsAtDestination(s: State, targetPos: Vec3, dt: real, e: Engine): (r: (bool, State))
    ensures r.1 == TargetPosition(s, targetPos, dt, e).1
    ensures r.0 <==> e.distance(s.pos, TargetPosition(s, targetPos, dt, e).0) < ArrivalDistance
  {
    var (t, s') := TargetPosition(s, targetPos, dt, e);
    (e.distance(s.pos, t) < ArrivalDistance, s')
  }

  /** The answer of one `IsAtDestination` read in state `s`. */
  predicate Arrived(s: State, targetPos: Vec3, dt: real, e: Engine) {
    IsAtDestination(s, targetPos, dt, e).0
  }

  // ---------------------------------------------------------------------
  // Mode setters

  /** Every mode change: the new mode, idle cleared, the watch stopped. */
  function SetType(s: State, m: MovementType): (r: State)
    ensures r.mode == m && !r.isIdle && r.watch == None
    ensures r.events == s.events && r.pos == s.pos && r.rot == s.rot
    ensures r.settings == s.settings && r.angle == s.angle && r.idleTimer == s.idleTimer
    ensures r.position == s.position && r.direction == s.direction && r.origin == s.origin
  {
    s.(mode := m, isIdle := false, watch := None)
  }

  /** Follow a transform; the transform itself is kept by the class. */
  function SetTarget(s: State): (r: State)
    ensures r.mode == Target && !r.isIdle && r.watch == None
    ensures r.events == s.events && r.angle == s.angle
    ensures r == s.(mode := Target, isIdle := false, watch := None)
  {
    SetType(s, Target)
  }

  function SetDirection(s: State, direction: Vec3): (r: State)
    ensures r.mode == Direction && r.direction == direction
    ensures !r.isIdle && r.watch == None
    ensures r.events == s.events && r.angle == s.angle
    ensures r == s.(mode := Direction, direction := direction, isIdle := false, watch := None)
  {
    SetType(s.(direction := direction), Direction)
  }

  /** Move to a point: fires `OnStart` once and starts the one watch that
      will run `onComplete`. */
  function SetPosition(s: State, position: Vec3, onComplete: Callback): (r: State)
    ensures r.mode == Position && r.position == position
    ensures !r.isIdle && r.watch == Some(onComplete)
    ensures r.events == s.events + [Started]
    ensures r.pos == s.pos && r.rot == s.rot && r.angle == s.angle && r.settings == s.settings
    ensures r.idleTimer == s.idleTimer && r.direction == s.direction && r.origin == s.origin
  {
    var s' := SetType(s.(position := position), Position);
    s'.(events := s'.events + [Started], watch := Some(onComplete))
  }

  /** Orbit a point. The accumulated angle is kept, not reset. */
  function StartRadialMovement(s: State, origin: Vec3): (r: State)
    ensures r.mode == Radial && r.origin == origin && r.angle == s.angle
    ensures !r.isIdle && r.watch == None
    ensures r.events == s.events
    ensures r == s.(mode := Radial, origin := origin, isIdle := false, watch := None)
  {
    SetType(s.(origin := origin), Radial)
  }

  /** Enter idle: the timer starts at the drawn offset. Nothing else changes:
      the mode, the watch and the log stay as they were. */
  function StartIdle(s: State, draw: real): (r: State)
    ensures r.isIdle && r.idleTimer == draw
    ensures r.mode == s.mode && r.watch == s.watch && r.events == s.events
    ensures r.pos == s.pos && r.rot == s.rot && r.angle == s.angle
    ensures r == s.(isIdle := true, idleTimer := draw)
  {
    s.(idleTimer := draw, isIdle := true)
  }

  /** Start the wander cycle: idle at once if configured to, otherwise move to
      a point of the anchor and idle on arrival. */
  function StartRandomMovement(s: State, anchor: Vec3, draw: real): (r: State)
    ensures s.settings.startIdle ==> r == StartIdle(s, draw)
    ensures !s.settings.startIdle ==> r == SetPosition(s, anchor, StartIdleCallback)
    ensures s.settings.startIdle ==> r.isIdle && r.watch == s.watch && r.events == s.events
    ensures !s.settings.startIdle ==>
      !r.isIdle && r.watch == Some(StartIdleCallback) && r.events == s.events + [Started]
  {
    if s.settings.startIdle then StartIdle(s, draw)
    else SetPosition(s, anchor, StartIdleCallback)
  }

  /** Stop where the actor stands: a position move to the current position. */
  function Stop(s: State): (r: State)
    ensures r.mode == Position && r.position == s.pos && r.watch == Some(NoCallback)
    ensures !r.isIdle && r.events == s.events + [Started]
    ensures r == s.(mode := Position, position := s.pos, isIdle := false,
                    watch := Some(NoCallback), events := s.events + [Started])
  {
    SetPosition(s, s.pos, NoCallback)
  }

  function SetSpeed(s: State, speed: real): (r: State)
    ensures r.settings == s.settings.(speed := speed)
    ensures r == s.(settings := r.settings)
  {
    s.(settings := s.settings.(speed := speed))
  }

  function SetDistanceThreshold(s: State, distanceThreshold: real): (r: State)
    ensures r.settings == s.settings.(distanceThreshold := distanceThreshold)
    ensures r == s.(settings := r.settings)
  {
    s.(settings := s.settings.(distanceThreshold := distanceThreshold))
  }

  /** Bind or unbind the animator. */
  function SetAnimator(s: State, present: bool): (r: State)
    ensures r.settings == s.settings.(hasAnimator := present)
    ensures r == s.(settings := r.settings)
  {
    s.(settings := s.settings.(hasAnimator := present))
  }

  /** Face a transform: the rotation that looks along the horizontal part of
      the way to it. Nothing but the rotation changes. */
  function SetLookTarget(s: State, targetPos: Vec3, e: Engine): (r: State)
    ensures r == s.(rot := r.rot)
  {
    var d := Sub(targetPos, s.pos);
    s.(rot := e.lookRotation(d.(y := 0.0)))
  }

  // ---------------------------------------------------------------------
  // Start-up

  /** The fields before start-up: the default (first) mode, no watch, not
      idle, zero vectors and angle, and an empty log. */
  function Fresh(settings: Settings, pos: Vec3, rot: Quat): (r: State)
    ensures r.settings == settings && r.pos == pos && r.rot == rot
    ensures r.mode == Target && r.watch.None? && !r.isIdle && r.idleTimer == 0.0
    ensures r.direction == Zero && r.position == Zero && r.origin == Zero && r.angle == 0.0
    ensures r.events == [] && Inv(r)
  {
    State(settings, Target, None, false, 0.0, Zero, Zero, Zero, 0.0, pos, rot, [])
  }

  /** Start-up stops the controller, so it begins in position mode at rest. */
  function Awake(settings: Settings, pos: Vec3, rot: Quat): (r: State)
    ensures r.mode == Position && r.position == pos && r.pos == pos && r.rot == rot
    ensures r.watch == Some(NoCallback) && !r.isIdle
    ensures r.events == [Started] && Inv(r)
  {
    Stop(Fresh(settings, pos, rot))
  }

  // ---------------------------------------------------------------------
  // One frame

  /** The animator write of the steering step: it reads `IsAtDestination`
      again and writes the negation to the moving flag. */
  function AnimatorWrite(s: State, targetPos: Vec3, dt: real, e: Engine): (r: State)
    ensures r.events == s.events + [MovingFlag(!Arrived(s, targetPos, dt, e))]
    ensures r == s.(angle := AngleAfterRead(s, dt), events := r.events)
  {
    var (arrived, s') := IsAtDestination(s, targetPos, dt, e);
    s'.(events := s'.events + [MovingFlag(!arrived)])
  }

  /** The move and turn of a steering step toward target position `t`: the
      step direction is stored in `direction`, the actor advances by
      `speed * dt` along it only while its facing angle (in degrees) is below
      `Mathf.PI`, turns toward it unless it is zero, and `OnUpdate` carries it. */
  function Steer(s: State, t: Vec3, dt: real, e: Engine): (r: State)
    ensures r.direction == e.normalized(Sub(t, s.pos))
    ensures r.pos == if e.angle(e.forward(s.rot), r.direction) < MathfPI
                     then Add(s.pos, Scale(r.direction, s.settings.speed * dt)) else s.pos
    ensures ApproxZero(r.direction) ==> r.rot == s.rot
    ensures r.events == s.events + [Updated(r.direction)]
    ensures r == s.(direction := r.direction, pos := r.pos, rot := r.rot, events := r.events)
  {
    var dir := e.normalized(Sub(t, s.pos));
    var facing := e.angle(e.forward(s.rot), dir);
    var moved := if facing < MathfPI then Add(s.pos, Scale(dir, s.settings.speed * dt)) else s.pos;
    var turned := if ApproxZero(dir) then s.rot else e.rotateTowards(s.rot, e.lookRotation(dir), TurnRate * dt);
    s.(direction := dir, pos := moved, rot := turned, events := s.events + [Updated(dir)])
  }

  /** The steering step of a frame that is not idle: nothing happens at the
      destination; otherwise the animator's moving flag is written (when an
      animator is bound), then the actor steers toward a fresh read of the
      target position. */
  function UpdatePosition(s: State, targetPos: Vec3, dt: real, e: Engine): (r: State)
    ensures r.mode == s.mode && r.watch == s.watch && r.settings == s.settings
    ensures r.isIdle == s.isIdle && r.idleTimer == s.idleTimer
    ensures r.position == s.position && r.origin == s.origin
    ensures Arrived(s, targetPos, dt, e) ==> r == s.(angle := AngleAfterRead(s, dt))
    ensures s.events <= r.events
  {
    var (arrived, s1) := IsAtDestination(s, targetPos, dt, e);
    if arrived then s1
    else
      var s2 := if s1.settings.hasAnimator then AnimatorWrite(s1, targetPos, dt, e) else s1;
      var (t, s3) := TargetPosition(s2, targetPos, dt, e);
      Steer(s3, t, dt, e)
  }

  /** The idle step of a frame: the timer advances; past the longest idle
      duration the controller moves to a fresh anchor point and idles again on
      arrival. */
  function UpdateIdle(s: State, dt: real, anchor: Vec3): (r: State)
    ensures s.idleTimer + dt <= s.settings.maxIdleDuration ==>
      r == s.(idleTimer := s.idleTimer + dt)
    ensures s.idleTimer + dt > s.settings.maxIdleDuration ==>
      r == SetPosition(s.(idleTimer := s.idleTimer + dt), anchor, StartIdleCallback)
  {
    var s' := s.(idleTimer := s.idleTimer + dt);
    if s'.idleTimer > s'.settings.maxIdleDuration then SetPosition(s', anchor, StartIdleCallback)
    else s'
  }

  /** `Update`: idle and steering exclude each other within a frame. */
  function Update(s: State, f: Frame, e: Engine): (r: State)
    ensures s.isIdle ==> r == UpdateIdle(s, f.dt, f.anchor)
    ensures !s.isIdle ==> r == UpdatePosition(s, f.targetPos, f.dt, e)
    ensures !s.isIdle ==> !r.isIdle && r.idleTimer == s.idleTimer && r.mode == s.mode && r.watch == s.watch
    ensures s.isIdle ==> r.pos == s.pos && r.rot == s.rot && r.direction == s.direction && r.angle == s.angle
    ensures s.isIdle && s.idleTimer + f.dt <= s.settings.maxIdleDuration ==> r.events == s.events
  {
    if s.isIdle then UpdateIdle(s, f.dt, f.anchor) else UpdatePosition(s, f.targetPos, f.dt, e)
  }

  /** Run an arrival callback. */
  function Invoke(s: State, cb: Callback, draw: real): (r: State)
    ensures r.events == s.events + CallbackEvents(cb)
    ensures r.watch == s.watch && r.mode == s.mode && r.pos == s.pos && r.rot == s.rot
    ensures cb == StartIdleCallback ==> r.isIdle && r.idleTimer == draw
    ensures cb != StartIdleCallback ==> r.isIdle == s.isIdle && r.idleTimer == s.idleTimer
  {
    match cb
    case NoCallback => s
    case StartIdleCallback => StartIdle(s.(events := s.events + [Completed(cb)]), draw)
    case External(_) => s.(events := s.events + [Completed(cb)])
  }

  /** One poll of the arrival watch: once the actor is at its destination the
      watch runs its callback, then fires `OnEnd`, then retires. */
  function PollWatch(s: State, targetPos: Vec3, dt: real, draw: real, e: Engine): (r: State)
    ensures s.watch.None? ==> r == s
    ensures s.watch.Some? && !Arrived(s, targetPos, dt, e) ==>
      r.watch == s.watch && r.events == s.events && r.isIdle == s.isIdle
    ensures s.watch.Some? && Arrived(s, targetPos, dt, e) ==>
      r.watch == None && r.events == s.events + CallbackEvents(s.watch.value) + [Ended]
    ensures s.watch.Some? && Arrived(s, targetPos, dt, e) && s.watch.value == StartIdleCallback ==>
      r.isIdle && r.idleTimer == draw
    ensures r.mode == s.mode && r.pos == s.pos && r.rot == s.rot
  {
    match s.watch
    case None => s
    case Some(cb) =>
      var (arrived, s1) := IsAtDestination(s, targetPos, dt, e);
      if !arrived then s1
      else
        var s2 := Invoke(s1, cb, draw);
        s2.(events := s2.events + [Ended], watch := None)
  }

  /** One frame: `Update`, then the poll of the arrival watch. */
  function Tick(s: State, f: Frame, e: Engine): (r: State)
    ensures s.events <= r.events
    ensures r.mode == s.mode || r.mode == Position
    ensures Inv(s) ==> Inv(r)
  {
    PollWatch(Update(s, f, e), f.targetPos, f.dt, f.draw, e)
  }

  // ---------------------------------------------------------------------
  // Sequences of calls

  /** The calls other components make, including reads of the two public
      getters (a read in orbit mode advances the angle), and the two halves of
      an engine frame: the controller's `Update`, and the resumption of its
      coroutine. Other calls may come between the two halves of one frame. */
  datatype Call =
    | SetTargetCall
    | SetDirectionCall(direction: Vec3)
    | SetPositionCall(position: Vec3, onComplete: Callback)
    | StartRadialCall(origin: Vec3)
    | StartRandomCall(anchor: Vec3, draw: real)
    | StopCall
    | SetSpeedCall(speed: real)
    | SetDistanceThresholdCall(distanceThreshold: real)
    | SetAnimatorCall(present: bool)
    | SetLookTargetCall(targetPos: Vec3)
    | TargetPositionCall(frame: Frame)
    | IsAtDestinationCall(frame: Frame)
    | UpdateCall(frame: Frame)
    | PollCall(frame: Frame)

  function Apply(s: State, c: Call, e: Engine): State {
    match c
    case SetTargetCall => SetTarget(s)
    case SetDirectionCall(d) => SetDirection(s, d)
    case SetPositionCall(p, cb) => SetPosition(s, p, cb)
    case StartRadialCall(o) => StartRadialMovement(s, o)
    case StartRandomCall(a, draw) => StartRandomMovement(s, a, draw)
    case StopCall => Stop(s)
    case SetSpeedCall(v) => SetSpeed(s, v)
    case SetDistanceThresholdCall(v) => SetDistanceThreshold(s, v)
    case SetAnimatorCall(b) => SetAnimator(s, b)
    case SetLookTargetCall(tp) => SetLookTarget(s, tp, e)
    case TargetPositionCall(f) => TargetPosition(s, f.targetPos, f.dt, e).1
    case IsAtDestinationCall(f) => IsAtDestination(s, f.targetPos, f.dt, e).1
    case UpdateCall(f) => Update(s, f, e)
    case PollCall(f) => PollWatch(s, f.targetPos, f.dt, f.draw, e)
  }

  function Run(s: State, cs: seq<Call>, e: Engine): State
    decreases |cs|
  {
    if cs == [] then s else Run(Apply(s, cs[0], e), cs[1..], e)
  }

  function RunTicks(s: State, fs: seq<Frame>, e: Engine): State
    decreases |fs|
  {
    if fs == [] then s else RunTicks(Tick(s, fs[0], e), fs[1..], e)
  }

  /** The time that frames `fs` cover. */
  function TotalTime(fs: seq<Frame>): real
    decreases |fs|
  {
    if fs == [] then 0.0 else fs[0].dt + TotalTime(fs[1..])
  }

  /** The callbacks the calls `cs` pass to `SetPosition`. */
  function PassedCallbacks(cs: seq<Call>): set<Callback> {
    set c <- cs | c.SetPositionCall? :: c.onComplete
  }
}
