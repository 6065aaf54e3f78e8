/** The movement controller as the object the game updates in place.

    Every method does what the member of the same name does, statement by
    statement, on the controller's fields; its contract ties the fields after
    the call to the state machine of module `MoveModel`, whose properties
    module `MoveProperties` proves. */
module Controller {
  import opened Geometry
  import MoveModel

  /** The transform of another actor: the controller only ever reads its
      position. */
  class Transform {
    var position: Vec3

    constructor (position: Vec3)
      ensures this.position == position
    {
      this.position := position;
    }
  }

  class MoveController {
    /** The engine's geometry. */
    const engine: Engine

    var speed: real
    var distanceThreshold: real
    var startIdle: bool
    var minIdleDuration: real
    var maxIdleDuration: real
    var radius: real
    var radialSpeed: real
    /** Whether an animator is bound. */
    var hasAnimator: bool

    var mode: MoveModel.MovementType
    /** The outstanding arrival watch and the callback it will run. */
    var positionReachedRoutine: MoveModel.Option<MoveModel.Callback>
    var isIdle: bool
    var idleTimer: real

    var target: Transform?
    var direction: Vec3
    var position: Vec3
    var origin: Vec3
    var angle: real

    /** The actor's transform. */
    var pos: Vec3
    var rot: Quat

    /** What the controller has fired, in order. */
    var events: seq<MoveModel.Event>

    function Settings(): MoveModel.Settings
      reads this
    {
      MoveModel.Settings(speed, distanceThreshold, startIdle, minIdleDuration, maxIdleDuration,
                         radius, radialSpeed, hasAnimator)
    }

    /** The controller's fields as a value of the state machine. */
    function Model(): MoveModel.State
      reads this
    {
      MoveModel.State(Settings(), mode, positionReachedRoutine, isIdle, idleTimer,
                      direction, position, origin, angle, pos, rot, events)
    }

    /** Where the followed transform is now. */
    function FollowedPosition(): Vec3
      reads this, target
    {
      if target == null then Zero else target.position
    }

    /** Follow mode always has a transform to follow, and a watch is only
        outstanding in position mode. */
    ghost predicate Valid()
      reads this
    {
      (mode == MoveModel.Target ==> target != null) && MoveModel.Inv(Model())
    }

    /** Creating the controller runs `Awake`, which stops it where the actor
        stands. */
    constructor (engine: Engine, settings: MoveModel.Settings, pos: Vec3, rot: Quat)
      ensures Valid() && target == null && this.engine == engine
      ensures Model() == MoveModel.Awake(settings, pos, rot)
    {
      this.engine := engine;
      speed := settings.speed;
      distanceThreshold := settings.distanceThreshold;
      startIdle := settings.startIdle;
      minIdleDuration := settings.minIdleDuration;
      maxIdleDuration := settings.maxIdleDuration;
      radius := settings.radius;
      radialSpeed := settings.radialSpeed;
      hasAnimator := settings.hasAnimator;
      mode := MoveModel.Target;
      positionReachedRoutine := MoveModel.None;
      isIdle := false;
      idleTimer := 0.0;
      target := null;
      direction := Zero;
      position := Zero;
      origin := Zero;
      angle := 0.0;
      this.pos := pos;
      this.rot := rot;
      events := [];
      new;
      Stop();
    }

    // -------------------------------------------------------------------
    // Mode setters

    method SetType(m: MoveModel.MovementType)
      modifies this
      ensures Model() == MoveModel.SetType(old(Model()), m)
      ensures target == old(target)
      ensures m != MoveModel.Target || target != null ==> Valid()
    {
      mode := m;
      isIdle := false;
      if positionReachedRoutine.Some? {
        positionReachedRoutine := MoveModel.None;
      }
    }

    method SetTarget(target: Transform)
      modifies this
      ensures Valid() && this.target == target
      ensures Model() == MoveModel.SetTarget(old(Model()))
    {
      this.target := target;
      SetType(MoveModel.Target);
    }

    method SetDirection(direction: Vec3)
      modifies this
      ensures Valid() && target == old(target)
      ensures Model() == MoveModel.SetDirection(old(Model()), direction)
    {
      this.direction := direction;
      SetType(MoveModel.Direction);
    }

    method SetPosition(position: Vec3, onComplete: MoveModel.Callback)
      modifies this
      ensures Valid() && target == old(target)
      ensures Model() == MoveModel.SetPosition(old(Model()), position, onComplete)
    {
      this.position := position;
      SetType(MoveModel.Position);
      events := events + [MoveModel.Started];
      positionReachedRoutine := MoveModel.Some(onComplete);
    }

    method StartRadialMovement(origin: Vec3)
      modifies this
      ensures Valid() && target == old(target)
      ensures Model() == MoveModel.StartRadialMovement(old(Model()), origin)
    {
      this.origin := origin;
      SetType(MoveModel.Radial);
    }

    /** `anchor` is the point the position anchor yields, `draw` the value of
        the random draw; each is used only on its own branch. */
    method StartRandomMovement(anchor: Vec3, draw: real)
      requires Valid()
      modifies this
      ensures Valid() && target == old(target)
      ensures Model() == MoveModel.StartRandomMovement(old(Model()), anchor, draw)
    {
      if startIdle {
        StartIdle(draw);
      } else {
        SetPosition(anchor, MoveModel.StartIdleCallback);
      }
    }

    method Stop()
      modifies this
      ensures Valid() && target == old(target)
      ensures Model() == MoveModel.Stop(old(Model()))
    {
      SetPosition(pos, MoveModel.NoCallback);
    }

    method SetAnimator(present: bool)
      requires Valid()
      modifies this
      ensures Valid() && target == old(target)
      ensures Model() == MoveModel.SetAnimator(old(Model()), present)
    {
      hasAnimator := present;
    }

    method SetSpeed(speed: real)
      requires Valid()
      modifies this
      ensures Valid() && target == old(target)
      ensures Model() == MoveModel.SetSpeed(old(Model()), speed)
    {
      this.speed := speed;
    }

    method SetDistanceThreshold(distanceThreshold: real)
      requires Valid()
      modifies this
      ensures Valid() && target == old(target)
      ensures Model() == MoveModel.SetDistanceThreshold(old(Model()), distanceThreshold)
    {
      this.distanceThreshold := distanceThreshold;
    }

    /** Faces the transform `look` along the horizontal. */
    method SetLookTarget(look: Transform)
      requires Valid()
      modifies this
      ensures Valid() && target == old(target)
      ensures Model() == MoveModel.SetLookTarget(old(Model()), look.position, engine)
    {
      var d := Sub(look.position, pos);
      d := d.(y := 0.0);
      rot := engine.lookRotation(d);
    }

    // -------------------------------------------------------------------
    // Target positions

    /** The stand-off point short of the followed transform. */
    function GetTargetPosition(): (t: Vec3)
      requires target != null
      reads this, target
      ensures mode == MoveModel.Target ==> t == MoveModel.TargetOf(Model(), target.position, engine)
    {
      Sub(target.position, Scale(engine.normalized(Sub(target.position, pos)), distanceThreshold))
    }

    /** Advances the orbit angle, then yields the point of the circle there. */
    method GetRadialPosition(dt: real) returns (t: Vec3)
      requires mode == MoveModel.Radial
      modifies this`angle
      ensures (t, Model()) == MoveModel.TargetPosition(old(Model()), FollowedPosition(), dt, engine)
    {
      angle := angle + dt * radialSpeed;
      assert Model() == old(Model()).(angle := angle);
      var x := engine.cos(angle);
      var z := engine.sin(angle);
      var offset := Scale(Vec3(x, 0.0, z), radius);
      t := Add(origin, offset);
      assert MoveModel.AngleAfterRead(old(Model()), dt) == angle;
      assert t == MoveModel.TargetOf(Model(), FollowedPosition(), engine);
    }

    /** One read of `TargetPosition`. */
    method TargetPosition(dt: real) returns (t: Vec3)
      requires Valid()
      modifies this`angle
      ensures Valid()
      ensures (t, Model()) == MoveModel.TargetPosition(old(Model()), FollowedPosition(), dt, engine)
    {
      match mode
      case Target => t := GetTargetPosition();
      case Direction => t := Add(pos, direction);
      case Radial => t := GetRadialPosition(dt);
      case Position => t := position;
    }

    /** One read of `IsAtDestination`. */
    method IsAtDestination(dt: real) returns (arrived: bool)
      requires Valid()
      modifies this`angle
      ensures Valid()
      ensures (arrived, Model()) == MoveModel.IsAtDestination(old(Model()), FollowedPosition(), dt, engine)
    {
      var t := TargetPosition(dt);
      arrived := engine.distance(pos, t) < ArrivalDistance;
    }

    // -------------------------------------------------------------------
    // One frame

    /** Writes the animator's moving flag from a fresh read of
        `IsAtDestination`. */
    method AnimatorWrite(dt: real)
      requires Valid()
      modifies this`angle, this`events
      ensures Valid()
      ensures Model() == MoveModel.AnimatorWrite(old(Model()), FollowedPosition(), dt, engine)
    {
      var arrived := IsAtDestination(dt);
      events := events + [MoveModel.MovingFlag(!arrived)];
    }

    /** Moves and turns the actor toward `t` and fires `OnUpdate`. */
    method Steer(t: Vec3, dt: real)
      requires Valid()
      modifies this`direction, this`pos, this`rot, this`events
      ensures Valid()
      ensures Model() == MoveModel.Steer(old(Model()), t, dt, engine)
    {
      direction := engine.normalized(Sub(t, pos));
      var facing := engine.angle(engine.forward(rot), direction);
      if facing < MathfPI {
        pos := Add(pos, Scale(direction, speed * dt));
      }
      if !ApproxZero(direction) {
        var targetRotation := engine.lookRotation(direction);
        rot := engine.rotateTowards(rot, targetRotation, TurnRate * dt);
      }
      events := events + [MoveModel.Updated(direction)];
    }

    method UpdatePosition(dt: real)
      requires Valid()
      modifies this
      ensures Valid() && target == old(target)
      ensures Model() == MoveModel.UpdatePosition(old(Model()), FollowedPosition(), dt, engine)
    {
      var arrived := IsAtDestination(dt);
      if arrived {
        return;
      }
      if hasAnimator {
        AnimatorWrite(dt);
      }
      var t := TargetPosition(dt);
      Steer(t, dt);
    }

    method StartIdle(draw: real)
      requires Valid()
      modifies this
      ensures Valid() && target == old(target)
      ensures Model() == MoveModel.StartIdle(old(Model()), draw)
    {
      idleTimer := draw;
      isIdle := true;
    }

    method UpdateIdle(dt: real, anchor: Vec3)
      requires Valid()
      modifies this
      ensures Valid() && target == old(target)
      ensures Model() == MoveModel.UpdateIdle(old(Model()), dt, anchor)
    {
      idleTimer := idleTimer + dt;
      if idleTimer > maxIdleDuration {
        SetPosition(anchor, MoveModel.StartIdleCallback);
      }
    }

    method Update(dt: real, anchor: Vec3)
      requires Valid()
      modifies this
      ensures Valid() && target == old(target)
      ensures Model() == MoveModel.Update(old(Model()), MoveModel.Frame(dt, FollowedPosition(), anchor, 0.0), engine)
    {
      if isIdle {
        UpdateIdle(dt, anchor);
      } else {
        UpdatePosition(dt);
      }
    }

    /** One poll of the arrival watch: on arrival it runs the callback, fires
        `OnEnd` and retires. */
    method PollWatch(dt: real, draw: real)
      requires Valid()
      modifies this
      ensures Valid() && target == old(target)
      ensures Model() == MoveModel.PollWatch(old(Model()), FollowedPosition(), dt, draw, engine)
    {
      if positionReachedRoutine.Some? {
        var onComplete := positionReachedRoutine.value;
        var arrived := IsAtDestination(dt);
        if arrived {
          match onComplete {
            case NoCallback =>
            case StartIdleCallback =>
              events := events + [MoveModel.Completed(onComplete)];
              StartIdle(draw);
            case External(_) =>
              events := events + [MoveModel.Completed(onComplete)];
          }
          events := events + [MoveModel.Ended];
          positionReachedRoutine := MoveModel.None;
        }
      }
    }

    /** One frame of the engine: `Update`, then the arrival watch resumes. */
    method Tick(dt: real, anchor: Vec3, draw: real)
      requires Valid()
      modifies this
      ensures Valid() && target == old(target)
      ensures Model() == MoveModel.Tick(old(Model()), MoveModel.Frame(dt, FollowedPosition(), anchor, draw), engine)
    {
      Update(dt, anchor);
      PollWatch(dt, draw);
    }
  }
}
