/** What the movement controller guarantees, proved about the state machine
    of module `MoveModel`. */
module MoveProperties {
  import opened Geometry
  import opened MoveModel

  // ---------------------------------------------------------------------
  // Target positions

  /** Following a transform aims at a stand-off point: when the engine's
      normalisation yields a unit vector, the point lies the distance threshold
      short of the followed position. */
  lemma {:induction false} TargetStandOff(s: State, targetPos: Vec3, dt: real, e: Engine)
    requires s.mode == Target
    requires SqrMagnitude(e.normalized(Sub(targetPos, s.pos))) == 1.0
    ensures SqrDistance(targetPos, TargetPosition(s, targetPos, dt, e).0)
            == s.settings.distanceThreshold * s.settings.distanceThreshold
  {
    var u := e.normalized(Sub(targetPos, s.pos));
    var d := s.settings.distanceThreshold;
    var t := TargetPosition(s, targetPos, dt, e).0;
    assert t == Sub(targetPos, Scale(u, d));
    assert Sub(targetPos, t) == Scale(u, d);
    SqrMagnitudeScale(u, d);
  }

  /** The radial target lies on the circle of the configured radius around
      the origin, at the angle after the read, whenever the engine's cosine
      and sine of that angle satisfy cos^2 + sin^2 = 1. */
  lemma {:induction false} RadialOnCircle(s: State, targetPos: Vec3, dt: real, e: Engine)
    requires s.mode == Radial
    requires var a := s.angle + dt * s.settings.radialSpeed;
      e.cos(a) * e.cos(a) + e.sin(a) * e.sin(a) == 1.0
    ensures TargetPosition(s, targetPos, dt, e).1.angle == s.angle + dt * s.settings.radialSpeed
    ensures SqrDistance(TargetPosition(s, targetPos, dt, e).0, s.origin)
            == s.settings.radius * s.settings.radius
  {
    var a := s.angle + dt * s.settings.radialSpeed;
    var v := Vec3(e.cos(a), 0.0, e.sin(a));
    var t := TargetPosition(s, targetPos, dt, e).0;
    assert t == Add(s.origin, Scale(v, s.settings.radius));
    assert Sub(t, s.origin) == Scale(v, s.settings.radius);
    SqrMagnitudeScale(v, s.settings.radius);
    assert SqrMagnitude(v) == 1.0;
  }

  // ---------------------------------------------------------------------
  // The steering step

  /** A steering step away from the destination: the animator flag is written
      once (from a second `IsAtDestination` read) when an animator is bound,
      `OnUpdate` fires once with the new direction, the actor advances by
      `speed * dt` only below the facing-angle bound, and a zero direction
      leaves the rotation alone. */
  lemma {:induction false} UpdatePositionSteps(s: State, targetPos: Vec3, dt: real, e: Engine)
    requires !Arrived(s, targetPos, dt, e)
    ensures var r := UpdatePosition(s, targetPos, dt, e);
      && (!s.settings.hasAnimator ==> r.events == s.events + [Updated(r.direction)])
      && (s.settings.hasAnimator ==>
            r.events == s.events + [MovingFlag(!Arrived(s.(angle := AngleAfterRead(s, dt)), targetPos, dt, e)),
                                    Updated(r.direction)])
      && r.pos == (if e.angle(e.forward(s.rot), r.direction) < MathfPI
                   then Add(s.pos, Scale(r.direction, s.settings.speed * dt)) else s.pos)
      && (ApproxZero(r.direction) ==> r.rot == s.rot)
  {
    var s1 := s.(angle := AngleAfterRead(s, dt));
    var s2 := if s.settings.hasAnimator
      then s1.(angle := AngleAfterRead(s1, dt), events := s.events + [MovingFlag(!Arrived(s1, targetPos, dt, e))])
      else s1;
    var s3 := s2.(angle := AngleAfterRead(s2, dt));
    assert UpdatePosition(s, targetPos, dt, e) == Steer(s3, TargetOf(s3, targetPos, e), dt, e);
  }

  /** Outside radial mode the target position does not move between the reads
      of one step, so the animator's moving flag is only ever set to true. */
  lemma {:induction false} MovingFlagOnlyTrue(s: State, targetPos: Vec3, dt: real, e: Engine)
    requires s.mode != Radial
    ensures MovingFlag(false) !in UpdatePosition(s, targetPos, dt, e).events[|s.events|..]
  {
    var r := UpdatePosition(s, targetPos, dt, e);
    if !Arrived(s, targetPos, dt, e) {
      UpdatePositionSteps(s, targetPos, dt, e);
      assert s.(angle := AngleAfterRead(s, dt)) == s;
      if s.settings.hasAnimator {
        assert r.events[|s.events|..] == [MovingFlag(true), Updated(r.direction)];
      } else {
        assert r.events[|s.events|..] == [Updated(r.direction)];
      }
    } else {
      assert r.events[|s.events|..] == [];
    }
  }

  /** In radial mode the flag can be false: when the step's first read is
      away from the destination and the animator's read, one angle step on,
      is at it, the step writes false. */
  lemma {:induction false} RadialFlagCanBeFalse(s: State, targetPos: Vec3, dt: real, e: Engine)
    requires s.mode == Radial && s.settings.hasAnimator
    requires !Arrived(s, targetPos, dt, e)
    requires Arrived(s.(angle := AngleAfterRead(s, dt)), targetPos, dt, e)
    ensures MovingFlag(false) in UpdatePosition(s, targetPos, dt, e).events[|s.events|..]
  {
    var r := UpdatePosition(s, targetPos, dt, e);
    UpdatePositionSteps(s, targetPos, dt, e);
    assert r.events[|s.events|..] == [MovingFlag(false), Updated(r.direction)];
  }

  /** The premises of `RadialFlagCanBeFalse` can be met: an engine whose
      distance is zero only for targets with `x` at least 2, an orbit of
      radius 1 around the origin, and one angle step of 1 per read. */
  lemma {:induction false} RadialFalseFlagExample()
    ensures var e := Engine(
        (p: Vec3, q: Vec3) => if q.x >= 2.0 then 0.0 else 10.0,
        (v: Vec3) => v, (x: real) => x, (x: real) => 0.0,
        (u: Vec3, v: Vec3) => 0.0, (v: Vec3) => Quat(0.0, 0.0, 0.0, 1.0),
        (a: Quat, b: Quat, k: real) => a, (q: Quat) => Zero);
      var settings := DefaultSettings.(radius := 1.0, radialSpeed := 1.0, hasAnimator := true);
      var s := StartRadialMovement(Fresh(settings, Zero, Quat(0.0, 0.0, 0.0, 1.0)), Zero);
      MovingFlag(false) in UpdatePosition(s, Zero, 1.0, e).events
  {
    var e := Engine(
        (p: Vec3, q: Vec3) => if q.x >= 2.0 then 0.0 else 10.0,
        (v: Vec3) => v, (x: real) => x, (x: real) => 0.0,
        (u: Vec3, v: Vec3) => 0.0, (v: Vec3) => Quat(0.0, 0.0, 0.0, 1.0),
        (a: Quat, b: Quat, k: real) => a, (q: Quat) => Zero);
    var settings := DefaultSettings.(radius := 1.0, radialSpeed := 1.0, hasAnimator := true);
    var s := StartRadialMovement(Fresh(settings, Zero, Quat(0.0, 0.0, 0.0, 1.0)), Zero);
    assert s.angle == 0.0;
    assert TargetOf(s.(angle := 1.0), Zero, e).x == 1.0;
    assert TargetOf(s.(angle := 2.0), Zero, e).x == 2.0;
    RadialFlagCanBeFalse(s, Zero, 1.0, e);
  }

  /** In radial mode every read of the target position advances the angle, and
      one steering step reads it once at the destination, and otherwise twice,
      or three times when an animator is bound. */
  lemma {:induction false} RadialAngleAdvance(s: State, targetPos: Vec3, dt: real, e: Engine)
    requires s.mode == Radial
    ensures var readCount: real :=
        if Arrived(s, targetPos, dt, e) then 1.0 else if s.settings.hasAnimator then 3.0 else 2.0;
      UpdatePosition(s, targetPos, dt, e).angle == s.angle + readCount * (dt * s.settings.radialSpeed)
  {
    var step := dt * s.settings.radialSpeed;
    if !Arrived(s, targetPos, dt, e) {
      var s1 := IsAtDestination(s, targetPos, dt, e).1;
      assert s1.angle == s.angle + step;
      var s2 := if s1.settings.hasAnimator then AnimatorWrite(s1, targetPos, dt, e) else s1;
      assert s2.mode == Radial;
      assert s2.angle == if s.settings.hasAnimator then s.angle + 2.0 * step else s.angle + step;
      var s3 := TargetPosition(s2, targetPos, dt, e).1;
      assert s3.angle == s2.angle + step;
    }
  }

  /** In direction mode a step away from the destination replaces the stored
      offset by the normalised step direction, so from the first active step
      on the offset is whatever the engine's normalisation yields. */
  lemma {:induction false} DirectionNormalized(s: State, targetPos: Vec3, dt: real, e: Engine)
    requires s.mode == Direction
    requires !Arrived(s, targetPos, dt, e)
    ensures UpdatePosition(s, targetPos, dt, e).direction == e.normalized(s.direction)
  {
    assert Sub(Add(s.pos, s.direction), s.pos) == s.direction;
  }

  /** Direction mode is perpetual motion along a ray: with an offset that
      the engine's normalisation keeps and that is never within the arrival
      distance, every frame steps along the same offset, fires `OnUpdate` with
      it (and sets the moving flag to true), and nothing ever starts, ends or
      runs a callback. */
  lemma {:induction false} DirectionPerpetual(s: State, fs: seq<Frame>, e: Engine)
    requires s.mode == Direction && !s.isIdle && s.watch.None?
    requires e.normalized(s.direction) == s.direction
    requires forall p :: e.distance(p, Add(p, s.direction)) >= ArrivalDistance
    ensures var r := RunTicks(s, fs, e);
      && r.mode == Direction && r.direction == s.direction && !r.isIdle && r.watch.None?
      && s.events <= r.events
      && forall k :: |s.events| <= k < |r.events| ==>
           r.events[k] == Updated(s.direction) || r.events[k] == MovingFlag(true)
    decreases |fs|
  {
    if fs != [] {
      var f := fs[0];
      assert TargetOf(s, f.targetPos, e) == Add(s.pos, s.direction);
      assert e.distance(s.pos, Add(s.pos, s.direction)) >= ArrivalDistance;
      assert !Arrived(s, f.targetPos, f.dt, e);
      var u := Update(s, f, e);
      UpdatePositionSteps(s, f.targetPos, f.dt, e);
      DirectionNormalized(s, f.targetPos, f.dt, e);
      assert s.(angle := AngleAfterRead(s, f.dt)) == s;
      assert u.events[|s.events|..] == [Updated(s.direction)]
          || u.events[|s.events|..] == [MovingFlag(true), Updated(s.direction)];
      var s1 := Tick(s, f, e);
      assert s1 == u;
      DirectionPerpetual(s1, fs[1..], e);
      var r := RunTicks(s1, fs[1..], e);
      forall k | |s.events| <= k < |r.events|
        ensures r.events[k] == Updated(s.direction) || r.events[k] == MovingFlag(true)
      {
        if k < |s1.events| {
          assert r.events[k] == s1.events[k] == u.events[|s.events|..][k - |s.events|];
        }
      }
    }
  }

  // ---------------------------------------------------------------------
  // The arrival watch

  /** `Stop` is a move that has already arrived (the engine's distance from a
      point to itself being zero): the frame after it the
      steering step does nothing and the watch fires `OnEnd` and retires. */
  lemma {:induction false} StopArrivesNextTick(s: State, f: Frame, e: Engine)
    requires e.distance(s.pos, s.pos) == 0.0
    ensures var r := Tick(Stop(s), f, e);
      && r.events == s.events + [Started, Ended]
      && r.watch == None && r.mode == Position && !r.isIdle
      && r.pos == s.pos && r.rot == s.rot
  {
    var s1 := Stop(s);
    assert Arrived(s1, f.targetPos, f.dt, e);
    var s2 := Update(s1, f, e);
    assert s2 == UpdatePosition(s1, f.targetPos, f.dt, e);
    assert s2 == s1;
    assert Arrived(s2, f.targetPos, f.dt, e);
    var r := PollWatch(s2, f.targetPos, f.dt, f.draw, e);
    assert r.events == s1.events + [Ended];
  }

  /** The wander move idles again on arrival: with the actor at the stored
      point, the frame's steering step does nothing and the watch runs
      `StartIdle` before `OnEnd`. */
  lemma {:induction false} WanderArrival(s: State, f: Frame, e: Engine)
    requires !s.isIdle && s.mode == Position && s.watch == Some(StartIdleCallback)
    requires e.distance(s.pos, s.position) < ArrivalDistance
    ensures var r := Tick(s, f, e);
      && r.isIdle && r.idleTimer == f.draw && r.watch == None
      && r.events == s.events + [Completed(StartIdleCallback), Ended]
      && r.pos == s.pos && r.rot == s.rot
  {
    var s2 := Update(s, f, e);
    assert s2 == s;
    assert Arrived(s2, f.targetPos, f.dt, e);
  }

  /** The `Update` half of a frame that is not idle keeps the mode, idle and
      the watch, and logs only an `OnUpdate`, after an animator write when one
      is bound. */
  lemma {:induction false} SteeringFrame(s: State, f: Frame, e: Engine)
    requires !s.isIdle
    ensures var u := Update(s, f, e);
      && u.mode == s.mode && !u.isIdle && u.watch == s.watch && s.events <= u.events
      && forall k :: |s.events| <= k < |u.events| ==> u.events[k].Updated? || u.events[k].MovingFlag?
  {
    var u := Update(s, f, e);
    if Arrived(s, f.targetPos, f.dt, e) {
      assert u.events == s.events;
    } else {
      UpdatePositionSteps(s, f.targetPos, f.dt, e);
      if s.settings.hasAnimator {
        var flag := MovingFlag(!Arrived(s.(angle := AngleAfterRead(s, f.dt)), f.targetPos, f.dt, e));
        assert u.events == s.events + [flag, Updated(u.direction)];
      } else {
        assert u.events == s.events + [Updated(u.direction)];
      }
    }
  }

  /** Without an outstanding watch and not idle, frames only steer: nothing
      starts, ends or runs a callback, and the controller stays in its mode,
      not idle and without a watch. */
  lemma {:induction false} QuietWithoutWatch(s: State, fs: seq<Frame>, e: Engine)
    requires !s.isIdle && s.watch.None?
    ensures var r := RunTicks(s, fs, e);
      && r.mode == s.mode && !r.isIdle && r.watch.None? && s.events <= r.events
      && forall k :: |s.events| <= k < |r.events| ==> r.events[k].Updated? || r.events[k].MovingFlag?
    decreases |fs|
  {
    if fs != [] {
      var s1 := Tick(s, fs[0], e);
      SteeringFrame(s, fs[0], e);
      QuietWithoutWatch(s1, fs[1..], e);
      var r := RunTicks(s1, fs[1..], e);
      forall k | |s.events| <= k < |r.events|
        ensures r.events[k].Updated? || r.events[k].MovingFlag?
      {
        if k < |s1.events| {
          assert r.events[k] == s1.events[k];
        }
      }
    }
  }

  /** Every mode change stops the watch for good: after `SetTarget`,
      `SetDirection` or `StartRadialMovement`, from any state, no frame runs
      a callback or fires `OnStart` or `OnEnd`; the stopped watch's callback
      and its `OnEnd` never come. */
  lemma {:induction false} ModeChangeSilencesWatch(s: State, c: Call, fs: seq<Frame>, e: Engine)
    requires c.SetTargetCall? || c.SetDirectionCall? || c.StartRadialCall?
    ensures var r := RunTicks(Apply(s, c, e), fs, e);
      && s.events <= r.events
      && forall k :: |s.events| <= k < |r.events| ==>
           !r.events[k].Completed? && r.events[k] != Ended && r.events[k] != Started
  {
    var s1 := Apply(s, c, e);
    assert s1.events == s.events && !s1.isIdle && s1.watch.None?;
    QuietWithoutWatch(s1, fs, e);
  }

  /** `OnEnd` does not occur in a log of steering events only. */
  lemma {:induction false} CountAbsent(t: seq<Event>, ev: Event)
    requires forall k :: 0 <= k < |t| ==> t[k] != ev
    ensures Count(t, ev) == 0
    decreases |t|
  {
    if t != [] {
      CountAbsent(t[..|t| - 1], ev);
    }
  }

  /** Events that start nothing and run no callback but `cb`. */
  predicate OwnEventsOnly(t: seq<Event>, cb: Callback) {
    forall k :: 0 <= k < |t| ==> t[k] != Started && (t[k].Completed? ==> t[k] == Completed(cb))
  }

  lemma OwnEventsAppend(a: seq<Event>, b: seq<Event>, cb: Callback)
    requires OwnEventsOnly(a, cb) && OwnEventsOnly(b, cb)
    ensures OwnEventsOnly(a + b, cb)
  {
    forall k | 0 <= k < |a + b|
      ensures (a + b)[k] != Started && ((a + b)[k].Completed? ==> (a + b)[k] == Completed(cb))
    {
      if k < |a| {
        assert (a + b)[k] == a[k];
      } else {
        assert (a + b)[k] == b[k - |a|];
      }
    }
  }

  /** A poll of a watch carrying `cb`, if any: the watch either stays and
      nothing is logged, or it runs `cb`, fires exactly one `OnEnd` and
      retires; idle is unchanged unless `cb` is `StartIdle`. */
  lemma {:induction false} PollOwnEnd(u: State, f: Frame, cb: Callback, e: Engine)
    requires u.watch.Some? ==> u.watch.value == cb
    requires cb != StartIdleCallback
    ensures var r := PollWatch(u, f.targetPos, f.dt, f.draw, e);
      && r.isIdle == u.isIdle && u.events <= r.events && (r.watch == u.watch || r.watch.None?)
      && OwnEventsOnly(r.events[|u.events|..], cb)
      && Count(r.events[|u.events|..], Ended) == (if u.watch.Some? && r.watch.None? then 1 else 0)
  {
    var r := PollWatch(u, f.targetPos, f.dt, f.draw, e);
    if u.watch.Some? && Arrived(u, f.targetPos, f.dt, e) {
      if cb == NoCallback {
        assert r.events == u.events + [Ended];
        assert r.events[|u.events|..] == [Ended];
      } else {
        assert r.events == u.events + [Completed(cb), Ended];
        assert r.events[|u.events|..] == [Completed(cb), Ended];
        assert [Completed(cb), Ended][..1] == [Completed(cb)];
        assert Count([Completed(cb)], Ended) == 0;
      }
    } else {
      assert r.events == u.events;
      assert r.events[|u.events|..] == [];
    }
  }

  /** One frame, while not idle, with at most a watch carrying `cb` (not
      `StartIdle`): the watch either stays or retires, and the frame fires an
      `OnEnd` exactly when it retires; only `cb` runs, nothing starts, and the
      controller does not idle. */
  lemma {:induction false} WatchFrame(s: State, f: Frame, cb: Callback, e: Engine)
    requires !s.isIdle && (s.watch.Some? ==> s.watch.value == cb) && cb != StartIdleCallback
    ensures var r := Tick(s, f, e);
      && !r.isIdle && s.events <= r.events && (r.watch == s.watch || r.watch.None?)
      && OwnEventsOnly(r.events[|s.events|..], cb)
      && Count(r.events[|s.events|..], Ended) == (if s.watch.Some? && r.watch.None? then 1 else 0)
  {
    var u := Update(s, f, e);
    SteeringOwnEvents(s, f, cb, e);
    var r := PollWatch(u, f.targetPos, f.dt, f.draw, e);
    assert r == Tick(s, f, e);
    PollOwnEnd(u, f, cb, e);
    SplitLog(s.events, u.events, r.events, cb);
  }

  /** The `Update` half of a frame that is not idle fires no `OnEnd`, starts
      nothing and runs no callback; only the poll after it can. */
  lemma {:induction false} SteeringOwnEvents(s: State, f: Frame, cb: Callback, e: Engine)
    requires !s.isIdle
    ensures var u := Update(s, f, e);
      && !u.isIdle && u.watch == s.watch && s.events <= u.events
      && OwnEventsOnly(u.events[|s.events|..], cb)
      && Count(u.events[|s.events|..], Ended) == 0
  {
    var u := Update(s, f, e);
    SteeringFrame(s, f, e);
    var t := u.events[|s.events|..];
    assert forall k :: 0 <= k < |t| ==> t[k] == u.events[|s.events| + k];
    CountAbsent(t, Ended);
  }

  /** A log grown in two stretches: what the whole stretch holds. */
  lemma {:induction false} SplitLog(a: seq<Event>, b: seq<Event>, c: seq<Event>, cb: Callback)
    requires a <= b <= c
    requires OwnEventsOnly(b[|a|..], cb) && OwnEventsOnly(c[|b|..], cb)
    ensures OwnEventsOnly(c[|a|..], cb)
    ensures Count(c[|a|..], Ended) == Count(b[|a|..], Ended) + Count(c[|b|..], Ended)
  {
    assert c[|a|..] == b[|a|..] + c[|b|..];
    CountAppend(b[|a|..], c[|b|..], Ended);
    OwnEventsAppend(b[|a|..], c[|b|..], cb);
  }

  /** While not idle, a watch carrying a callback other than `StartIdle`
      fires at most one `OnEnd` over any number of frames, and none when no
      watch is outstanding; no callback but its own runs, nothing starts, and
      the controller never idles. */
  lemma {:induction false} OneWatchOneEnd(s: State, fs: seq<Frame>, cb: Callback, e: Engine)
    requires !s.isIdle && (s.watch.Some? ==> s.watch.value == cb) && cb != StartIdleCallback
    ensures var r := RunTicks(s, fs, e);
      && !r.isIdle && s.events <= r.events
      && OwnEventsOnly(r.events[|s.events|..], cb)
      && Count(r.events[|s.events|..], Ended) <= (if s.watch.Some? then 1 else 0)
    decreases |fs|
  {
    var r := RunTicks(s, fs, e);
    if fs == [] {
      assert r.events[|s.events|..] == [];
    } else {
      var s1 := Tick(s, fs[0], e);
      assert r == RunTicks(s1, fs[1..], e);
      WatchFrame(s, fs[0], cb, e);
      OneWatchOneEnd(s1, fs[1..], cb, e);
      SplitLog(s.events, s1.events, r.events, cb);
    }
  }

  /** A superseded move fires nothing of its own: after a second
      `SetPosition` whose callback is not `StartIdle` replaces a first one,
      frames fire at most one `OnEnd` (the second move's) and run no callback
      but the second one. */
  lemma {:induction false} SupersededMoveEndsOnce(
    s: State, p1: Vec3, cb1: Callback, p2: Vec3, cb2: Callback, fs: seq<Frame>, e: Engine)
    requires cb2 != StartIdleCallback
    ensures var s2 := SetPosition(SetPosition(s, p1, cb1), p2, cb2);
      var r := RunTicks(s2, fs, e);
      && s2.events <= r.events
      && Count(r.events[|s2.events|..], Ended) <= 1
      && OwnEventsOnly(r.events[|s2.events|..], cb2)
  {
    var s2 := SetPosition(SetPosition(s, p1, cb1), p2, cb2);
    OneWatchOneEnd(s2, fs, cb2, e);
  }

  /** The events from `before` to `after` extend the log, and every callback
      they run is in `A`. */
  ghost predicate RunsOnly(before: seq<Event>, after: seq<Event>, A: set<Callback>) {
    before <= after &&
    forall k :: |before| <= k < |after| && after[k].Completed? ==> after[k].callback in A
  }

  lemma RunsOnlyTrans(a: seq<Event>, b: seq<Event>, c: seq<Event>, A: set<Callback>)
    requires RunsOnly(a, b, A) && RunsOnly(b, c, A)
    ensures RunsOnly(a, c, A)
  {
    forall k | |a| <= k < |c| && c[k].Completed? ensures c[k].callback in A {
      if k < |b| {
        assert c[k] == b[k];
      }
    }
  }

  /** The `Update` half of a frame runs no callback, and any watch it starts
      runs `StartIdle`. */
  lemma {:induction false} UpdateRunsNothing(s: State, f: Frame, e: Engine, A: set<Callback>)
    requires StartIdleCallback in A && NoCallback in A
    requires s.watch.Some? ==> s.watch.value in A
    ensures var u := Update(s, f, e);
      RunsOnly(s.events, u.events, A) && (u.watch.Some? ==> u.watch.value in A)
  {
    var u := Update(s, f, e);
    if s.isIdle {
      assert u.events == s.events || u.events == s.events + [Started];
    } else if Arrived(s, f.targetPos, f.dt, e) {
      assert u.events == s.events;
    } else {
      UpdatePositionSteps(s, f.targetPos, f.dt, e);
      assert u.events[|s.events|..] == [Updated(u.direction)]
          || u.events[|s.events|..] == [MovingFlag(u.events[|s.events|].value), Updated(u.direction)];
    }
  }

  /** A poll runs the outstanding watch's callback and nothing else. */
  lemma {:induction false} PollRunsWatch(u: State, f: Frame, e: Engine, A: set<Callback>)
    requires u.watch.Some? ==> u.watch.value in A
    ensures var r := PollWatch(u, f.targetPos, f.dt, f.draw, e);
      RunsOnly(u.events, r.events, A) && (r.watch.Some? ==> r.watch.value in A)
  {
    var r := PollWatch(u, f.targetPos, f.dt, f.draw, e);
    if u.watch.Some? && Arrived(u, f.targetPos, f.dt, e) {
      var cb := u.watch.value;
      if cb == NoCallback {
        assert r.events == u.events + [Ended];
      } else {
        assert r.events == u.events + [Completed(cb), Ended];
      }
    } else {
      assert r.events == u.events;
    }
  }

  /** One call keeps an outstanding watch's callback inside `A` as long as `A`
      holds every callback the call could start a watch with, and every
      callback it runs is in `A`. */
  lemma {:induction false} ApplyFiresOnlyIssued(s: State, c: Call, e: Engine, A: set<Callback>)
    requires StartIdleCallback in A && NoCallback in A
    requires s.watch.Some? ==> s.watch.value in A
    requires c.SetPositionCall? ==> c.onComplete in A
    ensures var r := Apply(s, c, e);
      RunsOnly(s.events, r.events, A) && (r.watch.Some? ==> r.watch.value in A)
  {
    var r := Apply(s, c, e);
    match c
    case UpdateCall(f) =>
      UpdateRunsNothing(s, f, e, A);
    case PollCall(f) =>
      PollRunsWatch(s, f, e, A);
    case StopCall =>
      assert r.events == s.events + [Started];
    case SetPositionCall(_, _) =>
      assert r.events == s.events + [Started];
    case StartRandomCall(_, _) =>
      assert r.events == s.events + [Started] || r.events == s.events;
    case _ =>
      assert r.events == s.events;
  }

  /** A watch never runs a callback nobody issued: over any run of calls, every
      callback run is the outstanding one at the start, `StartIdle`, or one
      handed to `SetPosition` by the calls. */
  lemma {:induction false} FiredCallbacksWereIssued(s: State, cs: seq<Call>, e: Engine, A: set<Callback>)
    requires StartIdleCallback in A && NoCallback in A
    requires s.watch.Some? ==> s.watch.value in A
    requires PassedCallbacks(cs) <= A
    ensures RunsOnly(s.events, Run(s, cs, e).events, A)
    decreases |cs|
  {
    if cs != [] {
      var s1 := Apply(s, cs[0], e);
      assert cs[0] in cs;
      ApplyFiresOnlyIssued(s, cs[0], e, A);
      assert PassedCallbacks(cs[1..]) <= PassedCallbacks(cs) by {
        forall c | c in cs[1..] ensures c in cs { }
      }
      FiredCallbacksWereIssued(s1, cs[1..], e, A);
      RunsOnlyTrans(s.events, s1.events, Run(s, cs, e).events, A);
    }
  }

  /** A superseded watch never fires: after a second `SetPosition` replaces a
      first one whose callback `External(id)` nobody passes again, that
      callback is never run, whatever calls and frames follow. */
  lemma {:induction false} SupersededWatchNeverFires(
    s: State, p1: Vec3, id: nat, p2: Vec3, cb2: Callback, cs: seq<Call>, e: Engine)
    requires cb2 != External(id)
    requires External(id) !in PassedCallbacks(cs)
    ensures var r := Run(SetPosition(SetPosition(s, p1, External(id)), p2, cb2), cs, e);
      forall k :: |s.events| <= k < |r.events| ==> r.events[k] != Completed(External(id))
  {
    var s2 := SetPosition(SetPosition(s, p1, External(id)), p2, cb2);
    var A := {StartIdleCallback, NoCallback, cb2} + PassedCallbacks(cs);
    assert External(id) !in A;
    FiredCallbacksWereIssued(s2, cs, e, A);
    var r := Run(s2, cs, e);
    assert s2.events == s.events + [Started, Started];
    forall k | |s.events| <= k < |r.events| ensures r.events[k] != Completed(External(id)) {
      if k < |s2.events| {
        assert r.events[k] == s2.events[k];
      }
    }
  }

  /** Every call keeps the watch confined to position mode. */
  lemma {:induction false} RunKeepsInv(s: State, cs: seq<Call>, e: Engine)
    requires Inv(s)
    ensures Inv(Run(s, cs, e))
    decreases |cs|
  {
    if cs != [] {
      var s1 := Apply(s, cs[0], e);
      assert Inv(s1);
      RunKeepsInv(s1, cs[1..], e);
    }
  }

  // ---------------------------------------------------------------------
  // OnStart and OnEnd

  /** How often `ev` occurs in `evs`. */
  function Count(evs: seq<Event>, ev: Event): nat
    decreases |evs|
  {
    if evs == [] then 0
    else Count(evs[..|evs| - 1], ev) + (if evs[|evs| - 1] == ev then 1 else 0)
  }

  lemma {:induction false} CountAppend(a: seq<Event>, b: seq<Event>, ev: Event)
    ensures Count(a + b, ev) == Count(a, ev) + Count(b, ev)
    decreases |b|
  {
    if b == [] {
      assert a + b == a;
    } else {
      var b' := b[..|b| - 1];
      assert (a + b)[..|a + b| - 1] == a + b';
      CountAppend(a, b', ev);
    }
  }

  /** Every watch is started by one `OnStart` and fires at most one `OnEnd`,
      so the `OnEnd`s so far and the outstanding watch together never
      outnumber the `OnStart`s. */
  predicate Balanced(s: State) {
    Count(s.events, Ended) + (if s.watch.Some? then 1 else 0) <= Count(s.events, Started)
  }

  /** Appending `tail` keeps the balance when it adds as many `OnStart`s as
      `OnEnd`s and outstanding watches together. */
  lemma {:induction false} BalancedAfter(s: State, r: State, tail: seq<Event>)
    requires Balanced(s)
    requires r.events == s.events + tail
    requires Count(tail, Ended) + (if r.watch.Some? then 1 else 0)
             <= Count(tail, Started) + (if s.watch.Some? then 1 else 0)
    ensures Balanced(r)
  {
    CountAppend(s.events, tail, Ended);
    CountAppend(s.events, tail, Started);
  }

  lemma {:induction false} UpdateKeepsBalanced(s: State, f: Frame, e: Engine)
    requires Balanced(s)
    ensures Balanced(Update(s, f, e))
  {
    var u := Update(s, f, e);
    if s.isIdle {
      if s.idleTimer + f.dt > s.settings.maxIdleDuration {
        BalancedAfter(s, u, [Started]);
      } else {
        BalancedAfter(s, u, []);
      }
    } else if Arrived(s, f.targetPos, f.dt, e) {
      BalancedAfter(s, u, []);
    } else {
      UpdatePositionSteps(s, f.targetPos, f.dt, e);
      if s.settings.hasAnimator {
        var flag := MovingFlag(!Arrived(s.(angle := AngleAfterRead(s, f.dt)), f.targetPos, f.dt, e));
        assert u.events == s.events + [flag, Updated(u.direction)];
        assert [flag, Updated(u.direction)][..1] == [flag];
        assert Count([flag], Ended) == 0;
        BalancedAfter(s, u, [flag, Updated(u.direction)]);
      } else {
        BalancedAfter(s, u, [Updated(u.direction)]);
      }
    }
  }

  lemma {:induction false} PollKeepsBalanced(u: State, f: Frame, e: Engine)
    requires Balanced(u)
    ensures Balanced(PollWatch(u, f.targetPos, f.dt, f.draw, e))
  {
    var r := PollWatch(u, f.targetPos, f.dt, f.draw, e);
    if u.watch.Some? && Arrived(u, f.targetPos, f.dt, e) {
      if u.watch.value == NoCallback {
        BalancedAfter(u, r, [Ended]);
      } else {
        var done := Completed(u.watch.value);
        assert [done, Ended][..1] == [done];
        assert Count([done], Ended) == 0;
        BalancedAfter(u, r, [done, Ended]);
      }
    } else {
      BalancedAfter(u, r, []);
    }
  }

  lemma {:induction false} ApplyKeepsBalanced(s: State, c: Call, e: Engine)
    requires Balanced(s)
    ensures Balanced(Apply(s, c, e))
  {
    var r := Apply(s, c, e);
    match c
    case UpdateCall(f) =>
      UpdateKeepsBalanced(s, f, e);
    case PollCall(f) =>
      PollKeepsBalanced(s, f, e);
    case StopCall =>
      BalancedAfter(s, r, [Started]);
    case SetPositionCall(_, _) =>
      BalancedAfter(s, r, [Started]);
    case StartRandomCall(_, _) =>
      if s.settings.startIdle {
        BalancedAfter(s, r, []);
      } else {
        BalancedAfter(s, r, [Started]);
      }
    case _ =>
      BalancedAfter(s, r, []);
  }

  /** From start-up on, whatever calls and frames follow, `OnEnd` never fires
      more often than `OnStart`, and strictly less often while a watch is
      outstanding. */
  lemma {:induction false} EndsNeverOutnumberStarts(settings: Settings, pos: Vec3, rot: Quat, cs: seq<Call>, e: Engine)
    ensures var r := Run(Awake(settings, pos, rot), cs, e);
      Count(r.events, Ended) + (if r.watch.Some? then 1 else 0) <= Count(r.events, Started)
  {
    var s := Awake(settings, pos, rot);
    assert s.events == [] + [Started];
    CountAppend([], [Started], Started);
    CountAppend([], [Started], Ended);
    RunKeepsBalanced(s, cs, e);
  }

  lemma {:induction false} RunKeepsBalanced(s: State, cs: seq<Call>, e: Engine)
    requires Balanced(s)
    ensures Balanced(Run(s, cs, e))
    decreases |cs|
  {
    if cs != [] {
      ApplyKeepsBalanced(s, cs[0], e);
      RunKeepsBalanced(Apply(s, cs[0], e), cs[1..], e);
    }
  }

  // ---------------------------------------------------------------------
  // The idle cycle

  lemma {:induction false} TotalTimeNonNegative(fs: seq<Frame>)
    requires forall i :: 0 <= i < |fs| ==> fs[i].dt >= 0.0
    ensures TotalTime(fs) >= 0.0
    decreases |fs|
  {
    if fs != [] {
      TotalTimeNonNegative(fs[1..]);
    }
  }

  /** `StartIdle` leaves an outstanding watch running: with `startIdle` set,
      the watch `Awake` started is still outstanding when the wander cycle
      idles, and the first frame fires its `OnEnd` while the controller stays
      idle. */
  lemma {:induction false} IdleKeepsAwakeWatch(settings: Settings, pos: Vec3, rot: Quat, anchor: Vec3, draw: real, f: Frame, e: Engine)
    requires settings.startIdle
    requires e.distance(pos, pos) < ArrivalDistance
    requires draw + f.dt <= settings.maxIdleDuration
    ensures var r := Tick(StartRandomMovement(Awake(settings, pos, rot), anchor, draw), f, e);
      && r.isIdle && r.watch.None? && r.events == [Started, Ended]
  {
    var s := StartRandomMovement(Awake(settings, pos, rot), anchor, draw);
    var u := Update(s, f, e);
    assert u == s.(idleTimer := draw + f.dt);
    assert Arrived(u, f.targetPos, f.dt, e);
  }

  /** While idle with no watch outstanding, frames that keep the timer within
      the longest idle duration change nothing but the timer: no move, no
      turn, no event. */
  lemma {:induction false} IdleQuiet(s: State, fs: seq<Frame>, e: Engine)
    requires s.isIdle && s.watch.None?
    requires forall i :: 0 <= i < |fs| ==> fs[i].dt >= 0.0
    requires s.idleTimer + TotalTime(fs) <= s.settings.maxIdleDuration
    ensures RunTicks(s, fs, e) == s.(idleTimer := s.idleTimer + TotalTime(fs))
    decreases |fs|
  {
    if fs != [] {
      TotalTimeNonNegative(fs[1..]);
      var s1 := Tick(s, fs[0], e);
      assert s1 == s.(idleTimer := s.idleTimer + fs[0].dt);
      IdleQuiet(s1, fs[1..], e);
    }
  }

  /** One idle spell: `StartIdle` draws its starting offset from
      `[0, maxIdleDuration - minIdleDuration]`; the spell ends in the frame
      that takes the timer past `maxIdleDuration`, and not before, with a move
      to a fresh anchor point that idles again on arrival. The time spent idle
      is then more than `minIdleDuration` and at most `maxIdleDuration` plus
      the last frame. */
  lemma {:induction false} IdleSpell(s0: State, draw: real, fs: seq<Frame>, last: Frame, e: Engine)
    requires s0.watch.None?
    requires s0.settings.minIdleDuration <= s0.settings.maxIdleDuration
    requires 0.0 <= draw <= s0.settings.maxIdleDuration - s0.settings.minIdleDuration
    requires forall i :: 0 <= i < |fs| ==> fs[i].dt >= 0.0
    requires last.dt >= 0.0
    requires draw + TotalTime(fs) <= s0.settings.maxIdleDuration
    ensures var quiet := RunTicks(StartIdle(s0, draw), fs, e);
      && quiet.isIdle && quiet.pos == s0.pos && quiet.rot == s0.rot && quiet.events == s0.events
      && var woke := Update(quiet, last, e);
      && (woke.isIdle <==> draw + TotalTime(fs) + last.dt <= s0.settings.maxIdleDuration)
      && (!woke.isIdle ==>
            && woke.mode == Position && woke.position == last.anchor
            && woke.watch == Some(StartIdleCallback) && woke.events == s0.events + [Started]
            && s0.settings.minIdleDuration < TotalTime(fs) + last.dt
            && TotalTime(fs) + last.dt <= s0.settings.maxIdleDuration + last.dt)
  {
    var idle := StartIdle(s0, draw);
    IdleQuiet(idle, fs, e);
    TotalTimeNonNegative(fs);
  }
}
