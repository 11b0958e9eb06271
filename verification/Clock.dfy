/**
  * Virtual time derived from wall time (app/core/clock.py) and its rewrites (app/api/routes.py,
  * conductor/service.py).
  */
module Clock {
  import opened Model

  datatype SimStatus = Running | Paused | Done

  datatype Config = Config(
    status: SimStatus,
    virtualEpoch: Time,
    resumedAtWall: real,
    pausedAtVirtual: Option<Time>,
    speed: real)

  function FrozenAt(c: Config): Time {
    if c.pausedAtVirtual.Some? then c.pausedAtVirtual.value else c.virtualEpoch
  }

  function NowAt(c: Config, wall: real): Time {
    if c.status != Running then FrozenAt(c) else c.virtualEpoch + (wall - c.resumedAtWall) * c.speed
  }

  function Start(speed: real, wall: real): Config {
    Config(Running, 0.0, wall, None, speed)
  }

  function Pause(c: Config, wall: real): Config {
    if c.status == Paused then c else c.(status := Paused, pausedAtVirtual := Some(NowAt(c, wall)))
  }

  function Resume(c: Config, wall: real): Config {
    if c.status != Paused then c else Config(Running, FrozenAt(c), wall, None, c.speed)
  }

  /** None is the ValueError: a multiplier must be positive. */
  function SetSpeed(c: Config, speed: real, wall: real): Option<Config> {
    if speed <= 0.0 then None
    else if c.status == Paused then Some(c.(speed := speed))
    else Some(Config(c.status, NowAt(c, wall), wall, None, speed))
  }

  datatype PatchBody = PatchBody(status: Option<SimStatus>, speed: Option<real>)

  /** PATCH applies the status first and the speed to what that left; the row's status is the requested one. */
  function Patch(sim: Config, body: PatchBody, wall: real): Option<Config> {
    var moved :=
      if body.status.None? || body.status.value == sim.status then sim
      else if body.status.value == Running then Resume(sim, wall)
      else Pause(sim, wall);
    var sped :=
      if body.speed.Some? && body.speed.value != moved.speed then SetSpeed(moved, body.speed.value, wall)
      else Some(moved);
    if sped.None? then None
    else Some(sped.value.(status := if body.status.Some? then body.status.value else sped.value.status))
  }

  /** The conductor retires a run with the instant its pass read. */
  function Retire(sim: Config, now: Time): Config {
    sim.(status := Done, pausedAtVirtual := Some(now))
  }

  // ---- What a rewrite must keep ----

  /** The one request that does not rebase: straight from done to running, at the speed already set. */
  predicate Reopens(sim: Config, body: PatchBody) {
    && sim.status == Done && body.status == Some(Running)
    && (body.speed.None? || body.speed.value == sim.speed)
  }

  /** The wall instant at which the line a finished run stopped following read its frozen time. */
  function StoppedAtWall(sim: Config): real
    requires sim.speed > 0.0
  {
    sim.resumedAtWall + (FrozenAt(sim) - sim.virtualEpoch) / sim.speed
  }

  /**
    * An accepted PATCH leaves the reading alone at its own instant, except when it reopens a run later than it
    * stopped.
    */
  lemma PatchIsContinuous(sim: Config, body: PatchBody, wall: real)
    requires sim.speed > 0.0
    ensures Patch(sim, body, wall).None? <==> body.speed.Some? && body.speed.value <= 0.0
    ensures Patch(sim, body, wall).Some? ==>
              var after := Patch(sim, body, wall).value;
              && after.speed > 0.0
              && (NowAt(after, wall) == NowAt(sim, wall) <==> !Reopens(sim, body) || wall == StoppedAtWall(sim))
  {
    if Reopens(sim, body) {
      SpeedScales(wall - sim.resumedAtWall, FrozenAt(sim) - sim.virtualEpoch, sim.speed);
    }
  }

  lemma SpeedScales(lag: real, gap: real, speed: real)
    requires speed > 0.0
    ensures lag * speed == gap <==> lag == gap / speed
  {
    var quotient := gap / speed;
    assert quotient * speed == gap;
    assert lag * speed - quotient * speed == (lag - quotient) * speed;
    NonZeroProduct(lag - quotient, speed);
  }

  lemma NonZeroProduct(x: real, y: real)
    requires y > 0.0
    ensures x * y == 0.0 <==> x == 0.0
  {
  }

  lemma RunsForward(c: Config, a: real, b: real)
    requires c.speed > 0.0 && a <= b
    ensures NowAt(c, b) == NowAt(c, a) + if c.status == Running then (b - a) * c.speed else 0.0
    ensures NowAt(c, a) <= NowAt(c, b)
  {
    if c.status == Running {
      assert (b - c.resumedAtWall) * c.speed == (a - c.resumedAtWall) * c.speed + (b - a) * c.speed;
    }
  }

  /** Setting a speed while paused and resuming later, or resuming and then setting it: the same clock. */
  lemma SpeedCommutesWithResume(c: Config, speed: real, before: real, wall: real)
    requires c.status == Paused && speed > 0.0
    ensures var first := SetSpeed(c, speed, before);
            var second := SetSpeed(Resume(c, wall), speed, wall);
            first.Some? && second == Some(Resume(first.value, wall))
  {
  }

  // ---- The clock as an integral ----

  datatype Rewrite = Patched(body: PatchBody) | Retired

  datatype Timed = Timed(wall: real, rewrite: Rewrite)

  /** A refused PATCH changes nothing. */
  function Apply(c: Config, e: Timed): Config {
    match e.rewrite
    case Patched(body) => var p := Patch(c, body, e.wall); if p.None? then c else p.value
    case Retired => Retire(c, NowAt(c, e.wall))
  }

  function ApplyAll(c: Config, es: seq<Timed>): Config
    decreases |es|
  {
    if es == [] then c else ApplyAll(Apply(c, es[0]), es[1..])
  }

  /** The reference: add up running real time at the speed in force, with no epoch anywhere. */
  datatype Odometer = Odometer(reading: Time, wall: real, status: SimStatus, speed: real)

  function Drive(o: Odometer, wall: real): Odometer {
    o.(wall := wall, reading := o.reading + if o.status == Running then (wall - o.wall) * o.speed else 0.0)
  }

  function Turn(o: Odometer, r: Rewrite): Odometer {
    match r
    case Retired => o.(status := Done)
    case Patched(body) =>
      if body.speed.Some? && body.speed.value <= 0.0 then o
      else o.(status := if body.status.Some? then body.status.value else o.status,
              speed := if body.speed.Some? then body.speed.value else o.speed)
  }

  function DriveAll(o: Odometer, es: seq<Timed>): Odometer
    decreases |es|
  {
    if es == [] then o else DriveAll(Turn(Drive(o, es[0].wall), es[0].rewrite), es[1..])
  }

  /** Wall times do not run backwards, and a finished run is never reopened at its old speed. */
  predicate Orderly(c: Config, wall: real, es: seq<Timed>)
    decreases |es|
  {
    es != [] ==>
      && wall <= es[0].wall
      && (es[0].rewrite.Patched? ==> !Reopens(c, es[0].rewrite.body))
      && Orderly(Apply(c, es[0]), es[0].wall, es[1..])
  }

  predicate Agree(c: Config, o: Odometer) {
    c.status == o.status && c.speed == o.speed > 0.0 && NowAt(c, o.wall) == o.reading
  }

  lemma AgreeStep(c: Config, o: Odometer, e: Timed)
    requires Agree(c, o) && o.wall <= e.wall
    requires e.rewrite.Patched? ==> !Reopens(c, e.rewrite.body)
    ensures Agree(Apply(c, e), Turn(Drive(o, e.wall), e.rewrite))
    ensures NowAt(Apply(c, e), e.wall) == NowAt(c, e.wall)
  {
    RunsForward(c, o.wall, e.wall);
    if e.rewrite.Patched? {
      PatchIsContinuous(c, e.rewrite.body, e.wall);
    }
  }

  lemma {:induction false} AgreeAll(c: Config, o: Odometer, es: seq<Timed>)
    requires Agree(c, o) && Orderly(c, o.wall, es)
    ensures Agree(ApplyAll(c, es), DriveAll(o, es))
    ensures o.wall <= DriveAll(o, es).wall && o.reading <= DriveAll(o, es).reading
    decreases |es|
  {
    if es != [] {
      AgreeStep(c, o, es[0]);
      RunsForward(c, o.wall, es[0].wall);
      AgreeAll(Apply(c, es[0]), Turn(Drive(o, es[0].wall), es[0].rewrite), es[1..]);
    }
  }

  /** Whatever the rewrites, the clock reads the sum of running real time times the speed then in force. */
  lemma ClockIsAnIntegral(speed: real, start: real, es: seq<Timed>, wall: real)
    requires speed > 0.0 && Orderly(Start(speed, start), start, es)
    requires DriveAll(Odometer(0.0, start, Running, speed), es).wall <= wall
    ensures NowAt(ApplyAll(Start(speed, start), es), wall)
         == Drive(DriveAll(Odometer(0.0, start, Running, speed), es), wall).reading
  {
    var o := Odometer(0.0, start, Running, speed);
    AgreeAll(Start(speed, start), o, es);
    RunsForward(ApplyAll(Start(speed, start), es), DriveAll(o, es).wall, wall);
  }

  /** Time read before any further rewrites is never later than time read after them. */
  lemma ClockNeverGoesBack(c: Config, wall: real, es: seq<Timed>, later: real)
    requires c.speed > 0.0 && Orderly(c, wall, es)
    requires DriveAll(Odometer(NowAt(c, wall), wall, c.status, c.speed), es).wall <= later
    ensures NowAt(c, wall) <= NowAt(ApplyAll(c, es), later)
  {
    var o := Odometer(NowAt(c, wall), wall, c.status, c.speed);
    AgreeAll(c, o, es);
    RunsForward(ApplyAll(c, es), DriveAll(o, es).wall, later);
  }

  // ---- Retiring at an instant read earlier ----

  /**
    * From the odometer's instant to `wall`, through the rewrites in between, no real time passed while the run was
    * running.
    */
  predicate StoodStill(o: Odometer, es: seq<Timed>, wall: real)
    decreases |es|
  {
    if es == [] then o.status != Running || o.wall == wall
    else
      && (o.status != Running || o.wall == es[0].wall)
      && StoodStill(Turn(Drive(o, es[0].wall), es[0].rewrite), es[1..], wall)
  }

  lemma {:induction false} StillnessDecides(c: Config, o: Odometer, es: seq<Timed>, wall: real)
    requires Agree(c, o) && Orderly(c, o.wall, es) && DriveAll(o, es).wall <= wall
    ensures o.reading <= Drive(DriveAll(o, es), wall).reading
    ensures o.reading == Drive(DriveAll(o, es), wall).reading <==> StoodStill(o, es, wall)
    decreases |es|
  {
    if es == [] {
      LegIsForward(o, wall);
    } else {
      LegIsForward(o, es[0].wall);
      AgreeStep(c, o, es[0]);
      StillnessDecides(Apply(c, es[0]), Turn(Drive(o, es[0].wall), es[0].rewrite), es[1..], wall);
    }
  }

  lemma LegIsForward(o: Odometer, wall: real)
    requires o.speed > 0.0 && o.wall <= wall
    ensures o.reading <= Drive(o, wall).reading
    ensures o.reading == Drive(o, wall).reading <==> o.status != Running || o.wall == wall
  {
    NonZeroProduct(wall - o.wall, o.speed);
    if o.wall < wall { assert (wall - o.wall) * o.speed > 0.0; }
  }

  /**
   * The conductor freezes a run at the instant its pass read, whatever was rewritten since. That never puts the clock
   * forward, and leaves it where it was if and only if the run stood still from the read to the write.
   */
  lemma RetireStepsBack(c: Config, readAt: real, es: seq<Timed>, wall: real)
    requires c.speed > 0.0 && Orderly(c, readAt, es)
    requires DriveAll(Odometer(NowAt(c, readAt), readAt, c.status, c.speed), es).wall <= wall
    ensures var before, after := ApplyAll(c, es), Retire(ApplyAll(c, es), NowAt(c, readAt));
            && NowAt(after, wall) == NowAt(c, readAt) <= NowAt(before, wall)
            && (NowAt(after, wall) == NowAt(before, wall)
                <==> StoodStill(Odometer(NowAt(c, readAt), readAt, c.status, c.speed), es, wall))
  {
    hide ApplyAll, DriveAll, Drive, StoodStill, Orderly;
    var o := Odometer(NowAt(c, readAt), readAt, c.status, c.speed);
    AgreeAll(c, o, es);
    StillnessDecides(c, o, es, wall);
    AgreedReading(ApplyAll(c, es), DriveAll(o, es), wall);
  }

  lemma AgreedReading(c: Config, o: Odometer, wall: real)
    requires Agree(c, o) && o.wall <= wall
    ensures NowAt(c, wall) == Drive(o, wall).reading
  {
    RunsForward(c, o.wall, wall);
  }
}
