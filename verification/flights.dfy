/**
 * The programmatic camera flights of scene-boilerplate.js: the `autoZoom`
 * record (3000 ms) and the click-to-focus `cameraTransition` record (1500 ms).
 * Both have the same shape: a start time, a duration, and start/end values for
 * the camera position and for the orbit-controls target. While a flight is
 * active, each frame places camera and target on their segments at the
 * cubic ease-out of the elapsed fraction, and the flight switches itself off
 * once that eased progress reaches 1. Times are `performance.now()` values in
 * milliseconds, handed in by the caller.
 */
module Flights {
  import opened Geometry

  datatype Flight = Flight(
    active: bool,
    startTime: real,
    duration: real,
    startPos: Vec3,
    endPos: Vec3,
    startTarget: Vec3,
    endTarget: Vec3)

  /** The record as declared at module load: inactive, all vectors zero. */
  function Idle(duration: real): Flight {
    Flight(false, 0.0, duration, Origin, Origin, Origin, Origin)
  }

  /** Field-by-field (re)start of a flight; the duration is kept, an active flight is overwritten. */
  function Begin(f: Flight, now: real, camera: Vec3, target: Vec3, endPos: Vec3, endTarget: Vec3): Flight {
    f.(active := true, startTime := now, startPos := camera, startTarget := target,
       endPos := endPos, endTarget := endTarget)
  }

  /** `Math.min(elapsedTime / duration, 1.0)`. */
  function Progress(f: Flight, now: real): (p: real)
    requires f.duration > 0.0
    ensures p <= 1.0
    ensures f.startTime <= now ==> 0.0 <= p
    ensures p == 1.0 <==> now - f.startTime >= f.duration
  {
    var r := (now - f.startTime) / f.duration;
    assert r * f.duration == now - f.startTime;
    assert r >= 1.0 <==> now - f.startTime >= f.duration by {
      if r >= 1.0 { assert r * f.duration >= 1.0 * f.duration; }
      else { assert r * f.duration < 1.0 * f.duration; }
    }
    if r < 1.0 then r else 1.0
  }

  function Cube(q: real): real {
    q * q * q
  }

  /** For q in [0,1]: 0 <= q^3 <= q, and q^3 vanishes only at 0. */
  lemma CubeInUnit(q: real)
    requires 0.0 <= q <= 1.0
    ensures 0.0 <= Cube(q) <= q
    ensures Cube(q) == 0.0 <==> q == 0.0
  {
    assert 0.0 <= q * q <= q by { assert q * q <= q * 1.0; }
    assert q * q * q <= q * q by { assert (q * q) * q <= (q * q) * 1.0; }
    if q > 0.0 {
      assert q * q > 0.0;
      assert q * q * q > 0.0;
    }
  }

  /** The cube is monotone on non-negative reals. */
  lemma CubeMonotone(a: real, b: real)
    requires 0.0 <= a <= b
    ensures Cube(a) <= Cube(b)
  {
    assert a * a <= b * b by { assert a * a <= a * b <= b * b; }
    assert a * a * a <= b * b * b by { assert (a * a) * a <= (b * b) * a <= (b * b) * b; }
  }

  /** Cubic ease-out: `1 - Math.pow(1 - progress, 3)`. */
  function Ease(p: real): (e: real)
    ensures 0.0 <= p <= 1.0 ==> 0.0 <= e <= 1.0
    ensures 0.0 <= p <= 1.0 ==> (e >= 1.0 <==> p == 1.0)
  {
    if 0.0 <= p <= 1.0 then
      CubeInUnit(1.0 - p);
      1.0 - Cube(1.0 - p)
    else
      1.0 - Cube(1.0 - p)
  }

  /** Ease-out runs ahead of linear progress: the flight decelerates into place. */
  lemma EaseAhead(p: real)
    requires 0.0 <= p <= 1.0
    ensures p <= Ease(p)
  {
    CubeInUnit(1.0 - p);
  }

  /** Ease-out never moves backwards as time advances. */
  lemma EaseMonotone(p: real, q: real)
    requires 0.0 <= p <= q <= 1.0
    ensures Ease(p) <= Ease(q)
  {
    CubeMonotone(1.0 - q, 1.0 - p);
  }

  datatype StepResult = StepResult(camera: Vec3, target: Vec3, flight: Flight)

  /**
   * One frame of an active flight: camera and target on their segments at the
   * eased progress; `active` cleared once the eased progress is at least 1.
   */
  function Step(f: Flight, now: real): StepResult
    requires f.duration > 0.0
  {
    var e := Ease(Progress(f, now));
    StepResult(Lerp(f.startPos, f.endPos, e), Lerp(f.startTarget, f.endTarget, e),
               f.(active := !(e >= 1.0)))
  }

  /** Once the duration has elapsed the flight lands exactly on its end values and deactivates. */
  lemma {:induction false} Arrives(f: Flight, now: real)
    requires f.duration > 0.0
    requires now - f.startTime >= f.duration
    ensures Step(f, now) == StepResult(f.endPos, f.endTarget, f.(active := false))
  {
    assert Progress(f, now) == 1.0;
    LerpEnds(f.startPos, f.endPos);
    LerpEnds(f.startTarget, f.endTarget);
  }

  /** Before the duration has elapsed the flight stays active. */
  lemma {:induction false} StillFlying(f: Flight, now: real)
    requires f.duration > 0.0
    requires f.active
    requires f.startTime <= now < f.startTime + f.duration
    ensures Step(f, now).flight.active
    ensures Step(f, now).flight == f
  {
    assert Progress(f, now) < 1.0;
  }

  /** A step changes nothing in the record but `active`. */
  lemma StepKeepsPlan(f: Flight, now: real)
    requires f.duration > 0.0
    ensures Step(f, now).flight == f.(active := Step(f, now).flight.active)
  {
  }
}
