/** The airplane's motion and the trailing camera: constants, and the
    per-frame arithmetic the update functions perform. */
module Flight {
  import opened Vectors

  /** Forward displacement per frame when cruising. */
  const BaseSpeed: real := 0.1
  /** Forward displacement per frame while the boost key is held. */
  const BoostSpeed: real := 0.2
  /** Change of the target heading per arrow-key press. */
  const TurnStep: real := 0.05
  /** Fraction of the remaining heading error closed each frame. */
  const HeadingFactor: real := 0.1
  /** Fraction of the remaining camera distance closed each frame. */
  const CameraFactor: real := 0.03
  /** The camera's offset from the airplane, in the airplane's own frame. */
  const CameraOffset: Vec3 := Vec3(0.0, 7.0, -15.0)

  /** One frame of heading smoothing: a lerp from the heading towards the
      target by the heading factor. The remaining error shrinks to 90% and the
      new heading lies between the old one and the target. */
  function NextHeading(heading: real, target: real): (h: real)
    ensures target - h == (1.0 - HeadingFactor) * (target - heading)
    ensures heading <= target ==> heading <= h <= target
    ensures target <= heading ==> target <= h <= heading
  {
    Lerp(heading, target, HeadingFactor)
  }

  /** The heading after `frames` frames of smoothing towards a fixed target. */
  function HeadingAfter(heading: real, target: real, frames: nat): real
    decreases frames
  {
    if frames == 0 then heading
    else HeadingAfter(NextHeading(heading, target), target, frames - 1)
  }

  function Pow(b: real, n: nat): real
    decreases n
  {
    if n == 0 then 1.0 else b * Pow(b, n - 1)
  }

  /** Closed form of repeated smoothing: after N frames the heading is
      H + (T - H)(1 - 0.9^N). */
  lemma {:induction false} HeadingAfterClosedForm(heading: real, target: real, frames: nat)
    ensures HeadingAfter(heading, target, frames) ==
            heading + (target - heading) * (1.0 - Pow(1.0 - HeadingFactor, frames))
    decreases frames
  {
    if frames > 0 {
      var next := NextHeading(heading, target);
      var rest := Pow(1.0 - HeadingFactor, frames - 1);
      var after := HeadingAfter(next, target, frames - 1);
      HeadingAfterClosedForm(next, target, frames - 1);
      assert after == next + (target - next) * (1.0 - rest);
      ClosedFormStep(heading, target, next, rest, HeadingAfter(next, target, frames - 1));
      assert Pow(1.0 - HeadingFactor, frames) == 0.9 * rest;
    }
  }

  /** The arithmetic of one induction step of the closed form. */
  lemma ClosedFormStep(heading: real, target: real, next: real, rest: real, after: real)
    requires target - next == 0.9 * (target - heading)
    requires after == next + (target - next) * (1.0 - rest)
    ensures after == heading + (target - heading) * (1.0 - 0.9 * rest)
  {
    calc {
      after;
      target - (target - next) * rest;
      target - (0.9 * (target - heading)) * rest;
      heading + (target - heading) * (1.0 - 0.9 * rest);
    }
  }

  /** However many frames pass, the heading stays between where it started
      and the target: the smoothing never overshoots. */
  lemma {:induction false} HeadingAfterBetween(heading: real, target: real, frames: nat)
    ensures heading <= target ==> heading <= HeadingAfter(heading, target, frames) <= target
    ensures target <= heading ==> target <= HeadingAfter(heading, target, frames) <= heading
    decreases frames
  {
    if frames > 0 {
      HeadingAfterBetween(NextHeading(heading, target), target, frames - 1);
    }
  }

  /** With no input, a heading that has reached its target stays there. */
  lemma HeadingAtTargetStays(target: real, frames: nat)
    ensures HeadingAfter(target, target, frames) == target
  {
    HeadingAfterBetween(target, target, frames);
  }

  /** One frame of forward motion: `speed` along the facing direction. The
      frame's elapsed time plays no part. */
  function Step(position: Vec3, direction: Vec3, speed: real): Vec3 {
    Add(position, Scale(direction, speed))
  }

  /** Along a unit facing direction, one frame moves the airplane exactly
      `speed` (its squared length is speed * speed). */
  lemma StepLength(position: Vec3, direction: Vec3, speed: real)
    requires Dot(direction, direction) == 1.0
    ensures DistSq(Step(position, direction, speed), position) == speed * speed
  {
    var p := Step(position, direction, speed);
    assert p.x - position.x == direction.x * speed;
    assert p.y - position.y == direction.y * speed;
    assert p.z - position.z == direction.z * speed;
    calc {
      DistSq(p, position);
      (direction.x * speed) * (direction.x * speed) + (direction.y * speed) * (direction.y * speed)
        + (direction.z * speed) * (direction.z * speed);
      Dot(direction, direction) * (speed * speed);
    }
  }

  /** Where the camera wants to be: the airplane's position plus the camera
      offset already rotated into the airplane's orientation. */
  function DesiredCameraPosition(plane: Vec3, rotatedOffset: Vec3): Vec3 {
    Add(plane, rotatedOffset)
  }

  /** The offset is only rotated, which keeps its length, so the desired
      camera position always lies at squared distance 7 * 7 + 15 * 15 = 274
      from the airplane, whatever its orientation. */
  lemma DesiredCameraDistance(plane: Vec3, rotatedOffset: Vec3)
    requires Dot(rotatedOffset, rotatedOffset) == Dot(CameraOffset, CameraOffset)
    ensures DistSq(DesiredCameraPosition(plane, rotatedOffset), plane) == 274.0
  {
    var desired := DesiredCameraPosition(plane, rotatedOffset);
    assert Sub(desired, plane) == rotatedOffset;
    assert Dot(CameraOffset, CameraOffset) == 0.0 * 0.0 + 7.0 * 7.0 + (-15.0) * (-15.0);
  }

  /** One frame of camera smoothing towards the desired position. */
  function NextCameraPosition(camera: Vec3, desired: Vec3): Vec3 {
    LerpVec(camera, desired, CameraFactor)
  }

  /** The camera moves 3% of the way to the desired position and stays on the
      segment between them: it covers 0.03 of the distance and 0.97 of it
      remains, so it never overshoots. */
  lemma CameraFollows(camera: Vec3, desired: Vec3)
    ensures DistSq(camera, NextCameraPosition(camera, desired)) == 0.0009 * DistSq(camera, desired)
    ensures DistSq(NextCameraPosition(camera, desired), desired) == 0.9409 * DistSq(camera, desired)
  {
    LerpVecOnSegment(camera, desired, CameraFactor);
  }
}
