/** The flight scene's module-level state and the functions that change it:
    start-up, the key handlers, the per-frame updates of the airplane, the
    camera and the cloud field, and the frame that runs them in order. */
module Scene {
  import opened Vectors
  import opened Clouds
  import opened Flight

  /** The keys the handlers tell apart; every other key is `OtherKey`. */
  datatype Key = ArrowLeft | ArrowRight | ArrowUp | OtherKey

  /** Where the camera is placed when it is created. */
  const InitialCameraPosition: Vec3 := Vec3(0.0, 7.0, -15.0)

  /** The loaded airplane model, reduced to what the script moves: its
      position and its rotation about the vertical axis. */
  class Airplane {
    var position: Vec3
    var rotationY: real

    /** The loader puts the model at the origin, unrotated. */
    constructor ()
      ensures position == Origin && rotationY == 0.0
    {
      position := Origin;
      rotationY := 0.0;
    }
  }

  /** The clouds from index `start` on are a ring around `center`, placed by
      the draws in order. */
  ghost predicate RingFrom(cs: seq<Cloud>, start: int, center: Vec3, draws: seq<Draw>) {
    0 <= start <= |cs| && |cs| - start <= |draws| &&
    forall j :: start <= j < |cs| ==> cs[j].position == RingPosition(center, draws[j - start])
  }

  /** The script's module-level state. `airplane` is null until the model has
      loaded; every frame update that needs it does nothing until then. */
  class FlightScene {
    var airplane: Airplane?
    var cameraPosition: Vec3
    var clouds: seq<Cloud>
    var lastSpawnPosition: Vec3
    var targetRotationY: real
    var currentSpeed: real

    /** The speed is never interpolated: it is one of the two constants. */
    ghost predicate Valid()
      reads this
    {
      currentSpeed == BaseSpeed || currentSpeed == BoostSpeed
    }

    /** Start-up: the camera at its initial position, no airplane yet, and the
        sky populated with the initial scatter (20 clouds within 300 of the
        origin) followed by one ring (35 clouds between 300 and 400). */
    constructor (initialDraws: seq<Draw>, ringDraws: seq<Draw>)
      requires |initialDraws| == InitialCloudCount && AllValid(initialDraws)
      requires |ringDraws| == CloudDensity && AllValid(ringDraws)
      ensures Valid()
      ensures airplane == null && cameraPosition == InitialCameraPosition
      ensures lastSpawnPosition == Origin && targetRotationY == 0.0 && currentSpeed == BaseSpeed
      ensures |clouds| == InitialCloudCount + CloudDensity
      ensures forall k :: 0 <= k < InitialCloudCount ==>
                clouds[k].position == DiscPosition(Origin, initialDraws[k], MinSpawnDist) &&
                InInitialDisc(clouds[k].position, Origin)
      ensures forall j :: InitialCloudCount <= j < |clouds| ==>
                clouds[j].position == RingPosition(Origin, ringDraws[j - InitialCloudCount]) &&
                InRing(clouds[j].position, Origin)
      ensures forall k :: 0 <= k < |clouds| ==> fresh(clouds[k]) && clouds[k].visible
    {
      airplane := null;
      cameraPosition := InitialCameraPosition;
      clouds := [];
      lastSpawnPosition := Origin;
      targetRotationY := 0.0;
      currentSpeed := BaseSpeed;
      new;
      SpawnInitialClouds(Origin, InitialCloudCount, MinSpawnDist, initialDraws);
      SpawnCloudsInRing(Origin, CloudDensity, ringDraws);
      forall k | 0 <= k < InitialCloudCount
        ensures InInitialDisc(clouds[k].position, Origin)
      {
        InitialPositionInDisc(Origin, initialDraws[k]);
      }
    }

    /** The model loader's completion: the airplane appears at the origin. */
    method OnAirplaneLoaded()
      modifies this`airplane
      ensures airplane != null && fresh(airplane)
      ensures airplane.position == Origin && airplane.rotationY == 0.0
    {
      airplane := new Airplane();
    }

    /** Appends `count` new clouds scattered over the disc of `radius` around
        `center`, one per draw, leaving the existing clouds as they were. */
    method SpawnInitialClouds(center: Vec3, count: nat, radius: real, draws: seq<Draw>)
      requires |draws| == count && AllValid(draws)
      modifies this`clouds
      ensures |clouds| == |old(clouds)| + count
      ensures clouds[..|old(clouds)|] == old(clouds)
      ensures forall j :: |old(clouds)| <= j < |clouds| ==>
                fresh(clouds[j]) && clouds[j].visible &&
                clouds[j].position == DiscPosition(center, draws[j - |old(clouds)|], radius)
    {
      var start := |clouds|;
      var i := 0;
      while i < count
        invariant 0 <= i <= count
        invariant |clouds| == start + i
        invariant clouds[..start] == old(clouds)
        invariant forall j :: start <= j < |clouds| ==>
                    fresh(clouds[j]) && clouds[j].visible &&
                    clouds[j].position == DiscPosition(center, draws[j - start], radius)
      {
        var cloud := new Cloud(DiscPosition(center, draws[i], radius));
        clouds := clouds + [cloud];
        i := i + 1;
      }
    }

    /** Appends `count` new clouds in the spawn ring around `center`, one per
        draw, leaving the existing clouds as they were. */
    method SpawnCloudsInRing(center: Vec3, count: nat, draws: seq<Draw>)
      requires |draws| == count && AllValid(draws)
      modifies this`clouds
      ensures |clouds| == |old(clouds)| + count
      ensures clouds[..|old(clouds)|] == old(clouds)
      ensures forall j :: |old(clouds)| <= j < |clouds| ==>
                fresh(clouds[j]) && clouds[j].visible &&
                clouds[j].position == RingPosition(center, draws[j - |old(clouds)|]) &&
                InRing(clouds[j].position, center)
    {
      var start := |clouds|;
      var i := 0;
      while i < count
        invariant 0 <= i <= count
        invariant |clouds| == start + i
        invariant clouds[..start] == old(clouds)
        invariant forall j :: start <= j < |clouds| ==>
                    fresh(clouds[j]) && clouds[j].visible &&
                    clouds[j].position == RingPosition(center, draws[j - start]) &&
                    InRing(clouds[j].position, center)
      {
        RingPositionInRing(center, draws[i]);
        var cloud := new Cloud(RingPosition(center, draws[i]));
        clouds := clouds + [cloud];
        i := i + 1;
      }
    }

    /** The backward removal pass: walks the list from its end and removes,
        in place, every cloud farther than the despawn distance from the plane,
        so that exactly the clouds within it remain, in their order. */
    method Despawn(plane: Vec3)
      modifies this`clouds
      ensures clouds == Keep(old(clouds), plane)
      ensures forall c :: c in clouds ==> c in old(clouds)
    {
      ghost var original := clouds;
      var cs := clouds;
      var i := |cs| - 1;
      while i >= 0
        invariant -1 <= i < |original|
        invariant cs == original[..i + 1] + Keep(original[i + 1..], plane)
        decreases i
      {
        KeepStep(original, i, plane, cs);
        if !WithinDespawn(cs[i].position, plane) {
          cs := cs[..i] + cs[i + 1..];
        }
        i := i - 1;
      }
      assert original[0..] == original;
      clouds := cs;
      KeepOnlyRemoves(original, plane);
    }

    /** The spawn half of cloud management: if the plane is more than the
        threshold away from the last spawn point, one ring is appended around
        the plane, in draw order, and the plane becomes the last spawn point;
        otherwise nothing changes. */
    method SpawnIfDue(plane: Vec3, draws: seq<Draw>)
      requires |draws| == CloudDensity && AllValid(draws)
      modifies this`clouds, this`lastSpawnPosition
      ensures |old(clouds)| <= |clouds| <= |old(clouds)| + CloudDensity && clouds[..|old(clouds)|] == old(clouds)
      ensures forall c :: c in clouds ==> c in old(clouds) || fresh(c)
      ensures ShouldSpawn(plane, old(lastSpawnPosition)) ==>
                |clouds| == |old(clouds)| + CloudDensity && lastSpawnPosition == plane &&
                forall j :: |old(clouds)| <= j < |clouds| ==> fresh(clouds[j]) && clouds[j].visible
      ensures !ShouldSpawn(plane, old(lastSpawnPosition)) ==>
                clouds == old(clouds) && lastSpawnPosition == old(lastSpawnPosition)
      ensures RingFrom(clouds, |old(clouds)|, plane, draws)
    {
      if ShouldSpawn(plane, lastSpawnPosition) {
        SpawnCloudsInRing(plane, CloudDensity, draws);
        lastSpawnPosition := plane;
      }
    }

    /** Despawn, then maybe spawn. The removal pass leaves exactly the clouds
        within the despawn distance of the plane, in their order; then, if the
        plane is more than the threshold away from the last spawn point, one
        ring is appended around the plane and the plane becomes the last spawn
        point. Either way a repeated call at the same plane position spawns
        nothing. */
    method ManageClouds(draws: seq<Draw>)
      requires |draws| == CloudDensity && AllValid(draws)
      modifies this`clouds, this`lastSpawnPosition
      ensures airplane == old(airplane)
      ensures airplane != null ==>
                airplane.position == old(airplane.position) && airplane.rotationY == old(airplane.rotationY)
      ensures forall c :: c in clouds ==> c in old(clouds) || fresh(c)
      ensures airplane == null ==> clouds == old(clouds) && lastSpawnPosition == old(lastSpawnPosition)
      ensures airplane != null ==>
                var kept := Keep(old(clouds), airplane.position);
                |kept| <= |clouds| <= |kept| + CloudDensity && clouds[..|kept|] == kept
      ensures airplane != null && ShouldSpawn(airplane.position, old(lastSpawnPosition)) ==>
                var kept := Keep(old(clouds), airplane.position);
                |clouds| == |kept| + CloudDensity && lastSpawnPosition == airplane.position &&
                forall j :: |kept| <= j < |clouds| ==> fresh(clouds[j]) && clouds[j].visible
      ensures airplane != null && !ShouldSpawn(airplane.position, old(lastSpawnPosition)) ==>
                clouds == Keep(old(clouds), airplane.position) && lastSpawnPosition == old(lastSpawnPosition)
      ensures airplane != null ==> RingFrom(clouds, |Keep(old(clouds), airplane.position)|, airplane.position, draws)
      ensures airplane != null ==> !ShouldSpawn(airplane.position, lastSpawnPosition)
    {
      if airplane == null {
        return;
      }
      var plane := airplane.position;
      Despawn(plane);
      SpawnIfDue(plane, draws);
    }

    /** Sets every cloud's visibility to whether it is within the cull radius
        of the camera; nothing else changes. */
    method CustomCulling(cameraWorld: Vec3)
      modifies set c | c in clouds
      ensures clouds == old(clouds) && lastSpawnPosition == old(lastSpawnPosition)
      ensures cameraPosition == old(cameraPosition)
      ensures airplane == old(airplane)
      ensures airplane != null ==>
                airplane.position == old(airplane.position) && airplane.rotationY == old(airplane.rotationY)
      ensures forall k :: 0 <= k < |clouds| ==> clouds[k].visible == InView(clouds[k].position, cameraWorld)
    {
      for i := 0 to |clouds|
        invariant forall k :: 0 <= k < i ==> clouds[k].visible == InView(clouds[k].position, cameraWorld)
      {
        var cloud := clouds[i];
        cloud.visible := InView(cloud.position, cameraWorld);
      }
    }

    /** Moves the airplane `currentSpeed` along its facing direction and
        smooths its heading towards the target; nothing without an airplane. */
    method UpdateAirplane(direction: Vec3)
      modifies airplane
      ensures airplane != null ==>
                airplane.position == Step(old(airplane.position), direction, currentSpeed) &&
                airplane.rotationY == NextHeading(old(airplane.rotationY), targetRotationY)
    {
      if airplane == null {
        return;
      }
      airplane.position := Step(airplane.position, direction, currentSpeed);
      airplane.rotationY := NextHeading(airplane.rotationY, targetRotationY);
    }

    /** Moves the camera 3% of the way to the airplane's position plus the
        rotated offset; nothing without an airplane. */
    method UpdateCamera(rotatedOffset: Vec3)
      modifies this`cameraPosition
      ensures airplane == null ==> cameraPosition == old(cameraPosition)
      ensures airplane != null ==>
                cameraPosition == NextCameraPosition(old(cameraPosition), DesiredCameraPosition(airplane.position, rotatedOffset))
    {
      if airplane == null {
        return;
      }
      cameraPosition := NextCameraPosition(cameraPosition, DesiredCameraPosition(airplane.position, rotatedOffset));
    }

    /** Key press: once the airplane is there, the left and right arrows turn
        the target heading by one step and the up arrow boosts. */
    method KeyDown(key: Key)
      requires Valid()
      modifies this`targetRotationY, this`currentSpeed
      ensures Valid()
      ensures airplane == null ==> targetRotationY == old(targetRotationY) && currentSpeed == old(currentSpeed)
      ensures airplane != null ==>
                targetRotationY == old(targetRotationY) + (match key
                                                            case ArrowLeft => TurnStep
                                                            case ArrowRight => -TurnStep
                                                            case _ => 0.0) &&
                currentSpeed == (if key == ArrowUp then BoostSpeed else old(currentSpeed))
    {
      if airplane == null {
        return;
      }
      match key {
        case ArrowLeft => targetRotationY := targetRotationY + TurnStep;
        case ArrowRight => targetRotationY := targetRotationY - TurnStep;
        case ArrowUp => currentSpeed := BoostSpeed;
        case OtherKey =>
      }
    }

    /** Key release: releasing the up arrow returns to the base speed, whether
        or not the airplane is there. */
    method KeyUp(key: Key)
      requires Valid()
      modifies this`currentSpeed
      ensures Valid()
      ensures currentSpeed == if key == ArrowUp then BaseSpeed else old(currentSpeed)
    {
      if key == ArrowUp {
        currentSpeed := BaseSpeed;
      }
    }

    /** The cloud half of a frame: manage the field around the airplane, then
        cull it against the camera. */
    method UpdateClouds(draws: seq<Draw>)
      requires |draws| == CloudDensity && AllValid(draws)
      modifies this`clouds, this`lastSpawnPosition, set c | c in clouds
      ensures airplane == old(airplane) && cameraPosition == old(cameraPosition)
      ensures airplane != null ==>
                airplane.position == old(airplane.position) && airplane.rotationY == old(airplane.rotationY)
      ensures forall c :: c in clouds ==> c in old(clouds) || fresh(c)
      ensures forall k :: 0 <= k < |clouds| ==> clouds[k].visible == InView(clouds[k].position, cameraPosition)
      ensures airplane == null ==> clouds == old(clouds) && lastSpawnPosition == old(lastSpawnPosition)
      ensures airplane != null ==>
                var kept := Keep(old(clouds), airplane.position);
                |kept| <= |clouds| <= |kept| + CloudDensity && clouds[..|kept|] == kept
      ensures airplane != null && ShouldSpawn(airplane.position, old(lastSpawnPosition)) ==>
                |clouds| == |Keep(old(clouds), airplane.position)| + CloudDensity &&
                lastSpawnPosition == airplane.position
      ensures airplane != null ==>
                forall j :: |Keep(old(clouds), airplane.position)| <= j < |clouds| ==> fresh(clouds[j])
      ensures airplane != null && !ShouldSpawn(airplane.position, old(lastSpawnPosition)) ==>
                clouds == Keep(old(clouds), airplane.position) && lastSpawnPosition == old(lastSpawnPosition)
      ensures airplane != null ==> RingFrom(clouds, |Keep(old(clouds), airplane.position)|, airplane.position, draws)
      ensures airplane != null ==> !ShouldSpawn(airplane.position, lastSpawnPosition)
    {
      ManageClouds(draws);
      ghost var managed := clouds;
      ghost var spawnPoint := lastSpawnPosition;
      CustomCulling(cameraPosition);
      assert clouds == managed && lastSpawnPosition == spawnPoint;
    }

    /** One animation frame, in the script's order: airplane, camera, cloud
        management, culling against the camera's updated position. The frame's
        elapsed time only drives the propeller animation, which is not part of
        this model: the distance flown per frame does not depend on it. */
    method Animate(deltaTime: real, direction: Vec3, rotatedOffset: Vec3, draws: seq<Draw>)
      requires Valid()
      requires |draws| == CloudDensity && AllValid(draws)
      modifies this`cameraPosition, this`clouds, this`lastSpawnPosition, airplane, set c | c in clouds
      ensures Valid()
      ensures forall c :: c in clouds ==> c in old(clouds) || fresh(c)
      ensures forall k :: 0 <= k < |clouds| ==> clouds[k].visible == InView(clouds[k].position, cameraPosition)
      ensures airplane == null ==>
                cameraPosition == old(cameraPosition) && clouds == old(clouds) &&
                lastSpawnPosition == old(lastSpawnPosition)
      ensures airplane != null ==>
                airplane.position == Step(old(airplane.position), direction, currentSpeed) &&
                airplane.rotationY == NextHeading(old(airplane.rotationY), targetRotationY) &&
                cameraPosition == NextCameraPosition(old(cameraPosition), DesiredCameraPosition(airplane.position, rotatedOffset))
      ensures airplane != null ==>
                var kept := Keep(old(clouds), airplane.position);
                |kept| <= |clouds| <= |kept| + CloudDensity && clouds[..|kept|] == kept
      ensures airplane != null && ShouldSpawn(airplane.position, old(lastSpawnPosition)) ==>
                |clouds| == |Keep(old(clouds), airplane.position)| + CloudDensity &&
                lastSpawnPosition == airplane.position
      ensures airplane != null ==>
                forall j :: |Keep(old(clouds), airplane.position)| <= j < |clouds| ==> fresh(clouds[j])
      ensures airplane != null && !ShouldSpawn(airplane.position, old(lastSpawnPosition)) ==>
                clouds == Keep(old(clouds), airplane.position) && lastSpawnPosition == old(lastSpawnPosition)
      ensures airplane != null ==> RingFrom(clouds, |Keep(old(clouds), airplane.position)|, airplane.position, draws)
      ensures airplane != null ==> !ShouldSpawn(airplane.position, lastSpawnPosition)
    {
      UpdateAirplane(direction);
      assert clouds == old(clouds) && lastSpawnPosition == old(lastSpawnPosition);
      UpdateCamera(rotatedOffset);
      assert clouds == old(clouds) && lastSpawnPosition == old(lastSpawnPosition);
      if airplane != null {
        ghost var p := airplane.position;
        UpdateClouds(draws);
        assert airplane.position == p;
      } else {
        UpdateClouds(draws);
      }
    }
  }
}
