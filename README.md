# Airplane flight scene: cloud field and flight controls

A browser scene in which an airplane flies through a sky of cloud groups
while a camera trails it. This project models the bookkeeping in
`src/script.js` that sits around the rendering library:

- the **cloud field**: a list of cloud objects, each with a fixed position
  and a `visible` flag, plus the last spawn point. Every frame, once the
  airplane has loaded, a backward removal pass (`splice` by index) drops the
  clouds farther than 400 from the plane. If the plane has moved more than
  100 from the last spawn point, a ring of 35 clouds is then added between
  300 and 400 around it. Finally each
  cloud is shown only when it is within 200 of the camera. At start-up 20
  clouds are scattered within 300 of the origin and one ring of 35 is added;
- the **controls**: the arrow keys nudge the target heading by ±0.05, and
  holding the up arrow switches the per-frame speed from 0.1 to 0.2;
- the **per-frame smoothing**: the heading closes 10% of its gap to the target
  each frame, and the camera closes 3% of its gap to the desired position.
  The airplane moves `currentSpeed` per frame, whatever the frame time.

Modules:

- `Vectors` (`vectors.dfy`) holds triples of reals, squared distances, and the
  two interpolations the script calls.
- `Clouds` (`clouds.dfy`) holds the `Cloud` class, the random draws, where
  the spawners put clouds, and the despawn filter `Keep` with its properties.
- `Flight` (`flight.dfy`) holds the speed and smoothing constants, the heading,
  step and camera arithmetic, and its properties.
- `Scene` (`scene.dfy`) holds the `FlightScene` class, which carries the
  script's module-level variables. Its methods are the script's functions,
  and they change that state in place.

Distances are compared squared against squared thresholds. This is
equivalent because every threshold is non-negative. Randomness enters as
`Draw` values: the cosine and sine of the drawn angle, which lie on the unit
circle, and two uniform values in [0, 1).

One might expect every live cloud to be within 400 of the plane after any
management call, and a second call at the same position to remove nothing.
In the code, this holds only right after the removal pass. A ring cloud is
placed by its horizontal distance (below 400) plus a height offset of up to
±25, so it can lie beyond 400 in three dimensions
(`RingCloudMayLieBeyondDespawn` exhibits such a draw). The next removal pass
measures from the plane's new position, so it removes such a cloud unless the
plane has come back within 400 of it. What does hold is that a second removal
pass around the same position removes nothing that the first one kept
(`KeepIdempotent`), and that a second call at the same position spawns no
ring.

## Model

| member | source | states |
|---|---|---|
| `Vectors.DistSq` | src/script.js:135 | The squared distance that stands for `distanceTo` is non-negative, and it is zero between equal points. |
| `Vectors.DistSqIsDot` | src/script.js:135 | For every pair of points, equal ones included, the squared distance is the squared length of their difference. |
| `Vectors.LerpVecOnSegment` | src/script.js:120 | The vector lerp with factor t covers t of the distance to the target, and (1 - t) of it remains, in squared terms. So the result lies on the line through both points, and on the segment between them when 0 <= t <= 1. |
| `Clouds.Cloud.constructor` | src/script.js:142-173 | A new cloud has the given position and is visible. |
| `Clouds.RingPositionInRing` | src/script.js:197-208 | A ring-spawned cloud lies at horizontal distance in [300, 400) from the centre. Its height is in [y - 25, y + 25). |
| `Clouds.DiscPositionInDisc` | src/script.js:180-186 | An initially scattered cloud lies at horizontal distance abs(radial * radius). This is at most abs(radius), and strictly less unless the radius is 0. Its height is in [y - 25, y + 25). |
| `Clouds.InitialPositionInDisc` | src/script.js:62 | With the radius that setup passes (300), the initial clouds lie strictly inside the disc of radius 300. |
| `Clouds.RingCloudMayLieBeyondDespawn` | src/script.js:204-206 | Some valid draw puts a ring cloud inside the annulus but farther than 400 from the centre in 3D. |
| `Clouds.SpawnTriggerIsStrict` | src/script.js:231-232 | Wherever the last spawn point is, a plane 150 away from it triggers a ring. A plane exactly 100 away does not. |
| `Clouds.Keep` | src/script.js:222-228 | The removal pass never lengthens the list. |
| `Clouds.KeepMembership` | src/script.js:222-228 | The clouds the removal pass keeps are exactly the clouds of the list within 400 of the plane, in both directions of membership. |
| `Clouds.KeepIsSubsequence` | src/script.js:222-228 | The survivors keep their original relative order: they form a subsequence of the list. |
| `Clouds.KeepMultiplicity` | src/script.js:222-228 | Every occurrence of a cloud within 400 survives, and no occurrence of a cloud beyond 400 does. |
| `Clouds.KeepAppend` | src/script.js:222-228 | Filtering a concatenation filters each part and concatenates the results. |
| `Clouds.KeepIdempotent` | src/script.js:222-228 | A second removal pass around the same plane position removes nothing. |
| `Flight.NextHeading` | src/script.js:101-105 | The new heading lies between the old heading and the target. The remaining gap shrinks to 90%, so a heading at its target stays there. |
| `Flight.HeadingAfterClosedForm` | src/script.js:101-105 | After N frames towards a fixed target T from heading H, the heading is H + (T - H)(1 - 0.9^N). |
| `Flight.HeadingAfterBetween` | src/script.js:101-105 | However many frames pass, the heading stays between its start and the target. It never overshoots. |
| `Flight.HeadingAtTargetStays` | src/script.js:101-105 | With no input, a heading equal to its target stays unchanged for any number of frames. |
| `Flight.StepLength` | src/script.js:96-98 | Along a unit facing direction, one frame moves the airplane exactly `currentSpeed`, in squared terms. |
| `Flight.CameraFollows` | src/script.js:116-120 | The camera covers 3% of the way to its desired position, and 97% remains (0.0009 and 0.9409 of the squared distance). It never overshoots. |
| `Flight.DesiredCameraDistance` | src/script.js:113-117 | The offset (0, 7, -15) is rotated, which keeps its length. So the camera's target always lies at squared distance 274 from the airplane. |
| `Scene.Airplane.constructor` | src/script.js:244-245 | The loaded airplane starts at the origin, unrotated. |
| `Scene.FlightScene.constructor` | src/script.js:35-64 | At start-up there is no airplane yet. The camera is at (0, 7, -15). The speed is 0.1, the target heading is 0, and the last spawn point is the origin. There are 55 fresh, visible clouds: first 20 inside the disc of radius 300, then 35 in the ring, all around the origin. |
| `Scene.FlightScene.OnAirplaneLoaded` | src/script.js:243-247 | The loader's completion installs a fresh airplane at the origin. |
| `Scene.FlightScene.SpawnInitialClouds` | src/script.js:176-190 | Exactly `count` fresh, visible clouds are appended at their disc positions. The existing entries are untouched. |
| `Scene.FlightScene.SpawnCloudsInRing` | src/script.js:193-212 | Exactly `count` fresh, visible clouds are appended inside the ring. The existing entries are untouched. |
| `Scene.FlightScene.Despawn` | src/script.js:222-228 | The backward loop of in-place removals leaves exactly the filtered list: the clouds within 400 of the plane, in their original order. |
| `Scene.FlightScene.SpawnIfDue` | src/script.js:230-235 | If the plane is more than 100 from the last spawn point, exactly 35 fresh, visible clouds are appended at their ring positions around the plane, in draw order, and the plane becomes the last spawn point. Otherwise the list and the spawn point are unchanged. The existing entries are untouched. |
| `Scene.FlightScene.ManageClouds` | src/script.js:215-236 | Without an airplane, nothing changes. Otherwise the list starts with exactly the survivors of the removal pass. If the plane is more than 100 from the last spawn point, exactly 35 ring clouds follow and the plane becomes the last spawn point. Those 35 are fresh and visible, and lie at their ring positions around the plane, in draw order. If not, the list is the survivors and the spawn point is unchanged. Every cloud in the list was there before or is new. Either way, an immediate second call spawns nothing. |
| `Scene.FlightScene.CustomCulling` | src/script.js:127-139 | Every cloud's `visible` becomes exactly "within 200 of the camera". The list and the positions do not change. |
| `Scene.FlightScene.UpdateAirplane` | src/script.js:92-106 | With an airplane, it moves `currentSpeed` along the facing direction and its heading takes one smoothing step. There is no time parameter. Without an airplane, nothing changes. |
| `Scene.FlightScene.UpdateCamera` | src/script.js:109-124 | With an airplane, the camera takes one 3% step towards the airplane's position plus the rotated offset. Without one, it stays. |
| `Scene.FlightScene.KeyDown` | src/script.js:298-312 | Without an airplane, nothing changes. Otherwise left adds 0.05 to the target heading, right subtracts 0.05, up sets the speed to 0.2, and other keys change nothing. The speed stays 0.1 or 0.2. |
| `Scene.FlightScene.KeyUp` | src/script.js:314-318 | Releasing the up arrow sets the speed to 0.1 even without an airplane. Other keys change nothing. The speed stays 0.1 or 0.2. |
| `Scene.FlightScene.UpdateClouds` | src/script.js:83-85 | Managing the cloud field and then culling it leaves the survivors of the removal pass as a prefix of the list. If the plane is more than 100 from the last spawn point, exactly 35 new clouds follow, each fresh, at their ring positions around the plane in draw order, and the plane becomes the spawn point. If not, the list is exactly the survivors and the spawn point stays. Every cloud in the list was there before or is new. A second call spawns nothing. Every cloud is shown exactly when it is within 200 of the camera. The airplane and the camera do not move. |
| `Scene.FlightScene.Animate` | src/script.js:66-89 | One frame runs in the script's order. The airplane takes one step and one heading smoothing step. The camera takes one 3% step towards the moved airplane. The cloud field is managed around the moved airplane, with the same spawn branch, bound of 35 new clouds, freshness of every new cloud, and ring positions of the new clouds (around the moved airplane, in draw order) as `UpdateClouds`. Then it is culled against the camera's new position. The speed stays 0.1 or 0.2. The elapsed time is not used for motion. Without an airplane, only culling happens. |

## Left out

- Rendering and the scene graph are not modelled: the renderer, tone mapping, `scene.add`/`remove`, the perspective camera, `lookAt` and the projection update. They are library calls with no state this model tracks.
- Asset loading is not modelled, apart from placing the airplane at the origin (`OnAirplaneLoaded`). This covers the glTF and HDR loaders, the 0.5 scale, the environment texture and the animation mixer with its clip. These are asynchronous library I/O.
- The `requestAnimationFrame` loop and the clock are not modelled. `Animate` is one frame, and its `deltaTime` only fed the propeller animation, which is also left out.
- Facing direction and offset rotation are inputs: `getWorldDirection` and `applyQuaternion` are library rotation math. `StepLength` assumes that the direction has unit length, as the library returns it.
- Randomness, trigonometry and floating point are not modelled. `Math.random`, `Math.cos` and `Math.sin` become `Draw` parameters with their ranges, and arithmetic is exact over the reals.
- Cloud meshes are not modelled: the 10 spheres per cloud with offsets within ±5, ±2.5 and ±5, their material, and the disabled frustum culling. Only the group's position and visibility are modelled.
- Window resize handling is not modelled. It is DOM I/O.
- `CustomCulling` takes the camera's world position as a parameter. In the script it is read from the camera's world matrix, and `UpdateClouds` passes the camera's position. The matrix holds that position once the library has updated it, and a frame before its first update is not modelled.
- The `!camera` guard in `updateCamera` is not modelled, because the camera is created at start-up and is never removed.
- Only the direction "equal points have distance 0" of `DistSq` is stated.
- `ManageClouds` always takes 35 draws, even when no ring is spawned. The script draws random numbers only when it spawns.
