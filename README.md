# Spawn pool, frame sync, hover and environment cache of an interactive 3D scene

The scene is a browser demo built on a rendering engine and a physics engine.
Almost all of it is calls into those engines. This project models the three
pieces of logic the demo has of its own and proves what they guarantee.

- **Spawn pool.** While the mouse is held, the creation routine places a logo
  (a mesh paired with a physics body) at the pointer's world point. It accepts
  at most one attempt per 100 ms. Each created pair arms a 10 s timer, and
  every timer that fires drops the head of both queues. Modules `SpawnState`
  (the pool as a value, one function per step, the invariant `Valid`),
  `Spawner` (the class whose methods update the pool in place) and
  `SpawnTrace` (arbitrary interleavings of events, with logs of what was
  accepted, created and evicted).
- **Frame loop.** Each frame copies every body's pose onto the mesh at the
  same index. It then scans the pointer ray's hits for the tracked sphere:
  blue if hit, red otherwise, decided anew each frame. Modules `Hover` and
  `FrameLoop`.
- **Environment cache.** Loading the environment map first checks a texture
  cache. Only a miss reaches the loader. The success callback installs and
  caches the texture; the error callback only logs. Module `Environment`.

Conventions of the model:

- Time is the integer millisecond clock the creation routine reads.
- Mouse events, calls of the creation routine (at mousedown or from a
  scheduled frame callback), timer firings and frames are explicit calls.
- A timer fires only once armed and not before its deadline. Timers with
  equal delays fire in arming order, so a firing is always the oldest armed
  timer. The pool keeps the armed timers' deadlines as `timers`.
- A scheduled frame callback may call the creation routine at any moment of
  a run. This also covers several overlapping callback chains, which the page
  starts when the mouse is released and pressed again between two frames.
- Positions and quaternions are opaque integers. The model only copies them.
- Each spawned mesh and body carries a creation serial `id`. It stands in
  for the engines' object identities and lets FIFO order be stated.
- Whether the logo model has loaded is the `cached` input of the creation
  routine. The last pointer-plane intersection is its `point` input. The
  engine's new body poses and angular velocities are the input of a frame.

Behaviour of the code worth knowing:

- The 100 ms spacing is measured from the last *accepted* attempt. This
  includes an attempt made before the logo model had loaded, which created
  nothing: it still moves the clock and does not reschedule itself.
- The comparison is strict. An attempt exactly 100 ms after the last one is
  accepted. Holding the trigger over a 1050 ms span therefore allows at most
  11 accepted attempts.
- The cache does not guarantee one load per key. Two loading calls made before
  the first request completes both reach the loader
  (`Environment.OverlappingLoadsBothRequest`). The page calls it only once.
  What the code does guarantee is stability once the texture is cached and no
  request is in flight (`Environment.SettledCacheIsStable`).
- A pointer ray that misses the reference plane leaves the previous
  intersection point in place. The creation routine uses whatever point was
  computed last; it does not skip the spawn.
- In every reachable state the number of armed timers equals the pool size
  (`SpawnTrace.RunPreservesValid`). So the `length > 0` guards in the eviction
  timer always hold. The model still performs them.

## Model

| member | source | states |
|---|---|---|
| `SpawnState.AttemptWhileReleased` | src/index.js:348-349 | with the mouse up the creation routine changes nothing (pool, clock) and does not reschedule |
| `SpawnState.AttemptRateLimit` | src/index.js:351-355 | with the mouse held, an attempt is throttled iff it comes less than 100 ms after the last accepted one; a throttled attempt leaves the whole state unchanged; exactly 100 ms later it is accepted |
| `SpawnState.AttemptAcceptedWithoutModel` | src/index.js:357-360 | an accepted attempt before the logo model has loaded sets the clock to now, appends nothing and is not rescheduled |
| `SpawnState.AttemptCreates` | src/index.js:357-435 | a successful creation appends one mesh and one body at the tail with the same fresh serial, both at the pointer's point, keeps every earlier entry, arms one timer for now + 10000, sets the clock and is rescheduled |
| `SpawnState.EvictDropsHead` | src/index.js:423-433 | a timer firing drops exactly the head of each non-empty queue, keeps the rest in order, leaves an empty queue empty and consumes one timer |
| `SpawnState.SyncedCopiesPoses` | src/index.js:503-506 | after the sync mesh i has body i's pose for every pooled i; pool length, serials and order are unchanged and no body moves |
| `SpawnState.InitValid` | src/index.js:330-335 | the pool at page load satisfies the pool invariant |
| `SpawnState.AttemptPreservesValid` | src/index.js:348-437 | every call of the creation routine keeps the queues aligned, in creation order, one timer per pair, timers spaced by 100 ms |
| `SpawnState.EvictPreservesValid` | src/index.js:423-433 | a timer firing keeps the pool invariant |
| `SpawnState.SteppedSyncedPreservesValid` | src/index.js:484-506 | a physics step followed by the mesh sync keeps the pool invariant |
| `Spawner.Spawner.constructor` | src/index.js:330-335 | a new spawner is the page-load pool: mouse up, clock 0, empty queues |
| `Spawner.Spawner.MouseDown` | src/index.js:339-342 | holds the trigger, then performs one creation attempt on the held state |
| `Spawner.Spawner.MouseUp` | src/index.js:344-346 | releases the trigger and changes nothing else |
| `Spawner.Spawner.CreateLogo` | src/index.js:348-437 | the in-place creation routine: its outcome and new state are those of the step function; released or throttled leaves the state unchanged; accepted sets the clock; created appends the new mesh, body and timer; the invariant is kept |
| `Spawner.Spawner.EvictionFires` | src/index.js:423-433 | the oldest armed timer, firing at or after its deadline, removes the head of both queues (never empty here) and keeps the invariant |
| `Spawner.Spawner.StepPhysics` | src/index.js:484 | the physics step gives body i the engine's pose i and angular velocity i, keeps its serial and mass, and keeps the invariant |
| `Spawner.Spawner.SyncMeshes` | src/index.js:503-506 | the in-place sync loop leaves mesh i at body i's pose, keeps every serial and the pool length, and changes no body |
| `SpawnTrace.StepPreservesValid` | src/index.js:339-437 | every event the page can deliver keeps the pool invariant |
| `SpawnTrace.RunPreservesValid` | src/index.js:330-437 | along every run the queues stay equally long and aligned pair by pair, each pair with exactly one armed timer |
| `SpawnTrace.StepIsFifo` | src/index.js:407-433 | one event: what it evicts followed by the pool after it equals the pool before followed by what it creates |
| `SpawnTrace.EvictionIsFifo` | src/index.js:407-433 | any run: the evicted pairs followed by the remaining pool equal the initial pool followed by the created pairs, in order |
| `SpawnTrace.EvictionsRespectLifetime` | src/index.js:423-433 | helper of `EvictsOldestAfterLifetime`: over a run, no timer firing comes before the deadline of the timer it consumes (the host's timer guarantee, lifted to runs) |
| `SpawnTrace.EvictsOldestAfterLifetime` | src/index.js:407-433 | from page load, the k-th eviction removes the k-th created pair, no earlier than 10000 ms after its creation |
| `SpawnTrace.AcceptedAreSpaced` | src/index.js:335-357 | in any run, accepted attempts come at least 100 ms after the starting clock and at least 100 ms apart from each other, and the clock never moves back |
| `SpawnTrace.CreationsAreAccepted` | src/index.js:357-409 | every created pair was created by an accepted attempt at the same time, so a run creates no more pairs than it accepts attempts |
| `SpawnTrace.CreationsAreSpaced` | src/index.js:351-409 | in any run, created pairs come at least 100 ms after the starting clock, no later than the final clock, and at least 100 ms apart from each other |
| `SpawnTrace.AcceptedWithinSpan` | src/index.js:336-357 | accepted attempts within a span [t0, t1] number at most (t1 - t0)/100 + 1 |
| `SpawnTrace.HoldFor1050ms` | src/index.js:336-357 | holding the trigger over 1050 ms allows at most 11 accepted attempts and so at most 11 created pairs |
| `Hover.Sphere.constructor` | src/index.js:243-247 | the tracked sphere starts red |
| `Hover.Sphere.UpdateHover` | src/index.js:508-521 | the scan with its break and flag leaves the sphere blue iff its id is among the hits, red otherwise |
| `Hover.NotLatched` | src/index.js:508-521 | after any run of frames from any starting colour, the colour is decided by the last frame alone |
| `Hover.MissResetsHighlight` | src/index.js:518-521 | a frame that misses the sphere leaves it red, whatever came before |
| `FrameLoop.Animate` | src/index.js:482-521 | one frame: every body takes the engine's new pose and angular velocity, every pooled mesh ends at its body's new pose, the pool invariant holds, the sphere's colour is the hover decision for this frame's hits |
| `Environment.EnvironmentLoader.constructor` | src/index.js:41 | at start the cache is empty, no texture is installed, exposure is 1.0 and no request has been made |
| `Environment.EnvironmentLoader.LoadEnvironmentMap` | src/index.js:47-76 | asks the loader iff the background is not cached; the cache is not written |
| `Environment.EnvironmentLoader.OnLoad` | src/index.js:58-70 | the success callback sets the equirectangular mapping, installs the texture as background and environment, lowers exposure to 0.1 and caches the same texture |
| `Environment.EnvironmentLoader.OnError` | src/index.js:72-74 | the error callback changes nothing but the count of requests in flight |
| `Environment.CachedLoadShortCircuits` | src/index.js:49-54 | with the background cached, a call installs the cached texture as background and environment and issues no request |
| `Environment.UncachedLoadRequests` | src/index.js:56-75 | without a cached background, a call issues exactly one request and changes neither the cache, nor the background, nor the environment, nor the exposure |
| `Environment.CacheWrittenOnlyOnSuccess` | src/index.js:58-70 | a run without a success callback leaves the cache as it was |
| `Environment.SettledCacheIsStable` | src/index.js:47-76 | once cached with nothing in flight: the cache never changes, no request reaches the loader, every later call installs the cached texture |
| `Environment.SecondLoadUsesCache` | src/index.js:47-76 | a load, its success and a second load ask the loader once and install the delivered texture |
| `Environment.OverlappingLoadsBothRequest` | src/index.js:47-76 | two calls before the first completes both reach the loader |

## Left out

- Rendering, scene-graph add/remove, materials, shadows, lights and fog (src/index.js:9-14, 152-314): library calls with no logic of their own. Adding a logo to or removing it from the scene graph is the append to and shift of `meshes`.
- The physics engine: `world.step`, body and shape construction, contact materials, damping (src/index.js:154-156, 227-237, 391-421, 449-477). A step is the engine's new body poses and angular velocities, given as input. Of a logo body the model keeps its mass and angular velocity; the cylinder shape and damping are floating point and are left out.
- The fixed mesh/body pairs of the sphere, plane and box, synchronised at src/index.js:485-492: the same copy as the pool's, on three fixed pairs.
- GLTF and EXR loading, the loading manager and its progress callbacks (src/index.js:16-38, 81-150): asynchronous I/O and DOM updates. The logo model's arrival is the `cached` input of the creation routine. The environment loader is a count of requests issued and in flight.
- Ray casting, mouse-coordinate normalisation and plane intersection (src/index.js:316-328, 500-501): floating-point geometry in the rendering engine. The intersection point and the list of hit ids are inputs.
- The oscillation of the sphere, the rotation of the torus and `step += options.speed` (src/index.js:494-498): floating-point animation.
- The control panel (src/index.js:270-301) and the resize handler (src/index.js:528-532): UI. A colour written by the panel between frames is covered by the arbitrary starting colour of `Hover.NotLatched`.
- Real scheduling by `requestAnimationFrame` and `setTimeout`: firings are explicit calls. The outcome of a creation attempt tells whether it schedules another call (`Reschedules`).
- Floating-point coordinates: positions and quaternions are opaque integers. The quarter turn of a new logo is written up to scale. Exposure is written in tenths.
- The build configuration (webpack.config.js): not logic.
