/** The spawn pool of the scene, as a value: the mouse-held flag, the time of
    the last accepted creation, the two index-aligned queues of spawned logo
    meshes and physics bodies, and the deadlines of the armed eviction timers.
    Each function below is one thing that can happen to the pool; the class
    in module Spawner performs the same steps in place. */
module SpawnState {
  import opened Geometry

  /** Minimum spacing, in milliseconds, between two accepted creation attempts. */
  const CreationDelay: int := 100
  /** Delay, in milliseconds, of the eviction timer armed by each creation. */
  const Lifetime: int := 10000
  /** Mass given to every spawned logo body. */
  const LogoMass: nat := 1000
  /** Angular velocity given to every spawned logo body. */
  const LogoSpin: Vec3 := Vec3(4, 10, 10)

  /** A spawned logo in the scene graph; `id` is its creation serial. */
  datatype Mesh = Mesh(id: nat, pose: Pose)

  /** The physics body paired with a logo mesh. */
  datatype Body = Body(id: nat, pose: Pose, mass: nat, angularVelocity: Vec3)

  /** What the physics engine's step leaves a body with: its new pose and
      its new angular velocity (damping and contacts change both). */
  datatype Motion = Motion(pose: Pose, angularVelocity: Vec3)

  /** What one call of the creation routine did. */
  datatype Outcome =
    | Released      // the mouse is not held: nothing happens, nothing is rescheduled
    | Throttled     // too soon after the last creation: only rescheduled
    | ModelMissing  // accepted, but the logo model is not loaded yet: clock set, nothing else
    | Created       // one mesh and one body appended, one eviction timer armed, rescheduled

  /** Whether the creation routine asks for itself to be called again on the next frame. */
  predicate Reschedules(o: Outcome) {
    o == Throttled || o == Created
  }

  datatype State = State(
    mouseDown: bool,
    lastCreationTime: int,
    meshes: seq<Mesh>,
    bodies: seq<Body>,
    timers: seq<int>,     // deadlines of armed eviction timers, in arming order
    nextId: nat)

  /** Each pooled pair has its mesh, its body and its armed timer. */
  predicate Aligned(s: State) {
    |s.meshes| == |s.bodies| == |s.timers|
  }

  /** The invariant every reachable pool keeps: the queues are aligned pair by
      pair, in creation order, each pair with its own armed timer, and the
      timers are spaced by the rate limit and none is later than the last
      accepted creation plus the lifetime. */
  ghost predicate Valid(s: State) {
    && Aligned(s)
    && (forall i :: 0 <= i < |s.meshes| ==> s.meshes[i].id == s.bodies[i].id < s.nextId)
    && (forall i, j :: 0 <= i < j < |s.meshes| ==> s.meshes[i].id < s.meshes[j].id)
    && (forall i, j :: 0 <= i < j < |s.timers| ==> s.timers[i] + CreationDelay <= s.timers[j])
    && (forall i :: 0 <= i < |s.timers| ==> s.timers[i] <= s.lastCreationTime + Lifetime)
  }

  /** The pool at page load: mouse up, clock at 0, both queues empty. */
  function Init(): State {
    State(false, 0, [], [], [], 0)
  }

  function Press(s: State): State {
    s.(mouseDown := true)
  }

  function Release(s: State): State {
    s.(mouseDown := false)
  }

  /** Which branch the creation routine takes when called at time `now`. */
  function Classify(s: State, now: int, cached: bool): Outcome {
    if !s.mouseDown then Released
    else if now - s.lastCreationTime < CreationDelay then Throttled
    else if !cached then ModelMissing
    else Created
  }

  /** The mesh of a new logo: at the pointer's world point, tilted upright. */
  function NewMesh(id: nat, point: Vec3): Mesh {
    Mesh(id, Pose(point, QuarterTurnX))
  }

  /** The body of a new logo: at the pointer's world point, spinning. */
  function NewBody(id: nat, point: Vec3): Body {
    Body(id, Pose(point, Identity), LogoMass, LogoSpin)
  }

  /** One call of the creation routine at time `now`, with the logo model
      loaded or not, and `point` the last pointer-plane intersection. */
  function Attempt(s: State, now: int, cached: bool, point: Vec3): State {
    match Classify(s, now, cached)
    case Released => s
    case Throttled => s
    case ModelMissing => s.(lastCreationTime := now)
    case Created =>
      s.(lastCreationTime := now,
         meshes := s.meshes + [NewMesh(s.nextId, point)],
         bodies := s.bodies + [NewBody(s.nextId, point)],
         timers := s.timers + [now + Lifetime],
         nextId := s.nextId + 1)
  }

  /** The oldest armed eviction timer fires: it drops the head of each queue
      that is not empty. */
  function Evict(s: State): State
    requires s.timers != []
  {
    s.(meshes := if |s.meshes| > 0 then s.meshes[1..] else s.meshes,
       bodies := if |s.bodies| > 0 then s.bodies[1..] else s.bodies,
       timers := s.timers[1..])
  }

  /** The physics engine steps every body: body i takes the pose and angular
      velocity of `motions[i]` and keeps its serial and mass. */
  function Stepped(s: State, motions: seq<Motion>): State
    requires |motions| == |s.bodies|
  {
    s.(bodies := seq(|s.bodies|, i requires 0 <= i < |s.bodies| =>
         s.bodies[i].(pose := motions[i].pose, angularVelocity := motions[i].angularVelocity)))
  }

  /** Every pooled mesh takes the pose of the body at the same index. */
  function Synced(s: State): State
    requires |s.meshes| <= |s.bodies|
  {
    s.(meshes := seq(|s.meshes|, i requires 0 <= i < |s.meshes| => s.meshes[i].(pose := s.bodies[i].pose)))
  }

  // ---------------------------------------------------------------------
  // One step at a time

  /** While the mouse is up the creation routine changes nothing at all. */
  lemma AttemptWhileReleased(s: State, now: int, cached: bool, point: Vec3)
    requires !s.mouseDown
    ensures Classify(s, now, cached) == Released && !Reschedules(Released)
    ensures Attempt(s, now, cached, point) == s
  {
  }

  /** Less than CreationDelay after the last accepted creation, an attempt
      is only rescheduled; exactly CreationDelay later it is accepted. */
  lemma AttemptRateLimit(s: State, now: int, cached: bool, point: Vec3)
    requires s.mouseDown
    ensures now < s.lastCreationTime + CreationDelay <==> Classify(s, now, cached) == Throttled
    ensures Classify(s, now, cached) == Throttled ==> Attempt(s, now, cached, point) == s
    ensures now == s.lastCreationTime + CreationDelay ==> Attempt(s, now, cached, point).lastCreationTime == now
  {
  }

  /** An accepted attempt always moves the clock to `now`; without a loaded
      model it appends nothing and is not rescheduled. */
  lemma AttemptAcceptedWithoutModel(s: State, now: int, point: Vec3)
    requires s.mouseDown && now >= s.lastCreationTime + CreationDelay
    ensures Classify(s, now, false) == ModelMissing && !Reschedules(ModelMissing)
    ensures Attempt(s, now, false, point) == s.(lastCreationTime := now)
  {
  }

  /** A successful creation appends one mesh and one body at the tail, both at
      the pointer's point and with the same fresh serial, arms one timer
      for `now + Lifetime`, and leaves every earlier entry as it was. */
  lemma AttemptCreates(s: State, now: int, point: Vec3)
    requires s.mouseDown && now >= s.lastCreationTime + CreationDelay
    ensures Classify(s, now, true) == Created && Reschedules(Created)
    ensures var t := Attempt(s, now, true, point);
      && |t.meshes| == |s.meshes| + 1 && |t.bodies| == |s.bodies| + 1
      && t.meshes[..|s.meshes|] == s.meshes && t.bodies[..|s.bodies|] == s.bodies
      && t.meshes[|s.meshes|].pose.position == point == t.bodies[|s.bodies|].pose.position
      && t.meshes[|s.meshes|].id == t.bodies[|s.bodies|].id == s.nextId
      && t.timers == s.timers + [now + Lifetime]
      && t.lastCreationTime == now
  {
    var t := Attempt(s, now, true, point);
    assert t.meshes[..|s.meshes|] == s.meshes;
    assert t.bodies[..|s.bodies|] == s.bodies;
  }

  /** An eviction drops exactly the head of each queue and keeps the rest in
      order; on an empty pool it leaves both queues alone. */
  lemma EvictDropsHead(s: State)
    requires s.timers != []
    ensures |s.meshes| > 0 ==> Evict(s).meshes == s.meshes[1..]
    ensures |s.bodies| > 0 ==> Evict(s).bodies == s.bodies[1..]
    ensures s.meshes == [] ==> Evict(s).meshes == []
    ensures s.bodies == [] ==> Evict(s).bodies == []
    ensures Evict(s).timers == s.timers[1..]
  {
  }

  /** After synchronisation mesh i sits exactly where body i is; the pool
      keeps its length, its serials and its order, and no body moves. */
  lemma SyncedCopiesPoses(s: State)
    requires |s.meshes| <= |s.bodies|
    ensures |Synced(s).meshes| == |s.meshes| && Synced(s).bodies == s.bodies
    ensures forall i :: 0 <= i < |s.meshes| ==>
      Synced(s).meshes[i].pose == s.bodies[i].pose && Synced(s).meshes[i].id == s.meshes[i].id
  {
  }

  lemma InitValid()
    ensures Valid(Init())
  {
  }

  lemma AttemptPreservesValid(s: State, now: int, cached: bool, point: Vec3)
    requires Valid(s)
    ensures Valid(Attempt(s, now, cached, point))
  {
    var t := Attempt(s, now, cached, point);
    if Classify(s, now, cached) == Created {
      forall i, j | 0 <= i < j < |t.timers|
        ensures t.timers[i] + CreationDelay <= t.timers[j]
      {
        if j == |s.timers| {
          assert t.timers[i] == s.timers[i] <= s.lastCreationTime + Lifetime;
        } else {
          assert t.timers[i] == s.timers[i] && t.timers[j] == s.timers[j];
        }
      }
      forall i, j | 0 <= i < j < |t.meshes|
        ensures t.meshes[i].id < t.meshes[j].id
      {
        if j == |s.meshes| {
          assert t.meshes[i] == s.meshes[i];
        } else {
          assert t.meshes[i] == s.meshes[i] && t.meshes[j] == s.meshes[j];
        }
      }
      forall i | 0 <= i < |t.meshes|
        ensures t.meshes[i].id == t.bodies[i].id < t.nextId
      {
        if i < |s.meshes| {
          assert t.meshes[i] == s.meshes[i] && t.bodies[i] == s.bodies[i];
        }
      }
    }
  }

  lemma EvictPreservesValid(s: State)
    requires Valid(s) && s.timers != []
    ensures Valid(Evict(s))
  {
    var t := Evict(s);
    forall i, j | 0 <= i < j < |t.timers|
      ensures t.timers[i] + CreationDelay <= t.timers[j]
    {
      assert t.timers[i] == s.timers[i + 1] && t.timers[j] == s.timers[j + 1];
    }
    forall i, j | 0 <= i < j < |t.meshes|
      ensures t.meshes[i].id < t.meshes[j].id
    {
      assert t.meshes[i] == s.meshes[i + 1] && t.meshes[j] == s.meshes[j + 1];
    }
  }

  lemma SteppedSyncedPreservesValid(s: State, motions: seq<Motion>)
    requires Valid(s) && |motions| == |s.bodies|
    ensures |Stepped(s, motions).meshes| <= |Stepped(s, motions).bodies|
    ensures Valid(Synced(Stepped(s, motions)))
  {
  }
}
