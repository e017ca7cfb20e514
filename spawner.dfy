/** The spawner as the page runs it: module-level variables reassigned by the
    mouse handlers, by the creation routine, by each eviction timer and by the
    frame loop.  User input, the clock and timer firings are explicit calls. */
module Spawner {
  import opened Geometry
  import opened SpawnState

  class Spawner {
    var isMouseDown: bool
    var lastCreationTime: int
    var meshes: seq<Mesh>
    var bodies: seq<Body>
    var timers: seq<int>   // deadlines of armed eviction timers, in arming order
    var nextId: nat

    /** The pool as a value, for the specification functions of SpawnState. */
    function Snapshot(): State
      reads this
    {
      State(isMouseDown, lastCreationTime, meshes, bodies, timers, nextId)
    }

    constructor ()
      ensures Snapshot() == Init() && Valid(Snapshot())
    {
      isMouseDown := false;
      lastCreationTime := 0;
      meshes := [];
      bodies := [];
      timers := [];
      nextId := 0;
    }

    /** The mousedown handler: hold the trigger and try to create at once. */
    method MouseDown(now: int, cached: bool, point: Vec3) returns (outcome: Outcome)
      requires Valid(Snapshot())
      modifies this
      ensures Valid(Snapshot())
      ensures outcome == Classify(Press(old(Snapshot())), now, cached)
      ensures Snapshot() == Attempt(Press(old(Snapshot())), now, cached, point)
    {
      isMouseDown := true;
      outcome := CreateLogo(now, cached, point);
    }

    /** The mouseup handler: release the trigger; the pool is untouched. */
    method MouseUp()
      modifies this
      ensures Snapshot() == Release(old(Snapshot()))
    {
      isMouseDown := false;
    }

    /** The creation routine, called at time `now` by the mousedown handler or
        by a frame callback it scheduled; `cached` says whether the logo model
        has loaded and `point` is the last pointer-plane intersection. The
        caller schedules the next call exactly when `Reschedules(outcome)`. */
    method CreateLogo(now: int, cached: bool, point: Vec3) returns (outcome: Outcome)
      requires Valid(Snapshot())
      modifies this
      ensures Valid(Snapshot())
      ensures outcome == Classify(old(Snapshot()), now, cached)
      ensures Snapshot() == Attempt(old(Snapshot()), now, cached, point)
      ensures outcome in {Released, Throttled} ==> Snapshot() == old(Snapshot())
      ensures outcome in {ModelMissing, Created} ==> lastCreationTime == now
      ensures outcome == Created ==>
        && meshes == old(meshes) + [NewMesh(old(nextId), point)]
        && bodies == old(bodies) + [NewBody(old(nextId), point)]
        && timers == old(timers) + [now + Lifetime]
    {
      AttemptPreservesValid(Snapshot(), now, cached, point);
      if !isMouseDown {
        return Released;
      }
      if now - lastCreationTime < CreationDelay {
        return Throttled;
      }
      lastCreationTime := now;
      if !cached {
        return ModelMissing;
      }
      meshes := meshes + [NewMesh(nextId, point)];
      bodies := bodies + [NewBody(nextId, point)];
      timers := timers + [now + Lifetime];
      nextId := nextId + 1;
      return Created;
    }

    /** The oldest armed eviction timer fires at time `now`, no earlier than
        its deadline: the head of each non-empty queue is removed. */
    method EvictionFires(now: int)
      requires Valid(Snapshot())
      requires timers != [] && timers[0] <= now
      modifies this
      ensures Valid(Snapshot())
      ensures Snapshot() == Evict(old(Snapshot()))
      ensures meshes == old(meshes)[1..] && bodies == old(bodies)[1..]
    {
      EvictPreservesValid(Snapshot());
      if |meshes| > 0 {
        meshes := meshes[1..];
      }
      if |bodies| > 0 {
        bodies := bodies[1..];
      }
      timers := timers[1..];
    }

    /** The physics engine's step, seen from the pool: body i takes the pose
        and angular velocity of `motions[i]`. */
    method StepPhysics(motions: seq<Motion>)
      requires Valid(Snapshot()) && |motions| == |bodies|
      modifies this
      ensures Snapshot() == Stepped(old(Snapshot()), motions)
      ensures Valid(Snapshot())
    {
      SteppedSyncedPreservesValid(Snapshot(), motions);
      var moved := bodies;
      bodies := seq(|moved|, i requires 0 <= i < |moved| =>
        moved[i].(pose := motions[i].pose, angularVelocity := motions[i].angularVelocity));
    }

    /** The frame loop's copy: every pooled mesh takes its body's position
        and quaternion. */
    method SyncMeshes()
      requires |meshes| <= |bodies|
      modifies this
      ensures Snapshot() == Synced(old(Snapshot()))
      ensures |meshes| == |old(meshes)| && bodies == old(bodies)
      ensures forall i :: 0 <= i < |meshes| ==>
        meshes[i].pose == bodies[i].pose && meshes[i].id == old(meshes[i].id)
    {
      var i := 0;
      while i < |meshes|
        invariant 0 <= i <= |meshes| == |old(meshes)|
        invariant bodies == old(bodies)
        invariant forall k :: 0 <= k < i ==> meshes[k] == old(meshes[k]).(pose := bodies[k].pose)
        invariant forall k :: i <= k < |meshes| ==> meshes[k] == old(meshes[k])
        invariant isMouseDown == old(isMouseDown) && lastCreationTime == old(lastCreationTime)
        invariant timers == old(timers) && nextId == old(nextId)
      {
        meshes := meshes[i := meshes[i].(pose := bodies[i].pose)];
        i := i + 1;
      }
    }
  }
}
