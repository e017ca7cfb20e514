/** The part of one animation frame that has logic of its own: after the
    physics engine has stepped, every pooled mesh is moved onto its body,
    then the hover highlight is decided. */
module FrameLoop {
  import opened Geometry
  import opened SpawnState
  import opened Spawner
  import opened Hover

  /** One frame: `motions` are the body poses and angular velocities the physics step produced and
      `intersects` the ids hit by the pointer ray, nearest first. */
  method Animate(pool: Spawner, sphere: Sphere, motions: seq<Motion>, intersects: seq<nat>)
    requires Valid(pool.Snapshot()) && |motions| == |pool.bodies|
    modifies pool, sphere
    ensures Valid(pool.Snapshot())
    ensures pool.Snapshot() == Synced(Stepped(old(pool.Snapshot()), motions))
    ensures forall i :: 0 <= i < |pool.meshes| ==> pool.meshes[i].pose == motions[i].pose
    ensures forall i :: 0 <= i < |pool.bodies| ==>
      pool.bodies[i].pose == motions[i].pose && pool.bodies[i].angularVelocity == motions[i].angularVelocity
    ensures sphere.colour == ColourFor(intersects, sphere.id)
  {
    pool.StepPhysics(motions);
    pool.SyncMeshes();
    sphere.UpdateHover(intersects);
  }
}
