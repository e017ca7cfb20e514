/** Transforms as the frame loop handles them.  The renderer and the physics
    engine work on floating-point vectors; this model never computes with them,
    it only copies them, so each coordinate is an opaque integer. */
module Geometry {

  /** A position, or a vector such as an angular velocity. */
  datatype Vec3 = Vec3(x: int, y: int, z: int)

  /** An orientation quaternion, components up to a common positive scale. */
  datatype Quat = Quat(x: int, y: int, z: int, w: int)

  /** What the frame loop copies from a body onto its mesh: position and quaternion. */
  datatype Pose = Pose(position: Vec3, quaternion: Quat)

  /** The orientation a freshly built physics body starts with. */
  const Identity: Quat := Quat(0, 0, 0, 1)

  /** A quarter turn about the x axis (`rotation.x = PI / 2`): sin and cos of PI/4 are equal. */
  const QuarterTurnX: Quat := Quat(1, 0, 0, 1)
}
