/**
 * Small value types shared by the camera, the tiles and the layouts.
 * Floats of the application are modelled as `real`; IEEE rounding is not modelled.
 */
module Geometry {

  datatype Option<T> = None | Some(value: T)

  /** A point or a direction in world space. */
  datatype Vec3 = Vec3(x: real, y: real, z: real)
  {
    function Add(o: Vec3): Vec3 { Vec3(x + o.x, y + o.y, z + o.z) }
    function Sub(o: Vec3): Vec3 { Vec3(x - o.x, y - o.y, z - o.z) }
    function Scale(k: real): Vec3 { Vec3(x * k, y * k, z * k) }
  }

  /** A point in the xy plane (screen or world). */
  datatype Vec2 = Vec2(x: real, y: real)

  const Origin: Vec3 := Vec3(0.0, 0.0, 0.0)

  function Max(a: real, b: real): real { if a < b then b else a }
  function Min(a: real, b: real): real { if a < b then a else b }

  /** The square of the planar distance, as the application computes it. */
  function DistanceSquared(a: Vec2, b: Vec2): (d: real)
    ensures d >= 0.0
  {
    var dx := a.x - b.x;
    var dy := a.y - b.y;
    dx * dx + dy * dy
  }

  /**
   * The point where the ray through the renderer's unprojected far and near points meets the
   * image plane z = 0 (Camera::GetImagePlaneWorldPosition and the same computation in
   * ImageTile::Outline). The two endpoints are inputs: the renderer is not part of this model.
   */
  function ImagePlanePoint(near: Vec3, far: Vec3): (p: Vec2)
    requires near.z != far.z
    // (p, 0) is collinear with the two endpoints: it is where their line crosses z = 0
    ensures (p.x - far.x) * (near.z - far.z) == (near.x - far.x) * (0.0 - far.z)
    ensures (p.y - far.y) * (near.z - far.z) == (near.y - far.y) * (0.0 - far.z)
  {
    var r := -far.z / (near.z - far.z);
    Vec2(far.x + r * (near.x - far.x), far.y + r * (near.y - far.y))
  }
}
