/** Values shared by every part of the model: an optional value (JavaScript's
    `null`/`undefined` where the source uses them as "absent") and the
    three-component vector that the 3D scene uses for positions. */
module Common {

  datatype Option<+T> = None | Some(value: T)

  /** A point or offset in the scene, as a `THREE.Vector3` with real coordinates. */
  datatype Vec3 = Vec3(x: real, y: real, z: real) {
    function Plus(dx: real, dy: real, dz: real): Vec3 {
      Vec3(x + dx, y + dy, z + dz)
    }
  }

  function Min(a: int, b: int): int { if a <= b then a else b }
  function Max(a: int, b: int): int { if a <= b then b else a }
}
