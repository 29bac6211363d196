/** The three.js value records the interaction layer reads and compares. */
module Vectors {

  /** THREE.Vector2: a pointer sample, in pixels or in normalised units. */
  datatype Vec2 = Vec2(x: real, y: real)

  /** THREE.Vector3: a position or a scale. */
  datatype Vec3 = Vec3(x: real, y: real, z: real)

  /** THREE.Euler: a rotation; `equals` compares the three angles and the order. */
  datatype Euler = Euler(x: real, y: real, z: real, order: string)

}
