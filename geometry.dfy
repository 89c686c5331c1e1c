/**
  The value types shared by every mesh of the renderer: small vectors and the
  interleaved vertex record that is uploaded to the GPU.  Single-precision
  floats are modelled as `real`; only literal values, parameters and the
  subtraction and cross product of the winding argument are ever computed.
 */
module Geometry {

  datatype Vec2 = Vec2(u: real, v: real)

  datatype Vec3 = Vec3(x: real, y: real, z: real)

  /** One vertex as it sits in a vertex buffer: position, colour, texture coordinate. */
  datatype Vertex = Vertex(pos: Vec3, color: Vec3, texCoord: Vec2)

  /** Size in bytes of one `Vertex`: eight 4-byte floats, no padding. */
  const VertexSize: nat := 32

  /** Size in bytes of one `uint32_t` index. */
  const IndexSize: nat := 4

  const White := Vec3(1.0, 1.0, 1.0)

  const Origin2 := Vec2(0.0, 0.0)

  function Sub(a: Vec3, b: Vec3): Vec3
  {
    Vec3(a.x - b.x, a.y - b.y, a.z - b.z)
  }

  /** The right-handed cross product a x b. */
  function Cross(a: Vec3, b: Vec3): Vec3
  {
    Vec3(a.y * b.z - a.z * b.y, a.z * b.x - a.x * b.z, a.x * b.y - a.y * b.x)
  }
}
