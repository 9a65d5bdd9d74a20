/** Primitive shape kinds, materials and flattened primitive records. */
module Primitives {
  import opened Geometry

  datatype PrimitiveType = PrimNone | Sphere | Cube | Cylinder

  function PrimitiveValue(t: PrimitiveType): (v: nat)
    ensures v == 0 <==> t == PrimNone
  {
    match t
    case PrimNone => 0
    case Sphere => 1
    case Cube => 2
    case Cylinder => 4
  }

  /** Albedo colour with alpha, and a specular value. The GPU padding is not modelled. */
  datatype Material = Material(albedo: Vec4, spec: real)

  datatype Primitive = Primitive(kind: PrimitiveType, mat: Material, transform: Transform)
}
