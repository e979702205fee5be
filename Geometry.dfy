/** The `geometryCreators` dispatch table of src/App.js: a shape key and a size give the
    parameters of the three.js geometry that a new mesh is built from. */
module Geometry {
  import opened Wrappers

  /** The shapes that have an entry in the table (the `shapes` constants). */
  datatype ShapeKind = Cube | Sphere | Cylinder

  /** The constructor arguments handed to BoxGeometry, SphereGeometry and CylinderGeometry.
      Segment counts are kept as the real numbers the table passes; the engine's own
      rounding of them is not part of this model. */
  datatype Geometry =
    | BoxGeometry(width: real, height: real, depth: real)
    | SphereGeometry(radius: real, widthSegments: real, heightSegments: real)
    | CylinderGeometry(radiusTop: real, radiusBottom: real, height: real, radialSegments: real)

  /** Tessellation segments per unit of size used by the sphere and the cylinder. */
  const SegmentsPerUnit: real := 128.0

  /** The key under which a shape is registered. */
  function ShapeName(k: ShapeKind): string
  {
    match k
    case Cube => "CUBE"
    case Sphere => "SPHERE"
    case Cylinder => "CYLINDER"
  }

  /** `geometryCreators[shape]`: the creator registered under a key, or nothing for any
      other key. */
  function LookupCreator(shape: string): (r: Option<ShapeKind>)
    ensures forall k :: r == Some(k) <==> ShapeName(k) == shape
  {
    if shape == "CUBE" then Some(Cube)
    else if shape == "SPHERE" then Some(Sphere)
    else if shape == "CYLINDER" then Some(Cylinder)
    else None
  }

  /** Which shape a geometry is. */
  function KindOf(g: Geometry): ShapeKind
  {
    match g
    case BoxGeometry(_, _, _) => Cube
    case SphereGeometry(_, _, _) => Sphere
    case CylinderGeometry(_, _, _, _) => Cylinder
  }

  /** The size a geometry was made for: the edge of a cube, the diameter of a sphere,
      the height of a cylinder. */
  function SizeOf(g: Geometry): real
  {
    match g
    case BoxGeometry(w, _, _) => w
    case SphereGeometry(r, _, _) => 2.0 * r
    case CylinderGeometry(_, _, h, _) => h
  }

  /** The proportions every table entry keeps: a box is a cube; a sphere has as many
      segments each way as 128 per unit of diameter; a cylinder has equal top and bottom
      radii of a quarter of its height and 128 radial segments per unit of height. */
  predicate WellProportioned(g: Geometry)
  {
    match g
    case BoxGeometry(w, h, d) => w == h == d
    case SphereGeometry(r, ws, hs) => ws == hs == 2.0 * r * SegmentsPerUnit
    case CylinderGeometry(rt, rb, h, rs) => rt == rb == h / 4.0 && rs == h * SegmentsPerUnit
  }

  /** Applying the creator registered for `kind` to `size`. */
  function CreateGeometry(kind: ShapeKind, size: real): (g: Geometry)
    ensures KindOf(g) == kind
    ensures SizeOf(g) == size
    ensures WellProportioned(g)
  {
    match kind
    case Cube => BoxGeometry(size, size, size)
    case Sphere => SphereGeometry(size / 2.0, size * SegmentsPerUnit, size * SegmentsPerUnit)
    case Cylinder => CylinderGeometry(size / 4.0, size / 4.0, size, size * SegmentsPerUnit)
  }

  /** The converse of CreateGeometry's contract: a geometry is the one the table makes for
      a kind and a size exactly when it has that kind and size and the table's proportions. */
  lemma CreateGeometryCharacterized(kind: ShapeKind, size: real, g: Geometry)
    ensures g == CreateGeometry(kind, size) <==>
            KindOf(g) == kind && SizeOf(g) == size && WellProportioned(g)
  {
  }
}
