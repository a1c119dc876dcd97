/** Item definitions and the effective axis-aligned bounding box of an item under a
    quarter-turn rotation (`getEffectiveDimensions`). */
module Geometry {
  import opened Util

  /** A rotation angle about one axis: 0 or pi/2 radians, the only values the
      orientation enumerator produces. */
  datatype Angle = Zero | Quarter

  /** Euler angles about x, y and z, applied in Three.js order 'XYZ': the matrix is
      Rx * Ry * Rz, so a point is turned about z first, then y, then x. */
  datatype Rotation = Rotation(x: Angle, y: Angle, z: Angle)

  const Identity := Rotation(Zero, Zero, Zero)

  datatype Shape = Box | Cylinder

  datatype RotationPreferences = RotationPreferences(allowX: bool, allowY: bool, allowZ: bool)

  /** An item definition as the user enters it. For a cylinder `length` is the
      diameter and `width` is ignored by the geometry (the form stores the diameter
      in both). `quantity` is a JavaScript number; only its integral part matters to
      the expansion loop. */
  datatype Item = Item(
    id: string,
    name: string,
    shape: Shape,
    length: real,
    width: real,
    height: real,
    weight: real,
    quantity: int,
    nonStackable: bool,
    color: Option<string>,
    rotationPreferences: RotationPreferences)

  /** Effective dimensions in packing space: `l` along x (container length),
      `w` along z (container width), `h` along y (container height). */
  datatype Dims = Dims(l: real, w: real, h: real)

  /** Extents of a mesh along the world axes x, y, z. */
  datatype Extent = Extent(x: real, y: real, z: real)

  /** The unrotated mesh: `BoxGeometry(length, height, width)` or a cylinder of
      radius length/2 standing along y. */
  function MeshExtent(item: Item): Extent
  {
    match item.shape
    case Box => Extent(item.length, item.height, item.width)
    case Cylinder => Extent(item.length, item.height, item.length)
  }

  /** A quarter turn about x exchanges the y and z extents. */
  function TurnX(e: Extent, a: Angle): Extent
  {
    if a == Quarter then Extent(e.x, e.z, e.y) else e
  }

  /** A quarter turn about y exchanges the x and z extents. */
  function TurnY(e: Extent, a: Angle): Extent
  {
    if a == Quarter then Extent(e.z, e.y, e.x) else e
  }

  /** A quarter turn about z exchanges the x and y extents. */
  function TurnZ(e: Extent, a: Angle): Extent
  {
    if a == Quarter then Extent(e.y, e.x, e.z) else e
  }

  /** The bounding box of the rotated mesh: L is its x extent, H its y extent and
      W its z extent. */
  function EffectiveDimensions(item: Item, r: Rotation): (d: Dims)
  {
    var e := TurnX(TurnY(TurnZ(MeshExtent(item), r.z), r.y), r.x);
    Dims(e.x, e.z, e.y)
  }

  /** The identity rotation leaves a box's dimensions as entered. */
  lemma IdentityKeepsBox(item: Item)
    requires item.shape == Box
    ensures EffectiveDimensions(item, Identity) == Dims(item.length, item.width, item.height)
  {
  }

  /** The three extents of a mesh, as a bag. */
  function Bag(e: Extent): multiset<real>
  {
    multiset{e.x, e.y, e.z}
  }

  /** A quarter turn only exchanges two extents. */
  lemma TurnsRearrange(e: Extent, a: Angle)
    ensures Bag(TurnX(e, a)) == Bag(e)
    ensures Bag(TurnY(e, a)) == Bag(e)
    ensures Bag(TurnZ(e, a)) == Bag(e)
  {
    assert multiset{e.x, e.z, e.y} == multiset{e.x, e.y, e.z};
    assert multiset{e.z, e.y, e.x} == multiset{e.x, e.y, e.z};
    assert multiset{e.y, e.x, e.z} == multiset{e.x, e.y, e.z};
  }

  /** Reading an extent as (L, W, H) lists the same three numbers. */
  lemma DimsOfExtent(e: Extent)
    ensures multiset{e.x, e.z, e.y} == Bag(e)
  {
  }

  /** The unrotated mesh has the item's nominal dimensions as extents. */
  lemma MeshBag(item: Item)
    ensures item.shape == Box ==> Bag(MeshExtent(item)) == multiset{item.length, item.width, item.height}
    ensures item.shape == Cylinder ==> Bag(MeshExtent(item)) == multiset{item.length, item.length, item.height}
  {
    assert multiset{item.length, item.height, item.width} == multiset{item.length, item.width, item.height};
    assert multiset{item.length, item.height, item.length} == multiset{item.length, item.length, item.height};
  }

  /** A box's effective dimensions are always a rearrangement of its nominal ones;
      a cylinder's are a rearrangement of (diameter, diameter, height). */
  lemma EffectiveDimensionsRearrange(item: Item, r: Rotation)
    ensures var d := EffectiveDimensions(item, r);
      item.shape == Box ==> multiset{d.l, d.w, d.h} == multiset{item.length, item.width, item.height}
    ensures var d := EffectiveDimensions(item, r);
      item.shape == Cylinder ==> multiset{d.l, d.w, d.h} == multiset{item.length, item.length, item.height}
  {
    var m := MeshExtent(item);
    var e1 := TurnZ(m, r.z);
    var e2 := TurnY(e1, r.y);
    var e3 := TurnX(e2, r.x);
    TurnsRearrange(m, r.z);
    TurnsRearrange(e1, r.y);
    TurnsRearrange(e2, r.x);
    DimsOfExtent(e3);
    MeshBag(item);
  }

  /** Turning a cylinder about its own axis (y) changes nothing, so the
      enumerator's first cylinder candidate after the identity is redundant. */
  lemma CylinderTurnAboutOwnAxis(item: Item)
    requires item.shape == Cylinder
    ensures EffectiveDimensions(item, Rotation(Zero, Quarter, Zero)) == EffectiveDimensions(item, Identity)
  {
  }

  /** A cylinder's height always ends up on one axis and its diameter on the two
      others. */
  lemma CylinderKeepsDiameterTwice(item: Item, r: Rotation)
    requires item.shape == Cylinder
    ensures var d := EffectiveDimensions(item, r);
      (d.h == item.height && d.l == item.length && d.w == item.length) ||
      (d.l == item.height && d.h == item.length && d.w == item.length) ||
      (d.w == item.height && d.l == item.length && d.h == item.length)
  {
  }

  function Volume(item: Item): real
  {
    item.length * item.width * item.height
  }

  function Max3(a: real, b: real, c: real): (m: real)
    ensures m >= a && m >= b && m >= c
    ensures m == a || m == b || m == c
  {
    if a >= b && a >= c then a else if b >= c then b else c
  }

  function MaxDimension(item: Item): real
  {
    Max3(item.length, item.width, item.height)
  }
}
