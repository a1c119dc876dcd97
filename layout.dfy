/** Points, containers, item instances and committed placement records in a
    container's local packing space (origin at the back-left-bottom corner, x along
    the container length, y up, z along the container width). */
module Layout {
  import opened Geometry

  datatype Point = Point(x: real, y: real, z: real)

  const Origin := Point(0.0, 0.0, 0.0)

  /** Inner dimensions and payload limit of one container. */
  datatype Container = Container(length: real, width: real, height: real, maxPayloadKg: real)

  /** One physical unit of an item definition (`ItemInstance` before it is placed). */
  datatype Instance = Instance(item: Item, instanceId: string)

  /** What a commit records about a placed unit: the rotation applied, the
      effective dimensions under it, the local base (back-left-bottom) corner and the
      index of the container. */
  datatype Placement = Placement(inst: Instance, rotation: Rotation, dims: Dims, base: Point, containerId: nat)

  /** The stored dimensions are the effective dimensions of the applied rotation. */
  predicate WellFormed(p: Placement)
  {
    p.dims == EffectiveDimensions(p.inst.item, p.rotation)
  }

  function Weight(p: Placement): real
  {
    p.inst.item.weight
  }

  /** World-space centre of a placed unit's mesh, as `placeAndRecordItem` positions
      it: the container is centred on x = offsetX and z = 0, its floor at y = 0. */
  datatype Vec3 = Vec3(x: real, y: real, z: real)

  function MeshCenter(p: Placement, c: Container, offsetX: real): Vec3
  {
    Vec3((p.base.x + p.dims.l / 2.0) - c.length / 2.0 + offsetX,
         p.base.y + p.dims.h / 2.0,
         (p.base.z + p.dims.w / 2.0) - c.width / 2.0)
  }

  /** The validator's and anchor generator's reconstruction of the local base corner
      from a mesh centre. */
  function LocalBase(center: Vec3, d: Dims, c: Container, offsetX: real): Point
  {
    Point(center.x - d.l / 2.0 + c.length / 2.0 - offsetX,
          center.y - d.h / 2.0,
          center.z - d.w / 2.0 + c.width / 2.0)
  }

  /** Storing the local base corner directly loses nothing: the reconstruction from
      the render position gives it back exactly (in exact arithmetic). */
  lemma LocalBaseRoundTrip(p: Placement, c: Container, offsetX: real)
    ensures LocalBase(MeshCenter(p, c, offsetX), p.dims, c, offsetX) == p.base
  {
  }
}
