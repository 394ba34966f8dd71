/**
 * The tube record of the editor (src/types/tube.ts) and the partial
 * update that the controls send for it.
 */
module TubeTypes {
  import opened Wrappers

  /** A point or a triple of Euler angles, `[number, number, number]`. */
  datatype Vec3 = Vec3(x: real, y: real, z: real)

  /** The cross-section type, `'rectangular' | 'square'`. */
  datatype TubeKind = Rectangular | Square

  /** One tube as the editor stores it; `parentId` and `jointAngle` are optional. */
  datatype Tube = Tube(
    id: string,
    kind: TubeKind,
    width: real,
    height: real,
    thickness: real,
    length: real,
    position: Vec3,
    rotation: Vec3,
    parentId: Option<string>,
    jointAngle: Option<real>)

  /**
   * `Partial<TubeParameters>`: `None` means the key is absent from the update
   * object. For the two optional fields a present key may carry `undefined`,
   * hence the nested option.
   */
  datatype TubeUpdate = TubeUpdate(
    id: Option<string>,
    kind: Option<TubeKind>,
    width: Option<real>,
    height: Option<real>,
    thickness: Option<real>,
    length: Option<real>,
    position: Option<Vec3>,
    rotation: Option<Vec3>,
    parentId: Option<Option<string>>,
    jointAngle: Option<Option<real>>)

  /** The update object `{}`. */
  const NoChange := TubeUpdate(None, None, None, None, None, None, None, None, None, None)

  /** A present key of the update wins; an absent one keeps the tube's value. */
  function Pick<V>(u: Option<V>, v: V): V
  {
    match u
    case Some(w) => w
    case None => v
  }

  /** `{ ...tube, ...updates }`. */
  function Merge(t: Tube, u: TubeUpdate): (r: Tube)
    // a key absent from the update keeps the tube's value
    ensures u.id.None? ==> r.id == t.id
    ensures u.kind.None? ==> r.kind == t.kind
    ensures u.width.None? ==> r.width == t.width
    ensures u.height.None? ==> r.height == t.height
    ensures u.thickness.None? ==> r.thickness == t.thickness
    ensures u.length.None? ==> r.length == t.length
    ensures u.position.None? ==> r.position == t.position
    ensures u.rotation.None? ==> r.rotation == t.rotation
    ensures u.parentId.None? ==> r.parentId == t.parentId
    ensures u.jointAngle.None? ==> r.jointAngle == t.jointAngle
    // a key present in the update overwrites it
    ensures u.id.Some? ==> r.id == u.id.value
    ensures u.kind.Some? ==> r.kind == u.kind.value
    ensures u.width.Some? ==> r.width == u.width.value
    ensures u.height.Some? ==> r.height == u.height.value
    ensures u.thickness.Some? ==> r.thickness == u.thickness.value
    ensures u.length.Some? ==> r.length == u.length.value
    ensures u.position.Some? ==> r.position == u.position.value
    ensures u.rotation.Some? ==> r.rotation == u.rotation.value
    ensures u.parentId.Some? ==> r.parentId == u.parentId.value
    ensures u.jointAngle.Some? ==> r.jointAngle == u.jointAngle.value
  {
    Tube(
      Pick(u.id, t.id),
      Pick(u.kind, t.kind),
      Pick(u.width, t.width),
      Pick(u.height, t.height),
      Pick(u.thickness, t.thickness),
      Pick(u.length, t.length),
      Pick(u.position, t.position),
      Pick(u.rotation, t.rotation),
      Pick(u.parentId, t.parentId),
      Pick(u.jointAngle, t.jointAngle))
  }

  /** Spreading `{}` changes nothing. */
  lemma MergeNoChange(t: Tube)
    ensures Merge(t, NoChange) == t
  {
  }

  /** Spreading the same update twice is the same as spreading it once. */
  lemma MergeIdempotent(t: Tube, u: TubeUpdate)
    ensures Merge(Merge(t, u), u) == Merge(t, u)
  {
  }

  /** Squared Euclidean distance between two points. */
  function SquaredDistance(p: Vec3, q: Vec3): (r: real)
    ensures r >= 0.0
  {
    (p.x - q.x) * (p.x - q.x) + (p.y - q.y) * (p.y - q.y) + (p.z - q.z) * (p.z - q.z)
  }
}
