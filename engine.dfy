/** The parts of the spine-c animation engine that the compositor talks to,
    reduced to the values it reads and the state it changes.

    Everything the engine computes internally (bone math, world vertices,
    polygon clipping, animation mixing) is not reimplemented: its results are
    either stored in the values below or produced by the oracle functions of
    `Engine`. */
module SpineEngine {

  import opened Wrappers

  /** An RGBA tint; the engine keeps each channel in [0, 1]. */
  datatype Color = Color(r: real, g: real, b: real, a: real)

  /** Component-wise product of two tints (skeleton tint times slot tint). */
  function Modulate(c: Color, d: Color): Color
  {
    Color(c.r * d.r, c.g * d.g, c.b * d.b, c.a * d.a)
  }

  /** A 16-bit triangle index, as stored by the engine (`unsigned short`). */
  newtype u16 = x: int | 0 <= x < 0x1_0000

  /** A bindable texture handle (the `QOpenGLTexture*` a page carries). */
  type TextureId = nat

  /** An atlas page; `texture` is the page's renderer object, when created. */
  datatype AtlasPage = AtlasPage(texture: Option<TextureId>)

  /** An atlas region; the page it lives on may be missing. */
  datatype AtlasRegion = AtlasRegion(page: Option<AtlasPage>)

  /** The clip polygon a clipping attachment defines, and the slot (by its
      slot-data identity) at which its scope ends, if any. */
  datatype ClipRegion = ClipRegion(endSlot: Option<nat>, polygon: seq<real>)

  /** The attachment a slot currently shows. For regions and meshes, `world`
      is what the engine's world-vertex computation yields for the current
      pose (x, y pairs) and `uvs` is the attachment's stored UV array. */
  datatype AttachmentData =
    | RegionAttachment(world: seq<real>, uvs: seq<real>, region: Option<AtlasRegion>)
    | MeshAttachment(world: seq<real>, uvs: seq<real>, triangles: seq<u16>, region: Option<AtlasRegion>)
    | ClippingAttachment(clip: ClipRegion)
    | OtherAttachment  // bounding box, path, point, ...

  /** Shapes the engine guarantees: a region has four corners and four UV
      pairs; a mesh has one UV pair per world vertex. */
  predicate WellFormedAttachment(a: AttachmentData)
  {
    match a
    case RegionAttachment(world, uvs, _) => |world| == 8 && |uvs| == 8
    case MeshAttachment(world, uvs, _, _) => |uvs| == |world|
    case _ => true
  }

  type Attachment = a: AttachmentData | WellFormedAttachment(a) witness OtherAttachment

  /** A slot of the posed skeleton: its slot-data identity, tint, declared
      blend mode (the engine's enum as an integer) and current attachment. */
  datatype Slot = Slot(data: nat, color: Color, blendMode: int, attachment: Option<Attachment>)

  /** A posed skeleton: its placement, global tint and draw order (entries
      may be null). */
  datatype Skeleton = Skeleton(x: real, y: real, color: Color, drawOrder: seq<Option<Slot>>)

  /** Parsed skeleton data; only its animation names matter here. */
  datatype SkeletonData = SkeletonData(animations: seq<string>)

  /** `spSkeletonData_findAnimation`: the index of the first animation with
      the given name, or None. */
  function FindAnimation(data: SkeletonData, name: string): (r: Option<nat>)
    ensures r.Some? ==> r.value < |data.animations| && data.animations[r.value] == name
    ensures r.Some? ==> forall j :: 0 <= j < r.value ==> data.animations[j] != name
    ensures r.None? <==> name !in data.animations
    decreases |data.animations|
  {
    if |data.animations| == 0 then None
    else if data.animations[0] == name then Some(0)
    else match FindAnimation(SkeletonData(data.animations[1..]), name)
      case None => None
      case Some(k) => Some(k + 1)
  }

  /** A track operation issued to an animation state:
      `spAnimationState_setAnimation(track, anim, loop)` or
      `spAnimationState_addAnimation(track, anim, loop, delay)`. */
  datatype TrackOp =
    | SetAnimation(track: int, anim: nat, loop: bool)
    | AddAnimation(track: int, anim: nat, loop: bool, delay: real)

  /** An animation state, seen through the calls made to it: the track
      operations issued and the time steps it was updated by, in order. */
  datatype AnimState = AnimState(ops: seq<TrackOp>, updates: seq<real>)

  /** The skeleton clipper (`spSkeletonClipping`): at most one active clip
      region at a time. */
  datatype Clipper = Clipper(active: Option<ClipRegion>)

  /** `spSkeletonClipping_isClipping`. */
  predicate IsClipping(c: Clipper)
  {
    c.active.Some?
  }

  /** `spSkeletonClipping_clipStart`: opens `clip` unless a region is already
      active, in which case the call has no effect. */
  function ClipStart(c: Clipper, clip: ClipRegion): (r: Clipper)
    ensures IsClipping(r)
    ensures IsClipping(c) ==> r == c
    ensures !IsClipping(c) ==> r.active == Some(clip)
  {
    if IsClipping(c) then c else Clipper(Some(clip))
  }

  /** `spSkeletonClipping_clipEnd2`: closes any active region. */
  function ClipEnd2(c: Clipper): (r: Clipper)
    ensures !IsClipping(r)
  {
    Clipper(None)
  }

  /** `spSkeletonClipping_clipEnd(slot)`: closes the active region exactly
      when `slotData` is the slot its scope ends at. */
  function ClipEnd(c: Clipper, slotData: nat): (r: Clipper)
    ensures IsClipping(c) && c.active.value.endSlot == Some(slotData) ==> !IsClipping(r)
    ensures !(IsClipping(c) && c.active.value.endSlot == Some(slotData)) ==> r == c
  {
    if IsClipping(c) && c.active.value.endSlot == Some(slotData) then ClipEnd2(c) else c
  }

  /** Triangle geometry in the engine's flat layout: positions and UVs as
      x, y (u, v) pairs, and a triangle index list. */
  datatype GeometryData = Geometry(xy: seq<real>, uv: seq<real>, idx: seq<u16>)

  /** One UV pair per position pair, as both the attachments and the clipper's
      output buffers have it. */
  type Geometry = g: GeometryData | |g.uv| == |g.xy| witness Geometry([], [], [])

  /** The engine calls whose internals are not modelled:
      `pose` is `spAnimationState_apply` followed by
      `spSkeleton_updateWorldTransform`; `clipTriangles` is
      `spSkeletonClipping_clipTriangles` against the active region. */
  datatype Engine = Engine(
    pose: (AnimState, Skeleton) -> Skeleton,
    clipTriangles: (ClipRegion, Geometry) -> Geometry)

}
