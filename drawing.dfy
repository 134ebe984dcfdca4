/** Slot traversal, geometry assembly and clip bookkeeping (`drawUnit`), as
    a left fold over a skeleton's draw order. The renderer's methods are
    proved against these functions. */
module Drawing {

  import opened Wrappers
  import opened SpineEngine
  import opened Blend
  import opened UnitLoading

  /** One interleaved vertex: position, texture coordinate, colour. */
  datatype Vtx = Vtx(x: real, y: real, u: real, v: real, r: real, g: real, b: real, a: real)

  /** One indexed triangle-list draw: the slot it came from, the blend pair
      in force, the bound texture and the uploaded vertex and index data. */
  datatype DrawCall = DrawCall(unit: nat, slot: nat, blend: BlendPair, texture: TextureId, verts: seq<Vtx>, indices: seq<u16>)

  /** A call into the clipper, by unit and draw-order position. */
  datatype ClipEvent = ClipStartAt(unit: nat, slot: nat) | ClipEndAt(unit: nat, slot: nat) | ClipEnd2At(unit: nat)

  /** The state a traversal threads: the clipper, the current blend pair,
      the reusable vertex and index buffers, and the logs of draw calls and
      clipper calls. */
  datatype DrawState = DrawState(
    clipper: Clipper,
    blend: Option<BlendPair>,
    verts: seq<Vtx>,
    indices: seq<u16>,
    draws: seq<DrawCall>,
    clipLog: seq<ClipEvent>)

  /** The two triangles of a region quad. */
  const QuadIndices: seq<u16> := [0, 1, 2, 2, 3, 0]

  /** The unclipped geometry of a region or mesh; None for other kinds. */
  function BaseGeometry(a: Attachment): Option<Geometry>
  {
    match a
    case RegionAttachment(world, uvs, _) => Some(Geometry(world, uvs, QuadIndices))
    case MeshAttachment(world, uvs, triangles, _) => Some(Geometry(world, uvs, triangles))
    case _ => None
  }

  /** The texture of the atlas region an attachment renders with, when the
      region, its page and the page's texture all exist. */
  function TextureOf(a: Attachment): Option<TextureId>
  {
    var region := match a
      case RegionAttachment(_, _, r) => r
      case MeshAttachment(_, _, _, r) => r
      case _ => None;
    if region.Some? && region.value.page.Some? then region.value.page.value.texture else None
  }

  /** The geometry that reaches the draw: clipped when a clip region is
      active, unchanged otherwise. */
  function FinalGeometry(c: Clipper, g: Geometry, e: Engine): Geometry
  {
    if IsClipping(c) then e.clipTriangles(c.active.value, g) else g
  }

  /** Too small to draw: fewer than 8 position floats or fewer than 3
      indices. */
  predicate Degenerate(g: Geometry)
  {
    |g.xy| < 8 || |g.idx| < 3
  }

  /** The interleaved vertices of a geometry under one colour. */
  function Vertices(g: Geometry, c: Color): seq<Vtx>
  {
    seq(|g.xy| / 2, v requires 0 <= v < |g.xy| / 2 =>
      Vtx(g.xy[2 * v], g.xy[2 * v + 1], g.uv[2 * v], g.uv[2 * v + 1], c.r, c.g, c.b, c.a))
  }

  /** The clipper calls a slot's processing makes. */
  function SlotClipEvents(k: nat, skel: Skeleton, i: nat): seq<ClipEvent>
    requires i < |skel.drawOrder|
  {
    match skel.drawOrder[i]
    case None => []
    case Some(slot) =>
      if slot.attachment.Some? && slot.attachment.value.ClippingAttachment? then [ClipStartAt(k, i), ClipEndAt(k, i)]
      else [ClipEndAt(k, i)]
  }

  /** End of a slot's processing: `clipEnd(slot)`. */
  function EndSlot(st: DrawState, slot: Slot, k: nat, i: nat): DrawState
  {
    st.(clipper := ClipEnd(st.clipper, slot.data), clipLog := st.clipLog + [ClipEndAt(k, i)])
  }

  /** Processing of draw-order position i of unit k. */
  function DrawSlot(st: DrawState, k: nat, skel: Skeleton, i: nat, e: Engine): DrawState
    requires i < |skel.drawOrder|
  {
    match skel.drawOrder[i]
    case None => st
    case Some(slot) =>
      match slot.attachment
      case None => EndSlot(st, slot, k, i)
      case Some(a) =>
        if a.ClippingAttachment? then
          EndSlot(st.(clipper := ClipStart(st.clipper, a.clip), clipLog := st.clipLog + [ClipStartAt(k, i)]), slot, k, i)
        else match BaseGeometry(a)
          case None => EndSlot(st, slot, k, i)
          case Some(base) =>
            match TextureOf(a)
            case None => EndSlot(st, slot, k, i)
            case Some(tex) =>
              var pair := BlendFactors(slot.blendMode, true);
              var st1 := st.(blend := Some(pair));
              var g := FinalGeometry(st.clipper, base, e);
              if Degenerate(g) then EndSlot(st1, slot, k, i)
              else
                var vs := Vertices(g, Modulate(skel.color, slot.color));
                EndSlot(st1.(verts := vs, indices := g.idx, draws := st1.draws + [DrawCall(k, i, pair, tex, vs, g.idx)]), slot, k, i)
  }

  /** Processing of the first n draw-order positions. */
  function DrawSlots(st: DrawState, k: nat, skel: Skeleton, n: nat, e: Engine): DrawState
    requires n <= |skel.drawOrder|
  {
    if n == 0 then st else DrawSlot(DrawSlots(st, k, skel, n - 1, e), k, skel, n - 1, e)
  }

  /** `drawUnit` with a clipper: every position, then `clipEnd2`. */
  function DrawUnitState(st: DrawState, k: nat, skel: Skeleton, e: Engine): (r: DrawState)
    ensures !IsClipping(r.clipper)
    ensures |r.clipLog| > 0 && r.clipLog[|r.clipLog| - 1] == ClipEnd2At(k)
  {
    var s := DrawSlots(st, k, skel, |skel.drawOrder|, e);
    s.(clipper := ClipEnd2(s.clipper), clipLog := s.clipLog + [ClipEnd2At(k)])
  }

  /** The draw loop of a frame over the first n units: units without a
      skeleton are passed over. */
  function DrawUnits(st: DrawState, us: seq<Unit>, n: nat, e: Engine): DrawState
    requires n <= |us|
  {
    if n == 0 then st
    else
      var s := DrawUnits(st, us, n - 1, e);
      match us[n - 1].skeleton
      case None => s
      case Some(skel) => DrawUnitState(s, n - 1, skel, e)
  }

  // ------------------------------------------------------------------
  // Which slots draw

  /** A slot draws exactly when it exists, shows a region or mesh whose
      texture is present, and its geometry (after clipping, if active) is
      not degenerate. */
  predicate Drawable(c: Clipper, skel: Skeleton, i: nat, e: Engine)
    requires i < |skel.drawOrder|
  {
    && skel.drawOrder[i].Some?
    && skel.drawOrder[i].value.attachment.Some?
    && var a := skel.drawOrder[i].value.attachment.value;
    && (a.RegionAttachment? || a.MeshAttachment?)
    && TextureOf(a).Some?
    && !Degenerate(FinalGeometry(c, BaseGeometry(a).value, e))
  }

  /** A position adds one draw call when it is drawable and none otherwise;
      earlier draws are kept. */
  lemma DrawSlotDrawsIff(st: DrawState, k: nat, skel: Skeleton, i: nat, e: Engine)
    requires i < |skel.drawOrder|
    ensures var r := DrawSlot(st, k, skel, i, e);
      |r.draws| == |st.draws| + (if Drawable(st.clipper, skel, i, e) then 1 else 0) &&
      r.draws[..|st.draws|] == st.draws
  {
  }

  /** What a draw call of a drawable position carries: unit and position,
      the slot's blend mode under premultiplied alpha, the page texture,
      the indices of the final geometry and one vertex per position pair
      whose colour is the product of skeleton and slot colour. After it,
      the scratch buffers hold exactly the uploaded data and the blend pair
      is the one drawn with. */
  lemma DrawnCall(st: DrawState, k: nat, skel: Skeleton, i: nat, e: Engine)
    requires i < |skel.drawOrder|
    requires Drawable(st.clipper, skel, i, e)
    ensures var r := DrawSlot(st, k, skel, i, e);
      var slot := skel.drawOrder[i].value;
      var a := slot.attachment.value;
      var g := FinalGeometry(st.clipper, BaseGeometry(a).value, e);
      var col := Modulate(skel.color, slot.color);
      var d := r.draws[|r.draws| - 1];
      && |r.draws| == |st.draws| + 1
      && d.unit == k && d.slot == i
      && d.blend == BlendFactors(slot.blendMode, true)
      && Some(d.texture) == TextureOf(a)
      && d.indices == g.idx
      && |d.verts| == |g.xy| / 2
      && (forall v :: 0 <= v < |d.verts| ==>
            d.verts[v] == Vtx(g.xy[2 * v], g.xy[2 * v + 1], g.uv[2 * v], g.uv[2 * v + 1], col.r, col.g, col.b, col.a))
      && r.verts == d.verts && r.indices == d.indices
      && r.blend == Some(d.blend)
  {
  }

  /** A drawn region with no clip region active yields four vertices at the
      attachment's world corners with its UVs, and the two quad triangles. */
  lemma RegionQuad(st: DrawState, k: nat, skel: Skeleton, i: nat, e: Engine)
    requires i < |skel.drawOrder|
    requires skel.drawOrder[i].Some? && skel.drawOrder[i].value.attachment.Some?
    requires skel.drawOrder[i].value.attachment.value.RegionAttachment?
    requires TextureOf(skel.drawOrder[i].value.attachment.value).Some?
    requires !IsClipping(st.clipper)
    ensures var r := DrawSlot(st, k, skel, i, e);
      var slot := skel.drawOrder[i].value;
      var a := slot.attachment.value;
      var col := Modulate(skel.color, slot.color);
      var d := r.draws[|r.draws| - 1];
      && |r.draws| == |st.draws| + 1
      && d.indices == [0, 1, 2, 2, 3, 0]
      && |d.verts| == 4
      && (forall v :: 0 <= v < 4 ==>
            d.verts[v] == Vtx(a.world[2 * v], a.world[2 * v + 1], a.uvs[2 * v], a.uvs[2 * v + 1], col.r, col.g, col.b, col.a))
  {
    DrawnCall(st, k, skel, i, e);
  }

  /** A mesh with no clip region active reproduces the attachment's UVs and
      triangle list when it has at least 8 position floats and 3 indices,
      and draws nothing otherwise. */
  lemma MeshCopy(st: DrawState, k: nat, skel: Skeleton, i: nat, e: Engine)
    requires i < |skel.drawOrder|
    requires skel.drawOrder[i].Some? && skel.drawOrder[i].value.attachment.Some?
    requires skel.drawOrder[i].value.attachment.value.MeshAttachment?
    requires TextureOf(skel.drawOrder[i].value.attachment.value).Some?
    requires !IsClipping(st.clipper)
    ensures var r := DrawSlot(st, k, skel, i, e);
      var a := skel.drawOrder[i].value.attachment.value;
      if |a.world| >= 8 && |a.triangles| >= 3 then
        var d := r.draws[|r.draws| - 1];
        && |r.draws| == |st.draws| + 1
        && d.indices == a.triangles
        && |d.verts| == |a.world| / 2
        && (forall v :: 0 <= v < |d.verts| ==>
              d.verts[v].x == a.world[2 * v] && d.verts[v].y == a.world[2 * v + 1] &&
              d.verts[v].u == a.uvs[2 * v] && d.verts[v].v == a.uvs[2 * v + 1])
      else r.draws == st.draws
  {
    var a := skel.drawOrder[i].value.attachment.value;
    if |a.world| >= 8 && |a.triangles| >= 3 {
      DrawnCall(st, k, skel, i, e);
    }
  }

  /** A single-triangle mesh (three vertices, six floats) is never drawn:
      the size test asks for at least four vertices. */
  lemma SingleTriangleMeshNotDrawn(st: DrawState, k: nat, skel: Skeleton, i: nat, e: Engine)
    requires i < |skel.drawOrder|
    requires skel.drawOrder[i].Some? && skel.drawOrder[i].value.attachment.Some?
    requires skel.drawOrder[i].value.attachment.value.MeshAttachment?
    requires |skel.drawOrder[i].value.attachment.value.world| == 6
    requires !IsClipping(st.clipper)
    ensures DrawSlot(st, k, skel, i, e).draws == st.draws
  {
  }

  /** A slot whose region or mesh is skipped as degenerate still sets the
      blend pair of its blend mode. */
  lemma DegenerateStillSetsBlend(st: DrawState, k: nat, skel: Skeleton, i: nat, e: Engine)
    requires i < |skel.drawOrder|
    requires skel.drawOrder[i].Some? && skel.drawOrder[i].value.attachment.Some?
    requires BaseGeometry(skel.drawOrder[i].value.attachment.value).Some?
    requires TextureOf(skel.drawOrder[i].value.attachment.value).Some?
    requires Degenerate(FinalGeometry(st.clipper, BaseGeometry(skel.drawOrder[i].value.attachment.value).value, e))
    ensures DrawSlot(st, k, skel, i, e).draws == st.draws
    ensures DrawSlot(st, k, skel, i, e).blend == Some(BlendFactors(skel.drawOrder[i].value.blendMode, true))
  {
  }

  // ------------------------------------------------------------------
  // Order of draws

  /** Draw calls of unit k from positions below n, in strictly increasing
      position order. */
  predicate InDrawOrder(ds: seq<DrawCall>, k: nat, n: nat)
  {
    && (forall j :: 0 <= j < |ds| ==> ds[j].unit == k && ds[j].slot < n)
    && (forall j, l :: 0 <= j < l < |ds| ==> ds[j].slot < ds[l].slot)
  }

  /** `after` extends `before` by draws of unit k in draw order, below n. */
  predicate AppendsInDrawOrder(before: seq<DrawCall>, after: seq<DrawCall>, k: nat, n: nat)
  {
    |before| <= |after| && after[..|before|] == before && InDrawOrder(after[|before|..], k, n)
  }

  /** A draw of position n after draws below n keeps draw order. */
  lemma InDrawOrderExtend(ds: seq<DrawCall>, d: DrawCall, k: nat, n: nat)
    requires InDrawOrder(ds, k, n) && d.unit == k && d.slot == n
    ensures InDrawOrder(ds + [d], k, n + 1)
  {
  }

  /** `after` is `before`, or `before` plus one draw of position i of unit k. */
  predicate AddsAtMostOne(before: seq<DrawCall>, after: seq<DrawCall>, k: nat, i: nat)
  {
    || after == before
    || (|after| == |before| + 1 && after == before + [after[|before|]] && after[|before|].unit == k && after[|before|].slot == i)
  }

  /** One position adds at most one draw, tagged with that position. */
  lemma DrawSlotAddsAtMostOne(st: DrawState, k: nat, skel: Skeleton, i: nat, e: Engine)
    requires i < |skel.drawOrder|
    ensures AddsAtMostOne(st.draws, DrawSlot(st, k, skel, i, e).draws, k, i)
  {
  }

  /** Draw order below n, then at most one draw of position n, is draw
      order below n + 1. */
  lemma AppendsChain(a: seq<DrawCall>, b: seq<DrawCall>, c: seq<DrawCall>, k: nat, n: nat)
    requires AppendsInDrawOrder(a, b, k, n) && AddsAtMostOne(b, c, k, n)
    ensures AppendsInDrawOrder(a, c, k, n + 1)
  {
    if c != b {
      var d := c[|b|];
      assert c[|a|..] == b[|a|..] + [d];
      InDrawOrderExtend(b[|a|..], d, k, n);
    }
  }

  /** A traversal only appends draws, at most one per position, in draw
      order. */
  lemma {:induction false} DrawsInDrawOrder(st: DrawState, k: nat, skel: Skeleton, n: nat, e: Engine)
    requires n <= |skel.drawOrder|
    ensures AppendsInDrawOrder(st.draws, DrawSlots(st, k, skel, n, e).draws, k, n)
  {
    if n > 0 {
      DrawsInDrawOrder(st, k, skel, n - 1, e);
      var s := DrawSlots(st, k, skel, n - 1, e);
      DrawSlotAddsAtMostOne(s, k, skel, n - 1, e);
      AppendsChain(st.draws, s.draws, DrawSlot(s, k, skel, n - 1, e).draws, k, n - 1);
    }
  }

  // ------------------------------------------------------------------
  // Clip bookkeeping

  /** The clipper calls of the first n positions. */
  function ClipEvents(k: nat, skel: Skeleton, n: nat): seq<ClipEvent>
    requires n <= |skel.drawOrder|
  {
    if n == 0 then [] else ClipEvents(k, skel, n - 1) + SlotClipEvents(k, skel, n - 1)
  }

  /** One position appends exactly its own clipper calls. */
  lemma DrawSlotClipEvents(st: DrawState, k: nat, skel: Skeleton, i: nat, e: Engine)
    requires i < |skel.drawOrder|
    ensures DrawSlot(st, k, skel, i, e).clipLog == st.clipLog + SlotClipEvents(k, skel, i)
  {
  }

  /** A traversal appends exactly those clipper calls. */
  lemma {:induction false} ClipLogOfTraversal(st: DrawState, k: nat, skel: Skeleton, n: nat, e: Engine)
    requires n <= |skel.drawOrder|
    ensures DrawSlots(st, k, skel, n, e).clipLog == st.clipLog + ClipEvents(k, skel, n)
  {
    if n > 0 {
      ClipLogOfTraversal(st, k, skel, n - 1, e);
      DrawSlotClipEvents(DrawSlots(st, k, skel, n - 1, e), k, skel, n - 1, e);
    }
  }

  /** How many `clipEnd` calls for position i of unit k evs holds. */
  function ClipEndCount(evs: seq<ClipEvent>, k: nat, i: nat): nat
  {
    if evs == [] then 0
    else ClipEndCount(evs[..|evs| - 1], k, i) + (if evs[|evs| - 1] == ClipEndAt(k, i) then 1 else 0)
  }

  lemma {:induction false} ClipEndCountAppend(a: seq<ClipEvent>, b: seq<ClipEvent>, k: nat, i: nat)
    ensures ClipEndCount(a + b, k, i) == ClipEndCount(a, k, i) + ClipEndCount(b, k, i)
    decreases |b|
  {
    if b == [] {
      assert a + b == a;
    } else {
      assert (a + b)[..|a + b| - 1] == a + b[..|b| - 1];
      assert (a + b)[|a + b| - 1] == b[|b| - 1];
      ClipEndCountAppend(a, b[..|b| - 1], k, i);
    }
  }

  /** Every non-null position gets exactly one `clipEnd`, null positions
      none. */
  lemma {:induction false} OneClipEndPerSlot(k: nat, skel: Skeleton, n: nat, i: nat)
    requires n <= |skel.drawOrder|
    ensures ClipEndCount(ClipEvents(k, skel, n), k, i) == if i < n && skel.drawOrder[i].Some? then 1 else 0
  {
    if n > 0 {
      OneClipEndPerSlot(k, skel, n - 1, i);
      var a, b := ClipEvents(k, skel, n - 1), SlotClipEvents(k, skel, n - 1);
      ClipEndCountAppend(a, b, k, i);
      if skel.drawOrder[n - 1].None? {
        assert b == [];
      } else if b == [ClipEndAt(k, n - 1)] {
        assert ClipEndCount(b, k, i) == if i == n - 1 then 1 else 0 by {
          assert b[..0] == [];
        }
      } else {
        assert b == [ClipStartAt(k, n - 1), ClipEndAt(k, n - 1)];
        assert ClipEndCount(b, k, i) == if i == n - 1 then 1 else 0 by {
          assert b[..1] == [ClipStartAt(k, n - 1)];
          assert b[..1][..0] == [];
          assert ClipEndCount(b[..1], k, i) == 0;
        }
      }
    }
  }

  /** Every `clipStart` in evs is immediately followed by the `clipEnd` of
      the same position. */
  predicate StartsThenEnds(evs: seq<ClipEvent>, k: nat)
  {
    forall j :: 0 <= j < |evs| && evs[j].ClipStartAt? ==>
      j + 1 < |evs| && evs[j + 1] == ClipEndAt(k, evs[j].slot)
  }

  /** Every `clipStart` is immediately followed by the `clipEnd` of the
      same position. */
  lemma {:induction false} ClipStartThenEnd(k: nat, skel: Skeleton, n: nat)
    requires n <= |skel.drawOrder|
    ensures StartsThenEnds(ClipEvents(k, skel, n), k)
  {
    if n > 0 {
      ClipStartThenEnd(k, skel, n - 1);
      var old' := ClipEvents(k, skel, n - 1);
      var evs := ClipEvents(k, skel, n);
      assert evs == old' + SlotClipEvents(k, skel, n - 1);
      forall j | 0 <= j < |evs| && evs[j].ClipStartAt?
        ensures j + 1 < |evs| && evs[j + 1] == ClipEndAt(k, evs[j].slot)
      {
        if j < |old'| {
          assert evs[j] == old'[j];
          assert evs[j + 1] == old'[j + 1];
        } else {
          var tail := SlotClipEvents(k, skel, n - 1);
          assert evs[j] == tail[j - |old'|];
          assert tail == [ClipStartAt(k, n - 1), ClipEndAt(k, n - 1)] && j == |old'|;
          assert evs[j + 1] == tail[1];
        }
      }
    }
  }

  /** A draw order without clipping attachments never activates the
      clipper, so every geometry drawn is the unclipped one. */
  lemma {:induction false} NoClipAttachmentNoClipping(st: DrawState, k: nat, skel: Skeleton, n: nat, e: Engine)
    requires n <= |skel.drawOrder|
    requires !IsClipping(st.clipper)
    requires forall i :: 0 <= i < n && skel.drawOrder[i].Some? && skel.drawOrder[i].value.attachment.Some? ==>
      !skel.drawOrder[i].value.attachment.value.ClippingAttachment?
    ensures !IsClipping(DrawSlots(st, k, skel, n, e).clipper)
  {
    if n > 0 {
      NoClipAttachmentNoClipping(st, k, skel, n - 1, e);
    }
  }

  // ------------------------------------------------------------------
  // Units are independent of one another

  /** A state with the given clipper and nothing else. */
  function Fresh(c: Clipper): DrawState
  {
    DrawState(c, None, [], [], [], [])
  }

  /** The draws of one position depend only on the clipper it meets, which
      is also all its new clipper depends on. */
  lemma DrawSlotOnlyReadsClipper(st: DrawState, k: nat, skel: Skeleton, i: nat, e: Engine)
    requires i < |skel.drawOrder|
    ensures DrawSlot(st, k, skel, i, e).draws == st.draws + DrawSlot(Fresh(st.clipper), k, skel, i, e).draws
    ensures DrawSlot(st, k, skel, i, e).clipper == DrawSlot(Fresh(st.clipper), k, skel, i, e).clipper
  {
  }

  /** The same for a traversal of n positions. */
  lemma {:induction false} DrawSlotsOnlyReadClipper(st: DrawState, k: nat, skel: Skeleton, n: nat, e: Engine)
    requires n <= |skel.drawOrder|
    ensures DrawSlots(st, k, skel, n, e).draws == st.draws + DrawSlots(Fresh(st.clipper), k, skel, n, e).draws
    ensures DrawSlots(st, k, skel, n, e).clipper == DrawSlots(Fresh(st.clipper), k, skel, n, e).clipper
  {
    if n > 0 {
      DrawSlotsOnlyReadClipper(st, k, skel, n - 1, e);
      var s := DrawSlots(st, k, skel, n - 1, e);
      var b := DrawSlots(Fresh(st.clipper), k, skel, n - 1, e);
      DrawSlotOnlyReadsClipper(s, k, skel, n - 1, e);
      DrawSlotOnlyReadsClipper(b, k, skel, n - 1, e);
    }
  }

  /** The draw calls of unit k, drawn from a closed clipper. */
  function UnitDraws(k: nat, skel: Skeleton, e: Engine): seq<DrawCall>
  {
    DrawUnitState(Fresh(Clipper(None)), k, skel, e).draws
  }

  /** The draw calls of a frame's first n units: each unit's own draws, in
      unit order. */
  function FrameDraws(us: seq<Unit>, n: nat, e: Engine): seq<DrawCall>
    requires n <= |us|
  {
    if n == 0 then []
    else FrameDraws(us, n - 1, e) + match us[n - 1].skeleton
      case None => []
      case Some(skel) => UnitDraws(n - 1, skel, e)
  }

  /** From a closed clipper, a frame draws every unit's own draws in unit
      order, and leaves the clipper closed: no clip region of one unit
      reaches the next. */
  lemma {:induction false} FrameDrawsPerUnit(st: DrawState, us: seq<Unit>, n: nat, e: Engine)
    requires n <= |us|
    requires !IsClipping(st.clipper)
    ensures DrawUnits(st, us, n, e).draws == st.draws + FrameDraws(us, n, e)
    ensures !IsClipping(DrawUnits(st, us, n, e).clipper)
  {
    if n > 0 {
      FrameDrawsPerUnit(st, us, n - 1, e);
      var s := DrawUnits(st, us, n - 1, e);
      if us[n - 1].skeleton.Some? {
        var skel := us[n - 1].skeleton.value;
        DrawSlotsOnlyReadClipper(s, n - 1, skel, |skel.drawOrder|, e);
        assert s.clipper == Clipper(None);
      }
    }
  }

}
