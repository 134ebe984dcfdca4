/** The compositor's two objects: the render-side `SpineRenderer`, which
    owns the units and the per-frame drawing state, and the GUI-side
    `SpineViewport`, which holds the unit configuration and hands pending
    trigger commands over. */
module Compositor {

  import opened Wrappers
  import opened SpineEngine
  import opened Blend
  import opened UnitLoading
  import opened Triggers
  import opened Drawing
  import opened Stepping

  /** The blend pair enabled when the GL state is first set up. */
  const InitialBlend: BlendPair := BlendPair(One, OneMinusSrcAlpha)

  /** `std::vector<float>` copy of the first n floats of an array (the mesh
      UV copy loop). */
  method CopyFloats(src: seq<real>, n: nat) returns (dst: seq<real>)
    requires n <= |src|
    ensures dst == src[..n]
  {
    dst := seq(n, _ => 0.0);
    for j := 0 to n
      invariant |dst| == n
      invariant forall l :: 0 <= l < j ==> dst[l] == src[l]
    {
      dst := dst[j := src[j]];
    }
  }

  /** Copy of a mesh's triangle list into a fresh index vector. */
  method CopyIndices(src: seq<u16>) returns (dst: seq<u16>)
    ensures dst == src
  {
    dst := seq(|src|, _ => 0 as u16);
    for t := 0 to |src|
      invariant |dst| == |src|
      invariant forall l :: 0 <= l < t ==> dst[l] == src[l]
    {
      dst := dst[t := src[t]];
    }
  }

  /** One iteration of the constructor's loading loop: the checks in the
      order the constructor runs them, each failing one skipping the
      record, then the unit built from the parsed data. */
  method LoadRecord(d: Descriptor, assets: Assets) returns (r: LoadResult)
    ensures r == LoadUnit(d, assets)
  {
    var name, atlasPath, skelPath := Text(d.name), Text(d.atlas), Text(d.skel);
    if name == "" || atlasPath == "" || skelPath == "" {
      return Skipped(InvalidConfig);
    }
    if atlasPath !in assets.atlases {
      return Skipped(AtlasFailed);
    }
    var atlas := assets.atlases[atlasPath];
    var scale := Number(d.scale, 1.0);
    if skelPath !in assets.files || |assets.files[skelPath].bytes| <= 0 {
      return Skipped(SkelMissing);
    }
    var file := assets.files[skelPath];
    if !file.opens {
      return Skipped(SkelUnreadable);
    }
    var parsed := assets.parse(atlas, scale, file.bytes);
    if parsed.None? {
      return Skipped(ParseFailed);
    }
    var data := parsed.value;
    var skeleton := assets.setup(data);
    var state := AnimState([], []);
    var x, y := Number(d.x, 0.0), Number(d.y, 0.0);
    skeleton := skeleton.(x := x, y := y);
    var defAnim := Text(d.defaultAnim);
    if defAnim != "" {
      var anim := FindAnimation(data, defAnim);
      if anim.Some? {
        state := state.(ops := state.ops + [SetAnimation(0, anim.value, true)]);
      }
    }
    assert state.ops == DefaultOps(data, defAnim);
    r := Loaded(Unit(name, atlas, scale, data, Some(skeleton), Some(state), x, y));
  }

  /** A vector resized to n elements: a prefix is kept and new elements are
      zero. */
  function Resized<T>(s: seq<T>, n: nat, zero: T): (r: seq<T>)
    ensures |r| == n
    ensures forall j :: 0 <= j < n && j < |s| ==> r[j] == s[j]
  {
    seq(n, j requires 0 <= j < n => if j < |s| then s[j] else zero)
  }

  const ZeroVtx: Vtx := Vtx(0.0, 0.0, 0.0, 0.0, 0.0, 0.0, 0.0, 0.0)

  class SpineRenderer {
    var units: seq<Unit>
    var pendingCommands: seq<Command>
    var timerStarted: bool
    var lastNs: int
    var glInited: bool
    var clipper: Option<Clipper>
    var blend: Option<BlendPair>
    var verts: seq<Vtx>
    var indices: seq<u16>
    var draws: seq<DrawCall>
    var clipLog: seq<ClipEvent>

    /** Every unit is fully built; the clipper exists once GL is set up and
        no clip region is open between frames. */
    ghost predicate Valid()
      reads this
    {
      && (forall k :: 0 <= k < |units| ==> FullyBuilt(units[k]))
      && (glInited <==> clipper.Some?)
      && (clipper.Some? ==> !IsClipping(clipper.value))
    }

    /** The drawing state the traversal functions speak about. */
    function Canvas(): DrawState
      reads this
      requires clipper.Some?
    {
      DrawState(clipper.value, blend, verts, indices, draws, clipLog)
    }

    /** The drawing state once the GL set-up has run. */
    ghost function AfterGlInit(): DrawState
      reads this
      requires glInited ==> clipper.Some?
    {
      if glInited then Canvas() else DrawState(Clipper(None), Some(InitialBlend), verts, indices, draws, clipLog)
    }

    /** Nothing but the unit list has changed since construction began. */
    ghost predicate FreshOtherwise()
      reads this
    {
      && pendingCommands == [] && !timerStarted && lastNs == 0 && !glInited
      && clipper == None && blend == None
      && verts == [] && indices == [] && draws == [] && clipLog == []
    }

    /** Loads every configuration record that passes its checks, in order. */
    constructor (configs: seq<Descriptor>, assets: Assets)
      ensures Valid() && FreshOtherwise()
      ensures units == Load(configs, assets)
    {
      units := [];
      pendingCommands := [];
      timerStarted, lastNs := false, 0;
      glInited, clipper, blend := false, None, None;
      verts, indices, draws, clipLog := [], [], [], [];
      new;
      for i := 0 to |configs|
        invariant FreshOtherwise()
        invariant units == Load(configs[..i], assets)
      {
        var d := configs[i];
        assert configs[..i + 1][..i] == configs[..i];
        assert Load(configs[..i + 1], assets) == units + Survivor(LoadUnit(d, assets));
        var r := LoadRecord(d, assets);
        if r.Loaded? {
          units := units + [r.unit];
        }
      }
      assert configs[..|configs|] == configs;
      LoadedUnitsFullyBuilt(configs, assets);
    }

    /** Takes the viewport's pending commands for the next frame. */
    method Synchronize(item: SpineViewport)
      modifies this`pendingCommands, item`pendingCommands
      ensures pendingCommands == old(item.pendingCommands)
      ensures item.pendingCommands == []
    {
      pendingCommands := item.TakeCommands();
    }

    /** Creates the clipper and sets the first blend pair, once. */
    method InitGlIfNeeded()
      requires glInited ==> clipper.Some?
      modifies this`glInited, this`clipper, this`blend
      ensures glInited && clipper.Some?
      ensures old(glInited) ==> clipper == old(clipper) && blend == old(blend)
      ensures !old(glInited) ==> clipper == Some(Clipper(None)) && blend == Some(InitialBlend)
      ensures Canvas() == old(AfterGlInit())
    {
      if glInited {
        return;
      }
      clipper := Some(Clipper(None));
      blend := Some(InitialBlend);
      glInited := true;
    }

    /** Runs a command list against the units. */
    method ExecuteTrigger(commands: seq<Command>)
      requires HasStates(units)
      modifies this`units
      ensures units == ApplyCommands(old(units), commands)
    {
      for c := 0 to |commands|
        invariant HasStates(units)
        invariant ApplyCommands(units, commands[c..]) == ApplyCommands(old(units), commands)
      {
        var cmd := commands[c];
        assert commands[c..][0] == cmd && commands[c..][1..] == commands[c + 1..];
        var found := FindUnit(units, UnitOf(cmd));
        if found.None? {
          continue;
        }
        IssueQueue(found.value, QueueOf(cmd), TrackOf(cmd), LoopLastOf(cmd));
      }
      assert commands[|commands|..] == [];
    }

    /** The inner loop of a trigger: each queue name that resolves in unit
        u's skeleton data becomes one track operation. */
    method IssueQueue(u: nat, queue: seq<string>, track: int, loopLast: bool)
      requires u < |units| && units[u].state.Some?
      modifies this`units
      ensures units == old(units)[u := Issue(old(units)[u], QueueOps(old(units)[u].data, queue, track, loopLast, |queue|))]
    {
      ghost var before := units;
      assert before[u].state.value.ops + [] == before[u].state.value.ops;
      for i := 0 to |queue|
        invariant units == before[u := Issue(before[u], QueueOps(before[u].data, queue, track, loopLast, i))]
      {
        ghost var issued := QueueOps(before[u].data, queue, track, loopLast, i);
        ghost var next := OpAt(before[u].data, queue, track, loopLast, i);
        assert QueueOps(before[u].data, queue, track, loopLast, i + 1) == issued + next;
        assert before[u].state.value.ops + issued + next == before[u].state.value.ops + (issued + next);
        assert issued + [] == issued;
        var isLast := i == |queue| - 1;
        var loop := if isLast then loopLast else false;
        var anim := FindAnimation(units[u].data, queue[i]);
        if anim.None? {
          continue;
        }
        if i == 0 {
          units := units[u := Issue(units[u], [SetAnimation(track, anim.value, loop)])];
        } else {
          units := units[u := Issue(units[u], [AddAnimation(track, anim.value, loop, 0.0)])];
        }
      }
    }

    /** Steps every unit that has both an animation state and a skeleton. */
    method AdvanceUnits(dt: real, e: Engine)
      modifies this`units
      ensures units == StepUnits(old(units), dt, e)
      ensures (forall k :: 0 <= k < |old(units)| ==> FullyBuilt(old(units)[k])) ==>
        forall k :: 0 <= k < |units| ==> FullyBuilt(units[k])
    {
      ghost var built := forall k :: 0 <= k < |units| ==> FullyBuilt(units[k]);
      if built {
        StepKeepsFullyBuilt(units, dt, e);
      }
      for k := 0 to |units|
        invariant |units| == |old(units)|
        invariant forall j :: 0 <= j < k ==> units[j] == StepUnit(old(units)[j], dt, e)
        invariant forall j :: k <= j < |units| ==> units[j] == old(units)[j]
      {
        var u := units[k];
        if u.state.None? || u.skeleton.None? {
          continue;
        }
        var s := u.state.value.(updates := u.state.value.updates + [dt]);
        var skeleton := e.pose(s, u.skeleton.value);
        units := units[k := u.(state := Some(s), skeleton := Some(skeleton))];
      }
    }

    /** `clipEnd(slot)`. */
    method CallClipEnd(k: nat, i: nat, slot: Slot)
      requires clipper.Some?
      modifies this`clipper, this`clipLog
      ensures clipper == Some(ClipEnd(old(clipper).value, slot.data))
      ensures clipLog == old(clipLog) + [ClipEndAt(k, i)]
    {
      clipper := Some(ClipEnd(clipper.value, slot.data));
      clipLog := clipLog + [ClipEndAt(k, i)];
    }

    /** Resizes the vertex buffer and fills it with the interleaved
        vertices of g. */
    method FillVertices(g: Geometry, c: Color)
      modifies this`verts
      ensures verts == Vertices(g, c)
    {
      var n := |g.xy| / 2;
      verts := Resized(verts, n, ZeroVtx);
      for v := 0 to n
        invariant |verts| == n
        invariant forall w :: 0 <= w < v ==> verts[w] == Vertices(g, c)[w]
      {
        verts := verts[v := Vtx(g.xy[v * 2 + 0], g.xy[v * 2 + 1], g.uv[v * 2 + 0], g.uv[v * 2 + 1], c.r, c.g, c.b, c.a)];
      }
    }

    /** Resizes the index buffer and copies idx into it. */
    method FillIndices(idx: seq<u16>)
      modifies this`indices
      ensures indices == idx
    {
      indices := Resized(indices, |idx|, 0 as u16);
      for j := 0 to |idx|
        invariant |indices| == |idx|
        invariant forall l :: 0 <= l < j ==> indices[l] == idx[l]
      {
        indices := indices[j := idx[j]];
      }
    }

    /** One iteration of the draw-order loop. */
    method DrawSlotAt(k: nat, skel: Skeleton, i: nat, e: Engine)
      requires i < |skel.drawOrder| && clipper.Some?
      modifies this`clipper, this`blend, this`verts, this`indices, this`draws, this`clipLog
      ensures clipper.Some? && Canvas() == DrawSlot(old(Canvas()), k, skel, i, e)
    {
      var s := skel.drawOrder[i];
      if s.None? {
        return;
      }
      var slot := s.value;
      var attachment := slot.attachment;
      if attachment.Some? && attachment.value.ClippingAttachment? {
        clipper := Some(ClipStart(clipper.value, attachment.value.clip));
        clipLog := clipLog + [ClipStartAt(k, i)];
        CallClipEnd(k, i, slot);
        return;
      }
      if attachment.None? {
        CallClipEnd(k, i, slot);
        return;
      }
      var a := attachment.value;
      var col := Modulate(skel.color, slot.color);
      var baseXY: seq<real>, baseUV: seq<real>, baseIdx: seq<u16>, region: Option<AtlasRegion>;
      if a.RegionAttachment? {
        baseXY, baseUV, baseIdx := a.world, a.uvs, QuadIndices;
        region := a.region;
      } else if a.MeshAttachment? {
        baseXY := a.world;
        baseUV := CopyFloats(a.uvs, |a.world|);
        assert baseUV == a.uvs;
        baseIdx := CopyIndices(a.triangles);
        region := a.region;
      } else {
        CallClipEnd(k, i, slot);
        return;
      }
      if region.None? || region.value.page.None? || region.value.page.value.texture.None? {
        CallClipEnd(k, i, slot);
        return;
      }
      blend := Some(BlendFactors(slot.blendMode, true));
      var clipping := IsClipping(clipper.value);
      var base: Geometry := Geometry(baseXY, baseUV, baseIdx);
      assert BaseGeometry(a) == Some(base) && TextureOf(a) == region.value.page.value.texture;
      var final: Geometry;
      if clipping {
        final := e.clipTriangles(clipper.value.active.value, base);
      } else {
        final := base;
      }
      assert final == FinalGeometry(old(clipper).value, base, e);
      if |final.xy| < 8 || |final.idx| < 3 {
        CallClipEnd(k, i, slot);
        return;
      }
      FillVertices(final, col);
      FillIndices(final.idx);
      var tex := region.value.page.value.texture.value;
      draws := draws + [DrawCall(k, i, blend.value, tex, verts, indices)];
      CallClipEnd(k, i, slot);
    }

    /** Draws one unit: every draw-order position, then `clipEnd2`. Without
        a clipper nothing happens. */
    method DrawUnit(k: nat, e: Engine)
      requires k < |units| && units[k].skeleton.Some?
      modifies this`clipper, this`blend, this`verts, this`indices, this`draws, this`clipLog
      ensures old(clipper).None? ==>
        clipper == None && blend == old(blend) && verts == old(verts) && indices == old(indices) &&
        draws == old(draws) && clipLog == old(clipLog)
      ensures old(clipper).Some? ==>
        clipper.Some? && Canvas() == DrawUnitState(old(Canvas()), k, units[k].skeleton.value, e)
    {
      if clipper.None? {
        return;
      }
      var skel := units[k].skeleton.value;
      ghost var start := Canvas();
      for i := 0 to |skel.drawOrder|
        invariant clipper.Some? && Canvas() == DrawSlots(start, k, skel, i, e)
      {
        DrawSlotAt(k, skel, i, e);
      }
      clipper := Some(ClipEnd2(clipper.value));
      clipLog := clipLog + [ClipEnd2At(k)];
    }

    /** One frame: pending commands, time step, stepping, then every unit
        with a skeleton drawn in order. `startNs` is the reading taken when
        the timer is first started, `nowNs` this frame's reading. */
    method Render(startNs: int, nowNs: int, e: Engine) returns (dt: real)
      requires Valid()
      modifies this`units, this`pendingCommands, this`timerStarted, this`lastNs, this`glInited
      modifies this`clipper, this`blend, this`verts, this`indices, this`draws, this`clipLog
      ensures Valid()
      ensures pendingCommands == []
      ensures timerStarted && lastNs == nowNs
      ensures dt == ClampDt(ElapsedSeconds(if old(timerStarted) then old(lastNs) else startNs, nowNs))
      ensures 0.0 <= dt <= MaxDt
      ensures units == StepUnits(ApplyCommands(old(units), old(pendingCommands)), dt, e)
      ensures glInited && clipper.Some?
      ensures Canvas() == DrawUnits(old(AfterGlInit()), units, |units|, e)
      ensures draws == old(draws) + FrameDraws(units, |units|, e)
    {
      dt := BeginFrame(startNs, nowNs, e);
      DrawAll(e);
    }

    /** Everything a frame does before drawing: GL set-up, pending commands,
        the time step and stepping. */
    method BeginFrame(startNs: int, nowNs: int, e: Engine) returns (dt: real)
      requires Valid()
      modifies this`units, this`pendingCommands, this`timerStarted, this`lastNs, this`glInited
      modifies this`clipper, this`blend
      ensures Valid() && glInited && clipper.Some?
      ensures pendingCommands == []
      ensures timerStarted && lastNs == nowNs
      ensures dt == ClampDt(ElapsedSeconds(if old(timerStarted) then old(lastNs) else startNs, nowNs))
      ensures units == StepUnits(ApplyCommands(old(units), old(pendingCommands)), dt, e)
      ensures Canvas() == old(AfterGlInit())
    {
      InitGlIfNeeded();
      RunPending();
      dt := Tick(startNs, nowNs);
      AdvanceUnits(dt, e);
    }

    /** The pending command list, if non-empty, is executed and cleared.
        The emptiness guard changes no behaviour: an empty command list
        applies no operations. */
    method RunPending()
      requires forall k :: 0 <= k < |units| ==> FullyBuilt(units[k])
      modifies this`units, this`pendingCommands
      ensures HasStates(old(units))
      ensures units == ApplyCommands(old(units), old(pendingCommands))
      ensures forall k :: 0 <= k < |units| ==> FullyBuilt(units[k])
      ensures pendingCommands == []
    {
      assert HasStates(units);
      TriggersKeepFullyBuilt(units, pendingCommands);
      if pendingCommands != [] {
        ExecuteTrigger(pendingCommands);
        pendingCommands := [];
      }
    }

    /** The frame timer: started on the first frame, then the elapsed
        time since the previous frame, clamped. */
    method Tick(startNs: int, nowNs: int) returns (dt: real)
      modifies this`timerStarted, this`lastNs
      ensures timerStarted && lastNs == nowNs
      ensures dt == ClampDt(ElapsedSeconds(if old(timerStarted) then old(lastNs) else startNs, nowNs))
    {
      if !timerStarted {
        timerStarted := true;
        lastNs := startNs;
      }
      dt := ElapsedSeconds(lastNs, nowNs);
      lastNs := nowNs;
      if dt < 0.0 {
        dt := 0.0;
      }
      if dt > MaxDt {
        dt := MaxDt;
      }
    }

    /** The draw loop of a frame: every unit with a skeleton, in order. */
    method DrawAll(e: Engine)
      requires clipper.Some? && !IsClipping(clipper.value)
      modifies this`clipper, this`blend, this`verts, this`indices, this`draws, this`clipLog
      ensures clipper.Some? && !IsClipping(clipper.value)
      ensures Canvas() == DrawUnits(old(Canvas()), units, |units|, e)
      ensures draws == old(draws) + FrameDraws(units, |units|, e)
    {
      ghost var start := Canvas();
      for k := 0 to |units|
        invariant clipper.Some? && Canvas() == DrawUnits(start, units, k, e)
      {
        if units[k].skeleton.Some? {
          DrawUnit(k, e);
        }
      }
      FrameDrawsPerUnit(start, units, |units|, e);
    }
  }

  class SpineViewport {
    var units: seq<Descriptor>
    var pendingCommands: seq<Command>

    constructor ()
      ensures units == [] && pendingCommands == []
    {
      units := [];
      pendingCommands := [];
    }

    /** The `units` property setter. */
    method SetUnits(u: seq<Descriptor>)
      modifies this`units
      ensures units == u
    {
      units := u;
    }

    /** Replaces (does not extend) the pending command list. */
    method Trigger(commands: seq<Command>)
      modifies this`pendingCommands
      ensures pendingCommands == commands
    {
      pendingCommands := commands;
    }

    /** Returns the pending command list and empties it. */
    method TakeCommands() returns (taken: seq<Command>)
      modifies this`pendingCommands
      ensures taken == old(pendingCommands)
      ensures pendingCommands == []
    {
      taken := pendingCommands;
      pendingCommands := [];
    }

    /** A renderer built from the configuration list as it stands. */
    method CreateRenderer(assets: Assets) returns (r: SpineRenderer)
      ensures fresh(r) && r.Valid() && r.FreshOtherwise()
      ensures r.units == Load(units, assets)
    {
      r := new SpineRenderer(units, assets);
    }
  }

  /** Two triggers before a take: only the second list is handed over, and
      a second take finds nothing. */
  method TriggerOverwrites(v: SpineViewport, a: seq<Command>, b: seq<Command>) returns (first: seq<Command>, second: seq<Command>)
    modifies v
    ensures first == b && second == []
    ensures v.pendingCommands == []
  {
    v.Trigger(a);
    v.Trigger(b);
    first := v.TakeCommands();
    second := v.TakeCommands();
  }

  /** A trigger handed over by synchronize is run by the next frame and is
      gone after it. */
  method TriggerThenFrame(v: SpineViewport, r: SpineRenderer, cs: seq<Command>, startNs: int, nowNs: int, e: Engine)
    returns (dt: real)
    requires r.Valid()
    modifies v, r
    ensures r.units == StepUnits(ApplyCommands(old(r.units), cs), dt, e)
    ensures r.pendingCommands == [] && v.pendingCommands == []
  {
    v.Trigger(cs);
    r.Synchronize(v);
    dt := r.Render(startNs, nowNs, e);
  }

}
