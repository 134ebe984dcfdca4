/** Unit loading and validation (the `SpineRenderer` constructor's checks). */
module UnitLoading {

  import opened Wrappers
  import opened SpineEngine

  /** One unit configuration record. Every field may be absent; an absent
      string reads as "" and an absent number takes its default. */
  datatype Descriptor = Descriptor(
    name: Option<string>,
    atlas: Option<string>,
    skel: Option<string>,
    scale: Option<real>,
    x: Option<real>,
    y: Option<real>,
    defaultAnim: Option<string>)

  /** A field read as a string: absent is the empty string. */
  function Text(o: Option<string>): string
  {
    match o
    case Some(s) => s
    case None => ""
  }

  /** A numeric field with its default. */
  function Number(o: Option<real>, default: real): real
  {
    match o
    case Some(v) => v
    case None => default
  }

  type AtlasId = nat

  /** What the file system says about a skeleton path: whether it can be
      opened for reading, and its bytes (whose count is the file size). */
  datatype SkelFile = SkelFile(opens: bool, bytes: seq<bv8>)

  /** The asset loaders, as oracles: the atlas paths that load, the skeleton
      files that exist, the binary parser (atlas, scale, bytes) and the
      skeleton construction in setup pose with world transform computed. */
  datatype Assets = Assets(
    atlases: map<string, AtlasId>,
    files: map<string, SkelFile>,
    parse: (AtlasId, real, seq<bv8>) -> Option<SkeletonData>,
    setup: SkeletonData -> Skeleton)

  /** A loaded unit. `scale` is the scale set on its skeleton binary. The
      skeleton and state are nullable pointers in the C++ `Unit` struct. */
  datatype Unit = Unit(
    name: string,
    atlas: AtlasId,
    scale: real,
    data: SkeletonData,
    skeleton: Option<Skeleton>,
    state: Option<AnimState>,
    x: real,
    y: real)

  /** Why a record was skipped. */
  datatype LoadError = InvalidConfig | AtlasFailed | SkelMissing | SkelUnreadable | ParseFailed

  datatype LoadResult = Loaded(unit: Unit) | Skipped(error: LoadError)

  /** The track operations issued when a unit is loaded: its default
      animation, when one is named and found, on track 0 looping. */
  function DefaultOps(data: SkeletonData, defaultAnim: string): (ops: seq<TrackOp>)
    ensures |ops| <= 1
    ensures ops != [] <==> defaultAnim != "" && defaultAnim in data.animations
    ensures forall op :: op in ops ==>
      op.SetAnimation? && op.track == 0 && op.loop &&
      op.anim < |data.animations| && data.animations[op.anim] == defaultAnim &&
      forall j :: 0 <= j < op.anim ==> data.animations[j] != defaultAnim
  {
    if defaultAnim == "" then []
    else match FindAnimation(data, defaultAnim)
      case Some(a) => [SetAnimation(0, a, true)]
      case None => []
  }

  /** A unit is fully built: it has a skeleton, an animation state and a
      non-empty name. */
  predicate FullyBuilt(u: Unit)
  {
    u.name != "" && u.skeleton.Some? && u.state.Some?
  }

  /** Loading of one record: the required-field check, then the atlas, the
      skeleton file (exists, non-empty, opens) and the parse. */
  function LoadUnit(d: Descriptor, env: Assets): (r: LoadResult)
    ensures r.Loaded? ==> FullyBuilt(r.unit) && r.unit.name == Text(d.name)
    ensures r.Loaded? <==>
      && Text(d.name) != "" && Text(d.atlas) != "" && Text(d.skel) != ""
      && Text(d.atlas) in env.atlases
      && Text(d.skel) in env.files && |env.files[Text(d.skel)].bytes| > 0
      && env.files[Text(d.skel)].opens
      && env.parse(env.atlases[Text(d.atlas)], Number(d.scale, 1.0), env.files[Text(d.skel)].bytes).Some?
    ensures r == Skipped(InvalidConfig) <==> Text(d.name) == "" || Text(d.atlas) == "" || Text(d.skel) == ""
    ensures r == Skipped(AtlasFailed) <==>
      && Text(d.name) != "" && Text(d.atlas) != "" && Text(d.skel) != ""
      && Text(d.atlas) !in env.atlases
    ensures r == Skipped(SkelMissing) <==>
      && Text(d.name) != "" && Text(d.atlas) != "" && Text(d.skel) != ""
      && Text(d.atlas) in env.atlases
      && (Text(d.skel) !in env.files || |env.files[Text(d.skel)].bytes| == 0)
    ensures r == Skipped(SkelUnreadable) <==>
      && Text(d.name) != "" && Text(d.atlas) != "" && Text(d.skel) != ""
      && Text(d.atlas) in env.atlases
      && Text(d.skel) in env.files && |env.files[Text(d.skel)].bytes| > 0
      && !env.files[Text(d.skel)].opens
    ensures r == Skipped(ParseFailed) <==>
      && Text(d.name) != "" && Text(d.atlas) != "" && Text(d.skel) != ""
      && Text(d.atlas) in env.atlases
      && Text(d.skel) in env.files && |env.files[Text(d.skel)].bytes| > 0
      && env.files[Text(d.skel)].opens
      && env.parse(env.atlases[Text(d.atlas)], Number(d.scale, 1.0), env.files[Text(d.skel)].bytes).None?
    ensures r.Loaded? ==>
      && r.unit.atlas == env.atlases[Text(d.atlas)]
      && Some(r.unit.data) == env.parse(r.unit.atlas, r.unit.scale, env.files[Text(d.skel)].bytes)
      && r.unit.scale == Number(d.scale, 1.0)
      && r.unit.skeleton.value.x == r.unit.x == Number(d.x, 0.0)
      && r.unit.skeleton.value.y == r.unit.y == Number(d.y, 0.0)
      && r.unit.state.value == AnimState(DefaultOps(r.unit.data, Text(d.defaultAnim)), [])
      && r.unit.skeleton.value == env.setup(r.unit.data).(x := r.unit.x, y := r.unit.y)
  {
    var name, atlasPath, skelPath := Text(d.name), Text(d.atlas), Text(d.skel);
    if name == "" || atlasPath == "" || skelPath == "" then Skipped(InvalidConfig)
    else if atlasPath !in env.atlases then Skipped(AtlasFailed)
    else
      var atlas := env.atlases[atlasPath];
      var scale := Number(d.scale, 1.0);
      if skelPath !in env.files || |env.files[skelPath].bytes| <= 0 then Skipped(SkelMissing)
      else if !env.files[skelPath].opens then Skipped(SkelUnreadable)
      else match env.parse(atlas, scale, env.files[skelPath].bytes)
        case None => Skipped(ParseFailed)
        case Some(data) =>
          var x, y := Number(d.x, 0.0), Number(d.y, 0.0);
          var skeleton := env.setup(data).(x := x, y := y);
          var state := AnimState(DefaultOps(data, Text(d.defaultAnim)), []);
          Loaded(Unit(name, atlas, scale, data, Some(skeleton), Some(state), x, y))
  }

  /** What one record contributes to the unit list. */
  function Survivor(r: LoadResult): seq<Unit>
  {
    if r.Loaded? then [r.unit] else []
  }

  /** The unit list built from a configuration list, left to right. */
  function Load(ds: seq<Descriptor>, env: Assets): seq<Unit>
    decreases |ds|
  {
    if ds == [] then []
    else Load(ds[..|ds| - 1], env) + Survivor(LoadUnit(ds[|ds| - 1], env))
  }

  /** Loading is compositional: the units of a concatenation are the units
      of each part, in order. */
  lemma {:induction false} LoadAppend(a: seq<Descriptor>, b: seq<Descriptor>, env: Assets)
    ensures Load(a + b, env) == Load(a, env) + Load(b, env)
    decreases |b|
  {
    if b == [] {
      assert a + b == a;
    } else {
      var b' := b[..|b| - 1];
      assert (a + b)[..|a + b| - 1] == a + b';
      assert (a + b)[|a + b| - 1] == b[|b| - 1];
      LoadAppend(a, b', env);
    }
  }

  /** A single record yields one unit or none. */
  lemma LoadSingle(d: Descriptor, env: Assets)
    ensures Load([d], env) == Survivor(LoadUnit(d, env))
  {
    assert [d][..0] == [];
  }

  /** A rejected record, wherever it stands, removes or alters nothing. */
  lemma LoadSkipsRejected(a: seq<Descriptor>, d: Descriptor, b: seq<Descriptor>, env: Assets)
    requires LoadUnit(d, env).Skipped?
    ensures Load(a + [d] + b, env) == Load(a + b, env)
  {
    LoadAppend(a + [d], b, env);
    LoadAppend(a, [d], env);
    LoadSingle(d, env);
    LoadAppend(a, b, env);
  }

  /** An accepted record contributes exactly its unit, between the units of
      its neighbours. */
  lemma LoadKeepsAccepted(a: seq<Descriptor>, d: Descriptor, b: seq<Descriptor>, env: Assets)
    requires LoadUnit(d, env).Loaded?
    ensures Load(a + [d] + b, env) == Load(a, env) + [LoadUnit(d, env).unit] + Load(b, env)
  {
    LoadAppend(a + [d], b, env);
    LoadAppend(a, [d], env);
    LoadSingle(d, env);
  }

  /** Every loaded unit is fully built, and there are no more units than
      records. */
  lemma {:induction false} LoadedUnitsFullyBuilt(ds: seq<Descriptor>, env: Assets)
    ensures |Load(ds, env)| <= |ds|
    ensures forall k :: 0 <= k < |Load(ds, env)| ==> FullyBuilt(Load(ds, env)[k])
    decreases |ds|
  {
    if ds != [] {
      LoadedUnitsFullyBuilt(ds[..|ds| - 1], env);
    }
  }

  /** The positions of the records that load, in input order. */
  function Origins(ds: seq<Descriptor>, env: Assets): seq<nat>
    decreases |ds|
  {
    if ds == [] then []
    else Origins(ds[..|ds| - 1], env) + (if LoadUnit(ds[|ds| - 1], env).Loaded? then [|ds| - 1] else [])
  }

  /** The k-th loaded unit is the unit of the record at the k-th origin, and
      origins are strictly increasing: units keep the order of their
      records. */
  lemma {:induction false} LoadedUnitsInInputOrder(ds: seq<Descriptor>, env: Assets)
    ensures |Origins(ds, env)| == |Load(ds, env)|
    ensures forall k :: 0 <= k < |Origins(ds, env)| ==>
      Origins(ds, env)[k] < |ds| && LoadUnit(ds[Origins(ds, env)[k]], env) == Loaded(Load(ds, env)[k])
    ensures forall k, l :: 0 <= k < l < |Origins(ds, env)| ==> Origins(ds, env)[k] < Origins(ds, env)[l]
    decreases |ds|
  {
    if ds != [] {
      var init := ds[..|ds| - 1];
      LoadedUnitsInInputOrder(init, env);
      assert forall k :: 0 <= k < |init| ==> ds[k] == init[k];
    }
  }

}
