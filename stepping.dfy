/** The frame's time step and the animation stepper (`render`, before the
    draw loop). */
module Stepping {

  import opened Wrappers
  import opened SpineEngine
  import opened UnitLoading

  /** The ceiling on one frame's time step, in seconds. */
  const MaxDt: real := 0.05

  /** Seconds between two timer readings in nanoseconds. */
  function ElapsedSeconds(fromNs: int, toNs: int): real
  {
    (toNs - fromNs) as real / 1000000000.0
  }

  /** The time step actually applied: negative gaps count as no time, long
      stalls as the ceiling. */
  function ClampDt(raw: real): (dt: real)
    ensures 0.0 <= dt <= MaxDt
    ensures 0.0 <= raw <= MaxDt ==> dt == raw
    ensures raw < 0.0 ==> dt == 0.0
    ensures raw > MaxDt ==> dt == MaxDt
  {
    var dt := if raw < 0.0 then 0.0 else raw;
    if dt > MaxDt then MaxDt else dt
  }

  /** Clamping is idempotent: a clamped step passes through unchanged. */
  lemma ClampIdempotent(raw: real)
    ensures ClampDt(ClampDt(raw)) == ClampDt(raw)
  {
  }

  /** Clamping never increases a gap, and keeps the order of gaps. */
  lemma ClampMonotone(a: real, b: real)
    requires a <= b
    ensures ClampDt(a) <= ClampDt(b)
  {
  }

  /** One unit's step: update its state by dt, then apply it to the skeleton
      and recompute the world transform. Units without a state or a
      skeleton are left alone. */
  function StepUnit(u: Unit, dt: real, e: Engine): Unit
  {
    if u.state.Some? && u.skeleton.Some? then
      var s := u.state.value.(updates := u.state.value.updates + [dt]);
      u.(state := Some(s), skeleton := Some(e.pose(s, u.skeleton.value)))
    else u
  }

  /** Every unit, stepped. */
  function StepUnits(us: seq<Unit>, dt: real, e: Engine): (r: seq<Unit>)
    ensures |r| == |us|
  {
    seq(|us|, k requires 0 <= k < |us| => StepUnit(us[k], dt, e))
  }

  /** Stepping changes only states and skeletons: names, data and
      placements stay; a unit with both a state and a skeleton records
      exactly one more update, by dt, and gets the pose of its updated
      state; any other unit is unchanged. */
  lemma StepTouchesOnlyPose(us: seq<Unit>, dt: real, e: Engine)
    ensures forall k :: 0 <= k < |us| ==>
      var u, v := us[k], StepUnits(us, dt, e)[k];
      && v.(state := None, skeleton := None) == u.(state := None, skeleton := None)
      && (u.state.Some? && u.skeleton.Some? ==>
            && v.state == Some(AnimState(u.state.value.ops, u.state.value.updates + [dt]))
            && v.skeleton == Some(e.pose(v.state.value, u.skeleton.value)))
      && (!(u.state.Some? && u.skeleton.Some?) ==> v == u)
  {
  }

  /** Stepping keeps every unit fully built. */
  lemma StepKeepsFullyBuilt(us: seq<Unit>, dt: real, e: Engine)
    requires forall k :: 0 <= k < |us| ==> FullyBuilt(us[k])
    ensures forall k :: 0 <= k < |StepUnits(us, dt, e)| ==> FullyBuilt(StepUnits(us, dt, e)[k])
  {
  }

}
