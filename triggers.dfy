/** Name lookup and trigger execution (`findUnit`, `executeTrigger`), as
    specification functions over the unit list. */
module Triggers {

  import opened Wrappers
  import opened SpineEngine
  import opened UnitLoading

  /** One trigger command. Absent fields take their defaults: unit "",
      track 0, an empty queue, loopLast true. */
  datatype Command = Command(
    unit: Option<string>,
    track: Option<int>,
    queue: Option<seq<string>>,
    loopLast: Option<bool>)

  function UnitOf(c: Command): string { Text(c.unit) }

  function TrackOf(c: Command): int
  {
    match c.track
    case Some(t) => t
    case None => 0
  }

  function QueueOf(c: Command): seq<string>
  {
    match c.queue
    case Some(q) => q
    case None => []
  }

  function LoopLastOf(c: Command): bool
  {
    match c.loopLast
    case Some(b) => b
    case None => true
  }

  /** `findUnit`: the index of the first unit with the given name, or None. */
  function FindUnit(us: seq<Unit>, name: string): (r: Option<nat>)
    ensures r.Some? ==> r.value < |us| && us[r.value].name == name
    ensures r.Some? ==> forall j :: 0 <= j < r.value ==> us[j].name != name
    ensures r.None? ==> forall j :: 0 <= j < |us| ==> us[j].name != name
    decreases |us|
  {
    if |us| == 0 then None
    else if us[0].name == name then Some(0)
    else match FindUnit(us[1..], name)
      case None => None
      case Some(k) => Some(k + 1)
  }

  /** The track operation for queue position i once its name has resolved to
      animation `anim`: position 0 replaces the track, later ones are queued
      with no delay; only the last position may loop. */
  function OpFor(q: seq<string>, track: int, loopLast: bool, i: nat, anim: nat): TrackOp
  {
    var loop := if i == |q| - 1 then loopLast else false;
    if i == 0 then SetAnimation(track, anim, loop) else AddAnimation(track, anim, loop, 0.0)
  }

  /** What queue position i issues: nothing when its name does not resolve. */
  function OpAt(data: SkeletonData, q: seq<string>, track: int, loopLast: bool, i: nat): seq<TrackOp>
    requires i < |q|
  {
    match FindAnimation(data, q[i])
    case None => []
    case Some(a) => [OpFor(q, track, loopLast, i, a)]
  }

  /** The operations issued by the first n positions of a queue. */
  function QueueOps(data: SkeletonData, q: seq<string>, track: int, loopLast: bool, n: nat): seq<TrackOp>
    requires n <= |q|
  {
    if n == 0 then [] else QueueOps(data, q, track, loopLast, n - 1) + OpAt(data, q, track, loopLast, n - 1)
  }

  /** The queue positions among the first n whose names resolve, in order. */
  function Resolved(data: SkeletonData, q: seq<string>, n: nat): seq<nat>
    requires n <= |q|
  {
    if n == 0 then []
    else Resolved(data, q, n - 1) + (if q[n - 1] in data.animations then [n - 1] else [])
  }

  /** Positions r are, among the first n of q, in range, resolving and
      strictly increasing, each leaving room for the ones after it. */
  predicate PositionsShaped(data: SkeletonData, q: seq<string>, r: seq<nat>, n: nat)
  {
    && (forall j :: 0 <= j < |r| ==> r[j] < n && r[j] < |q| && q[r[j]] in data.animations)
    && (forall j :: 0 <= j < |r| ==> j <= r[j] && r[j] + |r| - j <= n)
    && (forall j, l :: 0 <= j < l < |r| ==> r[j] < r[l])
  }

  /** Appending the next resolving position keeps the shape. */
  lemma ShapedExtend(data: SkeletonData, q: seq<string>, r: seq<nat>, n: nat)
    requires n < |q| && q[n] in data.animations
    requires PositionsShaped(data, q, r, n)
    ensures PositionsShaped(data, q, r + [n], n + 1)
  {
    var r2 := r + [n];
    if |r| > 0 {
      assert r[0] + |r| <= n;
    }
    forall j | 0 <= j < |r2| ensures j <= r2[j] && r2[j] + |r2| - j <= n + 1 {
      if j < |r| {
        assert r2[j] == r[j];
      }
    }
  }

  /** Looking one position further without resolving it keeps the shape. */
  lemma ShapedWiden(data: SkeletonData, q: seq<string>, r: seq<nat>, n: nat)
    requires PositionsShaped(data, q, r, n)
    ensures PositionsShaped(data, q, r, n + 1)
  {
  }

  /** The resolving positions are shaped as above and include every
      resolving position. */
  lemma {:induction false} ResolvedShape(data: SkeletonData, q: seq<string>, n: nat)
    requires n <= |q|
    ensures PositionsShaped(data, q, Resolved(data, q, n), n)
    ensures forall i :: 0 <= i < n && q[i] in data.animations ==> i in Resolved(data, q, n)
  {
    if n > 0 {
      ResolvedShape(data, q, n - 1);
      var r' := Resolved(data, q, n - 1);
      if q[n - 1] in data.animations {
        assert Resolved(data, q, n) == r' + [n - 1];
        ShapedExtend(data, q, r', n - 1);
      } else {
        assert Resolved(data, q, n) == r';
        ShapedWiden(data, q, r', n - 1);
      }
    }
  }

  /** The operations of a queue are one per resolving position, in queue
      order, each the operation for its position and named animation. */
  lemma {:induction false} QueueOpsFromResolved(data: SkeletonData, q: seq<string>, track: int, loopLast: bool, n: nat)
    requires n <= |q|
    ensures |QueueOps(data, q, track, loopLast, n)| == |Resolved(data, q, n)|
    ensures var r := Resolved(data, q, n);
      forall j :: 0 <= j < |r| ==>
        && r[j] < |q| && q[r[j]] in data.animations
        && QueueOps(data, q, track, loopLast, n)[j] == OpFor(q, track, loopLast, r[j], FindAnimation(data, q[r[j]]).value)
  {
    ResolvedShape(data, q, n);
    if n > 0 {
      QueueOpsFromResolved(data, q, track, loopLast, n - 1);
    }
  }

  /** "Set" is issued only by position 0: at most once, and first. If the
      first name does not resolve, every operation is an "add". */
  lemma SetOnlyFromFirstPosition(data: SkeletonData, q: seq<string>, track: int, loopLast: bool)
    ensures var ops := QueueOps(data, q, track, loopLast, |q|);
      forall j :: 0 <= j < |ops| && ops[j].SetAnimation? ==> j == 0 && q[0] in data.animations
    ensures var ops := QueueOps(data, q, track, loopLast, |q|);
      q != [] && q[0] in data.animations ==> ops != [] && ops[0].SetAnimation?
  {
    QueueOpsFromResolved(data, q, track, loopLast, |q|);
    ResolvedShape(data, q, |q|);
    var r := Resolved(data, q, |q|);
    var ops := QueueOps(data, q, track, loopLast, |q|);
    if q != [] && q[0] in data.animations {
      assert 0 in r;
    }
    forall j | 0 <= j < |ops| && ops[j].SetAnimation? ensures j == 0 && q[0] in data.animations {
      assert r[j] == 0;
    }
  }

  /** Only the operation of the last position loops, and it loops exactly
      when loopLast is set: an unresolved last name means nothing loops. */
  lemma LoopOnlyAtLastPosition(data: SkeletonData, q: seq<string>, track: int, loopLast: bool)
    ensures var ops := QueueOps(data, q, track, loopLast, |q|);
      forall j :: 0 <= j < |ops| && ops[j].loop ==>
        j == |ops| - 1 && loopLast && q[|q| - 1] in data.animations
    ensures var ops := QueueOps(data, q, track, loopLast, |q|);
      q != [] && q[|q| - 1] in data.animations ==> ops != [] && ops[|ops| - 1].loop == loopLast
  {
    QueueOpsFromResolved(data, q, track, loopLast, |q|);
    ResolvedShape(data, q, |q|);
    var r := Resolved(data, q, |q|);
    if q != [] && q[|q| - 1] in data.animations {
      assert |q| - 1 in r;
    }
  }

  /** Every operation targets the command's track, and every queued one has
      zero delay. */
  lemma OpsTargetTrack(data: SkeletonData, q: seq<string>, track: int, loopLast: bool)
    ensures var ops := QueueOps(data, q, track, loopLast, |q|);
      forall j :: 0 <= j < |ops| ==> ops[j].track == track && (ops[j].AddAnimation? ==> ops[j].delay == 0.0)
  {
    QueueOpsFromResolved(data, q, track, loopLast, |q|);
  }

  /** Three resolving names: play A once, then B once, then C, which loops
      exactly when loopLast is set. */
  lemma ThreeNameQueue(data: SkeletonData, a: string, b: string, c: string, track: int, loopLast: bool)
    requires a in data.animations && b in data.animations && c in data.animations
    ensures QueueOps(data, [a, b, c], track, loopLast, 3) == [
      SetAnimation(track, FindAnimation(data, a).value, false),
      AddAnimation(track, FindAnimation(data, b).value, false, 0.0),
      AddAnimation(track, FindAnimation(data, c).value, loopLast, 0.0)]
  {
    var q := [a, b, c];
    var fa, fb, fc := FindAnimation(data, a).value, FindAnimation(data, b).value, FindAnimation(data, c).value;
    assert OpAt(data, q, track, loopLast, 0) == [SetAnimation(track, fa, false)];
    assert OpAt(data, q, track, loopLast, 1) == [AddAnimation(track, fb, false, 0.0)];
    assert OpAt(data, q, track, loopLast, 2) == [AddAnimation(track, fc, loopLast, 0.0)];
    assert QueueOps(data, q, track, loopLast, 1) == [SetAnimation(track, fa, false)];
    assert QueueOps(data, q, track, loopLast, 2) == [SetAnimation(track, fa, false), AddAnimation(track, fb, false, 0.0)];
  }

  /** A queue whose names all fail to resolve issues nothing. */
  lemma {:induction false} UnresolvedQueueIssuesNothing(data: SkeletonData, q: seq<string>, track: int, loopLast: bool, n: nat)
    requires n <= |q|
    requires forall i :: 0 <= i < |q| ==> q[i] !in data.animations
    ensures QueueOps(data, q, track, loopLast, n) == []
  {
    if n > 0 {
      UnresolvedQueueIssuesNothing(data, q, track, loopLast, n - 1);
    }
  }

  /** Every unit has an animation state to issue operations to. */
  predicate HasStates(us: seq<Unit>)
  {
    forall k :: 0 <= k < |us| ==> us[k].state.Some?
  }

  /** A unit after the given operations were issued to its state. */
  function Issue(u: Unit, ops: seq<TrackOp>): Unit
    requires u.state.Some?
  {
    u.(state := Some(u.state.value.(ops := u.state.value.ops + ops)))
  }

  /** The operations one command issues to the unit it resolves to. */
  function CommandOps(data: SkeletonData, c: Command): seq<TrackOp>
  {
    QueueOps(data, QueueOf(c), TrackOf(c), LoopLastOf(c), |QueueOf(c)|)
  }

  /** One command: the first unit of that name gets the command's
      operations; an unknown unit name changes nothing. */
  function ApplyCommand(us: seq<Unit>, c: Command): (r: seq<Unit>)
    requires HasStates(us)
    ensures HasStates(r) && |r| == |us|
  {
    match FindUnit(us, UnitOf(c))
    case None => us
    case Some(k) => us[k := Issue(us[k], CommandOps(us[k].data, c))]
  }

  /** A command list, applied in order. */
  function ApplyCommands(us: seq<Unit>, cs: seq<Command>): (r: seq<Unit>)
    requires HasStates(us)
    ensures HasStates(r) && |r| == |us|
    decreases |cs|
  {
    if cs == [] then us else ApplyCommands(ApplyCommand(us, cs[0]), cs[1..])
  }

  /** Two units are the same apart from the operations issued to their
      states, and the first's operations are a prefix of the second's. */
  predicate SameButOps(u: Unit, v: Unit)
  {
    && u.(state := None) == v.(state := None)
    && u.state.Some? && v.state.Some?
    && u.state.value.updates == v.state.value.updates
    && |u.state.value.ops| <= |v.state.value.ops|
    && u.state.value.ops == v.state.value.ops[..|u.state.value.ops|]
  }

  /** Triggers only ever append track operations: names, data, skeletons,
      placements and the order of units are untouched. */
  lemma {:induction false} TriggersOnlyAppendOps(us: seq<Unit>, cs: seq<Command>)
    requires HasStates(us)
    ensures forall k :: 0 <= k < |us| ==> SameButOps(us[k], ApplyCommands(us, cs)[k])
    decreases |cs|
  {
    if cs != [] {
      var mid := ApplyCommand(us, cs[0]);
      TriggersOnlyAppendOps(mid, cs[1..]);
      forall k | 0 <= k < |us| ensures SameButOps(us[k], ApplyCommands(us, cs)[k]) {
        var a, b, c := us[k].state.value.ops, mid[k].state.value.ops, ApplyCommands(us, cs)[k].state.value.ops;
        assert a == b[..|a|];
        assert b == c[..|b|];
        assert c[..|b|][..|a|] == c[..|a|];
      }
    }
  }

  /** A command naming no loaded unit is a no-op, whatever its queue. */
  lemma UnknownUnitIsNoOp(us: seq<Unit>, c: Command)
    requires HasStates(us)
    requires forall k :: 0 <= k < |us| ==> us[k].name != UnitOf(c)
    ensures ApplyCommand(us, c) == us
  {
  }

  /** Triggers keep every unit fully built. */
  lemma TriggersKeepFullyBuilt(us: seq<Unit>, cs: seq<Command>)
    requires HasStates(us)
    requires forall k :: 0 <= k < |us| ==> FullyBuilt(us[k])
    ensures forall k :: 0 <= k < |us| ==> FullyBuilt(ApplyCommands(us, cs)[k])
  {
    TriggersOnlyAppendOps(us, cs);
    forall k | 0 <= k < |us| ensures FullyBuilt(ApplyCommands(us, cs)[k]) {
      assert SameButOps(us[k], ApplyCommands(us, cs)[k]);
      assert us[k].(state := None).name == ApplyCommands(us, cs)[k].(state := None).name;
    }
  }

  /** A command whose animation names resolve nowhere leaves every unit as
      it was. */
  lemma UnknownAnimationsAreNoOp(us: seq<Unit>, c: Command)
    requires HasStates(us)
    requires forall k, i :: 0 <= k < |us| && 0 <= i < |QueueOf(c)| ==> QueueOf(c)[i] !in us[k].data.animations
    ensures ApplyCommand(us, c) == us
  {
    var r := FindUnit(us, UnitOf(c));
    if r.Some? {
      var k := r.value;
      UnresolvedQueueIssuesNothing(us[k].data, QueueOf(c), TrackOf(c), LoopLastOf(c), |QueueOf(c)|);
      assert us[k].state.value.ops + [] == us[k].state.value.ops;
      assert Issue(us[k], []) == us[k];
    }
  }

  /** A command reaches only the first unit of its name; units further on
      with the same name are untouched. */
  lemma CommandReachesFirstMatchOnly(us: seq<Unit>, c: Command, k: nat)
    requires HasStates(us)
    requires k < |us| && us[k].name == UnitOf(c)
    requires forall j :: 0 <= j < k ==> us[j].name != UnitOf(c)
    ensures ApplyCommand(us, c)[k] == Issue(us[k], CommandOps(us[k].data, c))
    ensures forall j :: 0 <= j < |us| && j != k ==> ApplyCommand(us, c)[j] == us[j]
  {
  }

}
