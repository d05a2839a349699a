/**
 * `MorphByLandmarkPlotter` (vedo/applications.py:760-1041): landmark points
 * are placed on a mesh, each starting as its own target; the arrow keys
 * and the normal keys move the selected target by a step, and a morph
 * warps the mesh from the source points onto the targets.
 *
 * Four lists are kept as in the source: `sources` and `targets` (Python
 * lists), `srcArray` (the numpy copy `_sources`) and the two point clouds
 * on screen, `shownSources` and `shownTargets`, from which a morph reads
 * its landmarks. The warp and the mesh's normals are calls into the mesh
 * library: a warp is recorded as the landmark lists it was given and the
 * normal under the selected point is a parameter.
 */
module LandmarkPlot {
  import opened Wrappers
  import opened Events
  import opened PyOps

  /** The eight move keys, in the order `Left Right Up Down UP DOWN n N`. */
  datatype MoveKey = Left | Right | Up | Down | UpZ | DownZ | AlongNormal | AgainstNormal

  /** What a move key did. */
  datatype MoveOutcome = Moved(index: nat) | NothingPicked | PointIndexError

  /** Where a move key takes point `p`: one step along an axis, or along or against the normal. */
  function Shift(p: Vec3, k: MoveKey, step: real, normal: Vec3): Vec3 {
    match k
    case Left => p.Plus(Vec3(-step, 0.0, 0.0))
    case Right => p.Plus(Vec3(step, 0.0, 0.0))
    case Up => p.Plus(Vec3(0.0, step, 0.0))
    case Down => p.Plus(Vec3(0.0, -step, 0.0))
    case UpZ => p.Plus(Vec3(0.0, 0.0, step))
    case DownZ => p.Plus(Vec3(0.0, 0.0, -step))
    case AlongNormal => p.Plus(normal.Times(step))
    case AgainstNormal => p.Minus(normal.Times(step))
  }

  /** The key that moves the other way. */
  function Opposite(k: MoveKey): (o: MoveKey)
    ensures o != k
  {
    match k
    case Left => Right
    case Right => Left
    case Up => Down
    case Down => Up
    case UpZ => DownZ
    case DownZ => UpZ
    case AlongNormal => AgainstNormal
    case AgainstNormal => AlongNormal
  }

  /** A move followed by the opposite move with the same step and normal puts the point back. */
  lemma ShiftBack(p: Vec3, k: MoveKey, step: real, normal: Vec3)
    ensures Opposite(Opposite(k)) == k
    ensures Shift(Shift(p, k, step, normal), Opposite(k), step, normal) == p
  {
  }

  /** An arrow key changes exactly one coordinate, by exactly the step. */
  lemma ArrowMovesOneAxis(p: Vec3, k: MoveKey, step: real, normal: Vec3)
    requires !k.AlongNormal? && !k.AgainstNormal?
    ensures var q := Shift(p, k, step, normal);
      var d := q.Minus(p);
      (d.x == 0.0 || d.y == 0.0) && (d.y == 0.0 || d.z == 0.0) && (d.x == 0.0 || d.z == 0.0)
      && (d.x == step || d.x == -step || d.y == step || d.y == -step || d.z == step || d.z == -step)
  {
  }

  /** The `plus`/`equal` keys: the step grows by a tenth, and is never negative. */
  function Grow(step: real): real {
    var s := step + step / 10.0;
    if s < 0.0 then 0.0 else s
  }

  /** The `minus`/`underscore` keys: the step shrinks by a tenth, and is never negative. */
  function Shrink(step: real): real {
    var s := step - step / 10.0;
    if s < 0.0 then 0.0 else s
  }

  /** From a non-negative step, growing and shrinking keep it non-negative and move it the named way. */
  lemma StepKeys(step: real)
    requires step >= 0.0
    ensures step <= Grow(step) && 0.0 <= Shrink(step) <= step
    ensures step > 0.0 ==> Shrink(step) < step < Grow(step)
  {
  }

  /** Growing then shrinking (or the other way) does not restore the step: it ends at 99% of it. */
  lemma GrowShrink(step: real)
    requires step >= 0.0
    ensures Shrink(Grow(step)) == step * 0.99 == Grow(Shrink(step))
  {
  }

  /**
   * Key `d` as written: with either list empty nothing happens; otherwise
   * only a list one longer than the other loses its last point.
   */
  function DeleteAsWritten(sources: seq<Vec3>, targets: seq<Vec3>): (seq<Vec3>, seq<Vec3>) {
    if |sources| == 0 || |targets| == 0 then (sources, targets)
    else if |sources| == |targets| + 1 then (sources[..|sources| - 1], targets)
    else if |targets| == |sources| + 1 then (sources, targets[..|targets| - 1])
    else (sources, targets)
  }

  /**
   * Every operation keeps the two lists the same length, and key `d` as
   * written deletes nothing from lists of the same length: the last pair
   * is never removed. One landmark added with `o` stays after `d`.
   */
  lemma DeleteAsWrittenKeepsPairs(sources: seq<Vec3>, targets: seq<Vec3>, p: Vec3)
    requires |sources| == |targets|
    ensures DeleteAsWritten(sources, targets) == (sources, targets)
    ensures DeleteAsWritten(sources + [p], targets + [p]) == (sources + [p], targets + [p])
  {
  }

  /** Key `d` as intended: the last landmark pair is removed; with no pair nothing happens. */
  function DeletePair(sources: seq<Vec3>, targets: seq<Vec3>): (seq<Vec3>, seq<Vec3>) {
    if |sources| == 0 || |targets| == 0 then (sources, targets)
    else (sources[..|sources| - 1], targets[..|targets| - 1])
  }

  /** Removing the last pair undoes adding it with `o`, and shortens both lists by one. */
  lemma DeletePairUndoesAdd(sources: seq<Vec3>, targets: seq<Vec3>, p: Vec3)
    ensures DeletePair(sources + [p], targets + [p]) == (sources, targets)
    ensures |sources| > 0 && |targets| > 0 ==>
      var (s, t) := DeletePair(sources, targets);
      |s| == |sources| - 1 && |t| == |targets| - 1 && s <= sources && t <= targets
  {
    assert (sources + [p])[..|sources|] == sources;
    assert (targets + [p])[..|targets|] == targets;
  }

  class LandmarkMorpher {
    var sources: seq<Vec3>
    var targets: seq<Vec3>
    var srcArray: seq<Vec3>
    var shownSources: seq<Vec3>
    var shownTargets: seq<Vec3>
    var step: real
    var currentPid: Option<int>
    var currentPt: Option<Vec3>
    var morphingOnChange: bool
    /** Every warp of the mesh, as the source and target landmarks it was given. */
    var warps: seq<(seq<Vec3>, seq<Vec3>)>

    /**
     * The targets on screen are the targets, every list holds one point
     * per landmark, and the step is never negative.
     */
    ghost predicate Valid()
      reads this`sources, this`targets, this`srcArray, this`shownSources, this`shownTargets, this`step
    {
      && shownTargets == targets
      && |sources| == |targets| == |srcArray| == |shownSources|
      && step >= 0.0
    }

    /** `__init__`: each initial point is its own source and target; the step is 10, nothing is selected. */
    constructor(init: seq<Vec3>)
      ensures Valid()
      ensures sources == targets == srcArray == shownSources == shownTargets == init
      ensures step == 10.0 && currentPid.None? && currentPt.None? && morphingOnChange && warps == []
    {
      sources, targets, srcArray := init, init, init;
      shownSources, shownTargets := init, init;
      step := 10.0;
      currentPid, currentPt := None, None;
      morphingOnChange := true;
      warps := [];
    }

    /**
     * `do_morph`: the mesh is warped from the sources on screen to the
     * targets on screen, after which the targets are the new sources.
     */
    method DoMorph()
      requires Valid()
      modifies this`sources, this`targets, this`shownSources, this`shownTargets, this`warps
      ensures Valid()
      ensures warps == old(warps) + [(old(shownSources), old(targets))]
      ensures sources == targets == shownSources == old(targets)
    {
      sources := shownSources;
      targets := shownTargets;
      warps := warps + [(sources, targets)];
      sources := targets;
      shownSources := sources;
      shownTargets := targets;
    }

    /**
     * `_on_mouse_click`: `pid` is the target the mesh library finds closest
     * to the clicked point, negative when there is none. The index is
     * recorded even when negative; the selected point only when it exists.
     */
    method Click(picked: Option<Vec3>, pid: int)
      requires Valid() && pid < |shownTargets|
      modifies this`currentPid, this`currentPt
      ensures picked.None? ==> currentPid == old(currentPid) && currentPt == old(currentPt)
      ensures picked.Some? ==> currentPid == Some(pid)
      ensures picked.Some? && pid >= 0 ==> currentPt == Some(targets[pid])
      ensures picked.Some? && pid < 0 ==> currentPt == old(currentPt)
    {
      if picked.None? {
        return;
      }
      currentPid := Some(pid);
      if pid < 0 {
        return;
      }
      currentPt := Some(targets[pid]);
    }

    /** Key `o` over the mesh: the point becomes a new landmark, source and target at once. */
    method KeyAdd(onMesh: bool, p: Vec3)
      requires Valid()
      modifies this`sources, this`targets, this`srcArray, this`shownSources, this`shownTargets
      ensures Valid()
      ensures onMesh ==>
        && sources == old(sources) + [p] && targets == old(targets) + [p]
        && srcArray == old(srcArray) + [p] && shownSources == srcArray
      ensures !onMesh ==>
        && sources == old(sources) && targets == old(targets)
        && srcArray == old(srcArray) && shownSources == old(shownSources)
    {
      if onMesh {
        sources := sources + [p];
        srcArray := srcArray + [p];
        targets := targets + [p];
        shownSources := srcArray;
        shownTargets := targets;
      }
    }

    /** Key `c`: every landmark list is emptied. */
    method KeyClear()
      modifies this`sources, this`targets, this`srcArray, this`shownSources, this`shownTargets
      ensures Valid() == (step >= 0.0)
      ensures sources == targets == srcArray == shownSources == shownTargets == []
    {
      sources, targets, srcArray := [], [], [];
      shownSources, shownTargets := [], [];
    }

    /**
     * Key `d` as written (see `DeleteAsWritten`; the intended version is
     * `DeletePair`): with either list empty nothing happens; otherwise a
     * list one longer than the other loses its last point, and the sources
     * and targets on screen are redrawn from the lists. Since every other
     * key keeps the lists the same length, no landmark is ever removed.
     */
    method KeyDelete()
      requires Valid()
      modifies this`sources, this`targets, this`srcArray, this`shownSources, this`shownTargets
      ensures Valid()
      ensures (sources, targets) == DeleteAsWritten(old(sources), old(targets))
      ensures sources == old(sources) && targets == old(targets)
      ensures old(sources) != [] ==> srcArray == sources && shownSources == sources && shownTargets == targets
      ensures old(sources) == [] ==> srcArray == old(srcArray) && shownSources == old(shownSources)
    {
      if |sources| == 0 || |targets| == 0 {
        return;
      }
      var (s, t) := DeleteAsWritten(sources, targets);
      sources, targets := s, t;
      srcArray := sources;
      shownSources := srcArray;
      shownTargets := targets;
    }

    /**
     * A move key: the selected target moves one step (a negative index
     * counts from the end, as in Python); the targets on screen follow, and
     * with morphing on change the mesh is warped at once.
     */
    method KeyMove(k: MoveKey, normal: Vec3) returns (r: MoveOutcome)
      requires Valid()
      modifies this`sources, this`targets, this`shownSources, this`shownTargets, this`warps
      ensures Valid()
      ensures old(currentPid).None? <==> r == NothingPicked
      ensures old(currentPid).Some? ==>
        var i := PyIndex(old(currentPid).value, |old(targets)|);
        && (i.None? <==> r == PointIndexError)
        && (i.Some? ==> r == Moved(i.value))
      ensures !r.Moved? ==> targets == old(targets) && sources == old(sources) && warps == old(warps)
      ensures r.Moved? ==>
        var moved := old(targets)[r.index := Shift(old(targets)[r.index], k, step, normal)];
        && targets == moved
        && (morphingOnChange ==> sources == shownSources == moved && warps == old(warps) + [(old(shownSources), moved)])
        && (!morphingOnChange ==> sources == old(sources) && warps == old(warps))
      ensures !r.Moved? || !morphingOnChange ==> shownSources == old(shownSources)
    {
      if currentPid.None? {
        return NothingPicked;
      }
      var i := PyIndex(currentPid.value, |targets|);
      if i.None? {
        return PointIndexError;
      }
      targets := targets[i.value := Shift(targets[i.value], k, step, normal)];
      shownTargets := targets;
      r := Moved(i.value);
      if morphingOnChange {
        DoMorph();
      }
    }

    /** Key `m`: warp the mesh now. */
    method KeyMorph()
      requires Valid()
      modifies this`sources, this`targets, this`shownSources, this`shownTargets, this`warps
      ensures Valid()
      ensures warps == old(warps) + [(old(shownSources), old(targets))]
      ensures sources == targets == shownSources == old(targets)
    {
      DoMorph();
    }

    /** The step keys: `grow` for `plus`/`equal`, otherwise `minus`/`underscore`. */
    method KeyStep(grow: bool)
      requires Valid()
      modifies this`step
      ensures Valid()
      ensures step == if grow then Grow(old(step)) else Shrink(old(step))
    {
      StepKeys(step);
      var s := if grow then step + step / 10.0 else step - step / 10.0;
      step := if s < 0.0 then 0.0 else s;
    }
  }
}
