/**
 * `MorphPlotter` (vedo/applications.py:479-639): the user picks landmark
 * pairs, alternately a point on the source mesh and the matching point on
 * the target mesh; with at least four complete pairs the source is warped
 * onto the target.
 *
 * The warp itself is a call into the mesh library: it is recorded as the
 * pair of landmark lists it was given.
 */
module MorphPlot {
  import opened Events
  import opened PyOps

  /** What a mouse click or key press landed on. */
  datatype Picked = OnSource | OnTarget | Elsewhere

  /** The warp test of `update` and of key `m`: as many targets as sources, and more than three. */
  predicate WarpReady(sources: seq<Vec3>, targets: seq<Vec3>) {
    |sources| == |targets| && |sources| > 3
  }

  /** When key `d` returns early: no unpaired point, and one of the lists empty. */
  predicate Untouched(sources: seq<Vec3>, targets: seq<Vec3>) {
    |sources| != |targets| + 1 && |targets| != |sources| + 1 && (|sources| == 0 || |targets| == 0)
  }

  /**
   * What key `d` leaves of the two lists: an unpaired point is popped first,
   * then the last pair goes; with no unpaired point and an empty list the
   * key does nothing.
   */
  function DeleteLast(sources: seq<Vec3>, targets: seq<Vec3>): (seq<Vec3>, seq<Vec3>)
  {
    if Untouched(sources, targets) then
      (sources, targets)
    else
      var s := if |sources| == |targets| + 1 then sources[..|sources| - 1] else sources;
      var t := if |targets| == |sources| + 1 then targets[..|targets| - 1] else targets;
      var n := if |s| < |t| then |s| else |t|;
      (PyPrefix(s, n - 1), PyPrefix(t, n - 1))
  }

  /**
   * Unless the key does nothing, key `d` leaves two lists of equal length,
   * each a prefix of what it was, one pair shorter than the shorter of the
   * two (after the unpaired point is popped).
   */
  lemma DeleteLastPairs(sources: seq<Vec3>, targets: seq<Vec3>)
    ensures var (s, t) := DeleteLast(sources, targets);
      && s <= sources && t <= targets
      && ((s, t) == (sources, targets) <==> Untouched(sources, targets))
      && ((s, t) != (sources, targets) ==> |s| == |t|)
      && (|sources| == |targets| > 0 ==> |s| == |sources| - 1)
  {
  }

  class MorphPlotter {
    var sources: seq<Vec3>
    var targets: seq<Vec3>
    var sourcePickable: bool
    var targetPickable: bool
    var autoWarping: bool
    /** Every warp performed, as the landmark lists it was given. */
    var warps: seq<(seq<Vec3>, seq<Vec3>)>

    /**
     * The picking alternates: either every source point has its target and
     * the source mesh is the one to pick, or exactly one source point waits
     * for its target and the target mesh is the one to pick.
     */
    ghost predicate Valid()
      reads this`sources, this`targets, this`sourcePickable, this`targetPickable
    {
      || (sourcePickable && !targetPickable && |sources| == |targets|)
      || (!sourcePickable && targetPickable && |sources| == |targets| + 1)
    }

    constructor()
      ensures Valid() && sources == [] && targets == [] && warps == [] && autoWarping
    {
      sources, targets := [], [];
      sourcePickable, targetPickable := true, false;
      autoWarping := true;
      warps := [];
    }

    /** `update`: with automatic warping on and the lists ready, the source is warped. */
    method Update()
      modifies this`warps
      ensures warps == old(warps) + if autoWarping && WarpReady(sources, targets) then [(sources, targets)] else []
    {
      if autoWarping && |sources| == |targets| && |sources| > 3 {
        warps := warps + [(sources, targets)];
      }
    }

    /**
     * `on_click`: a point picked on the source starts a pair and hands the
     * picking to the target; one picked on the target completes it. Only
     * the pickable mesh can be clicked.
     */
    method OnClick(obj: Picked, p: Vec3)
      requires Valid()
      requires obj == OnSource ==> sourcePickable
      requires obj == OnTarget ==> targetPickable
      modifies this`sources, this`targets, this`sourcePickable, this`targetPickable, this`warps
      ensures Valid()
      ensures obj == OnSource ==> sources == old(sources) + [p] && targets == old(targets) && targetPickable
      ensures obj == OnTarget ==> targets == old(targets) + [p] && sources == old(sources) && sourcePickable
      ensures obj == OnTarget ==> |sources| == |targets|
      ensures obj == Elsewhere ==> sources == old(sources) && targets == old(targets) && warps == old(warps)
      ensures obj != Elsewhere ==>
        warps == old(warps) + if autoWarping && WarpReady(sources, targets) then [(sources, targets)] else []
    {
      if obj == OnSource {
        sources := sources + [p];
        sourcePickable, targetPickable := false, true;
        Update();
      } else if obj == OnTarget {
        targets := targets + [p];
        sourcePickable, targetPickable := true, false;
        Update();
      }
    }

    /** Key `C`: both lists are emptied and the source is the mesh to pick. */
    method KeyClear()
      modifies this`sources, this`targets, this`sourcePickable, this`targetPickable, this`warps
      ensures Valid() && sources == [] && targets == [] && sourcePickable && warps == old(warps)
    {
      sources, targets := [], [];
      sourcePickable, targetPickable := true, false;
      Update();
    }

    /**
     * Key `d`: removes the last landmark pair (and a pending source point
     * first); afterwards every point is paired and the source is the mesh
     * to pick.
     */
    method KeyDelete()
      modifies this`sources, this`targets, this`sourcePickable, this`targetPickable, this`warps
      ensures old(Valid()) ==> Valid() && |sources| == |targets|
      ensures (sources, targets) == DeleteLast(old(sources), old(targets))
      ensures sources <= old(sources) && targets <= old(targets)
      ensures Untouched(old(sources), old(targets)) ==> warps == old(warps)
      ensures !Untouched(old(sources), old(targets)) ==>
        warps == old(warps) + if autoWarping && WarpReady(sources, targets) then [(sources, targets)] else []
    {
      DeleteLastPairs(sources, targets);
      if |sources| == |targets| + 1 {
        sources := sources[..|sources| - 1];
      } else if |targets| == |sources| + 1 {
        targets := targets[..|targets| - 1];
      } else if |sources| == 0 || |targets| == 0 {
        return;
      }
      var n := if |sources| < |targets| then |sources| else |targets|;
      sources := PyPrefix(sources, n - 1);
      targets := PyPrefix(targets, n - 1);
      sourcePickable, targetPickable := true, false;
      Update();
    }

    /** Key `f` over the source with every point paired: the picked point becomes a fixed pair. */
    method KeyFixed(obj: Picked, p: Vec3)
      requires Valid()
      requires obj == OnSource ==> sourcePickable
      modifies this`sources, this`targets, this`warps
      ensures Valid()
      ensures obj == OnSource ==> sources == old(sources) + [p] && targets == old(targets) + [p]
      ensures obj == OnSource ==>
        warps == old(warps) + if autoWarping && WarpReady(sources, targets) then [(sources, targets)] else []
      ensures obj != OnSource ==> sources == old(sources) && targets == old(targets) && warps == old(warps)
    {
      if obj == OnSource && |sources| == |targets| {
        sources := sources + [p];
        targets := targets + [p];
        Update();
      }
    }

    /** Key `m`: warps the source when the lists are ready, whatever the automatic setting. */
    method KeyMorph()
      modifies this`warps
      ensures warps == old(warps) + if WarpReady(sources, targets) then [(sources, targets)] else []
    {
      if |sources| == |targets| && |sources| > 3 {
        warps := warps + [(sources, targets)];
      }
    }
  }
}
