/**
 * `SplinePlotter` (vedo/applications.py:2206-2335): a list of clicked
 * control points on a mesh, joined by a spline or a straight polyline once
 * there are enough of them.
 *
 * The spline and polyline constructors are calls into the mesh library: a
 * drawn curve is recorded as the points and the options it was built
 * from, and whether the spline constructor fails (it raises when points
 * are too close) is a parameter.
 */
module SplinePlot {
  import opened Wrappers
  import opened Events

  /** A curve on screen: the control points it joins, closed or not, splined or straight. */
  datatype Curve = Curve(points: seq<Vec3>, closed: bool, splined: bool)

  /** `update` draws the curve only above `minnr` points: more than 2 for a spline, more than 1 for a line. */
  predicate DrawsCurve(n: nat, splined: bool, lineWidth: int) {
    lineWidth != 0 && n > (if splined then 2 else 1)
  }

  /** So a spline needs three control points and a polyline two; a zero line width draws neither. */
  lemma DrawsCurveMeans(n: nat, splined: bool, lineWidth: int)
    ensures DrawsCurve(n, splined, lineWidth) <==> lineWidth != 0 && n >= (if splined then 3 else 2)
    ensures DrawsCurve(n, splined, lineWidth) ==> DrawsCurve(n + 1, splined, lineWidth)
  {
  }

  /** `cpoints.pop(pid)`: the point at `pid` leaves and the later ones move down by one. */
  function RemoveAt(points: seq<Vec3>, pid: nat): (r: seq<Vec3>)
    requires pid < |points|
    ensures |r| == |points| - 1
    ensures forall i :: 0 <= i < pid ==> r[i] == points[i]
    ensures forall i :: pid <= i < |r| ==> r[i] == points[i + 1]
  {
    points[..pid] + points[pid + 1..]
  }

  /** Clicking a point removes it; clicking a new point at the end and then removing it restores the list. */
  lemma RemoveAtUndoesAppend(points: seq<Vec3>, p: Vec3)
    ensures RemoveAt(points + [p], |points|) == points
  {
    assert (points + [p])[..|points|] == points;
  }

  class SplinePlotter {
    var cpoints: seq<Vec3>
    const closed: bool
    const splined: bool
    const lineWidth: int
    /** The control points on screen, if any. */
    var shownPoints: Option<seq<Vec3>>
    /** The curve on screen, if any. */
    var shownCurve: Option<Curve>

    /**
     * What is on screen matches the list: the points on screen are the
     * control points, and a curve is drawn only through them and only
     * when there are enough of them.
     */
    ghost predicate Valid()
      reads this`cpoints, this`shownPoints, this`shownCurve
    {
      && (shownPoints.Some? ==> shownPoints.value == cpoints)
      && (shownCurve.Some? ==>
            && shownPoints.Some?
            && shownCurve.value == Curve(cpoints, closed, splined)
            && DrawsCurve(|cpoints|, splined, lineWidth))
    }

    /** `__init__`: the initial points, nothing on screen yet. */
    constructor(init: seq<Vec3>, closed: bool, splined: bool, lineWidth: int)
      ensures Valid() && cpoints == init && shownPoints.None? && shownCurve.None?
      ensures this.closed == closed && this.splined == splined && this.lineWidth == lineWidth
    {
      cpoints := init;
      this.closed, this.splined, this.lineWidth := closed, splined, lineWidth;
      shownPoints, shownCurve := None, None;
    }

    /**
     * The state `update` leaves from the control points `pts`: the points
     * are on screen, with the curve through them when there are enough; a
     * spline that fails drops the last point and leaves nothing on screen.
     */
    ghost predicate Redrawn(pts: seq<Vec3>, splineFails: bool)
      reads this`cpoints, this`shownPoints, this`shownCurve
    {
      if DrawsCurve(|pts|, splined, lineWidth) && splined && splineFails then
        cpoints == pts[..|pts| - 1] && shownPoints.None? && shownCurve.None?
      else
        && cpoints == pts && shownPoints == Some(pts)
        && shownCurve == if DrawsCurve(|pts|, splined, lineWidth) then Some(Curve(pts, closed, splined)) else None
    }

    /**
     * `update`: the points are redrawn, and the curve too when there are
     * enough points. A failing spline drops the last point and leaves
     * nothing on screen.
     */
    method Update(splineFails: bool)
      modifies this`cpoints, this`shownPoints, this`shownCurve
      ensures Valid() && Redrawn(old(cpoints), splineFails)
    {
      shownPoints, shownCurve := None, None;
      var minnr := 1;
      if splined {
        minnr := 2;
      }
      if lineWidth != 0 && |cpoints| > minnr {
        if splined && splineFails {
          cpoints := cpoints[..|cpoints| - 1];
          return;
        }
        shownCurve := Some(Curve(cpoints, closed, splined));
      }
      shownPoints := Some(cpoints);
    }

    /** `points(newpts)`: the control points are replaced and redrawn. */
    method SetPoints(newPoints: seq<Vec3>, splineFails: bool)
      modifies this`cpoints, this`shownPoints, this`shownCurve
      ensures Valid()
      ensures Redrawn(newPoints, splineFails)
    {
      cpoints := newPoints;
      Update(splineFails);
    }

    /**
     * `_on_left_click`: a click on a shown control point (its index `pid`
     * comes from the mesh library) removes it; a click elsewhere on an
     * object adds the clicked point at the end.
     */
    method LeftClick(onObject: bool, onPoints: bool, pid: nat, p: Vec3, splineFails: bool)
      requires Valid()
      requires onPoints ==> onObject && shownPoints.Some? && pid < |cpoints|
      modifies this`cpoints, this`shownPoints, this`shownCurve
      ensures Valid()
      ensures !onObject ==> cpoints == old(cpoints) && shownPoints == old(shownPoints) && shownCurve == old(shownCurve)
      ensures onObject && onPoints ==> Redrawn(RemoveAt(old(cpoints), pid), splineFails)
      ensures onObject && !onPoints ==> Redrawn(old(cpoints) + [p], splineFails)
    {
      if !onObject {
        return;
      }
      if onPoints {
        cpoints := RemoveAt(cpoints, pid);
        Update(splineFails);
        return;
      }
      cpoints := cpoints + [p];
      Update(splineFails);
    }

    /** `_on_right_click`: over an object, the last control point is removed. */
    method RightClick(onObject: bool, splineFails: bool)
      requires Valid()
      modifies this`cpoints, this`shownPoints, this`shownCurve
      ensures Valid()
      ensures onObject && |old(cpoints)| > 0 ==> Redrawn(old(cpoints)[..|old(cpoints)| - 1], splineFails)
      ensures !(onObject && |old(cpoints)| > 0) ==>
        cpoints == old(cpoints) && shownPoints == old(shownPoints) && shownCurve == old(shownCurve)
    {
      if onObject && |cpoints| > 0 {
        cpoints := cpoints[..|cpoints| - 1];
        Update(splineFails);
      }
    }

    /** Key `c`: the control points are cleared and nothing is left on screen. */
    method KeyClear()
      modifies this`cpoints, this`shownPoints, this`shownCurve
      ensures Valid() && cpoints == [] && shownPoints.None? && shownCurve.None?
    {
      cpoints := [];
      shownPoints, shownCurve := None, None;
    }
  }
}
