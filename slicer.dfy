/**
 * The arithmetic of `Slicer3DPlotter` (vedo/applications.py:45-327): the
 * colour range clamped around the mean of the log-scaled histogram, and
 * the three slice sliders, each of which shows the slice under the slider
 * only strictly inside the volume's extent along its axis.
 *
 * The histogram, its log-scaled mean and the slices themselves come from
 * numpy and the volume library: the mean is a parameter, and a slice is
 * recorded by its index.
 */
module SlicerApp {
  import opened Wrappers
  import opened Quantize

  /**
   * The `clamp` option: the top of the range is pulled down to at most 0.9
   * of the lower half-width above the mean, then the bottom is pulled up to
   * at most 0.9 of the new upper half-width below it. Returns `(rmin, rmax)`.
   */
  function ClampRange(rmin: real, rmax: real, meanlog: real): (r: (real, real))
    ensures rmin <= r.0 && r.1 <= rmax
    ensures r.1 - meanlog <= (meanlog - rmin) * 0.9
    ensures meanlog - r.0 <= (r.1 - meanlog) * 0.9
    ensures r.1 == rmax || r.1 == meanlog + (meanlog - rmin) * 0.9
  {
    var hi := if rmax < meanlog + (meanlog - rmin) * 0.9 then rmax else meanlog + (meanlog - rmin) * 0.9;
    var lo := if rmin > meanlog - (hi - meanlog) * 0.9 then rmin else meanlog - (hi - meanlog) * 0.9;
    (lo, hi)
  }

  /** With the mean inside the scalar range, the clamped range still holds the mean and lies inside the old one. */
  lemma ClampRangeInside(rmin: real, rmax: real, meanlog: real)
    requires rmin <= meanlog <= rmax
    ensures var (lo, hi) := ClampRange(rmin, rmax, meanlog); rmin <= lo <= meanlog <= hi <= rmax
  {
    var (lo, hi) := ClampRange(rmin, rmax, meanlog);
    assert hi >= meanlog;
  }

  /**
   * A slider value shows its slice exactly when it lies in `[1, dim)`: the
   * two ends of a slider that runs from 0 to `dim` hide the slice.
   */
  lemma ShownValues(value: real, dim: int)
    ensures 0 < Trunc(value) < dim <==> 1.0 <= value < dim as real
  {
  }

  /**
   * One slider of the three, with the volume's number of points `dim`
   * along its axis, the index it last handled and whether that slice is
   * on screen.
   */
  class SliceAxis {
    const dim: nat
    /** `current_i` / `current_j` / `current_k`. */
    var current: Option<int>
    /** The index of the slice last cut from the volume, if any. */
    var slice: Option<int>
    var shown: bool

    /** The last slice cut is the one for the index last handled. */
    ghost predicate Valid()
      reads this`current, this`slice
    {
      slice == current
    }

    /** The x and y sliders: no index yet and no slice on screen. */
    constructor Unset(dim: nat)
      ensures Valid() && this.dim == dim && current.None? && !shown
    {
      this.dim := dim;
      current, slice := None, None;
      shown := false;
    }

    /** The z slider: the middle slice `int(dims[2] / 2)` is cut and added whatever `dim` is. */
    constructor Middle(dim: nat)
      ensures Valid() && this.dim == dim && current == Some(dim / 2) && shown
    {
      this.dim := dim;
      current, slice := Some(dim / 2), Some(dim / 2);
      shown := true;
    }

    /**
     * `slider_function_x` and its two twins: the value is truncated to an
     * index; a new index cuts its slice, which replaces the old one on
     * screen only when it is strictly inside the volume.
     */
    method Slide(value: real)
      requires Valid()
      modifies this`current, this`slice, this`shown
      ensures Valid()
      ensures var i := Trunc(value);
        if old(current) == Some(i) then current == old(current) && shown == old(shown)
        else current == Some(i) && (shown <==> 0 < i < dim)
    {
      var i := Trunc(value);
      if current == Some(i) {
        return;
      }
      current := Some(i);
      slice := Some(i);
      shown := 0 < i < dim;
    }
  }
}
