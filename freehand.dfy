/**
 * `FreeHandCutPlotter` (vedo/applications.py:2006-2190): a line is drawn
 * over a mesh with the mouse while draw mode is on, the mesh is cut along
 * it, the largest region can be kept, one edit can be undone, and the
 * result is saved under a name derived from the input file's.
 *
 * The mesh library's cut and region extraction are recorded as a history
 * of the edits applied to the input mesh; the spline through the drawn
 * points is recorded as those points. The projection of the mouse onto
 * the scene and the mesh's diagonal size are parameters.
 */
module FreeHandCut {
  import opened Wrappers
  import opened Events
  import opened PyOps

  /** The mesh being edited: the input, or an edit of an earlier mesh. */
  datatype Mesh =
    | Input
    | Cut(base: Mesh, ribbon: seq<Vec3>, inverted: bool)
    | LargestRegion(base: Mesh)

  /** A drawn line: the points it runs through, open while drawing, closed when drawing stops. */
  datatype Curve = Curve(points: seq<Vec3>, closed: bool)

  function Dist2(a: Vec3, b: Vec3): real {
    var d := a.Minus(b);
    d.x * d.x + d.y * d.y + d.z * d.z
  }

  /** `mag(a - b) < limit`, with the distance compared squared. */
  predicate Near(a: Vec3, b: Vec3, limit: real) {
    limit > 0.0 && Dist2(a, b) < limit * limit
  }

  const Marker := "_edited"

  /**
   * The name key `s` saves under: the input file's base name with every
   * `_edited` removed from its stem and one put back before the extension,
   * or `mesh_edited.vtk` when the mesh has no file name.
   */
  function SavedName(filename: string): (r: string)
    ensures '/' !in r
  {
    if filename == "" then "mesh_edited.vtk"
    else
      var (stem, ext) := SplitExt(Basename(filename));
      RemoveAllKeeps(stem, Marker, '/');
      RemoveAll(stem, Marker) + Marker + ext
  }

  /** `_edited` starts with the only underscore it has, so it has no border. */
  lemma MarkerBorderless()
    ensures Borderless(Marker)
  {
    forall k | 0 < k < |Marker| ensures Marker[..k] != Marker[|Marker| - k..] {
      assert Marker[..k][0] == '_';
      assert Marker[|Marker| - k..][0] == Marker[|Marker| - k] != '_';
    }
  }

  /** A file extension as `os.path.splitext` returns it: empty, or a dot and no other dot or '/'. */
  predicate Extension(ext: string) {
    ext == [] || (ext[0] == '.' && '.' !in ext[1..] && '/' !in ext[1..])
  }

  /** `os.path.splitext` of a plain stem (no dot, not empty) followed by an extension splits at the join. */
  lemma SplitAtExtension(stem: string, ext: string)
    requires |stem| > 0 && '.' !in stem && '/' !in stem && Extension(ext)
    ensures SplitExt(stem + ext) == (stem, ext)
  {
    var name := stem + ext;
    if ext == [] {
      AfterLastConcat(stem, ext, '.');
      assert name == stem;
    } else {
      assert '.' in ext && ext[1..] == ext[1..];
      AfterLastConcat(stem, ext, '.');
      AfterLastConcat([ext[0]], ext[1..], '.');
      assert [ext[0]] + ext[1..] == ext;
      assert AfterLast([ext[0]], '.') == 1;
      assert AfterLast(name, '.') == |stem| + 1;
      assert name[0] != '.';
      assert name[..|stem|] == stem;
    }
  }

  /** Saving marks a plain file name, in any directory, as edited. */
  lemma SavedNameMarks(dir: string, stem: string, ext: string)
    requires dir == [] || dir[|dir| - 1] == '/'
    requires |stem| > 0 && '.' !in stem && '/' !in stem && Extension(ext)
    requires forall i: nat :: i < |stem| ==> !OccursAt(stem, Marker, i)
    ensures SavedName(dir + stem + ext) == stem + Marker + ext
  {
    assert dir + stem + ext == dir + (stem + ext);
    BasenameOf(dir, stem + ext);
    SplitAtExtension(stem, ext);
    RemoveAllAbsent(stem, Marker);
  }

  /** Saving the edited file again gives the same name: the marker does not pile up. */
  lemma SavedNameStable(stem: string, ext: string)
    requires |stem| > 0 && '.' !in stem && '/' !in stem && Extension(ext)
    requires forall i: nat :: i < |stem| ==> !OccursAt(stem, Marker, i)
    ensures SavedName(stem + Marker + ext) == stem + Marker + ext
  {
    var edited := stem + Marker;
    assert '.' !in edited && '/' !in edited;
    BasenameOf([], edited + ext);
    assert [] + (edited + ext) == stem + Marker + ext;
    SplitAtExtension(edited, ext);
    MarkerBorderless();
    RemoveAllTail(stem, Marker);
  }

  class FreeHandCutter {
    const filename: string
    const splined: bool
    var mesh: Mesh
    /** The mesh `u` goes back to. */
    var meshPrev: Mesh
    var drawMode: bool
    var cpoints: seq<Vec3>
    var curve: Option<Curve>
    /** The picked points under the drawn line. */
    var topPoints: seq<Vec3>
    /** Every save, as the mesh written and the file name it went to. */
    var saved: seq<(Mesh, string)>

    /**
     * A curve on screen runs through exactly the drawn points, of which
     * there are at least three; the mesh is the one `u` returns to, or a
     * single edit of it.
     */
    ghost predicate Valid()
      reads this`mesh, this`meshPrev, this`cpoints, this`curve
    {
      && (curve.Some? ==> curve.value.points == cpoints && |cpoints| > 2)
      && (mesh == meshPrev || (!mesh.Input? && mesh.base == meshPrev))
    }

    constructor(filename: string, splined: bool)
      ensures Valid() && mesh == Input && meshPrev == Input && !drawMode
      ensures cpoints == [] && curve.None? && topPoints == [] && saved == []
      ensures this.filename == filename && this.splined == splined
    {
      this.filename, this.splined := filename, splined;
      mesh, meshPrev := Input, Input;
      drawMode := false;
      cpoints, curve, topPoints := [], None, [];
      saved := [];
    }

    /**
     * `_on_right_click`: toggles draw mode; leaving it closes the line
     * through the drawn points when there are more than two.
     */
    method RightClick()
      requires Valid()
      modifies this`drawMode, this`curve
      ensures Valid() && drawMode == !old(drawMode)
      ensures !drawMode && |cpoints| > 2 ==> curve == Some(Curve(cpoints, true))
      ensures drawMode || |cpoints| <= 2 ==> curve == old(curve)
    {
      drawMode := !drawMode;
      if !drawMode && |cpoints| > 2 {
        curve := Some(Curve(cpoints, true));
      }
    }

    /**
     * `_on_mouse_move`: in draw mode the point under the mouse grows the
     * line unless it is within `limit` (the mesh's diagonal size times the
     * tolerance) of the last point; from three points on the open line is
     * redrawn and a point picked on a mesh joins the top points.
     */
    method MouseMove(cpt: Vec3, limit: real, picked: Option<Vec3>)
      requires Valid()
      modifies this`cpoints, this`curve, this`topPoints
      ensures Valid()
      ensures var grows := drawMode && !(|old(cpoints)| > 0 && Near(cpt, old(cpoints)[|old(cpoints)| - 1], limit));
        && cpoints == old(cpoints) + (if grows then [cpt] else [])
        && (grows && |cpoints| > 2 ==> curve == Some(Curve(cpoints, false)))
        && topPoints == old(topPoints) + (if grows && |cpoints| > 2 && picked.Some? then [picked.value] else [])
        && (!grows ==> curve == old(curve))
    {
      if !drawMode {
        return;
      }
      if |cpoints| > 0 && Near(cpt, cpoints[|cpoints| - 1], limit) {
        return;
      }
      cpoints := cpoints + [cpt];
      if |cpoints| > 2 {
        curve := Some(Curve(cpoints, false));
        if picked.Some? {
          topPoints := topPoints + [picked.value];
        }
      }
    }

    /**
     * Keys `z`/`Z`: with a line drawn, the mesh is cut along it (`Z` keeps
     * the other side), the mesh before the cut is kept for undo, draw
     * mode ends and the line is cleared.
     */
    method KeyCut(inverted: bool)
      requires Valid()
      modifies this`mesh, this`meshPrev, this`drawMode, this`cpoints, this`curve, this`topPoints
      ensures Valid()
      ensures old(curve).Some? ==>
        && meshPrev == old(mesh) && mesh == Cut(old(mesh), old(curve).value.points, inverted)
        && !drawMode && cpoints == [] && curve.None? && topPoints == []
      ensures old(curve).None? ==>
        && mesh == old(mesh) && meshPrev == old(meshPrev) && drawMode == old(drawMode)
        && cpoints == old(cpoints) && curve.None? && topPoints == old(topPoints)
    {
      if curve.None? {
        return;
      }
      meshPrev := mesh;
      mesh := Cut(mesh, curve.value.points, inverted);
      if drawMode {
        RightClick();
      }
      cpoints, curve, topPoints := [], None, [];
    }

    /** Key `L`: only the largest connected region is kept; the mesh before is kept for undo. */
    method KeyLargest()
      requires Valid()
      modifies this`mesh, this`meshPrev
      ensures Valid() && meshPrev == old(mesh) && mesh == LargestRegion(old(mesh))
    {
      meshPrev := mesh;
      mesh := LargestRegion(mesh);
    }

    /**
     * Key `u`: the mesh goes back one edit, draw mode ends and the line is
     * cleared; a second `u` leaves the mesh as it is.
     */
    method KeyUndo()
      requires Valid()
      modifies this`mesh, this`drawMode, this`cpoints, this`curve, this`topPoints
      ensures Valid() && mesh == meshPrev && !drawMode
      ensures old(mesh) == meshPrev || old(mesh).base == mesh
      ensures cpoints == [] && curve.None? && topPoints == []
    {
      if drawMode {
        RightClick();
      }
      mesh := meshPrev;
      cpoints, curve, topPoints := [], None, [];
    }

    /** Keys `c` and `Delete`: the line is cleared. */
    method KeyClear()
      requires Valid()
      modifies this`cpoints, this`curve, this`topPoints
      ensures Valid() && cpoints == [] && curve.None? && topPoints == []
    {
      cpoints, curve, topPoints := [], None, [];
    }

    /** Key `s`: the mesh is written under `SavedName` of the input file's name. */
    method KeySave()
      modifies this`saved
      ensures saved == old(saved) + [(mesh, SavedName(filename))]
    {
      var name := "mesh_edited.vtk";
      if filename != "" {
        var (stem, ext) := SplitExt(Basename(filename));
        name := RemoveAll(stem, Marker) + Marker + ext;
      }
      saved := saved + [(mesh, name)];
    }
  }
}
