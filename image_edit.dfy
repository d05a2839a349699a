/**
 * The pixel arithmetic and the output name of `ImageEditor`
 * (vedo/applications.py:2338-2498). Luminosity and contrast keys rewrite
 * the 8-bit pixel buffer of the output image in place: each value is
 * scaled as a float, clipped to 0..255 and cast back to `uint8`.
 *
 * The median the contrast keys scale around is computed by numpy and is a
 * parameter here; the other filters are calls into the image library.
 */
module ImageEdit {
  import opened PyOps
  import opened Quantize

  /** A `uint8` pixel value. */
  type Byte = x: int | 0 <= x < 256

  /** `.clip(0, 255).astype(np.uint8)` of a float: clipped, then truncated. */
  function ToByte(x: real): (b: Byte)
    ensures 0.0 <= x <= 255.0 ==> b as real <= x < b as real + 1.0
    ensures x < 0.0 ==> b == 0
    ensures x > 255.0 ==> b == 255
  {
    if x < 0.0 then 0 else if x > 255.0 then 255 else x.Floor
  }

  /** Clipping and truncating keeps the order of values. */
  lemma ToByteMonotone(x: real, y: real)
    requires x <= y
    ensures ToByte(x) <= ToByte(y)
  {
  }

  /** An integer pixel value below (above) a float stays below (above) its clipped, truncated value. */
  lemma ToByteBounds(v: Byte, x: real)
    ensures v as real <= x ==> v <= ToByte(x)
    ensures x <= v as real ==> ToByte(x) <= v
  {
  }

  lemma ToByteAtLeast(v: Byte, x: real)
    requires v as real <= x
    ensures v <= ToByte(x)
  {
  }

  lemma ToByteAtMost(v: Byte, x: real)
    requires x <= v as real
    ensures ToByte(x) <= v
  {
  }

  /** Keys `Ctrl+o` and `Ctrl+l`: the value scaled by `f`. */
  function Luminosity(v: Byte, f: real): Byte {
    ToByte(v as real * f)
  }

  /** Keys `O` and `L`: the value's distance from the median `m` scaled by `f`. */
  function Contrast(v: Byte, f: real, m: real): Byte {
    ToByte((v as real - m) * f + m)
  }

  /** A factor of at least one never darkens a pixel, one of at most one never brightens it. */
  lemma LuminosityDirection(v: Byte, f: real)
    ensures f >= 1.0 ==> Luminosity(v, f) >= v
    ensures f <= 1.0 ==> Luminosity(v, f) <= v
  {
    if f >= 1.0 {
      LuminosityUp(v, f);
    }
    if f <= 1.0 {
      LuminosityDown(v, f);
    }
  }

  lemma LuminosityUp(v: Byte, f: real)
    requires f >= 1.0
    ensures Luminosity(v, f) >= v
  {
    MulLeft(1.0, f, v as real);
    ToByteAtLeast(v, v as real * f);
  }

  lemma LuminosityDown(v: Byte, f: real)
    requires f <= 1.0
    ensures Luminosity(v, f) <= v
  {
    MulLeft(f, 1.0, v as real);
    ToByteAtMost(v, v as real * f);
  }

  /** With a non-negative factor the order of pixel values is kept. */
  lemma LuminosityMonotone(v: Byte, w: Byte, f: real)
    requires f >= 0.0 && v <= w
    ensures Luminosity(v, f) <= Luminosity(w, f)
  {
    MulLeft(v as real, w as real, f);
    ToByteMonotone(v as real * f, w as real * f);
  }

  /**
   * A factor of at least one moves every pixel away from the median (or
   * leaves it), one of at most one moves it towards the median.
   */
  lemma ContrastDirection(v: Byte, f: real, m: real)
    ensures f >= 1.0 && v as real >= m ==> Contrast(v, f, m) >= v
    ensures f >= 1.0 && v as real <= m ==> Contrast(v, f, m) <= v
    ensures f <= 1.0 && v as real >= m ==> Contrast(v, f, m) <= v
    ensures f <= 1.0 && v as real <= m ==> Contrast(v, f, m) >= v
  {
    if f >= 1.0 {
      StretchAway(v as real, f, m);
    }
    if f <= 1.0 {
      StretchToward(v as real, f, m);
    }
    ToByteBounds(v, (v as real - m) * f + m);
  }

  /** Stretching by a factor of at least one about `m` moves a value away from `m`. */
  lemma StretchAway(x: real, f: real, m: real)
    requires f >= 1.0
    ensures x >= m ==> x <= (x - m) * f + m
    ensures x <= m ==> (x - m) * f + m <= x
  {
    Lengthens(x - m, f);
  }

  /** Stretching by a factor of at most one about `m` moves a value towards `m`. */
  lemma StretchToward(x: real, f: real, m: real)
    requires f <= 1.0
    ensures x >= m ==> (x - m) * f + m <= x
    ensures x <= m ==> x <= (x - m) * f + m
  {
    Shortens(x - m, f);
  }

  /** Scaling a distance by a factor of at least one lengthens it. */
  lemma Lengthens(d: real, f: real)
    requires f >= 1.0
    ensures d >= 0.0 ==> d * f >= d
    ensures d <= 0.0 ==> d * f <= d
  {
    if d >= 0.0 {
      MulLeft(1.0, f, d);
    } else {
      MulLeft(1.0, f, -d);
      assert (-d) * f == -(d * f);
    }
  }

  /** Scaling a distance by a factor of at most one shortens it. */
  lemma Shortens(d: real, f: real)
    requires f <= 1.0
    ensures d >= 0.0 ==> d * f <= d
    ensures d <= 0.0 ==> d * f >= d
  {
    if d >= 0.0 {
      MulLeft(f, 1.0, d);
    } else {
      MulLeft(f, 1.0, -d);
      assert (-d) * f == -(d * f);
    }
  }

  /** `narray[:] = (narray * f).clip(0, 255).astype(np.uint8)`. */
  method ScaleLuminosity(a: array<Byte>, f: real)
    modifies a
    ensures forall i :: 0 <= i < a.Length ==> a[i] == Luminosity(old(a[i]), f)
  {
    var i := 0;
    while i < a.Length
      invariant 0 <= i <= a.Length
      invariant forall j :: 0 <= j < i ==> a[j] == Luminosity(old(a[j]), f)
      invariant forall j :: i <= j < a.Length ==> a[j] == old(a[j])
    {
      a[i] := Luminosity(a[i], f);
      i := i + 1;
    }
  }

  /** `narray[:] = ((narray - m) * f + m).clip(0, 255).astype(np.uint8)`. */
  method ScaleContrast(a: array<Byte>, f: real, m: real)
    modifies a
    ensures forall i :: 0 <= i < a.Length ==> a[i] == Contrast(old(a[i]), f, m)
  {
    var i := 0;
    while i < a.Length
      invariant 0 <= i <= a.Length
      invariant forall j :: 0 <= j < i ==> a[j] == Contrast(old(a[j]), f, m)
      invariant forall j :: i <= j < a.Length ==> a[j] == old(a[j])
    {
      a[i] := Contrast(a[i], f, m);
      i := i + 1;
    }
  }

  /** Key `Ctrl+o`: no pixel gets darker. */
  method Brighter(a: array<Byte>)
    modifies a
    ensures forall i :: 0 <= i < a.Length ==> a[i] == Luminosity(old(a[i]), 1.1) >= old(a[i])
  {
    ScaleLuminosity(a, 1.1);
    forall i | 0 <= i < a.Length ensures Luminosity(old(a[i]), 1.1) >= old(a[i]) {
      LuminosityDirection(old(a[i]), 1.1);
    }
  }

  /** Key `Ctrl+l`: no pixel gets brighter. */
  method Darker(a: array<Byte>)
    modifies a
    ensures forall i :: 0 <= i < a.Length ==> a[i] == Luminosity(old(a[i]), 0.9) <= old(a[i])
  {
    ScaleLuminosity(a, 0.9);
    forall i | 0 <= i < a.Length ensures Luminosity(old(a[i]), 0.9) <= old(a[i]) {
      LuminosityDirection(old(a[i]), 0.9);
    }
  }

  /** Key `O`, around the buffer's median `m`: pixels move away from the median. */
  method MoreContrast(a: array<Byte>, m: real)
    modifies a
    ensures forall i :: 0 <= i < a.Length ==> a[i] == Contrast(old(a[i]), 1.1, m)
    ensures forall i :: 0 <= i < a.Length && old(a[i]) as real >= m ==> a[i] >= old(a[i])
    ensures forall i :: 0 <= i < a.Length && old(a[i]) as real <= m ==> a[i] <= old(a[i])
  {
    ScaleContrast(a, 1.1, m);
    forall i | 0 <= i < a.Length ensures old(a[i]) as real >= m ==> a[i] >= old(a[i]) {
      ContrastDirection(old(a[i]), 1.1, m);
    }
    forall i | 0 <= i < a.Length ensures old(a[i]) as real <= m ==> a[i] <= old(a[i]) {
      ContrastDirection(old(a[i]), 1.1, m);
    }
  }

  /** Key `L`, around the buffer's median `m`: pixels move towards the median. */
  method LessContrast(a: array<Byte>, m: real)
    modifies a
    ensures forall i :: 0 <= i < a.Length ==> a[i] == Contrast(old(a[i]), 0.9, m)
    ensures forall i :: 0 <= i < a.Length && old(a[i]) as real >= m ==> a[i] <= old(a[i])
    ensures forall i :: 0 <= i < a.Length && old(a[i]) as real <= m ==> a[i] >= old(a[i])
  {
    ScaleContrast(a, 0.9, m);
    forall i | 0 <= i < a.Length ensures old(a[i]) as real >= m ==> a[i] <= old(a[i]) {
      ContrastDirection(old(a[i]), 0.9, m);
    }
    forall i | 0 <= i < a.Length ensures old(a[i]) as real <= m ==> a[i] >= old(a[i]) {
      ContrastDirection(old(a[i]), 0.9, m);
    }
  }

  /**
   * Key `Ctrl+s`: the base name's text before its first dot, `_edited.`,
   * and the text after its last dot.
   */
  function SaveName(filename: string): (r: string)
    ensures '/' !in r
  {
    var b := Basename(filename);
    FirstField(b, '.') + "_edited." + LastField(b, '.')
  }

  /** The text before the first dot of `stem.rest`, for a stem without dots. */
  lemma {:induction false} FirstFieldOf(stem: string, rest: string)
    requires '.' !in stem
    ensures FirstField(stem + "." + rest, '.') == stem
    decreases |stem|
  {
    var name := stem + "." + rest;
    if stem == [] {
      assert name[0] == '.';
    } else {
      assert name[1..] == stem[1..] + "." + rest;
      FirstFieldOf(stem[1..], rest);
      assert name[0] != '.';
      assert [stem[0]] + stem[1..] == stem;
    }
  }

  /** The text after the last dot of `front.ext`, for an extension without dots. */
  lemma LastFieldOf(front: string, ext: string)
    requires '.' !in ext
    ensures LastField(front + "." + ext, '.') == ext
  {
    AfterLastConcat(front + ".", ext, '.');
    assert AfterLast(front + ".", '.') == |front| + 1;
    assert (front + "." + ext)[|front| + 1..] == ext;
  }

  /** For `stem.ext` in any directory the name is `stem_edited.ext`. */
  lemma SaveNameOfStemExt(dir: string, stem: string, ext: string)
    requires dir == [] || dir[|dir| - 1] == '/'
    requires '.' !in stem && '/' !in stem && '.' !in ext && '/' !in ext
    ensures SaveName(dir + stem + "." + ext) == stem + "_edited." + ext
  {
    var name := stem + "." + ext;
    assert dir + stem + "." + ext == dir + name;
    assert '/' !in name;
    BasenameOf(dir, name);
    FirstFieldOf(stem, ext);
    LastFieldOf(stem, ext);
  }

  /** Saving an image saved before adds a second marker. */
  lemma SaveNameStacks(stem: string, ext: string)
    requires '.' !in stem && '/' !in stem && '.' !in ext && '/' !in ext
    ensures SaveName(stem + "_edited." + ext) == stem + "_edited_edited." + ext
  {
    var edited := stem + "_edited";
    MarkedPlain(stem);
    SaveNameOfStemExt([], edited, ext);
    Regroup(stem, ext);
  }

  lemma MarkedPlain(stem: string)
    requires '.' !in stem && '/' !in stem
    ensures '.' !in stem + "_edited" && '/' !in stem + "_edited"
  {
    var edited := stem + "_edited";
    assert forall i :: 0 <= i < |edited| ==> edited[i] == (if i < |stem| then stem[i] else "_edited"[i - |stem|]);
  }

  lemma Regroup(stem: string, ext: string)
    ensures [] + (stem + "_edited") + "." + ext == stem + "_edited." + ext
    ensures (stem + "_edited") + "_edited." + ext == stem + "_edited_edited." + ext
  {
    assert "_edited." == "_edited" + ".";
    assert "_edited_edited." == "_edited" + "_edited.";
  }

  /** A name without a dot is used whole as the extension too. */
  lemma SaveNameWithoutDot(dir: string, name: string)
    requires dir == [] || dir[|dir| - 1] == '/'
    requires '.' !in name && '/' !in name
    ensures SaveName(dir + name) == name + "_edited." + name
  {
    BasenameOf(dir, name);
    var b := Basename(dir + name);
    assert FirstField(b, '.') == name by {
      assert FirstIndex(name, '.') == |name|;
      assert name[..|name|] == name;
    }
    assert LastField(b, '.') == name by {
      assert AfterLast(name, '.') == 0;
      assert name[0..] == name;
    }
  }
}
