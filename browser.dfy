/**
 * `Browser` (vedo/applications.py:1838-1960): a slider steps through a list
 * of objects (or through several lists side by side), showing the `k`-th
 * object of every list and hiding all the others.
 *
 * Objects are identified by number and their visibility is kept in a grid
 * of flags shaped like the lists. The slider's title text is not modelled.
 */
module BrowserApp {
  import opened Wrappers
  import opened Quantize

  /** What the browser was given: a list of lists of objects, or one flat list. */
  datatype Objects = Nested(rows: seq<seq<nat>>) | Flat(items: seq<nat>)

  datatype BrowserError =
    | LengthMismatch   // the `assert` that every list has the first list's length
    | IndexError       // `objects[0]` of an empty list

  /** Every list has as many objects as the first. */
  predicate Rectangular(rows: seq<seq<nat>>) {
    forall i :: 0 <= i < |rows| ==> |rows[i]| == |rows[0]|
  }

  /**
   * `__init__`'s check: nested lists must all have the first one's length;
   * a non-empty flat list becomes the only row, an empty one no rows.
   */
  function Arrange(objs: Objects): (r: Result<seq<seq<nat>>, BrowserError>)
    ensures r.Success? ==> Rectangular(r.value)
    ensures r.Failure? <==> objs.Nested? && !Rectangular(objs.rows)
    ensures objs.Nested? && r.Success? ==> r.value == objs.rows
    ensures objs.Flat? ==> r == Success(if objs.items == [] then [] else [objs.items])
  {
    match objs
    case Nested(rows) =>
      if |rows| > 0 && exists i :: 0 <= i < |rows| && |rows[i]| != |rows[0]| then Failure(LengthMismatch)
      else Success(rows)
    case Flat(items) =>
      if |items| > 0 then Success([items]) else Success([])
  }

  /** The number of shown objects in a row of flags. */
  function CountShown(row: seq<bool>): nat {
    if row == [] then 0 else CountShown(row[..|row| - 1]) + (if row[|row| - 1] then 1 else 0)
  }

  /** The row of flags of `m` objects with only the `k`-th shown. */
  function OnlyAt(m: nat, k: int): (row: seq<bool>)
    ensures |row| == m
    ensures forall j :: 0 <= j < m ==> row[j] == (j == k)
  {
    seq(m, j => j == k)
  }

  /** Exactly one object of a row is shown when `k` is one of its indices, none otherwise. */
  lemma {:induction false} OneShownPerRow(m: nat, k: int)
    ensures CountShown(OnlyAt(m, k)) == if 0 <= k < m then 1 else 0
  {
    if m > 0 {
      assert OnlyAt(m, k)[..m - 1] == OnlyAt(m - 1, k);
      OneShownPerRow(m - 1, k);
    }
  }

  class Browser {
    const objects: seq<seq<nat>>
    /** `shown[i][j]`: whether object `j` of list `i` is on. */
    var shown: seq<seq<bool>>
    /** The last slider index handled. */
    var oldK: Option<int>

    ghost predicate Valid()
      reads this`shown
    {
      && Rectangular(objects)
      && |shown| == |objects|
      && forall i :: 0 <= i < |shown| ==> |shown[i]| == |objects[i]|
    }

    /** Built from what `Arrange` accepted; every object starts shown. */
    constructor(rows: seq<seq<nat>>)
      requires Rectangular(rows)
      ensures Valid() && objects == rows && oldK.None?
      ensures forall i, j :: 0 <= i < |rows| && 0 <= j < |rows[i]| ==> shown[i][j]
    {
      objects := rows;
      shown := seq(|rows|, i requires 0 <= i < |rows| => seq(|rows[i]|, j => true));
      oldK := None;
    }

    /**
     * `slider_function`: the slider's value truncated to an index `k`; if
     * it differs from the last one, object `k` of every list is shown and
     * every other object hidden. With no lists at all it raises.
     */
    method SliderMoved(value: real) returns (r: Result<(), BrowserError>)
      requires Valid()
      modifies this`shown, this`oldK
      ensures Valid()
      ensures var k := Trunc(value);
        if old(oldK) == Some(k) then r.Success? && shown == old(shown) && oldK == old(oldK)
        else
          && oldK == Some(k)
          && (r.Failure? <==> objects == [])
          && (r.Failure? ==> r.error == IndexError && shown == old(shown))
          && (r.Success? ==> forall i :: 0 <= i < |objects| ==> shown[i] == OnlyAt(|objects[0]|, k))
    {
      var k := Trunc(value);
      if oldK == Some(k) {
        return Success(());
      }
      oldK := Some(k);
      if |objects| == 0 {
        return Failure(IndexError);
      }
      var m := |objects[0]|;
      var i := 0;
      while i < |objects|
        invariant 0 <= i <= |objects| && Valid() && oldK == Some(k)
        invariant forall p :: 0 <= p < i ==> shown[p] == OnlyAt(m, k)
      {
        var j := 0;
        while j < m
          invariant 0 <= j <= m && Valid() && oldK == Some(k)
          invariant forall p :: 0 <= p < i ==> shown[p] == OnlyAt(m, k)
          invariant forall q :: 0 <= q < j ==> shown[i][q] == (q == k)
        {
          shown := shown[i := shown[i][j := j == k]];
          j := j + 1;
        }
        assert shown[i] == OnlyAt(m, k);
        i := i + 1;
      }
      r := Success(());
    }
  }
}
