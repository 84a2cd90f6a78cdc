/**
 * The records shared by the canvas manager and its collaborators: the grid rectangle
 * (a mutable record in the source, so a class here, with its value `RectShape`) and the
 * line-drawing configuration.
 */
module Geometry {

  /** The value of a grid rectangle at one moment: its anchor, its signed extent, the
      subdivision offsets recorded along each axis and the (write-only) undo list. The
      element type of the undo list is not visible in the modelled files; `int` stands for it. */
  datatype RectShape = RectShape(
    startX: int,
    startY: int,
    width: int,
    height: int,
    horizontalPointsSelected: seq<int>,
    verticalPointsSelected: seq<int>,
    undoLineList: seq<int>)

  /** The neutral rectangle the canvas manager starts from and resets to after every mouse-up. */
  const ZeroRect := RectShape(0, 0, 0, 0, [], [], [])

  /** A grid rectangle object. The source's helpers update these fields in place, and the
      committed collection holds references to such objects. */
  class GridRect {
    var startX: int
    var startY: int
    var width: int
    var height: int
    var horizontalPointsSelected: seq<int>
    var verticalPointsSelected: seq<int>
    var undoLineList: seq<int>

    /** A fresh object holding the zero rectangle with empty point lists. */
    constructor Zero()
      ensures Shape() == ZeroRect
    {
      startX, startY, width, height := 0, 0, 0, 0;
      horizontalPointsSelected, verticalPointsSelected, undoLineList := [], [], [];
    }

    /** The current value of this object. */
    function Shape(): RectShape
      reads this
    {
      RectShape(startX, startY, width, height,
                horizontalPointsSelected, verticalPointsSelected, undoLineList)
    }

    /** Overwrites every field of this object with the given value. */
    method Assign(v: RectShape)
      modifies this
      ensures Shape() == v
    {
      startX, startY, width, height := v.startX, v.startY, v.width, v.height;
      horizontalPointsSelected := v.horizontalPointsSelected;
      verticalPointsSelected := v.verticalPointsSelected;
      undoLineList := v.undoLineList;
    }
  }

  /** The values of a sequence of rectangle objects, position by position. */
  function ShapesOf(rs: seq<GridRect>): (r: seq<RectShape>)
    reads rs
    ensures |r| == |rs|
    decreases |rs|
  {
    if rs == [] then [] else ShapesOf(rs[..|rs| - 1]) + [rs[|rs| - 1].Shape()]
  }

  /** The value at each position is that object's value. */
  lemma {:induction false} ShapesOfAt(rs: seq<GridRect>, k: nat)
    requires k < |rs|
    ensures ShapesOf(rs)[k] == rs[k].Shape()
    decreases |rs|
  {
    if k < |rs| - 1 {
      ShapesOfAt(rs[..|rs| - 1], k);
    }
  }

  /** Appending an object appends its value. */
  lemma ShapesOfSnoc(rs: seq<GridRect>, r: GridRect)
    ensures ShapesOf(rs + [r]) == ShapesOf(rs) + [r.Shape()]
  {
  }

  /** No object occurs twice in `rs`: each one is absent from the objects before it. */
  predicate Distinct(rs: seq<GridRect>)
    decreases |rs|
  {
    rs == [] || (Distinct(rs[..|rs| - 1]) && rs[|rs| - 1] !in rs[..|rs| - 1])
  }

  /** Appending an object not yet present keeps the objects distinct. */
  lemma DistinctSnoc(rs: seq<GridRect>, r: GridRect)
    requires Distinct(rs) && r !in rs
    ensures Distinct(rs + [r])
  {
  }

  /** Two different positions of a distinct sequence hold different objects. */
  lemma {:induction false} DistinctAt(rs: seq<GridRect>, i: nat, k: nat)
    requires Distinct(rs) && i < |rs| && k < |rs| && i != k
    ensures rs[i] != rs[k]
    decreases |rs|
  {
    var n := |rs| - 1;
    if i < n && k < n {
      DistinctAt(rs[..n], i, k);
    } else if i == n {
      assert rs[k] in rs[..n];
    } else {
      assert rs[i] in rs[..n];
    }
  }

  /** The required line properties handed to the canvas manager. JavaScript numbers are
      modelled as integers. */
  datatype LineProperties = LineProperties(
    lineClickTolerance: int,
    selectCircleSize: int,
    circleLineShiftSize: int,
    contextLineWidth: int,
    lineColour: string)
}
