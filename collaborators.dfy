/**
 * The canvas manager's collaborators, whose code is not part of this model:
 * RectangleCreationManager, RectangleBoundaryValidator and the canvas 2D context.
 * Their effects on a rectangle are opaque total functions (a `Helpers` record); the calls the
 * manager makes into them are recorded, in order, as `Call` values.
 */
module Collaborators {
  import opened Geometry

  /** The coordinates a mouse event carries. The source reads `offsetX`/`offsetY` in mouse-down,
      raw `pageX`/`pageY` for `drawRectangle` while dragging, and `pageX`/`pageY` minus the canvas
      offset for the hover checks and the redraw; all are kept. */
  datatype MouseEvent = MouseEvent(offsetX: int, offsetY: int, pageX: int, pageY: int)

  /** The in-place updates the creation manager performs, as functions from the rectangle's old
      value (and the call's arguments) to its new value. Nothing is assumed about them. */
  datatype Helpers = Helpers(
    resetBoxProperties: (RectShape, int, int) -> RectShape,
    drawRectangle: (RectShape, int, int) -> RectShape,
    drawLineAtClickedGridBoundaryPosition: (MouseEvent, RectShape) -> RectShape)

  /** One call from the canvas manager into a collaborator or into the 2D context. The two hover
      calls, `ShowMouseCursorAsPointer` and `CheckForMouseOnBoxBoundaryOfRectAndReDraw`, do not
      record the event the source also passes them; they keep only the other arguments. */
  datatype Call =
    | ClearRect(width: int, height: int)
    | GetRectForMouseOnBorder(x: int, y: int)
    | IsMouseClickInsideBoxRegion(x: int, y: int)
    | DrawLineAtClickedGridBoundaryPosition(e: MouseEvent, rect: GridRect)
    | ResetBoxProperties(rect: GridRect, x: int, y: int)
    | DrawRectangle(rect: GridRect, pageX: int, pageY: int)
    | ShowMouseCursorAsPointer(fallback: string)
    | CheckForMouseOnBoxBoundaryOfRectAndReDraw(rect: GridRect, x: int, y: int)
    | DrawRectGridLines(rect: GridRect)

  /** `resetBoxProperties(rect, x, y)`: updates `rect` in place, and nothing else. */
  method ApplyResetBoxProperties(h: Helpers, rect: GridRect, x: int, y: int)
    modifies rect
    ensures rect.Shape() == h.resetBoxProperties(old(rect.Shape()), x, y)
  {
    rect.Assign(h.resetBoxProperties(rect.Shape(), x, y));
  }

  /** `drawRectangle(rect, pageX, pageY)`: resizes `rect` in place (and strokes it). */
  method ApplyDrawRectangle(h: Helpers, rect: GridRect, pageX: int, pageY: int)
    modifies rect
    ensures rect.Shape() == h.drawRectangle(old(rect.Shape()), pageX, pageY)
  {
    rect.Assign(h.drawRectangle(rect.Shape(), pageX, pageY));
  }

  /** `drawLineAtClickedGridBoundaryPosition(e, rect)`: records a subdivision on `rect` in place. */
  method ApplyDrawLineAtClickedGridBoundaryPosition(h: Helpers, e: MouseEvent, rect: GridRect)
    modifies rect
    ensures rect.Shape() == h.drawLineAtClickedGridBoundaryPosition(e, old(rect.Shape()))
  {
    rect.Assign(h.drawLineAtClickedGridBoundaryPosition(e, rect.Shape()));
  }

  /** The calls of one full redraw: for each committed rectangle in collection order, a hover
      check at the pointer and then its outline with grid lines. */
  function RedrawCalls(rs: seq<GridRect>, x: int, y: int): seq<Call>
    decreases |rs|
  {
    if rs == [] then []
    else RedrawCalls(rs[..|rs| - 1], x, y)
         + [CheckForMouseOnBoxBoundaryOfRectAndReDraw(rs[|rs| - 1], x, y), DrawRectGridLines(rs[|rs| - 1])]
  }

  /** A redraw visits every committed rectangle exactly once, in collection order, with two calls
      each, and touches no other rectangle. */
  lemma {:induction false} RedrawVisitsEachOnce(rs: seq<GridRect>, x: int, y: int)
    ensures |RedrawCalls(rs, x, y)| == 2 * |rs|
    ensures forall k :: 0 <= k < |rs| ==>
              RedrawCalls(rs, x, y)[2 * k] == CheckForMouseOnBoxBoundaryOfRectAndReDraw(rs[k], x, y)
              && RedrawCalls(rs, x, y)[2 * k + 1] == DrawRectGridLines(rs[k])
    ensures forall c :: c in RedrawCalls(rs, x, y) ==>
              (c.CheckForMouseOnBoxBoundaryOfRectAndReDraw? || c.DrawRectGridLines?) && c.rect in rs
    decreases |rs|
  {
    if rs != [] {
      var init := rs[..|rs| - 1];
      RedrawVisitsEachOnce(init, x, y);
      forall k | 0 <= k < |init| ensures init[k] == rs[k] { }
      forall c | c in RedrawCalls(init, x, y) ensures c.rect in rs {
        assert c.rect in init;
      }
    }
  }
}
