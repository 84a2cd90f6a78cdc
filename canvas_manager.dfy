/**
 * The canvas manager of src/lib/canvasManager.tsx: it owns the committed rectangles, the
 * rectangle under construction and the drag flag, and its three mouse handlers update them.
 * Each handler is proved to take the step of the same name in module DragMachine and to keep
 * the live rectangle apart from every committed one. Each handler also returns, in order, the
 * calls it makes into its collaborators and the 2D context.
 */
module Canvas {
  import opened Wrappers
  import opened Geometry
  import opened Collaborators
  import opened DragMachine

  /** The container element the canvas overlays, as far as sizing reads it. */
  datatype Element = Element(offsetWidth: int, offsetHeight: int)

  /** The canvas element: its drawing-buffer size and its offset in the page. */
  datatype CanvasElement = CanvasElement(width: int, height: int, offsetLeft: int, offsetTop: int)

  class CanvasManager {
    var rectangles: seq<GridRect>
    const lineProperties: LineProperties
    var canvas: Option<CanvasElement>
    var currentRect: GridRect
    var containerID: Option<string>
    var drag: bool
    var body: Option<Element>

    /** The live rectangle is never one of the committed ones, no rectangle is committed twice,
        and a container body is only known once the canvas element is. */
    ghost predicate Valid()
      reads this
    {
      currentRect !in rectangles
      && Distinct(rectangles)
      && (body.Some? ==> canvas.Some?)
    }

    /** The drag state machine's view of this object. */
    ghost function State(): Machine
      reads this, currentRect, rectangles
    {
      Machine(ShapesOf(rectangles), currentRect.Shape(), drag)
    }

    /** No rectangles, no drag, the zero rectangle under construction, nothing mounted yet. */
    constructor (lineProperties: LineProperties)
      ensures Valid() && State() == Initial
      ensures rectangles == [] && fresh(currentRect)
      ensures this.lineProperties == lineProperties
      ensures containerID.None? && body.None? && canvas.None?
    {
      rectangles := [];
      currentRect := new GridRect.Zero();
      this.lineProperties := lineProperties;
      containerID, drag, body, canvas := None, false, None, None;
    }

    /** createCanvas: remembers the container id, the container element the document returns
        for it (if any) and the canvas element, then sizes the canvas. Listener registration,
        the 2D context and the collaborators' reconstruction are not modelled. */
    method CreateCanvas(containerID: string, body: Option<Element>, canvas: CanvasElement)
      requires Valid()
      modifies this`containerID, this`body, this`canvas
      ensures Valid()
      ensures this.containerID == Some(containerID) && this.body == body
      ensures this.canvas == Some(if body.Some?
                                  then canvas.(width := body.value.offsetWidth, height := body.value.offsetHeight)
                                  else canvas)
    {
      this.containerID := Some(containerID);
      this.body := body;
      this.canvas := Some(canvas);
      SetCanvasSize();
    }

    /** setCanvasSize: with a container body, the canvas takes its offset width and height;
        without one, nothing changes. */
    method SetCanvasSize()
      requires Valid()
      modifies this`canvas
      ensures Valid()
      ensures old(body).Some? ==>
                canvas == Some(old(canvas).value.(width := body.value.offsetWidth, height := body.value.offsetHeight))
      ensures old(body).None? ==> canvas == old(canvas)
    {
      if body.Some? {
        canvas := Some(canvas.value.(width := body.value.offsetWidth, height := body.value.offsetHeight));
      }
    }

    /** mouseDown at the event's offset coordinates. `onBorder` and `insideAny` are the boundary
        validator's answers for that point. A border hit records a subdivision on that rectangle
        only; otherwise a click outside every rectangle re-anchors the live rectangle and starts
        a drag; a click inside one does nothing. The inside test is not even asked on a border hit. */
    method MouseDown(h: Helpers, e: MouseEvent, onBorder: Option<nat>, insideAny: bool) returns (calls: seq<Call>)
      requires Valid()
      requires onBorder.Some? ==> onBorder.value < |rectangles|
      modifies this`drag, currentRect, rectangles
      ensures Valid()
      ensures rectangles == old(rectangles) && currentRect == old(currentRect)
      ensures State() == MouseDownStep(h, old(State()), e, onBorder, insideAny)
      ensures calls == [GetRectForMouseOnBorder(e.offsetX, e.offsetY)] +
                match onBorder
                case Some(i) => [DrawLineAtClickedGridBoundaryPosition(e, rectangles[i])]
                case None =>
                  [IsMouseClickInsideBoxRegion(e.offsetX, e.offsetY)]
                  + (if insideAny then [] else [ResetBoxProperties(currentRect, e.offsetX, e.offsetY)])
    {
      var mouseX, mouseY := e.offsetX, e.offsetY;
      calls := [GetRectForMouseOnBorder(mouseX, mouseY)];
      ghost var before := ShapesOf(rectangles);
      match onBorder {
        case Some(i) =>
          forall k | 0 <= k < |rectangles| ensures before[k] == rectangles[k].Shape() {
            ShapesOfAt(rectangles, k);
          }
          ApplyDrawLineAtClickedGridBoundaryPosition(h, e, rectangles[i]);
          calls := calls + [DrawLineAtClickedGridBoundaryPosition(e, rectangles[i])];
          ghost var after := before[i := h.drawLineAtClickedGridBoundaryPosition(e, before[i])];
          forall k | 0 <= k < |rectangles| ensures ShapesOf(rectangles)[k] == after[k] {
            ShapesOfAt(rectangles, k);
            if k != i {
              DistinctAt(rectangles, k, i);
            }
          }
          assert ShapesOf(rectangles) == after;
        case None =>
          calls := calls + [IsMouseClickInsideBoxRegion(mouseX, mouseY)];
          if !insideAny {
            ApplyResetBoxProperties(h, currentRect, mouseX, mouseY);
            calls := calls + [ResetBoxProperties(currentRect, mouseX, mouseY)];
            drag := true;
          }
          assert ShapesOf(rectangles) == before;
      }
    }

    /** mouseUp: a drag in progress commits the live rectangle object at the end of the
        collection; then the flag is cleared and a fresh zero rectangle becomes the live one,
        so no later reset can reach a committed rectangle. Every committed rectangle is redrawn. */
    method MouseUp(e: MouseEvent) returns (calls: seq<Call>)
      requires Valid() && canvas.Some?
      modifies this`drag, this`rectangles, this`currentRect
      ensures Valid()
      ensures rectangles == if old(drag) then old(rectangles) + [old(currentRect)] else old(rectangles)
      ensures !drag && fresh(currentRect) && currentRect.Shape() == ZeroRect
      ensures State() == MouseUpStep(old(State()))
      ensures calls == RedrawCalls(rectangles, e.pageX - canvas.value.offsetLeft, e.pageY - canvas.value.offsetTop)
    {
      CommitAndReset();
      ghost var committed := State();
      calls := DrawAllCreatedRectangles(e);
      assert State() == committed;
    }

    /** The state change of mouseUp, before its redraw. */
    method CommitAndReset()
      requires Valid()
      modifies this`drag, this`rectangles, this`currentRect
      ensures Valid()
      ensures rectangles == if old(drag) then old(rectangles) + [old(currentRect)] else old(rectangles)
      ensures !drag && fresh(currentRect) && currentRect.Shape() == ZeroRect
      ensures State() == MouseUpStep(old(State()))
    {
      ghost var before := ShapesOf(rectangles);
      ghost var live := currentRect.Shape();
      ghost var after := if drag then before + [live] else before;
      if drag {
        DistinctSnoc(rectangles, currentRect);
        ShapesOfSnoc(rectangles, currentRect);
        rectangles := rectangles + [currentRect];
      }
      ghost var committed := rectangles;
      assert Distinct(committed) && ShapesOf(committed) == after;
      drag := false;
      currentRect := new GridRect.Zero();
      assert currentRect !in committed;
      assert ShapesOf(committed) == after;
    }

    /** mouseMove: clears the canvas; while dragging with a known container body, resizes and
        draws the live rectangle at the event's page coordinates; when not dragging, does the
        hover checks at the canvas-relative pointer; then redraws every committed rectangle. It
        assigns neither the flag nor the collection: the live rectangle is all it may change. */
    method MouseMove(h: Helpers, e: MouseEvent) returns (calls: seq<Call>)
      requires Valid() && canvas.Some?
      modifies currentRect
      ensures Valid()
      ensures State() == MouseMoveStep(h, body.Some?, old(State()), e)
      ensures var x, y := e.pageX - canvas.value.offsetLeft, e.pageY - canvas.value.offsetTop;
              calls == [ClearRect(canvas.value.width, canvas.value.height)]
                       + (if drag && body.Some? then [DrawRectangle(currentRect, e.pageX, e.pageY)]
                          else if !drag then [ShowMouseCursorAsPointer("auto"),
                                              CheckForMouseOnBoxBoundaryOfRectAndReDraw(currentRect, x, y)]
                          else [])
                       + RedrawCalls(rectangles, x, y)
    {
      ghost var before := ShapesOf(rectangles);
      var cv := canvas.value;
      calls := [ClearRect(cv.width, cv.height)];
      if drag && body.Some? {
        ApplyDrawRectangle(h, currentRect, e.pageX, e.pageY);
        calls := calls + [DrawRectangle(currentRect, e.pageX, e.pageY)];
      } else if !drag {
        // The hover checks use page coordinates minus the canvas offset, not the offset
        // coordinates mouseDown uses; the two conventions are kept as the source has them.
        var mouseX, mouseY := e.pageX - cv.offsetLeft, e.pageY - cv.offsetTop;
        calls := calls + [ShowMouseCursorAsPointer("auto"),
                          CheckForMouseOnBoxBoundaryOfRectAndReDraw(currentRect, mouseX, mouseY)];
      }
      assert ShapesOf(rectangles) == before;
      var redraw := DrawAllCreatedRectangles(e);
      calls := calls + redraw;
    }

    /** drawAllCreatedRectangles: the redraw at the pointer translated to canvas coordinates. */
    method DrawAllCreatedRectangles(e: MouseEvent) returns (calls: seq<Call>)
      requires canvas.Some?
      ensures calls == RedrawCalls(rectangles, e.pageX - canvas.value.offsetLeft, e.pageY - canvas.value.offsetTop)
    {
      var mouseX, mouseY := e.pageX - canvas.value.offsetLeft, e.pageY - canvas.value.offsetTop;
      calls := BuildRectanglesWithMouseChecks(mouseX, mouseY);
    }

    /** buildRectanglesWithMouseChecks: for each committed rectangle in collection order, a hover
        check at the pointer and its grid lines; nothing is changed. */
    method BuildRectanglesWithMouseChecks(mouseX: int, mouseY: int) returns (calls: seq<Call>)
      ensures calls == RedrawCalls(rectangles, mouseX, mouseY)
    {
      calls := [];
      var i := 0;
      while i < |rectangles|
        invariant 0 <= i <= |rectangles|
        invariant calls == RedrawCalls(rectangles[..i], mouseX, mouseY)
      {
        var rect := rectangles[i];
        calls := calls + [CheckForMouseOnBoxBoundaryOfRectAndReDraw(rect, mouseX, mouseY), DrawRectGridLines(rect)];
        i := i + 1;
        assert rectangles[..i][..i - 1] == rectangles[..i - 1];
      }
      assert rectangles[..i] == rectangles;
    }
  }
}
