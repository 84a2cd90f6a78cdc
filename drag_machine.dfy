/**
 * The canvas manager's drag/commit state machine on values: the committed rectangles, the
 * rectangle under construction and the drag flag, and how each mouse event changes them
 * (src/lib/canvasManager.tsx, mouseDown, mouseUp and mouseMove). The class in module Canvas
 * is proved to follow these steps; the lemmas here are about whole event traces.
 */
module DragMachine {
  import opened Wrappers
  import opened Geometry
  import opened Collaborators

  /** The state the three handlers read and write. */
  datatype Machine = Machine(rectangles: seq<RectShape>, currentRect: RectShape, drag: bool)

  /** The state right after construction. */
  const Initial := Machine([], ZeroRect, false)

  /** A mouse event together with what the boundary validator answers about it. For a
      mouse-down, `onBorder` is the index of the rectangle `getRectForMouseOnBorder` reports
      (or `None`) and `insideAny` is the answer of `isMouseClickInsideBoxRegion`. */
  datatype Input =
    | Down(e: MouseEvent, onBorder: Option<nat>, insideAny: bool)
    | Move(e: MouseEvent)
    | Up(e: MouseEvent)

  /** A mouse-down that lands on no border and inside no rectangle: the one that starts a drag. */
  predicate StartsDrag(ev: Input) {
    ev.Down? && ev.onBorder.None? && !ev.insideAny
  }

  /** The border oracle only ever reports a rectangle of the collection. */
  predicate Fits(s: Machine, ev: Input) {
    ev.Down? && ev.onBorder.Some? ==> ev.onBorder.value < |s.rectangles|
  }

  /** mouseDown: the border test comes first and only records a subdivision on the reported
      rectangle; otherwise, outside every rectangle, the live rectangle is reset at the click
      point and a drag starts; inside a rectangle nothing happens. */
  function MouseDownStep(h: Helpers, s: Machine, e: MouseEvent, onBorder: Option<nat>, insideAny: bool): (t: Machine)
    requires onBorder.Some? ==> onBorder.value < |s.rectangles|
    ensures |t.rectangles| == |s.rectangles|
    ensures forall k :: 0 <= k < |s.rectangles| && onBorder != Some(k) ==> t.rectangles[k] == s.rectangles[k]
    ensures onBorder.Some? ==>
              t.rectangles[onBorder.value] == h.drawLineAtClickedGridBoundaryPosition(e, s.rectangles[onBorder.value])
              && t.currentRect == s.currentRect && t.drag == s.drag
    ensures onBorder.None? && insideAny ==> t == s
    ensures onBorder.None? && !insideAny ==>
              t.rectangles == s.rectangles && t.drag
              && t.currentRect == h.resetBoxProperties(s.currentRect, e.offsetX, e.offsetY)
  {
    match onBorder
    case Some(i) =>
      s.(rectangles := s.rectangles[i := h.drawLineAtClickedGridBoundaryPosition(e, s.rectangles[i])])
    case None =>
      if insideAny then s
      else s.(currentRect := h.resetBoxProperties(s.currentRect, e.offsetX, e.offsetY), drag := true)
  }

  /** mouseUp: a drag in progress is committed at the end of the collection; then the flag is
      cleared and the live rectangle is a fresh zero rectangle. No minimum size is required. */
  function MouseUpStep(s: Machine): (t: Machine)
    ensures !t.drag && t.currentRect == ZeroRect
    ensures s.drag ==> t.rectangles == s.rectangles + [s.currentRect]
    ensures !s.drag ==> t.rectangles == s.rectangles
  {
    Machine(if s.drag then s.rectangles + [s.currentRect] else s.rectangles, ZeroRect, false)
  }

  /** mouseMove: while dragging and once a container body is known, the live rectangle is resized
      by `drawRectangle`; the collection and the flag are never touched. */
  function MouseMoveStep(h: Helpers, hasBody: bool, s: Machine, e: MouseEvent): (t: Machine)
    ensures t.rectangles == s.rectangles && t.drag == s.drag
    ensures s.drag && hasBody ==> t.currentRect == h.drawRectangle(s.currentRect, e.pageX, e.pageY)
    ensures !(s.drag && hasBody) ==> t == s
  {
    if s.drag && hasBody then s.(currentRect := h.drawRectangle(s.currentRect, e.pageX, e.pageY)) else s
  }

  /** One event of any kind. The collection grows by one exactly on a mouse-up during a drag,
      and the flag is set exactly by a drag-starting mouse-down and cleared by every mouse-up. */
  function Step(h: Helpers, hasBody: bool, s: Machine, ev: Input): (t: Machine)
    requires Fits(s, ev)
    ensures |t.rectangles| == |s.rectangles| + (if ev.Up? && s.drag then 1 else 0)
    ensures t.drag == (!ev.Up? && (s.drag || StartsDrag(ev)))
    ensures !ev.Down? ==> s.rectangles <= t.rectangles
  {
    match ev
    case Down(e, onBorder, insideAny) => MouseDownStep(h, s, e, onBorder, insideAny)
    case Move(e) => MouseMoveStep(h, hasBody, s, e)
    case Up(_) => MouseUpStep(s)
  }

  /** A trace the border oracle can produce: every reported rectangle exists at that point. */
  predicate Admissible(h: Helpers, hasBody: bool, s: Machine, evs: seq<Input>)
    decreases |evs|, 0
  {
    evs == [] ||
    (Admissible(h, hasBody, s, evs[..|evs| - 1])
     && Fits(Run(h, hasBody, s, evs[..|evs| - 1]), evs[|evs| - 1]))
  }

  /** The state reached from `s` after the events `evs`, handled one after the other. */
  function Run(h: Helpers, hasBody: bool, s: Machine, evs: seq<Input>): Machine
    requires Admissible(h, hasBody, s, evs)
    decreases |evs|, 1
  {
    if evs == [] then s
    else Step(h, hasBody, Run(h, hasBody, s, evs[..|evs| - 1]), evs[|evs| - 1])
  }

  /** The number of mouse-up events in `evs` that arrive while a drag is in progress. */
  function DragEndingUps(h: Helpers, hasBody: bool, s: Machine, evs: seq<Input>): nat
    requires Admissible(h, hasBody, s, evs)
    decreases |evs|
  {
    if evs == [] then 0
    else DragEndingUps(h, hasBody, s, evs[..|evs| - 1])
         + (if evs[|evs| - 1].Up? && Run(h, hasBody, s, evs[..|evs| - 1]).drag then 1 else 0)
  }

  /** No mouse-up in `evs` after position `k`. */
  predicate NoUpAfter(evs: seq<Input>, k: int) {
    forall j :: 0 <= j < |evs| && k < j ==> !evs[j].Up?
  }

  /** Some drag-starting mouse-down in `evs` is followed by no mouse-up, or a drag was already
      open at the start and no mouse-up came at all. */
  ghost predicate DragOpen(initial: bool, evs: seq<Input>) {
    (exists k :: 0 <= k < |evs| && StartsDrag(evs[k]) && NoUpAfter(evs, k))
    || (initial && NoUpAfter(evs, -1))
  }

  /** Over any trace, the collection grows by exactly the number of drag-ending mouse-ups. */
  lemma {:induction false} CommittedCount(h: Helpers, hasBody: bool, s: Machine, evs: seq<Input>)
    requires Admissible(h, hasBody, s, evs)
    ensures |Run(h, hasBody, s, evs).rectangles| == |s.rectangles| + DragEndingUps(h, hasBody, s, evs)
    decreases |evs|
  {
    if evs != [] {
      CommittedCount(h, hasBody, s, evs[..|evs| - 1]);
    }
  }

  /** Over any trace, a drag is in progress exactly when a drag-starting mouse-down has occurred
      with no mouse-up since (or one was open at the start and no mouse-up came). */
  lemma {:induction false} DragIffOpenStart(h: Helpers, hasBody: bool, s: Machine, evs: seq<Input>)
    requires Admissible(h, hasBody, s, evs)
    ensures Run(h, hasBody, s, evs).drag <==> DragOpen(s.drag, evs)
    decreases |evs|
  {
    if evs == [] {
      assert NoUpAfter(evs, -1);
    } else {
      var n := |evs| - 1;
      var p, ev := evs[..n], evs[n];
      DragIffOpenStart(h, hasBody, s, p);
      assert forall k :: 0 <= k < n ==> evs[k] == p[k];
      if ev.Up? {
        forall k | -1 <= k < n ensures !NoUpAfter(evs, k) {
          assert evs[n].Up?;
        }
        assert !StartsDrag(evs[n]);
        assert !DragOpen(s.drag, evs);
      } else {
        forall k | -1 <= k < n ensures NoUpAfter(evs, k) <==> NoUpAfter(p, k) { }
        if StartsDrag(ev) {
          assert NoUpAfter(evs, n);
          assert DragOpen(s.drag, evs);
        } else if DragOpen(s.drag, p) {
          if s.drag && NoUpAfter(p, -1) {
            assert DragOpen(s.drag, evs);
          } else {
            var k :| 0 <= k < |p| && StartsDrag(p[k]) && NoUpAfter(p, k);
            assert StartsDrag(evs[k]) && NoUpAfter(evs, k);
          }
        } else {
          forall k | 0 <= k < |evs| && StartsDrag(evs[k]) ensures !NoUpAfter(evs, k) {
            assert k < n && StartsDrag(p[k]) && !NoUpAfter(p, k);
          }
          assert s.drag ==> !NoUpAfter(p, -1);
        }
      }
    }
  }

  /** Extending an admissible trace by one event the state can take. */
  lemma SnocStep(h: Helpers, hasBody: bool, s: Machine, evs: seq<Input>, ev: Input)
    requires Admissible(h, hasBody, s, evs)
    requires Fits(Run(h, hasBody, s, evs), ev)
    ensures Admissible(h, hasBody, s, evs + [ev])
    ensures Run(h, hasBody, s, evs + [ev]) == Step(h, hasBody, Run(h, hasBody, s, evs), ev)
  {
  }

  /** Running `a` then `b` is running `a + b`. */
  lemma {:induction false} RunAppend(h: Helpers, hasBody: bool, s: Machine, a: seq<Input>, b: seq<Input>)
    requires Admissible(h, hasBody, s, a)
    requires Admissible(h, hasBody, Run(h, hasBody, s, a), b)
    ensures Admissible(h, hasBody, s, a + b)
    ensures Run(h, hasBody, s, a + b) == Run(h, hasBody, Run(h, hasBody, s, a), b)
    decreases |b|
  {
    if b == [] {
      assert a + b == a;
    } else {
      var n := |b| - 1;
      RunAppend(h, hasBody, s, a, b[..n]);
      assert (a + b)[..|a + b| - 1] == a + b[..n];
      assert (a + b)[|a + b| - 1] == b[n];
    }
  }

  /** The mouse-move events for a sequence of pointer positions. */
  function Moves(ms: seq<MouseEvent>): (r: seq<Input>)
    ensures |r| == |ms|
    ensures forall k :: 0 <= k < |ms| ==> r[k] == Move(ms[k])
    decreases |ms|
  {
    if ms == [] then [] else Moves(ms[..|ms| - 1]) + [Move(ms[|ms| - 1])]
  }

  /** The live rectangle after `drawRectangle` has been applied for each pointer position. */
  function Resized(h: Helpers, r: RectShape, ms: seq<MouseEvent>): RectShape
    decreases |ms|
  {
    if ms == [] then r
    else h.drawRectangle(Resized(h, r, ms[..|ms| - 1]), ms[|ms| - 1].pageX, ms[|ms| - 1].pageY)
  }

  /** Mouse moves during a drag resize only the live rectangle, one `drawRectangle` per move
      (provided a container body is known), and leave the collection and the flag alone. */
  lemma {:induction false} MovesWhileDragging(h: Helpers, hasBody: bool, s: Machine, ms: seq<MouseEvent>)
    requires s.drag
    ensures Admissible(h, hasBody, s, Moves(ms))
    ensures Run(h, hasBody, s, Moves(ms))
            == s.(currentRect := if hasBody then Resized(h, s.currentRect, ms) else s.currentRect)
    decreases |ms|
  {
    if ms != [] {
      var n := |ms| - 1;
      MovesWhileDragging(h, hasBody, s, ms[..n]);
      assert Moves(ms)[..n] == Moves(ms[..n]);
    }
  }

  /** The drag lifecycle: a mouse-down outside every rectangle, any number of mouse moves and a
      mouse-up append exactly one rectangle: the live rectangle reset at the click point and then
      resized by each move, and end with no drag in progress. */
  lemma DragLifecycle(h: Helpers, hasBody: bool, s: Machine, down: MouseEvent, ms: seq<MouseEvent>, up: MouseEvent)
    ensures Admissible(h, hasBody, s, [Down(down, None, false)] + Moves(ms) + [Up(up)])
    ensures var t := Run(h, hasBody, s, [Down(down, None, false)] + Moves(ms) + [Up(up)]);
            var anchored := h.resetBoxProperties(s.currentRect, down.offsetX, down.offsetY);
            t == Machine(s.rectangles + [if hasBody then Resized(h, anchored, ms) else anchored], ZeroRect, false)
  {
    var d := [Down(down, None, false)];
    assert Admissible(h, hasBody, s, []);
    SnocStep(h, hasBody, s, [], Down(down, None, false));
    assert [] + d == d;
    var started := Run(h, hasBody, s, d);
    MovesWhileDragging(h, hasBody, started, ms);
    RunAppend(h, hasBody, s, d, Moves(ms));
    var moved := Run(h, hasBody, s, d + Moves(ms));
    assert Admissible(h, hasBody, moved, []);
    SnocStep(h, hasBody, moved, [], Up(up));
    assert [] + [Up(up)] == [Up(up)];
    RunAppend(h, hasBody, s, d + Moves(ms), [Up(up)]);
  }

  /** A click outside every rectangle with no movement still commits a rectangle: the code has
      no minimum-size guard. */
  lemma ClickWithoutMovementCommits(h: Helpers, hasBody: bool, s: Machine, down: MouseEvent, up: MouseEvent)
    ensures Admissible(h, hasBody, s, [Down(down, None, false), Up(up)])
    ensures Run(h, hasBody, s, [Down(down, None, false), Up(up)]).rectangles
            == s.rectangles + [h.resetBoxProperties(s.currentRect, down.offsetX, down.offsetY)]
  {
    DragLifecycle(h, hasBody, s, down, [], up);
    assert [Down(down, None, false)] + Moves([]) + [Up(up)] == [Down(down, None, false), Up(up)];
  }

  /** A click inside an existing rectangle (and on no border) starts no drag, and the mouse-up
      after it commits nothing. */
  lemma ClickInsideCommitsNothing(h: Helpers, hasBody: bool, s: Machine, down: MouseEvent, up: MouseEvent)
    requires !s.drag
    ensures Admissible(h, hasBody, s, [Down(down, None, true), Up(up)])
    ensures Run(h, hasBody, s, [Down(down, None, true), Up(up)]) == Machine(s.rectangles, ZeroRect, false)
  {
    var evs := [Down(down, None, true), Up(up)];
    assert Admissible(h, hasBody, s, []);
    SnocStep(h, hasBody, s, [], Down(down, None, true));
    assert [] + [Down(down, None, true)] == [Down(down, None, true)];
    SnocStep(h, hasBody, s, [Down(down, None, true)], Up(up));
    assert [Down(down, None, true)] + [Up(up)] == evs;
  }
}
