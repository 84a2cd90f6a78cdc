# React grid draw UI: the canvas manager's drag/commit state machine

This project models the core of a React component that lets a user draw axis-aligned
rectangles ("grid boxes") over a host element with mouse drags. It covers two parts.

- **The canvas manager** (`src/lib/canvasManager.tsx`). It owns three pieces of state: the
  insertion-ordered collection of committed rectangles, the rectangle under construction
  (`currentRect`) and the `drag` flag. Three mouse handlers update that state. `mouseDown` first
  asks the boundary validator whether the point is on a rectangle's border and, if so, records a
  subdivision on that rectangle. Otherwise, when the point is inside no rectangle, it re-anchors
  the live rectangle and starts a drag. `mouseUp` commits the live rectangle if a drag was active,
  then clears the flag and installs a fresh zero rectangle. `mouseMove` resizes the live rectangle
  while dragging, or does hover checks; either way it then redraws every committed rectangle.
- **The mounting component** (`src/index.tsx`). It has default line properties and checks that it
  received exactly one child carrying an `id`. That id is handed to `createCanvas`.

Layout:

- `wrappers.dfy`: `Option` and `Result`.
- `geometry.dfy`: the rectangle value `RectShape`, the in-place record `GridRect` (a class,
  because collaborators mutate rectangles in place and the collection holds references) and
  `LineProperties`.
- `collaborators.dfy`: the collaborators whose code is not part of this model
  (RectangleCreationManager, RectangleBoundaryValidator, the 2D context). Their in-place
  updates are opaque total functions collected in a `Helpers` record, and the calls the manager
  makes into them are recorded as `Call` values, in order.
- `drag_machine.dfy`: the state machine on values (`Machine`, one step function per handler,
  `Step`, `Run` over event traces) and the lemmas about whole traces.
- `canvas_manager.dfy`: the class `CanvasManager`. Each handler is a method with
  `modifies` limited to what the source assigns. Each is proved to take the matching step of
  the value machine and to keep `Valid()`: the live rectangle is never one of the committed ones,
  and no rectangle object is committed twice.
- `grid_draw_ui.dfy`: the properties with their defaults, `GetContainerID` and the mount effect.

The boundary validator's answers for a mouse-down are inputs to the model. `onBorder` is the
index of the reported rectangle or `None`. `insideAny` is the answer of the inside test.
Pointer coordinates are given integers. As in the source, `mouseDown` reads the event's offset
coordinates. `mouseMove` passes the raw page coordinates to `drawRectangle` while dragging. Its
hover checks, and the redraw, read page coordinates minus the canvas offset. These mixed
conventions are kept as written, not reconciled.

Points where the code's behaviour may be unexpected:

- There is no minimum-size guard: a click outside every rectangle with no movement commits
  a rectangle (`DragMachine.ClickWithoutMovementCommits`).
- `currentRect` is reset only by a drag-starting mouse-down and replaced on mouse-up.
- Reading `length` of undefined children (no child at all) is a runtime error in the code. The
  model reports it as a third mount error, `NoChildren`, ahead of the two thrown ones.

## Model

| member | source | states |
|---|---|---|
| `Canvas.CanvasManager.constructor` | src/lib/canvasManager.tsx:15-25 | after construction the collection is empty, the flag is false, the live rectangle is a fresh zero rectangle with empty point lists, and no container, body or canvas is known; the configuration is stored as given |
| `Canvas.CanvasManager.CreateCanvas` | src/lib/canvasManager.tsx:27-40 | remembers the container id and body and sizes the canvas to the body; the drag state is untouched |
| `Canvas.CanvasManager.SetCanvasSize` | src/lib/canvasManager.tsx:42-47 | with a body, the canvas width and height become the body's offset width and height; without one the canvas is unchanged |
| `Canvas.CanvasManager.MouseDown` | src/lib/canvasManager.tsx:49-59 | takes `DragMachine.MouseDownStep`; the same objects stay in the collection and live; through `State`, every rectangle other than the reported one keeps its value; the calls show that the border query comes first and that the inside query is skipped on a border hit |
| `Canvas.CanvasManager.MouseUp` | src/lib/canvasManager.tsx:61-68 | with a drag, the collection becomes the old collection plus the old live rectangle object at the end; without one it is unchanged; afterwards the flag is false and the live rectangle is a fresh zero rectangle, so it is not aliased with any committed one; then every committed rectangle is redrawn |
| `Canvas.CanvasManager.CommitAndReset` | src/lib/canvasManager.tsx:62-66 | the state change of mouseUp before its redraw: append the live object only during a drag, clear the flag, install a fresh zero rectangle, and keep the live rectangle apart from the committed ones and those distinct |
| `Canvas.CanvasManager.MouseMove` | src/lib/canvasManager.tsx:70-81 | may modify only the live rectangle, so neither the flag nor the collection changes; takes `DragMachine.MouseMoveStep`; the calls are a clear, then `drawRectangle` on the live rectangle only while dragging with a body, or the hover checks when not dragging, then the full redraw |
| `Canvas.CanvasManager.DrawAllCreatedRectangles` | src/lib/canvasManager.tsx:83-87 | the redraw is done at the page coordinates minus the canvas offset |
| `Canvas.CanvasManager.BuildRectanglesWithMouseChecks` | src/lib/canvasManager.tsx:89-94 | the loop issues exactly `RedrawCalls` of the collection: a hover check and the grid lines for each committed rectangle, in order; nothing changes |
| `Collaborators.RedrawVisitsEachOnce` | src/lib/canvasManager.tsx:89-94 | a redraw makes two calls per committed rectangle, hover check then grid lines, in collection order, and names no other rectangle |
| `Collaborators.ApplyResetBoxProperties` | src/lib/canvasManager.tsx:56 | `resetBoxProperties` changes only the rectangle it is given, to an opaque function of its old value and the click point |
| `Collaborators.ApplyDrawRectangle` | src/lib/canvasManager.tsx:73 | `drawRectangle` changes only the rectangle it is given, to an opaque function of its old value and the page coordinates |
| `Collaborators.ApplyDrawLineAtClickedGridBoundaryPosition` | src/lib/canvasManager.tsx:54 | the subdivision action changes only the rectangle it is given, to an opaque function of the event and its old value |
| `DragMachine.MouseDownStep` | src/lib/canvasManager.tsx:49-59 | the collection length never changes; only the reported rectangle may change; a border hit leaves the flag and the live rectangle alone (the border test has priority); inside a rectangle nothing changes; outside all of them the collection is untouched, the flag is set and the live rectangle is reset at the offset coordinates |
| `DragMachine.MouseUpStep` | src/lib/canvasManager.tsx:61-68 | with a drag the live rectangle is appended at the end, earlier entries in order; without one the collection is unchanged; afterwards the flag is false and the live rectangle is zero |
| `DragMachine.MouseMoveStep` | src/lib/canvasManager.tsx:70-81 | the collection and the flag never change; only while dragging with a body is the live rectangle resized |
| `DragMachine.Step` | src/lib/canvasManager.tsx:49-81 | the collection grows by one exactly on a mouse-up during a drag; the flag after an event is set exactly by a drag-starting mouse-down (or kept) and cleared by every mouse-up; only a mouse-down can change committed entries |
| `DragMachine.CommittedCount` | src/lib/canvasManager.tsx:49-68 | over any event trace, the number of committed rectangles grows by exactly the number of mouse-ups that arrived while a drag was in progress |
| `DragMachine.DragIffOpenStart` | src/lib/canvasManager.tsx:49-68 | over any event trace, a drag is in progress exactly when a drag-starting mouse-down occurred with no mouse-up since, or a drag was open at the start and no mouse-up came |
| `DragMachine.MovesWhileDragging` | src/lib/canvasManager.tsx:72-73 | during a drag, a run of mouse moves applies `drawRectangle` once per move to the live rectangle (given a body) and changes nothing else |
| `DragMachine.DragLifecycle` | src/lib/canvasManager.tsx:49-81 | mouse-down outside all rectangles, mouse moves, mouse-up: exactly one rectangle is appended, namely the reset rectangle resized by each move, and the machine ends idle with a zero live rectangle |
| `DragMachine.ClickWithoutMovementCommits` | src/lib/canvasManager.tsx:55-64 | a click outside all rectangles with no movement commits the reset rectangle: there is no minimum-size guard |
| `DragMachine.ClickInsideCommitsNothing` | src/lib/canvasManager.tsx:55-66 | a click inside a rectangle, followed by a mouse-up, starts no drag and leaves the collection as it was |
| `GridDrawUI.LinePropertiesOf` | src/index.tsx:26-32 | each configured property reaches the canvas manager unchanged, and each one left undefined takes its default |
| `GridDrawUI.DefaultConfiguration` | src/index.tsx:62-68 | the defaults are tolerance 15, handle size 3, handle shift 10, line width 1 and colour "red" |
| `GridDrawUI.CreateManager` | src/index.tsx:26-32 | the manager the first render creates: fresh, with a fresh zero live rectangle, an empty collection, no container, body or canvas, and the configuration from the properties |
| `GridDrawUI.GetContainerID` | src/index.tsx:39-50 | success exactly with one child that has an id, returning that id exactly; more than one child fails with the count error whatever the ids (the count check comes first); a single child without an id fails with the missing-id error |
| `GridDrawUI.ThrownMessages` | src/index.tsx:41-48 | the count and missing-id failures carry the component's two messages, and the count message wins when ids are missing too |
| `GridDrawUI.Mount` | src/index.tsx:34-37 | on success the id `getContainerID` returns is exactly what `createCanvas` receives, the container body is stored and the canvas is present, sized to the body's offset width and height (as given when no body is found); the drag state is untouched; on failure the manager is unchanged |

## Left out

- DOM and canvas I/O: looking up elements, getting the 2D context, registering the listeners
  and stroking. Looked-up elements are parameters of `CreateCanvas`. Drawing calls are recorded
  as `Call` values and have no effect.
- Coordinate extraction from the browser event: coordinates are given integers (`MouseEvent`).
  JavaScript numbers are doubles; the model uses integers and does no arithmetic on them
  beyond subtracting the canvas offset.
- The canvas's page offset (`offsetLeft`, `offsetTop`) is fixed when `CreateCanvas` stores the
  canvas element. The source reads it again on every event, so it follows layout changes; the
  model does not.
- The bodies of RectangleBoundaryValidator and RectangleCreationManager are not part of this model:
  the border and inside tests are inputs, and the three rectangle updates are opaque functions.
  As a result, no geometry (tolerance bands, normalisation, subdivision axes) is stated.
- The creation manager is built with a reference to the first live rectangle, and that object is
  later committed. If the helpers used that stored reference rather than their argument, later
  drags could change a committed rectangle. This is invisible in the modelled files. The model
  assumes every helper updates only the rectangle it is passed.
- `Canvas.CanvasManager.MouseMove`: the hover checks (`showMouseCursorAsPointer`,
  `CheckForMouseOnBoxBoundaryOfRectAndReDraw`) are assumed to change no rectangle, because their
  code is not shown.
- The public façade registration (`setCreationManagersForHook`, `PublicFunctionManager`) is a
  global registry outside this model.
- React rendering, `useState`/`useEffect` scheduling, JSX and the style objects.
- JavaScript coercions in `children.length > 1`, such as a single child passed inside an array
  or a text child: children are abstracted to a count plus the id that is read.
- `undoLineList`: its element type is not visible, so it is modelled as `seq<int>`. The
  modelled code only ever sets it to empty.
- `GridDrawUI.CreateManager`: the component builds a new manager on every render, but `useState`
  keeps only the first one. So only the first render's properties ever reach the manager; later
  renders are not modelled.
- The collection is a `readonly` array pushed in place, and the same array is handed to
  `PublicFunctionManager`, so the façade sees every commit. The model reassigns a `seq` field,
  so that sharing with the façade is not captured.
