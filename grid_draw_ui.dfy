/**
 * The mounting component of src/index.tsx: its optional line properties with their defaults,
 * the validation of its single child's id, and the mount that hands that id to the canvas
 * manager. Rendering, styles and effect scheduling are not modelled.
 */
module GridDrawUI {
  import opened Wrappers
  import opened Geometry
  import opened Canvas

  /** The component's optional properties; `None` is a property left undefined. */
  datatype OptionalProps = OptionalProps(
    lineClickTolerance: Option<int>,
    selectCircleSize: Option<int>,
    circleLineShiftSize: Option<int>,
    contextLineWidth: Option<int>,
    lineColour: Option<string>)

  /** The component's `defaultProps`. */
  const DefaultProps := LineProperties(15, 3, 10, 1, "red")

  /** What the component knows of its children: how many there are and the `id` property read
      from what it takes to be the drawing container (`None` for `null` or `undefined`). */
  datatype Children = Children(count: nat, id: Option<string>)

  /** Why mounting fails. `NoChildren` is the runtime error the code meets when it reads
      `length` of undefined children; the other two are the messages the component throws. */
  datatype MountError = NoChildren | TooManyChildren | MissingId

  /** The message the component itself throws for an error, if it throws one. */
  function Message(err: MountError): Option<string> {
    match err
    case NoChildren => None
    case TooManyChildren => Some("children of element <ReactGridDrawUI> greater than 1")
    case MissingId => Some("child of element <ReactGridDrawUI> has no ID")
  }

  /** A property left undefined takes its default value; a given one is used as it is. */
  function OrDefault<T>(given: Option<T>, default: T): (v: T)
    ensures given.Some? ==> v == given.value
    ensures given.None? ==> v == default
  {
    match given
    case Some(x) => x
    case None => default
  }

  /** The configuration the component passes to its CanvasManager: every property the caller
      set, unchanged, and the default for every property left undefined. */
  function LinePropertiesOf(props: OptionalProps): (p: LineProperties)
    ensures p.lineClickTolerance == OrDefault(props.lineClickTolerance, DefaultProps.lineClickTolerance)
    ensures p.selectCircleSize == OrDefault(props.selectCircleSize, DefaultProps.selectCircleSize)
    ensures p.circleLineShiftSize == OrDefault(props.circleLineShiftSize, DefaultProps.circleLineShiftSize)
    ensures p.contextLineWidth == OrDefault(props.contextLineWidth, DefaultProps.contextLineWidth)
    ensures p.lineColour == OrDefault(props.lineColour, DefaultProps.lineColour)
  {
    LineProperties(
      OrDefault(props.lineClickTolerance, DefaultProps.lineClickTolerance),
      OrDefault(props.selectCircleSize, DefaultProps.selectCircleSize),
      OrDefault(props.circleLineShiftSize, DefaultProps.circleLineShiftSize),
      OrDefault(props.contextLineWidth, DefaultProps.contextLineWidth),
      OrDefault(props.lineColour, DefaultProps.lineColour))
  }

  /** With no property set, the canvas manager is configured with tolerance 15, handle size 3,
      handle shift 10, line width 1 and colour "red". */
  lemma DefaultConfiguration()
    ensures LinePropertiesOf(OptionalProps(None, None, None, None, None))
            == LineProperties(15, 3, 10, 1, "red")
  {
  }

  /** getContainerID: more than one child fails first, whatever the ids; a single child without
      an id fails next; otherwise the child's id, exactly, is the container id. */
  function GetContainerID(children: Children): (r: Result<string, MountError>)
    ensures r.Success? <==> children.count == 1 && children.id.Some?
    ensures r.Success? ==> Some(r.value) == children.id
    ensures children.count > 1 ==> r == Failure(TooManyChildren)
    ensures children.count == 1 && children.id.None? ==> r == Failure(MissingId)
    ensures children.count == 0 ==> r == Failure(NoChildren)
  {
    if children.count == 0 then Failure(NoChildren)
    else if children.count > 1 then Failure(TooManyChildren)
    else match children.id
         case None => Failure(MissingId)
         case Some(id) => Success(id)
  }

  /** A single child without an id gets the missing-id message; more than one child gets the
      count message, whether or not ids are missing. */
  lemma ThrownMessages(children: Children)
    ensures children.count == 1 && children.id.None? ==>
              Message(GetContainerID(children).error) == Some("child of element <ReactGridDrawUI> has no ID")
    ensures children.count > 1 ==>
              Message(GetContainerID(children).error) == Some("children of element <ReactGridDrawUI> greater than 1")
  {
  }

  /** The component's state initialiser: a CanvasManager configured from the properties. */
  method CreateManager(props: OptionalProps) returns (m: CanvasManager)
    ensures fresh(m) && fresh(m.currentRect) && m.Valid() && m.State() == DragMachine.Initial
    ensures m.rectangles == [] && m.body.None? && m.canvas.None?
    ensures m.lineProperties == LinePropertiesOf(props)
    ensures m.containerID.None?
  {
    m := new CanvasManager(LinePropertiesOf(props));
  }

  /** The mount effect: validate the children and, on success, hand exactly the child's id to
      `createCanvas`, which stores the canvas sized to the container (or as given when no
      container is found); on failure the manager is left as it was. `body` is the element the
      document returns for that id and `canvas` the canvas element. */
  method Mount(m: CanvasManager, children: Children, body: Option<Element>, canvas: CanvasElement)
    returns (r: Result<string, MountError>)
    requires m.Valid()
    modifies m
    ensures m.Valid()
    ensures r == GetContainerID(children)
    ensures r.Success? ==> Some(r.value) == children.id && m.containerID == children.id && m.body == body
    ensures r.Success? ==> m.canvas == Some(if body.Some?
                                            then canvas.(width := body.value.offsetWidth, height := body.value.offsetHeight)
                                            else canvas)
    ensures r.Success? ==> m.rectangles == old(m.rectangles) && m.currentRect == old(m.currentRect) && m.drag == old(m.drag)
    ensures r.Failure? ==> unchanged(m)
  {
    r := GetContainerID(children);
    if r.Success? {
      m.CreateCanvas(r.value, body, canvas);
    }
  }

  /** A client of the specifications above: mount with one child "box", drag outside every
      rectangle, move once and release: one rectangle is committed. */
  method DrawOneBoxSession(props: OptionalProps, h: Collaborators.Helpers, body: Element, cv: CanvasElement,
                           down: Collaborators.MouseEvent, move: Collaborators.MouseEvent, up: Collaborators.MouseEvent)
  {
    var m := CreateManager(props);
    var r := Mount(m, Children(1, Some("box")), Some(body), cv);
    assert r == Success("box");
    assert m.canvas == Some(cv.(width := body.offsetWidth, height := body.offsetHeight));
    var c := m.MouseDown(h, down, None, false);
    assert m.drag;
    c := m.MouseMove(h, move);
    c := m.MouseUp(up);
    assert m.State().rectangles
           == [h.drawRectangle(h.resetBoxProperties(ZeroRect, down.offsetX, down.offsetY), move.pageX, move.pageY)];
  }
}
