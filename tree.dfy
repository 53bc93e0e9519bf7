/** The element tree that layout and event dispatch work on, as a value:
    every node carries its style dictionary, its children in order, its
    `computed_bounds`, what decides its intrinsic size and which handler
    methods its class defines. */
module Tree {
  import opened Values

  /** `computed_bounds`; a height that layout could not resolve is None. */
  datatype Bounds = Bounds(x: real, y: real, w: real, h: Option<real>)

  /** `{'x': 0, 'y': 0, 'w': 0, 'h': 0}`, the bounds of a new element. */
  const Zero := Bounds(0.0, 0.0, 0.0, Some(0.0))

  /** A rectangle a widget draws, as x, y, width and height. */
  datatype Rect = Rect(x: real, y: real, w: real, h: real)

  /** The handler methods the dispatcher looks for with `hasattr`. */
  datatype Handler =
    | OnMouseEnter | OnMouseLeave | OnMouseMove | OnMouseDown | OnMouseUp | OnClick
    | OnFocus | OnBlur | OnKeyDown | OnKeyUp | OnKeyRepeat | OnChar | OnScroll

  /** What decides a node's intrinsic size: a plain element has none, while
      `Text`, `Input` and `Image` define `measure` (an image may have failed
      to load, otherwise its pixel size is known). */
  datatype Kind = Plain | TextLeaf(text: string) | InputField | Picture(image: Option<(real, real)>)

  /** One element; `id` stands for the Python object's identity. */
  datatype Node = Node(id: nat, kind: Kind, style: Style, children: seq<Node>,
                       bounds: Bounds, handlers: set<Handler>)

  /** `hasattr(element, 'measure')` */
  predicate Measurable(n: Node)
  {
    !n.kind.Plain?
  }
}
