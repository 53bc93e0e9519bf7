# neui core, modelled in Dafny

neui is a small Python UI toolkit. It draws with Skia and receives input
through GLFW. This project models the parts of it that decide *where things
are* and *what happens when the user acts*, and proves properties of them:

- **The layout engine** (`compute_layout` and its helpers). It gives every
  node of the element tree its `computed_bounds`. Containers lay out their
  children as a column, a row or a grid. A grid's columns come from a
  `grid_template_columns` track list of `px`, `fr` and bare-number tokens.
  Nodes whose size is left open are sized from their children, measured by
  a dry run at the origin.
  - `Layout` states the result as a function of a value tree (`Tree.Node`).
  - `LayoutPass` runs the source's measuring and placing loops, with their
    accumulators. Each of its methods is proved to compute what `Layout`
    states.
  - `LayoutFacts` proves what the bounds mean: the own box, the auto
    heights, where `justify` and `align` put children, and the grid's rows
    and cells.
- **The event dispatcher** (`EventManager`):
  - hit testing, children last-added first, with inclusive edges;
  - overlays before the root, newest first;
  - edge-triggered hover, move capture, focus on press, and click on a
    release over the pressed element;
  - dispatch to the first handler up the parent chain;
  - key, char and scroll routing.

  `EventManager` is a class whose state is the three tracked elements and
  the last button state. Every handler call it makes is appended to a
  `calls` trace, so order can be stated.
- **Element tree construction**: the keyword-argument merge into `style`,
  `add`, and the `with`-block context stack that parents new elements.
- **The widgets' state machines**:
  - text input editing;
  - scroll clamping, content extent and scrollbar thumb;
  - the colour-string parser;
  - image measuring;
  - the animation manager and interpolation;
  - slider value mapping;
  - checkbox, radio and toggle flags;
  - progress clamping;
  - dropdown open, close and select;
  - button colours;
  - toast list management;
  - card defaults.

Python numbers are modelled as `real`, strings as `seq<char>`, and a style
dictionary as `map<string, Value>`. Each widget is a class that holds the
`Elements.Element` it extends (`const elem`), in place of inheritance. A
callback the caller may pass (`on_change`, `on_click`, `on_complete`) is
modelled as a flag or an identifier, plus a trace of the values it was
called with.

Wall-clock time is a parameter (`now`). So are the window's cursor position
and button state, which the dispatcher samples from GLFW. Skia's text
measurement is a function parameter of the layout (`TextMeasure`).

Where the code raises, the model takes a precondition instead:
- `float()` on a non-number before `px`, `fr` or `%`;
- non-hex colour digits, a precondition that also excludes some digit pairs Python reads (see `Colors.ParseColor` below);
- zero durations or widths in a division;
- an unresolved height where a parent adds heights up.

## Model

| member | source | states |
|---|---|---|
| Values.Get | neui/core/layout.py:9-10 | `style.get(key)` is present exactly when the key is, with the stored value |
| Values.NumOr | neui/core/layout.py:22-26 | `style.get(key, default)` for a number: the default when absent, the stored number otherwise |
| Values.WithDefaults | neui/cui/card.py:8-13 | a run of `if k not in style: style[k] = v`: caller keys keep their values, absent keys get the default, nothing else is added |
| Values.DefaultsToKeys | neui/cui/card.py:8-13 | the defaults a run of conditional writes lists have exactly the written keys |
| Values.DefaultsToFirst | neui/cui/card.py:8-13 | each default key has the value of its first write |
| Values.DefaultsOfDistinct | neui/cui/card.py:8-13 | with distinct keys the defaults are exactly the listed pairs |
| Values.FillDefaults | neui/cui/checkbox.py:12-16 | the sequence of conditional writes yields `WithDefaults` of the listed defaults |
| Values.Split | neui/core/layout.py:244 | `str.split()` yields non-empty tokens free of whitespace, for the whitespace set of `str.isspace()` |
| Values.SplitFrom | neui/core/layout.py:244 | the split from an index on yields non-empty tokens free of whitespace |
| Values.TokenEnd | neui/core/layout.py:244 | a token ends at whitespace or at the end of the string |
| Values.SplitSingle | neui/core/layout.py:244 | a word without whitespace splits into itself |
| Values.SplitTwo | neui/core/layout.py:244 | two words joined by any whitespace character split into those two words |
| Values.UnicodeSpaces | neui/core/layout.py:244 | a no-break space separates words and a lone ideographic space splits into nothing, as with `str.split()` |
| Values.SplitWord | neui/core/layout.py:244 | the split from the start of a word is that word followed by the split of the rest |
| Values.Segment | neui/core/layout.py:256 | a slice `s[i:j]` has length `j - i` |
| Reals.Max | neui/core/layout.py:135 | Python's `max(a, b)`: at least both arguments and equal to one of them |
| Reals.Min | neui/cui/slider.py:42 | Python's `min(a, b)`: at most both arguments and equal to one of them |
| PyFloat.DigitVal | neui/core/layout.py:215 | a decimal digit's value is below 10 |
| PyFloat.SkipSpace | neui/core/layout.py:215 | leading whitespace is skipped up to the first non-space character |
| PyFloat.TrimEnd | neui/core/layout.py:215 | trailing whitespace is cut back to the last non-space character |
| PyFloat.DigitsEnd | neui/core/layout.py:215 | a digit run ends at a non-digit or at the slice end |
| PyFloat.Pow10 | neui/core/layout.py:215 | a power of ten is at least 1 |
| PyFloat.ParseExponent | neui/core/layout.py:215 | an empty remainder after the mantissa is exponent 0 |
| PyFloat.ParseDigits | neui/core/layout.py:215 | `float` of a plain run of digits is the integer the digits spell |
| PyFloat.ParseNegative | neui/core/layout.py:215 | a leading minus negates the value of the digits after it |
| PyFloat.ParseDecimal | neui/core/layout.py:256 | `digits.digits` is the mantissa scaled down by the number of fraction digits |
| PyFloat.ParseNeedsDigit | neui/core/layout.py:267-272 | text without any digit makes `float` raise (`None`) |
| PyFloat.ParseSpaces | neui/core/layout.py:267 | surrounding whitespace does not change the value `float` reads |
| Grouping.Chunks | neui/core/layout.py:58-71 | every row of the grouping has between 1 and `cols` children |
| Grouping.ChunksFrom | neui/core/layout.py:58-71 | every row grouped from an index on has between 1 and `cols` children |
| Grouping.FlattenChunks | neui/core/layout.py:58-71 | the rows laid end to end are the children, so nothing is lost, duplicated or reordered |
| Grouping.FlattenChunksFrom | neui/core/layout.py:58-71 | the rows from an index on laid end to end are the children from that index |
| Grouping.ChunksFull | neui/core/layout.py:64-67 | every row but the last is full |
| Grouping.ChunksFromFull | neui/core/layout.py:64-67 | every row from an index on but the last is full |
| Grouping.ChunksCount | neui/core/layout.py:58-71 | there are ⌈n / cols⌉ rows |
| Grouping.ChunksFromCount | neui/core/layout.py:58-71 | the rows from an index on number ⌈(n - i) / cols⌉ |
| Grouping.ChunksFromLength | neui/core/layout.py:64-71 | each step adds no row, one last row, or one full row before the rest |
| Grouping.ChunksMembers | neui/core/layout.py:58-71 | every cell of a row is a child of the container |
| Grouping.ChunksFromMembers | neui/core/layout.py:58-71 | every cell of a row from an index on is a child of the container |
| Grouping.ChunksUnique | neui/core/layout.py:58-71 | rows that are full but for a non-empty last one and flatten to the children are exactly the grouping |
| Grouping.ChunksFromUnique | neui/core/layout.py:58-71 | the same uniqueness from an index on |
| GridTemplate.Tracks | neui/core/layout.py:254-272 | one parsed track per token |
| GridTemplate.Remaining | neui/core/layout.py:274 | the space the `fr` tracks share is never negative and at least available − fixed − gaps |
| GridTemplate.Widths | neui/core/layout.py:277-282 | one width per track |
| GridTemplate.Columns | neui/core/layout.py:243-284 | one width per token, and exactly one for a template without tokens |
| GridTemplate.ParseTrack | neui/core/layout.py:255-272 | the loop body parses a token as the `px` / `fr` / bare-number rule says |
| GridTemplate.ParseTracks | neui/core/layout.py:254-272 | the first loop yields the parsed tracks with their fixed-width total and `fr` total |
| GridTemplate.ParseGridTemplate | neui/core/layout.py:243-284 | the code's split, parse, unit and width loops yield `Columns` |
| GridTemplate.TotalGap | neui/core/layout.py:248 | `gap * (len(parts) - 1)` is the gaps between the tracks |
| GridTemplate.TrackWidths | neui/core/layout.py:277-282 | the last loop gives a fixed track its width and an `fr` track its weight times the unit |
| GridTemplate.EmptyTemplate | neui/core/layout.py:245 | a template without tokens is one column of the whole available width |
| GridTemplate.FixedToken | neui/core/layout.py:255-272 | a `px` token and a numeric bare token are fixed widths whatever the space; an unparseable bare token is 0 |
| GridTemplate.ColumnAt | neui/core/layout.py:277-282 | column i is the width of token i's track |
| GridTemplate.FrToken | neui/core/layout.py:259-262 | an `fr` token's weight is the number before `fr`, and its column is that weight times the unit |
| GridTemplate.FrShareRemaining | neui/core/layout.py:274-282 | with a positive weight total the `fr` columns share exactly the remaining space, and columns plus gaps fill the width whenever the fixed part fits |
| GridTemplate.TemplateFills | neui/core/layout.py:243-284 | for a template with some `fr` weight the columns and gaps fill the available width when the fixed tracks and gaps fit |
| GridTemplate.OneTwoFr | neui/core/layout.py:243-284 | `"1fr 2fr"` over 300 with no gap gives [100, 200] |
| GridTemplate.DefaultTemplate | neui/core/layout.py:44-45 | the default `"1fr"` is one column of max(0, available) |
| GridTemplate.FrDigit | neui/core/layout.py:259-262 | a one-digit weight followed by `fr` is that weight |
| Images.Resolve | neui/ui/image.py:20-26 | the local `resolve` is auto exactly for a missing value |
| Images.Measure | neui/ui/image.py:18-37 | a style `w`/`h` resolves first; a missing one is the loaded image's size, else 0 |
| LayoutFacts.ResolveAgrees | neui/ui/image.py:20-26 | `Image.measure`'s `resolve` is `_resolve_dim` |
| Layout.ResolveDim | neui/core/layout.py:210-216 | auto exactly when the value is absent |
| LayoutFacts.ResolveDimCases | neui/core/layout.py:210-216 | absent is auto, a number is itself, a percentage of an auto parent is 0, anything else is 0 |
| LayoutFacts.ResolvePercent | neui/core/layout.py:213-215 | `"p%"` gives parent · p / 100 |
| LayoutFacts.HalfOfParent | neui/core/layout.py:213-215 | `"50%"` of 300 is 150 |
| Layout.Layout | neui/core/layout.py:1-208 | the laid-out node has as many children as the node |
| Layout.GridNode | neui/core/layout.py:42-118 | a grid container keeps its child count and always resolves its height |
| Layout.StackNode | neui/core/layout.py:120-205 | a column or row keeps its child count and always resolves its height |
| Layout.Measure | neui/core/layout.py:218-241 | a child whose height resolves measures with a height |
| Layout.Columns | neui/core/layout.py:44-46 | a grid has at least one column |
| Layout.GridLayout | neui/core/layout.py:42-118 | a grid places every child |
| Layout.RowHeights | neui/core/layout.py:74-82 | one height per row |
| Layout.PlaceRows | neui/core/layout.py:95-118 | every row keeps its number of cells |
| Layout.PlaceRow | neui/core/layout.py:99-116 | every cell of a row is placed |
| Layout.Sizes | neui/core/layout.py:129-131 | one measured size per child |
| Layout.StackLayout | neui/core/layout.py:120-205 | a stack places every child |
| Layout.StackCells | neui/core/layout.py:174-205 | every child of a stack is placed |
| LayoutFacts.OwnBounds | neui/core/layout.py:9-19 | own x, y are the origin given; a numeric `w` is kept; an auto `w` is intrinsic + 2·padding when measurable, else the parent's width; a resolved `h` is kept |
| LayoutFacts.UnknownMode | neui/core/layout.py:120 | a node of another `layout` value leaves its children alone and an auto `h` unresolved |
| LayoutFacts.Mains | neui/core/layout.py:133-138 | the main-axis size of each child, one per child |
| LayoutFacts.AdvanceSum | neui/core/layout.py:133-138 | the running `main_size` after k children is their sizes plus k gaps |
| LayoutFacts.MainSizeSum | neui/core/layout.py:129-141 | `main_size` is the children's sizes plus a gap between each two, 0 with no children |
| LayoutFacts.CrossSizeIsMax | neui/core/layout.py:135-138 | `cross_size` is the largest cross size, starting from 0 |
| LayoutFacts.SizesAt | neui/core/layout.py:129-131 | each child is measured by `_measure_element` against the content box |
| LayoutFacts.StackSizes | neui/core/layout.py:129-131 | the measured sizes of a stack, one per child |
| LayoutFacts.ColumnAutoHeight | neui/core/layout.py:144-146 | an auto-height column is its children's heights plus gap·(n−1) plus 2·padding, only 2·padding when empty |
| LayoutFacts.RowAutoHeight | neui/core/layout.py:144-148 | an auto-height row is its tallest child plus 2·padding |
| LayoutFacts.JustifyEdges | neui/core/layout.py:160-172 | `start` packs from 0; `center` leaves equal room at both ends; `end` puts the last child's far edge at the content end; `space-between` with n ≥ 2 spans the content box; with fewer it spreads nothing |
| LayoutFacts.AlignEdges | neui/core/layout.py:180-186 | cross offset: `start` at 0, `center` centres the child, `end` puts its far edge at the far end |
| LayoutFacts.StackCellAt | neui/core/layout.py:174-205 | child i is laid out at its measured size, at the content origin plus its lead and cross offset, plus its own `left`/`top` |
| LayoutFacts.RowHeightIsMax | neui/core/layout.py:74-82 | a row is as tall as its tallest cell measured at its column's width, starting from 0 |
| LayoutFacts.RowCellAt | neui/core/layout.py:97-116 | cell c of a row is the child laid out with its column width and the row height as parent size, at content_x + earlier column widths + c·gap |
| LayoutFacts.GridRowHeights | neui/core/layout.py:74-82 | one row height per grid row |
| LayoutFacts.RowHeightsAt | neui/core/layout.py:74-82 | row r's height is the maximum over that row |
| LayoutFacts.GridRowIsMax | neui/core/layout.py:74-82 | every grid row is as tall as its tallest cell, each measured at its column's width |
| LayoutFacts.GridAutoHeight | neui/core/layout.py:58-90 | an auto-height grid has ⌈n / cols⌉ rows and is their heights plus gap·(rows−1) plus 2·padding |
| LayoutPass.ComputeLayout | neui/core/layout.py:1-208 | the recursive pass computes `Layout` |
| LayoutPass.GridCase | neui/core/layout.py:42-90 | the grid branch's node is `GridNode` |
| LayoutPass.StackCase | neui/core/layout.py:120-152 | the stack branch's node is `StackNode` |
| LayoutPass.MeasureElement | neui/core/layout.py:218-241 | `_measure_element` computes `Measure` |
| LayoutPass.LayoutGrid | neui/core/layout.py:42-118 | the grid branch computes `GridLayout` |
| LayoutPass.GridColumns | neui/core/layout.py:44-45 | the template, default `1fr`, gives the grid's columns |
| LayoutPass.GridWhole | neui/core/layout.py:58-118 | columns, rows, row heights, total height and placed cells make up `GridLayout` |
| LayoutPass.GroupRows | neui/core/layout.py:58-71 | `grid_rows` are full rows but a non-empty last, flattening to the children |
| LayoutPass.MeasureRows | neui/core/layout.py:74-82 | the `row_heights` loop computes `RowHeights` |
| LayoutPass.PlaceGrid | neui/core/layout.py:93-118 | the placing loops lay the rows out top to bottom |
| LayoutPass.PlaceGridRow | neui/core/layout.py:97-116 | a row's loop lays its cells out left to right |
| LayoutPass.LayoutStack | neui/core/layout.py:120-205 | the stack branch computes `StackLayout` |
| LayoutPass.StackWhole | neui/core/layout.py:124-172 | measured sizes, the settled height and the spread make up `StackLayout` |
| LayoutPass.MeasureChildren | neui/core/layout.py:124-141 | the measuring loop yields the sizes, `main_size` without the last gap, and `cross_size` |
| LayoutPass.MeasureNext | neui/core/layout.py:129-138 | one loop body extends the sizes and both accumulators |
| LayoutPass.PlaceStack | neui/core/layout.py:172-205 | the placing loop computes `StackCells` |
| LayoutPass.StackChild | neui/core/layout.py:198-205 | a stack's child lays out, fits, and has numeric offsets |
| LayoutPass.CellOrigin | neui/core/layout.py:177-202 | one loop body gives the child's origin and moves the cursor by size + gap + share |
| LayoutPass.StackCell | neui/core/layout.py:204-205 | child i is laid out where the loop puts it |
| Events.Hit | neui/core/events.py:107-119 | `_hit_test` hits exactly when the point is inside the inclusive bounds, and the chain ends at the node tried |
| Events.HitChildrenFirst | neui/core/events.py:114-117 | children are tried last-added first and the first hit wins; none when no child is hit |
| Events.HitChain | neui/core/events.py:107-119 | a hit is a chain of parent links whose first node contains the point and none of whose children does |
| Events.OverlayHitFirst | neui/core/events.py:48-53 | overlays are tried newest first and the first hit wins; none when no overlay is hit |
| Events.TargetChoice | neui/core/events.py:39-57 | an overlay containing the point wins outright; the root is tried only when none does; with neither there is no target |
| Events.TargetChain | neui/core/events.py:45-57 | the target is a chain of parent links ending at an overlay or the root, and its node contains the point |
| Events.FirstWith | neui/core/events.py:124-135 | the first node up the chain that has the handler, and no earlier node has it |
| Events.Fire | neui/core/events.py:121-135 | a dispatch makes at most one call |
| Events.FireTargets | neui/core/events.py:121-135 | a dispatch calls the named handler, with the given arguments, on a node of the chain; nothing without a target |
| Events.FireFirst | neui/core/events.py:125-131 | a handler on the hit node shadows its ancestors'; a chain without the handler gets no call |
| Events.DispatchWalk | neui/core/events.py:124-135 | the `while curr` loop computes `Dispatch` |
| Events.FireCalls | neui/core/events.py:121-135 | a dispatch calls only the handler named, and calls it exactly when some node of the chain has it |
| Events.CallsConcat | neui/core/events.py:59-103 | a handler is called in a sequence of phases exactly when it is called in one of them |
| Events.HoverEdge | neui/core/events.py:60-69 | afterwards the target is hovered; leave then enter fire only when the target changed |
| Events.ButtonHandlers | neui/core/events.py:79-103 | the button phase calls only blur, focus, down, up and click |
| Events.StepCalls | neui/core/events.py:59-103 | a sample's calls are those of its hover, move and button phases |
| Events.FocusOnPress | neui/core/events.py:79-92 | focus, blur and focus calls change only on a press edge, which captures the target and focuses it when it differs |
| Events.ClickOnRelease | neui/core/events.py:94-105 | a click fires exactly on a release edge over the captured element when its chain has `on_click`; a release ends the capture; the button state is recorded |
| Events.MoveCapture | neui/core/events.py:73-76 | every move goes to the captured element's chain, else the hovered one's |
| Events.KeyToFocus | neui/core/events.py:18-26 | key events reach only the focused chain, as keydown / keyup / keyrepeat by action; nothing without focus |
| Events.FindTarget | neui/core/events.py:45-57 | the overlay loop and root fallback compute `Target` |
| Events.EventManager.constructor | neui/core/events.py:4-11 | nothing tracked, button released, no calls |
| Events.EventManager.Send | neui/core/events.py:121-135 | one dispatch appends its call to the trace and changes no tracked state |
| Events.EventManager.ProcessEvents | neui/core/events.py:38-105 | nothing without root and overlays; otherwise the state and the appended calls are those of `Step` on the hit-test target |
| Events.EventManager.HoverPhase | neui/core/events.py:59-69 | the hover phase's new state and calls are `Hover` |
| Events.EventManager.MovePhase | neui/core/events.py:71-76 | the move phase appends `Move` and keeps the state |
| Events.EventManager.ButtonPhase | neui/core/events.py:78-103 | the button phase's new state and calls are `Button` |
| Events.EventManager.HandleKey | neui/core/events.py:18-26 | `_on_key` appends `KeyCalls` for the focused element |
| Events.EventManager.HandleChar | neui/core/events.py:28-30 | `_on_char` dispatches `on_char` to the focused element only |
| Events.EventManager.HandleScroll | neui/core/events.py:32-36 | `_on_scroll` dispatches to the hovered element, else the focused one |
| Elements.MergedToKeys | neui/ui/element.py:8-10 | the merged style has the style's keys and the arguments' keys |
| Elements.MergedToLast | neui/ui/element.py:8-10 | an argument overrides the style, and the later of two arguments wins |
| Elements.MergedToKept | neui/ui/element.py:8-10 | a key no argument names keeps its value |
| Elements.DefaultsCommute | neui/cui/button.py:7-16 | filling the caller's dictionary before `__init__` gives the same style as filling after |
| Elements.LastIndex | neui/ui/element.py:8-10 | every key an argument names has a last such argument |
| Elements.MergeKwargs | neui/ui/element.py:8-10 | the merge loop computes `Merged` |
| Elements.ContextStack.constructor | neui/ui/element.py:20 | the context stack starts empty |
| Elements.Element.constructor | neui/ui/element.py:2-22 | merged style, zero bounds, the given children attached in order, and a parent only when the stack is non-empty, attached as the top's last child |
| Elements.Element.Add | neui/ui/element.py:24-27 | the child is attached, appended last, and returned |
| Elements.Element.Enter | neui/ui/element.py:40-48 | the element is pushed and returned |
| Elements.Element.Exit | neui/ui/element.py:50-57 | pop, then attach to the new top only when still parentless |
| Elements.NewText | neui/ui/text.py:3-6 | a fresh text element with the text, the style and no children, parented by the context stack |
| Elements.RemoveFirst | neui/cui/toaster.py:67-69 | guarded `list.remove`: unchanged without x, else one occurrence of x fewer |
| Elements.RemoveFirstAt | neui/cui/toaster.py:69 | the first occurrence is the one removed |
| Elements.AppendThenRemove | neui/cui/toaster.py:62-69 | removing what was just appended restores the list |
| Inputs.Measure | neui/ui/input.py:55-66 | the width is a numeric `w` else 200; the height is font size + 2·padding, defaults 14 and 10 |
| Inputs.Insert | neui/ui/input.py:34-37 | the character lands at the cursor and the rest moves up by one |
| Inputs.KeyEdit | neui/ui/input.py:39-53 | backspace removes the character before the cursor; left, right, home and end move it within the text; other keys change nothing |
| Inputs.BackspaceUndoesInsert | neui/ui/input.py:34-43 | backspace right after typing undoes the typing |
| Inputs.Input.constructor | neui/ui/input.py:7-21 | empty text, cursor 0, unfocused, and the four defaults where absent |
| Inputs.Input.OnFocus | neui/ui/input.py:23-28 | focused, caret shown, blink restarted at `now`, focus border added |
| Inputs.Input.OnBlur | neui/ui/input.py:30-32 | unfocused and the border key removed |
| Inputs.Input.OnChar | neui/ui/input.py:34-37 | the character is inserted at the cursor, which advances by one, keeping the cursor within the text |
| Inputs.Input.OnKeyDown | neui/ui/input.py:39-53 | text and cursor follow `KeyEdit`, keeping the cursor within the text |
| ScrollViews.MaxScroll | neui/ui/scrollview.py:22 | the scroll limit is 0 or content − view, whichever is larger |
| ScrollViews.Clamp | neui/ui/scrollview.py:23 | the offset stays in [0, limit], unchanged when already there |
| ScrollViews.MaxBottomIsMax | neui/ui/scrollview.py:82-87 | the furthest bottom is 0 or a child's bottom, and no child reaches lower |
| ScrollViews.MaxRightIsMax | neui/ui/scrollview.py:82-88 | the furthest right edge is 0 or a child's, and no child reaches further |
| ScrollViews.FurthestEdges | neui/ui/scrollview.py:82-88 | the loop finds the furthest bottom and right edges |
| ScrollViews.ThumbGeometry | neui/ui/scrollview.py:94-110 | the thumb is 4 wide, 6 in from the right, max(20, view²/content) tall, and for a clamped offset the visible span lies inside the track |
| ScrollViews.ScrollView.constructor | neui/ui/scrollview.py:5-13 | offsets and extents start at 0, `overflow` defaults to hidden |
| ScrollViews.ScrollView.OnScroll | neui/ui/scrollview.py:15-23 | both offsets move by 20 per step; only the vertical one is clamped |
| ScrollViews.ScrollView.CalculateContentSize | neui/ui/scrollview.py:82-92 | the extents are the furthest child edges less the view's own position |
| Colors.HexValue | neui/core/renderer.py:123 | a hex digit's value is below 16 |
| Colors.StripHashes | neui/core/renderer.py:118 | `lstrip('#')` leaves no leading `#` and changes a string without one not at all |
| Colors.Expanded | neui/core/renderer.py:119-120 | three digits are widened by doubling each, other lengths kept |
| Colors.ParseColor | neui/core/renderer.py:115-134 | non-strings and `#` strings of other lengths give white; six digits give full alpha; names map to their colours, others to white |
| Colors.ExtraHash | neui/core/renderer.py:117-118 | any number of leading `#` reads like one |
| Colors.ShortForm | neui/core/renderer.py:119-124 | `#rgb` reads as `#rrggbb`, each channel 17 times its digit |
| Colors.Digit | neui/core/renderer.py:123 | every value below 16 has a hex digit that reads back as it |
| Colors.Hex2 | neui/core/renderer.py:123 | every byte has two hex digits that read back as it |
| Colors.HexRoundTrip | neui/core/renderer.py:125-127 | every colour written as `#rrggbbaa` reads back as itself |
| Colors.OpaqueRoundTrip | neui/core/renderer.py:122-124 | every colour written as `#rrggbb` reads back with full alpha |
| Colors.CaseInsensitive | neui/core/renderer.py:128-132 | names that lower to the same string read as the same colour |
| Colors.Samples | neui/core/renderer.py:128-134 | capitals and the Kelvin sign match, `transparent`, `#12345` and a number give white |
| Animations.Ease | neui/core/animation.py:83-93 | every curve maps 0 to 0 and 1 to 1 |
| Animations.EaseRange | neui/core/animation.py:83-93 | on [0, 1] every curve stays in [0, 1] |
| Animations.Lerp | neui/core/animation.py:78 | interpolation gives the start at 0 and the target at 1 |
| Animations.LerpBetween | neui/core/animation.py:78 | for p in [0, 1] the value lies between start and target |
| Animations.StartsToSpec | neui/core/animation.py:55-71 | a property gets a start value exactly when it is numeric or missing, and that value is its number, or 0 |
| Animations.CaptureStarts | neui/core/animation.py:56-71 | the capture loop computes `StartsTo` |
| Animations.InterpolatedToWritten | neui/core/animation.py:73-79 | a property with a start value holds its interpolated number |
| Animations.InterpolatedToKept | neui/core/animation.py:73-79 | a key not animated, or without a start value, is untouched |
| Animations.Animation.constructor | neui/core/animation.py:44-71 | fields as given, linear when no curve, start values captured, not started |
| Animations.Animation.Update | neui/core/animation.py:73-79 | the element's style becomes `InterpolatedTo` at the progress |
| Animations.Tick | neui/core/animation.py:19-30 | the clock starts at `now` if needed and the eased progress is applied |
| Animations.Progress | neui/core/animation.py:24 | progress never exceeds 1 |
| Animations.KeptToSpec | neui/core/animation.py:33-40 | an animation is kept exactly when it has not finished, in order |
| Animations.FiredToSpec | neui/core/animation.py:36-38 | every finished animation's callback fires, once per entry |
| Animations.AnimationManager.constructor | neui/core/animation.py:5-6 | no animations, no callbacks fired |
| Animations.AnimationManager.Add | neui/core/animation.py:8-9 | the animation is appended last |
| Animations.TickAll | neui/core/animation.py:14-38 | each animation in list order is started and ticked: the unfinished ones are kept in order, the finished ones' callbacks are collected in order, and each element's style is the result of its animations' writes in list order |
| Animations.AnimationManager.Update | neui/core/animation.py:11-41 | redraw exactly when non-empty; unfinished kept in order; finished ones' callbacks fired; every animation started and its style written |
| Animations.Animate | neui/ui/element.py:35-38 | a new animation of the element is appended to the manager |
| Sliders.ValueAtRange | neui/cui/slider.py:39-46 | with min ≤ max the value is in [min, max]; the left end and before give min, the right end and beyond give max |
| Sliders.ThumbRoundTrip | neui/cui/slider.py:62-70 | clicking where the thumb is drawn gives back the value it shows |
| Sliders.Slider.constructor | neui/cui/slider.py:5-20 | the defaults where absent, value and range as given, not dragging |
| Sliders.Slider.OnMouseDown | neui/cui/slider.py:22-30 | dragging starts; the value is kept |
| Sliders.Slider.OnMouseUp | neui/cui/slider.py:32-33 | dragging stops; the value is kept |
| Sliders.Slider.OnMouseMove | neui/cui/slider.py:35-37 | the value follows the mouse only while dragging |
| Sliders.Slider.UpdateValueFromPos | neui/cui/slider.py:39-49 | the value is the mouse's mapping, within range when min ≤ max, and reported when there is a callback |
| Checkboxes.Rendered | neui/cui/checkbox.py:36-41 | checked shows accent background and border, unchecked transparent and grey; the state reads back from the style |
| Checkboxes.Checkbox.constructor | neui/cui/checkbox.py:6-19 | the flag as given and the five defaults where absent |
| Checkboxes.Checkbox.Toggle | neui/cui/checkbox.py:21-24 | the flag flips and the new value is reported |
| Checkboxes.Checkbox.Render | neui/cui/checkbox.py:33-41 | the style becomes `Rendered` for the flag |
| Radios.Border | neui/cui/radio.py:36-39 | the accent border exactly when checked |
| Radios.Radio.constructor | neui/cui/radio.py:5-23 | the defaults where absent, then the radius is always half the width |
| Radios.Radio.Toggle | neui/cui/radio.py:25-32 | always checked afterwards; reports only when it was unchecked |
| Radios.Radio.Render | neui/cui/radio.py:36-39 | the border colour follows the flag |
| Toggles.TrackStyle | neui/cui/toggle.py:35-39 | the track copy has the on or off colour as `bg` and the element's other keys |
| Toggles.ThumbPlacement | neui/cui/toggle.py:44-52 | the thumb keeps 2 pixels from the track's edges at the end it sits at, and the two thumbs mirror each other |
| Toggles.Toggle.constructor | neui/cui/toggle.py:5-18 | the flag as given and the six defaults where absent |
| Toggles.Toggle.OnClick | neui/cui/toggle.py:20-23 | the flag flips and the new value is reported |
| Toggles.Toggle.GetValue | neui/cui/toggle.py:25-27 | the getter returns the flag |
| Toggles.Toggle.SetValue | neui/cui/toggle.py:29-31 | the setter assigns the flag without reporting |
| Progress.Clamp01 | neui/cui/progress.py:18-19 | the value is kept in [0, 1], unchanged when already there |
| Progress.FillWithinTrack | neui/cui/progress.py:26-35 | the fill is drawn exactly for a positive value and never extends past the track |
| Progress.ProgressBar.constructor | neui/cui/progress.py:5-16 | clamped value, the four defaults where absent, `fill_color` else `#007ACC` |
| Progress.ProgressBar.SetValue | neui/cui/progress.py:18-19 | the value stored is `v` clamped into [0, 1] |
| Buttons.Lighten | neui/cui/button.py:65-66 | the hover colour is always `#3399FF` |
| Buttons.Darken | neui/cui/button.py:68-69 | the pressed colour is always `#005599` |
| Buttons.Button.constructor | neui/cui/button.py:5-26 | the six defaults where absent; normal bg is the initial bg; no child added |
| Buttons.Button.OnMouseEnter | neui/cui/button.py:28-29 | bg becomes the hover colour |
| Buttons.Button.OnMouseLeave | neui/cui/button.py:31-32 | bg becomes the normal colour |
| Buttons.Button.OnMouseDown | neui/cui/button.py:34-35 | bg becomes the pressed colour |
| Buttons.Button.OnMouseUp | neui/cui/button.py:37-38 | bg becomes the hover colour |
| Buttons.Button.OnClick | neui/cui/button.py:40-42 | the handler runs exactly when there is one |
| Cards.CardStyle | neui/cui/card.py:5-16 | caller keys kept, the six defaults for the others, nothing else |
| Cards.Card.constructor | neui/cui/card.py:4-16 | the element's style is the caller's with the card defaults |
| Dropdowns.OverlayHost.constructor | neui/cui/dropdown.py:68 | the application starts without overlays |
| Dropdowns.OverlayHost.AddOverlay | neui/cui/dropdown.py:152 | the overlay becomes the newest |
| Dropdowns.OverlayHost.RemoveOverlay | neui/cui/dropdown.py:159 | the overlay is taken out once |
| Dropdowns.MenuStyle | neui/cui/dropdown.py:83-101 | the menu is as wide as the dropdown, at its left edge, 5 below its bottom, with its bg, radius and border colour |
| Dropdowns.ItemStyle | neui/cui/dropdown.py:110-116 | an option box is 30 tall with the dropdown's bg |
| Dropdowns.LabelStyle | neui/cui/dropdown.py:122 | an option's text has the dropdown's text colour |
| Dropdowns.BuildItems | neui/cui/dropdown.py:108-149 | one fresh box per option, in order, each holding one text with the option, appended to the menu |
| Dropdowns.BuildItem | neui/cui/dropdown.py:110-123 | one option's box holding its text |
| Dropdowns.BuildOverlay | neui/cui/dropdown.py:74-151 | the full-screen overlay holds the menu of all options |
| Dropdowns.Dropdown.constructor | neui/cui/dropdown.py:7-26 | value given, else the first option, else empty; closed, no overlay, defaults where absent |
| Dropdowns.Dropdown.OnMouseEnter | neui/cui/dropdown.py:50-51 | hovered is set |
| Dropdowns.Dropdown.OnMouseLeave | neui/cui/dropdown.py:53-54 | hovered is cleared |
| Dropdowns.Dropdown.Open | neui/cui/dropdown.py:65-152 | nothing when open or without an application; otherwise open with a fresh overlay, added newest, holding the menu |
| Dropdowns.Dropdown.Close | neui/cui/dropdown.py:154-162 | closed with no overlay; an open one's overlay is taken from the application |
| Dropdowns.Dropdown.OnClick | neui/cui/dropdown.py:56-63 | a click closes an open dropdown and opens a closed one when there is an application |
| Dropdowns.Dropdown.Select | neui/cui/dropdown.py:129-133 | the option becomes the value, is reported, and the dropdown closes |
| Dropdowns.Dropdown.ItemEnter | neui/cui/dropdown.py:135-136 | the option box turns `#1F6FEB` |
| Dropdowns.Dropdown.ItemLeave | neui/cui/dropdown.py:138-139 | the option box gets the dropdown's bg back |
| Toasts.ToastStyleSpec | neui/cui/toaster.py:15-23 | a toast starts at opacity 0 and 20 below, with the caller's other keys and the five defaults where absent |
| Toasts.KindColor | neui/cui/toaster.py:56-59 | success, error and warning get their colours and every other kind `#333` |
| Toasts.Toast.constructor | neui/cui/toaster.py:7-26 | the toast style, and a fresh text child with the message appended last |
| Toasts.Toast.Update | neui/cui/toaster.py:28-33 | dying once the time is up; only the first such update starts the half-second fade-out whose completion removes the toast |
| Toasts.Toast.Remove | neui/cui/toaster.py:35-37 | with a parent the parent removes the toast; without one nothing changes |
| Toasts.ToastManager.constructor | neui/cui/toaster.py:40-49 | size, layout, alignment, padding and gap always set, other keys kept |
| Toasts.ToastManager.Show | neui/cui/toaster.py:55-65 | a toast coloured by its kind becomes the last child and its fade-in is appended to the manager |
| Toasts.ToastManager.RemoveToast | neui/cui/toaster.py:67-69 | the toast leaves the children when present; otherwise nothing changes |

## Left out

- Skia drawing is not modelled: `draw_rect`, `draw_text`, `draw_image` and clip/save/restore. `Renderer.measure_text` is a foreign call, so `Text.measure` enters the layout as the `TextMeasure` parameter.
- What is modelled of `render` is only:
  - the style writes of Checkbox and Radio;
  - Toggle's track style and thumb geometry;
  - the progress fill;
  - the scrollbar thumb.
- `neui/core/app.py` is not part of this model: the GLFW window, the GPU surface and the run loop. `App` defines no `get_instance`, `add_overlay` or `remove_overlay`, so as shipped `Dropdown.open` raises AttributeError at neui/cui/dropdown.py:68. The `OverlayHost` class stands for that overlay API, which the program does not have.
- GLFW callback registration and cursor/button polling in `EventManager` are left out. The polled values are parameters of `ProcessEvents`.
- Clocks are parameters: `time.time` in the animation manager, the Input caret blink, and Toast creation and update. The caret blink toggling in `Input.render` is left out.
- `Easing.ease_out_elastic` is left out, because it uses `pow` and `sin`. Floating-point rounding is not modelled: numbers are `real`, and bit widths and `int()` truncation in the renderer do not appear.
- Animations.AnimationManager.Update: the code fires each finished animation's callback inside the loop. The model collects them in `TickAll` and appends them to `completed` after the loop, in the same order. No model state observes the trace in between.
- Handler wiring through closures is not modelled. The `self.on_click = self._toggle` assignments and the dropdown's per-option closures are modelled as the methods they bind. `Toast.remove`, given as `on_complete`, is modelled as the identifier the completed animation reports.
- The handler argument mismatch is not modelled. The dispatcher passes `x, y` to `on_mouse_down`, which `Button` and `Slider` do not accept. Handlers are identified by name only, and the model does not reproduce the TypeError.
- Style dictionaries are values. A caller's dictionary that other code shares by reference is not tracked, so `Card`, `Button`, `Toggle` and `Slider`, which fill the caller's dictionary itself, are modelled on the element's style. `Elements.DefaultsCommute` shows the resulting style is the same.
- A style entry holding `None` is not representable. It is taken as an absent key.
- The layout engine works on a value tree. It returns the tree with every bounds filled in after the authoritative pass. The dry-run writes of `_measure_element` are not kept: the final pass overwrites every node the dry run wrote.
- Node identity is the `id` field. Ids are taken to be distinct.
- Dropdown options are strings; `str(opt)` of other objects is not modelled.
- Internal elements are created with an empty context stack: the overlay, menu and items of `Dropdown`, and the toast and its text in `Toaster`. An element built inside an open `with` block would also be attached to that block's element, and the model does not capture that.
- `ToastManager.render` is not modelled. It updates and draws each toast every frame and checks `isinstance(child, Toast)`.
- `Image._load_image` is modelled only by its outcome: the image's size, or none when loading failed.
- Inputs on which the code raises are preconditions, not behaviour:
  - a `px` or `fr` token with a non-numeric prefix;
  - a `%` width with a non-numeric prefix;
  - non-hex colour digits;
  - a zero animation duration or slider width.
- Inputs.Input.OnChar: Dafny's `char` cannot hold a surrogate code point, so `IsCodePoint` excludes U+D800 to U+DFFF. Python's `chr` accepts them and `on_char` would insert the lone surrogate. GLFW's character callback never delivers one.
- Colors.ParseColor: `int(pair, 16)` also accepts a pair with surrounding whitespace, a sign or a non-ASCII decimal digit (`' f'`, `'+f'`, `'-f'`, `'١f'`). So `"# fffff"` and `"#+f+f+f"` parse in the code. `Readable` requires ASCII hex digits, so the model does not cover these inputs.
- PyFloat.ParseSlice: `float()` covers decimal and exponent forms with surrounding whitespace. `inf`, `nan`, digit underscores and non-ASCII digits are not accepted.
- Inputs.Measure: the code returns a `w` that is neither a number nor a string unchanged. Such a value (`Other`) carries no number in the model, so the model reads it as 200.
- Code read as written, without a claim that it is wrong:
  - A stack child whose `w` is a percentage has it resolved twice: once against the container when measured, then against its own measured width when laid out.
  - A measurable node in a column with an auto `h` gets the column's height rule. That is 2·padding with no children, not its intrinsic height.
