/**
 * `main.js`: the first version of the resizable box, one closure per element
 * (`attachListeners`) whose `state` record the three document handlers update.
 * Unlike the Area classes, mouse-down clears the flags before classifying and
 * `enableResize` is kept beside `isResizing` (set, cleared, never read).
 * `main.js` declares its own `RESIZE_OFFSET = 10` and `Cursors` table, with the
 * same values as `src/commons.ts`; the model uses the shared constants.
 */
module MainListeners {
  import opened Options
  import opened Edges
  import opened Geometry
  import Commons

  /** The closure's `state` record. */
  datatype ClosureState = ClosureState(
    enableMovement: bool,
    enableResize: bool,
    isResizing: bool,
    offsetX: int,
    offsetY: int,
    snap: Snapshot,
    position: Flags)

  const InitialClosureState := ClosureState(false, false, false, 0, 0, ZeroSnapshot, NoFlags)

  /** The ten values of the `Cursors` object. */
  const MainCursorValues: set<string> := {
    Commons.DEFAULT, Commons.MOVE, Commons.N_RESIZE, Commons.S_RESIZE, Commons.E_RESIZE,
    Commons.W_RESIZE, Commons.NE_RESIZE, Commons.NW_RESIZE, Commons.SE_RESIZE, Commons.SW_RESIZE
  }

  /** Classification of the pointer against the element's bounding box. */
  function ClassifyAt(p: Pointer, l: Layout): (f: Flags)
    ensures f.Exclusive()
    ensures !f.Any() <==>
              Commons.RESIZE_OFFSET <= p.clientX - l.rectLeft <= l.rectWidth - Commons.RESIZE_OFFSET
              && Commons.RESIZE_OFFSET <= p.clientY - l.rectTop <= l.rectHeight - Commons.RESIZE_OFFSET
  {
    ClassifyInteriorIsMoveZone(p.clientX - l.rectLeft, p.clientY - l.rectTop, l.rectWidth, l.rectHeight,
                               Commons.RESIZE_OFFSET);
    Classify(p.clientX - l.rectLeft, p.clientY - l.rectTop, l.rectWidth, l.rectHeight, Commons.RESIZE_OFFSET)
  }

  /**
   * `handleMouseDown`: clear the flags, classify the pointer, take the
   * snapshot, then enable resizing when some flag is set and moving otherwise.
   * Neither branch clears the other mode's flag.
   */
  function MouseDownState(st: ClosureState, p: Pointer, l: Layout, style: ElementStyle): (st': ClosureState)
    ensures st'.position == ClassifyAt(p, l) && st'.position.Exclusive()
    ensures st'.snap == TakeSnapshot(p, l, style)
    ensures st'.offsetX == p.clientX - l.rectLeft && st'.offsetY == p.clientY - l.rectTop
    ensures st'.position.Any() ==> st'.enableResize && st'.isResizing && st'.enableMovement == st.enableMovement
    ensures !st'.position.Any() ==>
              st'.enableMovement && st'.enableResize == st.enableResize && st'.isResizing == st.isResizing
  {
    var pos := ClassifyAt(p, l);
    var st1 := st.(position := pos, snap := TakeSnapshot(p, l, style),
                   offsetX := p.clientX - l.rectLeft, offsetY := p.clientY - l.rectTop);
    if pos.Any() then st1.(enableResize := true, isResizing := true)
    else st1.(enableMovement := true)
  }

  /** `handleMouseUp`: leave every mode; flags and snapshot stay. */
  function MouseUpState(st: ClosureState): (st': ClosureState)
    ensures !st'.enableMovement && !st'.enableResize && !st'.isResizing
    ensures st'.position == st.position && st'.snap == st.snap
    ensures st'.offsetX == st.offsetX && st'.offsetY == st.offsetY
  {
    st.(enableMovement := false, enableResize := false, isResizing := false)
  }

  /** From the idle state a press enables exactly one mode: resizing iff some flag is set. */
  lemma MouseDownFromIdlePicksOneMode(st: ClosureState, p: Pointer, l: Layout, style: ElementStyle)
    requires !st.enableMovement && !st.isResizing && !st.enableResize
    ensures var st' := MouseDownState(st, p, l, style);
            (st'.isResizing != st'.enableMovement) && (st'.isResizing <==> st'.position.Any())
            && (st'.enableResize == st'.isResizing)
  {
  }

  /** The flags a press leaves depend only on the pointer and the box, never on earlier flags. */
  lemma MouseDownIgnoresEarlierFlags(st: ClosureState, g: Flags, p: Pointer, l: Layout, style: ElementStyle)
    ensures MouseDownState(st.(position := g), p, l, style) == MouseDownState(st, p, l, style)
  {
  }

  /**
   * A second press while a move is still enabled (the release happened where
   * the document did not see it) leaves both modes on.
   */
  lemma PressDuringMoveKeepsBothModes(st: ClosureState, p: Pointer, l: Layout, style: ElementStyle)
    requires st.enableMovement && ClassifyAt(p, l).Any()
    ensures var st' := MouseDownState(st, p, l, style);
            st'.isResizing && st'.enableResize && st'.enableMovement
  {
  }

  /** A press and a release bring the closure back to idle. */
  lemma GestureEndsIdle(st: ClosureState, p: Pointer, l: Layout, style: ElementStyle)
    ensures var st' := MouseUpState(MouseDownState(st, p, l, style));
            !st'.enableMovement && !st'.isResizing && !st'.enableResize
            && st'.position == ClassifyAt(p, l)
  {
  }

  /** Every cursor `updateCursor` writes is one of the `Cursors` values; `default` only comes from the release. */
  lemma UpdateCursorInCursors(f: Flags)
    ensures Commons.CursorFor(f) in MainCursorValues
    ensures Commons.CursorFor(f) != Commons.DEFAULT
  {
  }

  /** The element a closure is attached to, with its `state` record. */
  class ElementController {
    var state: ClosureState
    var style: ElementStyle

    /** `createNewResizableDiv` followed by `attachListeners`. */
    constructor ()
      ensures state == InitialClosureState && style == InitialStyle
    {
      state := InitialClosureState;
      style := InitialStyle;
    }

    method HandleMouseDown(p: Pointer, l: Layout)
      modifies this`state
      ensures state == MouseDownState(old(state), p, l, style)
    {
      var cleared := ClearFlags(state.position);
      state := state.(position := cleared);
      var x := p.clientX - l.rectLeft;
      var y := p.clientY - l.rectTop;
      MarkEdgesOnClearedFlags(x, y, l.rectWidth, l.rectHeight, Commons.RESIZE_OFFSET);
      state := state.(position := MarkEdges(state.position, x, y, l.rectWidth, l.rectHeight, Commons.RESIZE_OFFSET));
      state := state.(snap := TakeSnapshot(p, l, style), offsetX := x, offsetY := y);
      if state.position.Any() {
        state := state.(enableResize := true, isResizing := true);
      } else {
        state := state.(enableMovement := true);
      }
    }

    /**
     * `handleMouseMove`: a resize frame while resizing, a move frame while
     * moving, and otherwise a hover that re-classifies the flags and updates
     * the cursor.
     */
    method HandleMouseMove(p: Pointer, l: Layout)
      modifies this`state, this`style
      ensures old(state).isResizing ==>
                state == old(state) && style == ResizeStyle(old(style), state.snap, state.position, p)
      ensures !old(state).isResizing && old(state).enableMovement ==>
                state == old(state) && style == MoveStyle(old(style), state.snap, p)
      ensures !old(state).isResizing && !old(state).enableMovement ==>
                state == old(state).(position := ClassifyAt(p, l))
                && style == old(style).(cursor := Commons.CursorFor(state.position))
    {
      if state.isResizing {
        style := ResizeStyle(style, state.snap, state.position, p);
      } else if state.enableMovement {
        style := MoveStyle(style, state.snap, p);
      } else {
        var cleared := ClearFlags(state.position);
        state := state.(position := cleared);
        var x := p.clientX - l.rectLeft;
        var y := p.clientY - l.rectTop;
        MarkEdgesOnClearedFlags(x, y, l.rectWidth, l.rectHeight, Commons.RESIZE_OFFSET);
        state := state.(position := MarkEdges(state.position, x, y, l.rectWidth, l.rectHeight, Commons.RESIZE_OFFSET));
        UpdateCursor();
      }
    }

    method HandleMouseUp()
      modifies this`state, this`style
      ensures state == MouseUpState(old(state))
      ensures style == old(style).(cursor := Commons.DEFAULT)
    {
      state := state.(enableMovement := false, enableResize := false, isResizing := false);
      style := style.(cursor := Commons.DEFAULT);
    }

    /** `updateCursor`: the cursor of the current flags. */
    method UpdateCursor()
      modifies this`style
      ensures style == old(style).(cursor := Commons.CursorFor(state.position))
      ensures style.cursor in MainCursorValues
    {
      style := style.(cursor := Commons.CursorFor(state.position));
    }
  }
}
