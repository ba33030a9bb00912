/**
 * `src/models/area.ts`: a resizable, movable box that fires events to its
 * registered listeners. Style writes are writes to the `style` field;
 * callbacks are recorded in `calls` in the order they are invoked.
 */
module Areas {
  import opened Options
  import opened Edges
  import opened Geometry
  import opened Registry
  import opened AreaRecords
  import Commons

  /** Event names, as the enum in `src/types/area-events.ts` spells them. */
  const RESIZE_START := "resize-start"
  const SELECT := "select"
  const DESELECT := "deselect"
  const BEFORE_DELETE := "before-delete"
  /** Note the leading space. */
  const AFTER_DELETE := " after-delete"

  /** The payload of a fired event; the `target` is the area firing it. */
  datatype AreaEvent = AreaEvent(kind: string, x: Option<int>, y: Option<int>,
                                 width: Option<int>, height: Option<int>, side: Option<string>)

  const TOP_LEFT := "top-left"
  const TOP_RIGHT := "top-right"
  const BOTTOM_LEFT := "bottom-left"
  const BOTTOM_RIGHT := "bottom-right"
  const LEFT := "left"
  const RIGHT := "right"
  const TOP := "top"
  const BOTTOM := "bottom"

  const CornerSides: set<string> := {TOP_LEFT, TOP_RIGHT, BOTTOM_LEFT, BOTTOM_RIGHT}

  /**
   * `_getPositionString`: `null` for a missing record or no flag; otherwise
   * the first of top-left, top-right, bottom-left, bottom-right, left, right,
   * top, bottom whose flags are all set.
   */
  function PositionString(val: Option<Flags>): (s: Option<string>)
    ensures s.None? <==> val.None? || !val.value.Any()
    ensures s.Some? ==> (s.value in CornerSides <==> val.value.IsCorner())
  {
    match val
    case None => None
    case Some(f) =>
      if f.top && f.left then Some(TOP_LEFT)
      else if f.top && f.right then Some(TOP_RIGHT)
      else if f.bottom && f.left then Some(BOTTOM_LEFT)
      else if f.bottom && f.right then Some(BOTTOM_RIGHT)
      else if f.left then Some(LEFT)
      else if f.right then Some(RIGHT)
      else if f.top then Some(TOP)
      else if f.bottom then Some(BOTTOM)
      else None
  }

  /** The priority order of `_getPositionString`, written as a table. */
  const SideTable: seq<Rule> := [
    Rule(TOP_LEFT, Flags(true, false, true, false)),
    Rule(TOP_RIGHT, Flags(false, true, true, false)),
    Rule(BOTTOM_LEFT, Flags(true, false, false, true)),
    Rule(BOTTOM_RIGHT, Flags(false, true, false, true)),
    Rule(LEFT, Flags(true, false, false, false)),
    Rule(RIGHT, Flags(false, true, false, false)),
    Rule(TOP, Flags(false, false, true, false)),
    Rule(BOTTOM, Flags(false, false, false, true))
  ]

  /** The last four rows of the side table: the single edges. */
  lemma SideTableEdges(f: Flags)
    ensures FirstMatch(f, SideTable[4..]) ==
              if f.left then Some(LEFT) else if f.right then Some(RIGHT)
              else if f.top then Some(TOP) else if f.bottom then Some(BOTTOM) else None
  {
    var t := SideTable;
    assert FirstMatch(f, t[7..]) == if f.bottom then Some(BOTTOM) else None by {
      assert t[7..][1..] == [];
    }
    assert FirstMatch(f, t[6..]) == if f.top then Some(TOP) else FirstMatch(f, t[7..]) by {
      assert t[6..][1..] == t[7..];
    }
    assert FirstMatch(f, t[5..]) == if f.right then Some(RIGHT) else FirstMatch(f, t[6..]) by {
      assert t[5..][1..] == t[6..];
    }
    assert t[4..][1..] == t[5..];
  }

  /** The side table from its bottom corners on. */
  lemma SideTableBottomCorners(f: Flags)
    ensures FirstMatch(f, SideTable[2..]) ==
              if f.bottom && f.left then Some(BOTTOM_LEFT) else if f.bottom && f.right then Some(BOTTOM_RIGHT)
              else FirstMatch(f, SideTable[4..])
  {
    var t := SideTable;
    assert FirstMatch(f, t[3..]) == if f.bottom && f.right then Some(BOTTOM_RIGHT) else FirstMatch(f, t[4..]) by {
      assert t[3..][1..] == t[4..];
    }
    assert t[2..][1..] == t[3..];
  }

  /** `_getPositionString` picks the first row of its priority table that applies. */
  lemma PositionStringFollowsTable(f: Flags)
    ensures PositionString(Some(f)) == FirstMatch(f, SideTable)
  {
    var t := SideTable;
    SideTableEdges(f);
    SideTableBottomCorners(f);
    assert FirstMatch(f, t[1..]) == if f.top && f.right then Some(TOP_RIGHT) else FirstMatch(f, t[2..]) by {
      assert t[1..][1..] == t[2..];
    }
  }

  /** The resize cursor that belongs to a side label. */
  function CursorOfSide(s: Option<string>): string {
    match s
    case None => Commons.MOVE
    case Some(v) =>
      if v == TOP_LEFT then Commons.NW_RESIZE
      else if v == TOP_RIGHT then Commons.NE_RESIZE
      else if v == BOTTOM_LEFT then Commons.SW_RESIZE
      else if v == BOTTOM_RIGHT then Commons.SE_RESIZE
      else if v == LEFT then Commons.W_RESIZE
      else if v == RIGHT then Commons.E_RESIZE
      else if v == TOP then Commons.N_RESIZE
      else Commons.S_RESIZE
  }

  /** With one flag per axis the side label and the hover cursor name the same place. */
  lemma SideAgreesWithCursor(f: Flags)
    requires f.Exclusive()
    ensures CursorOfSide(PositionString(Some(f))) == Commons.CursorFor(f)
  {
  }

  /**
   * The two priority tables differ where both flags of an axis are set:
   * the label prefers top-left, the cursor north-east.
   */
  lemma SideAndCursorDifferOnAllFlags()
    ensures PositionString(Some(Flags(true, true, true, true))) == Some(TOP_LEFT)
    ensures Commons.CursorFor(Flags(true, true, true, true)) == Commons.NE_RESIZE
  {
  }

  /** `a || b || null` on numbers: the first that is not 0, else `null`. */
  function OrNumber(a: Option<int>, b: int): (r: Option<int>)
    ensures r.Some? ==> r.value != 0 && (r == a || r.value == b)
    ensures r.None? <==> (a.None? || a.value == 0) && b == 0
    ensures a.Some? && a.value != 0 ==> r == a
  {
    if a.Some? && a.value != 0 then a else if b != 0 then Some(b) else None
  }

  /** `a || b` on strings: `a` unless it is absent or empty. */
  function OrString(a: Option<string>, b: Option<string>): (r: Option<string>)
    ensures a.Some? && a.value != "" ==> r == a
    ensures a.None? || a.value == "" ==> r == b
  {
    if a.Some? && a.value != "" then a else b
  }

  /**
   * `_createEvent`: an argument left out (or 0) falls back to the state, the
   * coordinates to the pointer offset, the size to the snapshot's size, the
   * side to the position label; a 0 there is reported as `null`.
   */
  function CreateEvent(name: string, x: Option<int>, y: Option<int>, width: Option<int>, height: Option<int>,
                       side: Option<string>, st: AreaRecord): (ev: AreaEvent)
    ensures ev.kind == name
    ensures (x.None? || x.value == 0) ==> ev.x == (if st.offsetX != 0 then Some(st.offsetX) else None)
    ensures (y.None? || y.value == 0) ==> ev.y == (if st.offsetY != 0 then Some(st.offsetY) else None)
    ensures (width.None? || width.value == 0) ==>
              ev.width == (if st.snap.startWidth != 0 then Some(st.snap.startWidth) else None)
    ensures (height.None? || height.value == 0) ==>
              ev.height == (if st.snap.startHeight != 0 then Some(st.snap.startHeight) else None)
    ensures side.None? ==> ev.side == PositionString(Some(st.position))
    ensures x.Some? && x.value != 0 ==> ev.x == x
    ensures y.Some? && y.value != 0 ==> ev.y == y
    ensures width.Some? && width.value != 0 ==> ev.width == width
    ensures height.Some? && height.value != 0 ==> ev.height == height
    ensures side.Some? && side.value != "" ==> ev.side == side
    ensures side.Some? && side.value == "" ==> ev.side == PositionString(Some(st.position))
  {
    AreaEvent(name, OrNumber(x, st.offsetX), OrNumber(y, st.offsetY),
              OrNumber(width, st.snap.startWidth), OrNumber(height, st.snap.startHeight),
              OrString(side, PositionString(Some(st.position))))
  }

  /** The event `_executeListeners(name)` builds: every optional argument left out. */
  function EventFor(name: string, st: AreaRecord): AreaEvent {
    CreateEvent(name, None, None, None, None, None, st)
  }

  /** A press exactly on the element's left border (offset 0) is reported with `x: null`. */
  lemma ZeroOffsetIsReportedAsNull(name: string, st: AreaRecord)
    requires st.offsetX == 0
    ensures EventFor(name, st).x.None?
  {
  }

  /** Registering a listener as `after-delete` never changes what the event the area fires reaches. */
  lemma AfterDeleteMissesPlainName(r: Listeners, cb: Callback)
    ensures cb in Registry.On(r, "after-delete", cb)["after-delete"]
    ensures Lookup(Registry.On(r, "after-delete", cb), AFTER_DELETE) == Lookup(r, AFTER_DELETE)
  {
  }

  class Area {
    var state: AreaRecord
    var style: ElementStyle
    /** The element is still a child of the container. */
    var inDom: bool
    var listeners: Listeners
    /** The callbacks invoked so far, with the event each received. */
    var calls: seq<Invocation<AreaEvent>>

    ghost predicate Valid()
      reads this
    {
      WellFormed(listeners)
    }

    constructor ()
      ensures Valid()
      ensures state == InitialRecord && style == InitialStyle && inDom
      ensures listeners == map[] && calls == []
    {
      state := InitialRecord;
      style := InitialStyle;
      inDom := true;
      listeners := map[];
      calls := [];
    }

    function GetState(): AreaRecord
      reads this
    {
      state
    }

    /** `on`: register `cb` for `name`. */
    method On(name: string, cb: Callback)
      requires Valid()
      modifies this`listeners
      ensures Valid()
      ensures listeners == Registry.On(old(listeners), name, cb)
    {
      listeners := Registry.On(listeners, name, cb);
    }

    /** `_executeListeners(name)`: call every callback registered for `name`, in set order. */
    method ExecuteListeners(name: string)
      modifies this`calls
      ensures calls == old(calls) + Deliver(Lookup(listeners, name), EventFor(name, state))
    {
      var ev := EventFor(name, state);
      var cbs := Lookup(listeners, ev.kind);
      var i := 0;
      while i < |cbs|
        invariant 0 <= i <= |cbs|
        invariant calls == old(calls) + Deliver(cbs[..i], ev)
      {
        DeliverPrefixStep(cbs, i, ev);
        calls := calls + [Invocation(cbs[i], ev)];
        i := i + 1;
      }
      assert cbs[..i] == cbs;
    }

    /** `_resetPosition`: clear every position flag. */
    method ResetPosition()
      modifies this`state
      ensures state == old(state).(position := NoFlags)
    {
      var cleared := ClearFlags(state.position);
      state := state.(position := cleared);
    }

    /**
     * `_mouseDown`: on a live area, select it and fire `select`, take the
     * snapshot, mark the edges, pick the mode and fire `resize-start` when
     * resizing.
     */
    method MouseDown(p: Pointer, l: Layout)
      modifies this`state, this`calls
      ensures state == MouseDownRecord(old(state), p, l, style)
      ensures old(state).prunable ==> calls == old(calls)
      ensures !old(state).prunable ==>
                calls == old(calls)
                         + Deliver(Lookup(listeners, SELECT), EventFor(SELECT, Selected(old(state))))
                         + (if state.isResizing
                            then Deliver(Lookup(listeners, RESIZE_START), EventFor(RESIZE_START, state))
                            else [])
    {
      if state.prunable {
        return;
      }
      state := state.(isThisAreaSelected := true);
      ExecuteListeners(SELECT);
      var x := RelX(p, l);
      var y := RelY(p, l);
      state := state.(snap := TakeSnapshot(p, l, style), offsetX := x, offsetY := y);
      state := state.(position := MarkEdges(state.position, x, y, l.rectWidth, l.rectHeight, Commons.RESIZE_OFFSET));
      if state.position.Any() {
        state := state.(isResizing := true, enableMovement := false);
        ExecuteListeners(RESIZE_START);
      } else {
        state := state.(enableMovement := true, isResizing := false);
      }
    }

    /** `_mouseMove`: while hovering a live area, re-classify the flags and update the cursor. */
    method MouseMove(p: Pointer, l: Layout)
      modifies this`state, this`style
      ensures state == HoverRecord(old(state), p, l)
      ensures style == if old(state).prunable || !old(state).Idle() then old(style)
                       else old(style).(cursor := Commons.CursorFor(state.position))
    {
      if state.prunable {
        return;
      }
      if !state.isResizing && !state.enableMovement {
        ResetPosition();
        var x := RelX(p, l);
        var y := RelY(p, l);
        MarkEdgesOnClearedFlags(x, y, l.rectWidth, l.rectHeight, Commons.RESIZE_OFFSET);
        state := state.(position := MarkEdges(state.position, x, y, l.rectWidth, l.rectHeight, Commons.RESIZE_OFFSET));
        style := style.(cursor := Commons.CursorFor(state.position));
      }
    }

    /** `_mouseUp`: on a live area, leave both modes, reset the cursor and fire `deselect`. */
    method MouseUp()
      modifies this`state, this`style, this`calls
      ensures state == MouseUpRecord(old(state))
      ensures old(state).prunable ==> style == old(style) && calls == old(calls)
      ensures !old(state).prunable ==>
                style == old(style).(cursor := Commons.DEFAULT)
                && calls == old(calls) + Deliver(Lookup(listeners, DESELECT), EventFor(DESELECT, state))
    {
      if state.prunable {
        return;
      }
      state := state.(isThisAreaSelected := false, enableMovement := false, isResizing := false);
      style := style.(cursor := Commons.DEFAULT);
      ExecuteListeners(DESELECT);
    }

    /** `deselect`: the mouse-up handler. */
    method Deselect()
      modifies this`state, this`style, this`calls
      ensures state == MouseUpRecord(old(state))
      ensures old(state).prunable ==> style == old(style) && calls == old(calls)
      ensures !old(state).prunable ==>
                style == old(style).(cursor := Commons.DEFAULT)
                && calls == old(calls) + Deliver(Lookup(listeners, DESELECT), EventFor(DESELECT, state))
    {
      MouseUp();
    }

    /**
     * `_delete`: fire `before-delete`, mark the area prunable, detach the
     * element and fire ` after-delete`. Detaching an element that is no longer
     * in the container throws; `ok` is false then and the second event is not
     * fired.
     */
    method Delete() returns (ok: bool)
      modifies this`state, this`inDom, this`calls
      ensures state == old(state).(prunable := true)
      ensures ok == old(inDom) && !inDom
      ensures calls == old(calls)
                       + Deliver(Lookup(listeners, BEFORE_DELETE), EventFor(BEFORE_DELETE, old(state)))
                       + (if ok then Deliver(Lookup(listeners, AFTER_DELETE), EventFor(AFTER_DELETE, state)) else [])
    {
      ExecuteListeners(BEFORE_DELETE);
      state := state.(prunable := true);
      if !inDom {
        return false;
      }
      inDom := false;
      ExecuteListeners(AFTER_DELETE);
      ok := true;
    }
  }

  /** A prunable area (as `Delete` leaves it) ignores every pointer handler: nothing changes, nothing fires. */
  method PrunableAreaIsInert(a: Area, p: Pointer, l: Layout)
    requires a.state.prunable
    modifies a
    ensures unchanged(a)
  {
    a.MouseDown(p, l);
    a.MouseMove(p, l);
    a.MouseUp();
  }
}
