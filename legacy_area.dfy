/**
 * `src/area.ts`: the earlier Area, without events, which asks its owner to
 * prune as soon as it is deleted. The owner it needs is the `Space` interface
 * that file declares (`getContainer`, `getTotalAreas`, `prune`); it is
 * modelled by `LegacySpace`, with the list handling of `src/models/space.ts`.
 */
module LegacyAreas {
  import opened Options
  import opened Edges
  import opened Geometry
  import opened AreaRecords
  import opened Pruning
  import Commons

  class LegacyArea {
    var state: AreaRecord
    var style: ElementStyle
    /** The element is still a child of the container. */
    var inDom: bool
    const space: LegacySpace

    constructor (space: LegacySpace)
      ensures state == InitialRecord && style == InitialStyle && inDom && this.space == space
    {
      state := InitialRecord;
      style := InitialStyle;
      inDom := true;
      this.space := space;
    }

    /** `_resetPosition`: clear every position flag. */
    method ResetPosition()
      modifies this`state
      ensures state == old(state).(position := NoFlags)
    {
      var cleared := ClearFlags(state.position);
      state := state.(position := cleared);
    }

    /** `_mouseDown`: select, snapshot, mark the edges and pick the mode, unless prunable. */
    method MouseDown(p: Pointer, l: Layout)
      modifies this`state
      ensures state == MouseDownRecord(old(state), p, l, style)
    {
      if state.prunable {
        return;
      }
      state := state.(isThisAreaSelected := true);
      var x := RelX(p, l);
      var y := RelY(p, l);
      state := state.(snap := TakeSnapshot(p, l, style), offsetX := x, offsetY := y);
      state := state.(position := MarkEdges(state.position, x, y, l.rectWidth, l.rectHeight, Commons.RESIZE_OFFSET));
      if state.position.Any() {
        state := state.(isResizing := true, enableMovement := false);
      } else {
        state := state.(enableMovement := true, isResizing := false);
      }
    }

    /** `_mouseMove`: while hovering a live area, re-classify the flags and update the cursor. */
    method MouseMove(p: Pointer, l: Layout)
      modifies this`state, this`style
      ensures state == HoverRecord(old(state), p, l)
      ensures style == if old(state).prunable || !old(state).Idle() then old(style)
                       else old(style).(cursor := Commons.CursorFor(state.position))
    {
      if state.prunable {
        return;
      }
      if !state.isResizing && !state.enableMovement {
        ResetPosition();
        var x := RelX(p, l);
        var y := RelY(p, l);
        MarkEdgesOnClearedFlags(x, y, l.rectWidth, l.rectHeight, Commons.RESIZE_OFFSET);
        state := state.(position := MarkEdges(state.position, x, y, l.rectWidth, l.rectHeight, Commons.RESIZE_OFFSET));
        style := style.(cursor := Commons.CursorFor(state.position));
      }
    }

    /** `_mouseUp`: on a live area, leave both modes and reset the cursor. */
    method MouseUp()
      modifies this`state, this`style
      ensures state == MouseUpRecord(old(state))
      ensures style == if old(state).prunable then old(style) else old(style).(cursor := Commons.DEFAULT)
    {
      if state.prunable {
        return;
      }
      state := state.(isThisAreaSelected := false, enableMovement := false, isResizing := false);
      style := style.(cursor := Commons.DEFAULT);
    }

    /** `deselect`: the mouse-up handler. */
    method Deselect()
      modifies this`state, this`style
      ensures state == MouseUpRecord(old(state))
      ensures style == if old(state).prunable then old(style) else old(style).(cursor := Commons.DEFAULT)
    {
      MouseUp();
    }

    /**
     * `_delete`: mark the area prunable, detach its element and prune the
     * owner, which then no longer lists it. Detaching an element that is no
     * longer in the container throws before the owner is pruned; `ok` is
     * false then.
     */
    method Delete() returns (ok: bool)
      modifies this`state, this`inDom, space`areas
      ensures state == old(state).(prunable := true)
      ensures ok == old(inDom) && !inDom
      ensures ok ==> space.areas == LiveLegacy(old(space.areas)) && this !in space.areas
      ensures !ok ==> space.areas == old(space.areas)
    {
      state := state.(prunable := true);
      if !inDom {
        return false;
      }
      inDom := false;
      space.Prune();
      LiveLegacyExactly(old(space.areas), this);
      ok := true;
    }
  }

  function LegacyPrunableFlags(s: seq<LegacyArea>): (d: seq<bool>)
    reads s
    ensures |d| == |s|
    ensures forall i :: 0 <= i < |s| ==> d[i] == s[i].state.prunable
  {
    seq(|s|, i requires 0 <= i < |s| reads s => s[i].state.prunable)
  }

  /** The areas a prune keeps. */
  function LiveLegacy(s: seq<LegacyArea>): (r: seq<LegacyArea>)
    reads s
    ensures |r| <= |s|
    ensures forall k :: 0 <= k < |r| ==> r[k] in s && !r[k].state.prunable
  {
    KeepSound(s, LegacyPrunableFlags(s));
    KeepUnmarked(s, LegacyPrunableFlags(s))
  }

  /** Pruning keeps exactly the areas that are not prunable. */
  lemma LiveLegacyExactly(s: seq<LegacyArea>, a: LegacyArea)
    ensures a in LiveLegacy(s) <==> a in s && !a.state.prunable
  {
    KeepMember(s, LegacyPrunableFlags(s), a);
    if a in s && !a.state.prunable {
      var i :| 0 <= i < |s| && s[i] == a;
    }
  }

  class LegacySpace {
    var areas: seq<LegacyArea>
    var totalAreaCreatedInSpace: nat

    constructor ()
      ensures areas == [] && totalAreaCreatedInSpace == 0
    {
      areas := [];
      totalAreaCreatedInSpace := 0;
    }

    /** `prune`: drop the prunable areas, keeping the others in order. */
    method Prune()
      modifies this`areas
      ensures areas == LiveLegacy(old(areas))
    {
      areas := LiveLegacy(areas);
    }

    /** Count a new area owned by this space and append it at the end. */
    method CreateArea() returns (a: LegacyArea)
      modifies this
      ensures fresh(a) && a.space == this
      ensures a.state == InitialRecord && a.style == InitialStyle && a.inDom
      ensures areas == old(areas) + [a]
      ensures totalAreaCreatedInSpace == old(totalAreaCreatedInSpace) + 1
    {
      totalAreaCreatedInSpace := totalAreaCreatedInSpace + 1;
      a := new LegacyArea(this);
      areas := areas + [a];
    }

    function GetTotalAreas(): nat
      reads this
    {
      totalAreaCreatedInSpace
    }
  }

  /** A deleted area ignores every pointer handler: nothing changes. */
  method DeletedAreaIsInert(a: LegacyArea, p: Pointer, l: Layout)
    modifies a, a.space
    ensures a.state == old(a.state).(prunable := true)
    ensures a.style == old(a.style)
  {
    var ok := a.Delete();
    a.MouseDown(p, l);
    a.MouseMove(p, l);
    a.MouseUp();
  }
}
