/**
 * `src/models/space.ts`: the container that owns the areas, counts how many
 * were created and drives the selected area's geometry from container-level
 * pointer events.
 */
module Spaces {
  import opened Options
  import opened Edges
  import opened Geometry
  import opened AreaRecords
  import opened Areas
  import opened Pruning
  import opened Registry
  import Commons

  function PrunableFlags(s: seq<Area>): (d: seq<bool>)
    reads s
    ensures |d| == |s|
    ensures forall i :: 0 <= i < |s| ==> d[i] == s[i].state.prunable
  {
    seq(|s|, i requires 0 <= i < |s| reads s => s[i].state.prunable)
  }

  /** `areas.filter(a => !a.getState().prunable)`. */
  function LiveAreas(s: seq<Area>): (r: seq<Area>)
    reads s
    ensures |r| <= |s|
    ensures forall k :: 0 <= k < |r| ==> r[k] in s && !r[k].state.prunable
  {
    KeepSound(s, PrunableFlags(s));
    KeepUnmarked(s, PrunableFlags(s))
  }

  /** Pruning keeps exactly the areas that are not prunable. */
  lemma LiveAreasExactly(s: seq<Area>, a: Area)
    ensures a in LiveAreas(s) <==> a in s && !a.state.prunable
  {
    KeepMember(s, PrunableFlags(s), a);
    if a in s && !a.state.prunable {
      var i :| 0 <= i < |s| && s[i] == a;
    }
  }

  /** Pruning keeps the relative order: it filters each part of a list separately. */
  lemma LiveAreasKeepsOrder(s: seq<Area>, t: seq<Area>)
    ensures LiveAreas(s + t) == LiveAreas(s) + LiveAreas(t)
  {
    assert PrunableFlags(s + t) == PrunableFlags(s) + PrunableFlags(t);
    KeepAppend(s, t, PrunableFlags(s), PrunableFlags(t));
  }

  /** Pruning a list without prunable areas changes nothing. */
  lemma LiveAreasWithoutPrunable(s: seq<Area>)
    requires forall i :: 0 <= i < |s| ==> !s[i].state.prunable
    ensures LiveAreas(s) == s
  {
    KeepNoneDead(s, PrunableFlags(s));
  }

  /** `areas.find(a => a.getState().isThisAreaSelected)`: the first selected area, or none. */
  function FirstSelected(s: seq<Area>): (a: Area?)
    reads s
    ensures a == null <==> forall i :: 0 <= i < |s| ==> !s[i].state.isThisAreaSelected
    ensures a != null ==> exists i :: 0 <= i < |s| && s[i] == a && a.state.isThisAreaSelected
                                     && forall j :: 0 <= j < i ==> !s[j].state.isThisAreaSelected
  {
    if s == [] then null
    else if s[0].state.isThisAreaSelected then s[0]
    else
      var a := FirstSelected(s[1..]);
      assert forall i :: 1 <= i < |s| ==> s[i] == s[1..][i - 1];
      a
  }

  /** The selected area's box after one container mouse-move; resizing wins over moving. */
  function DragStyle(style: ElementStyle, r: AreaRecord, p: Pointer): (d: ElementStyle)
    ensures d.cursor == style.cursor
    ensures r.isResizing ==> d == ResizeStyle(style, r.snap, r.position, p)
    ensures r.isResizing && !r.position.Any() ==> d == style
    ensures !r.isResizing && r.enableMovement ==>
              d.left == Some(r.snap.startLeft + (p.clientX - r.snap.startClientX))
              && d.top == Some(r.snap.startTop + (p.clientY - r.snap.startClientY))
              && d.width == style.width && d.height == style.height
    ensures !r.isResizing && !r.enableMovement ==> d == style
  {
    if r.isResizing then ResizeStyle(style, r.snap, r.position, p)
    else if r.enableMovement then MoveStyle(style, r.snap, p)
    else style
  }

  class Space {
    var areas: seq<Area>
    var totalAreaCreatedInSpace: nat

    constructor ()
      ensures areas == [] && totalAreaCreatedInSpace == 0
    {
      areas := [];
      totalAreaCreatedInSpace := 0;
    }

    /** `prune`: drop the prunable areas, keeping the others in order. */
    method Prune()
      modifies this`areas
      ensures areas == LiveAreas(old(areas))
    {
      areas := LiveAreas(areas);
    }

    /** `createArea`: count it and append a new area at the end. */
    method CreateArea() returns (a: Area)
      modifies this
      ensures fresh(a) && a.Valid()
      ensures a.state == InitialRecord && a.style == InitialStyle && a.inDom
      ensures a.listeners == map[] && a.calls == []
      ensures areas == old(areas) + [a]
      ensures totalAreaCreatedInSpace == old(totalAreaCreatedInSpace) + 1
    {
      totalAreaCreatedInSpace := totalAreaCreatedInSpace + 1;
      a := new Area();
      areas := areas + [a];
    }

    function GetTotalAreas(): nat
      reads this
    {
      totalAreaCreatedInSpace
    }

    /** `_findSelectedArea`: scan the list for the first selected area. */
    method FindSelectedArea() returns (a: Area?)
      ensures a == FirstSelected(areas)
    {
      var i := 0;
      while i < |areas|
        invariant 0 <= i <= |areas|
        invariant FirstSelected(areas[i..]) == FirstSelected(areas)
      {
        if areas[i].state.isThisAreaSelected {
          return areas[i];
        }
        assert areas[i..][1..] == areas[i + 1..];
        i := i + 1;
      }
      return null;
    }

    /**
     * `_mouseMove`: with no selected area nothing happens; otherwise the
     * selected area's box follows the pointer (resize, else move), nothing
     * else changes.
     */
    method MouseMove(p: Pointer)
      modifies areas
      ensures var sel := old(FirstSelected(areas));
              forall a | a in areas && a != sel :: unchanged(a)
      ensures var sel := old(FirstSelected(areas));
              sel != null ==> sel.state == old(sel.state) && sel.calls == old(sel.calls)
                              && sel.listeners == old(sel.listeners) && sel.inDom == old(sel.inDom)
                              && sel.style == DragStyle(old(sel.style), old(sel.state), p)
    {
      var area := FindSelectedArea();
      if area == null {
        return;
      }
      var st := area.state;
      if st.isResizing {
        area.style := ResizeStyle(area.style, st.snap, st.position, p);
      } else if st.enableMovement {
        area.style := MoveStyle(area.style, st.snap, p);
      }
    }

    /** `_mouseDown`: set the selected area's mode from its flags; without a selected area nothing happens. */
    method MouseDown()
      modifies areas
      ensures var sel := old(FirstSelected(areas));
              forall a | a in areas && a != sel :: unchanged(a)
      ensures var sel := old(FirstSelected(areas));
              sel != null ==> sel.state == SpaceMouseDownRecord(old(sel.state)) && sel.style == old(sel.style)
                              && sel.calls == old(sel.calls) && sel.listeners == old(sel.listeners)
                              && sel.inDom == old(sel.inDom)
    {
      var area := FindSelectedArea();
      if area == null {
        return;
      }
      var st := area.state;
      if st.position.left || st.position.right || st.position.top || st.position.bottom {
        area.state := st.(isResizing := true);
      } else {
        area.state := st.(enableMovement := true);
      }
    }

    /** `_mouseUp`: deselect the selected area; without one nothing happens. */
    method MouseUp()
      modifies areas
      ensures var sel := old(FirstSelected(areas));
              forall a | a in areas && a != sel :: unchanged(a)
      ensures var sel := old(FirstSelected(areas));
              sel != null ==> sel.state == MouseUpRecord(old(sel.state))
                              && sel.listeners == old(sel.listeners) && sel.inDom == old(sel.inDom)
    ensures var sel := old(FirstSelected(areas));
              sel != null && old(sel.state).prunable ==> sel.style == old(sel.style) && sel.calls == old(sel.calls)
    ensures var sel := old(FirstSelected(areas));
              sel != null && !old(sel.state).prunable ==>
                sel.style == old(sel.style).(cursor := Commons.DEFAULT)
                && sel.calls == old(sel.calls) + Deliver(Lookup(sel.listeners, DESELECT), EventFor(DESELECT, sel.state))
    {
      var area := FindSelectedArea();
      if area == null {
        return;
      }
      area.Deselect();
    }
  }
}
