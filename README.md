# elastic-box pointer-interaction core, in Dafny

elastic-box lets a web page place rectangular areas in a container. The user
resizes an area by dragging one of its edges or corners, and moves it by dragging
its inside. This project models the engine behind that, and proves properties of
the model:

- **Edge classification.** A point is tested against a 10-pixel margin with
  `if`/`else if` chains (`Edges.Classify`). The chains give at most one flag per
  axis, and left is tested before right, top before bottom.
- **Per-area mode machine.** A press takes a snapshot and enters resizing or
  moving. A release returns to idle. A `prunable` flag makes a deleted area inert.
  - The `_state` record is shared by both Area classes (`AreaRecords`). The pure
    transitions are functions, and each class's handlers are methods proved
    against them.
  - `src/models/area.ts` is modelled as `Areas.Area`, and its listener calls are
    recorded in a `calls` log.
  - The older `src/area.ts` is modelled as `LegacyAreas.LegacyArea`. Its `_delete`
    prunes its owner.
  - `main.js` keeps the same state in a closure (`MainListeners`).
- **Frame-by-frame geometry** (`Geometry`). Every frame is computed from the
  snapshot:
  - a resize clamps width and height at `2 * RESIZE_OFFSET`;
  - a left-edge or top-edge resize keeps the opposite edge fixed;
  - a move translates the box by the pointer's displacement.
- **Priority tables.**
  - `updateCursor` maps flags to a cursor (`Commons.CursorFor`).
  - `_getPositionString` maps flags to a side label (`Areas.PositionString`).
  - Each chain is also proved equal to a first-match lookup in a table
    (`Edges.FirstMatch`), which serves as an independent reference.
- **Containers.**
  - The area list of `Space`: `createArea`, `prune` and the first-selected lookup.
  - The per-event-name callback registry (`Registry`, `EventsHandlers`).
  - The validated `changeCursor` setter of `cursors.js` (`CursorSwitch`).
  - `AreaStates.AreaState` is the getter/setter class of `src/models/area-state.ts`.

Inputs and representations:

- Browser reads are parameters: the pointer (`Geometry.Pointer`), the bounding
  box and the offset size (`Geometry.Layout`).
- A style property is a field (`Geometry.ElementStyle`). `left` and `top` are
  `Option<int>`, so that `parseInt(style.left, 10) || 0` is explicit: `None` is
  a value that does not parse.
- A JavaScript `Set` of callbacks is a sequence without duplicates, in insertion
  order. A callback is identified by a number.
- Pixel values are unbounded integers.

Points where the code does something a reader might not expect, each modelled as
the code does it:

- Neither Area class clears the flags on mouse-down. Both have the comment
  "Reset delle posizioni" above the press code (src/area.ts:176,
  src/models/area.ts:259), but no reset follows it: the edge tests at
  src/area.ts:192-196 only ever set flags to true. The new flags are therefore
  set on top of the old ones (`Edges.MarkEdges`), and a press that no hover
  preceded can leave two flags on one axis.
  `AreaRecords.StaleFlagsSurviveMouseDown` shows such a case.
- In `main.js`, mouse-down sets `enableResize` and `isResizing`, or else
  `enableMovement`, and never clears the other one (main.js:132-138). A press near
  an edge while movement is still enabled therefore leaves both on
  (`MainListeners.PressDuringMoveKeepsBothModes`).
- In `src/area.ts`, `_delete` calls the owner's `prune` directly
  (src/area.ts:165). In `src/models/area.ts` that call is commented out
  (src/models/area.ts:246): the area fires its events and does not prune.
- The after-delete event is named `" after-delete"`, with a leading space, as the
  enum spells it (src/types/area-events.ts:13).

## Model

| member | source | states |
|---|---|---|
| Edges.Classify | src/models/area-state.ts:214-222 | At most one flag per axis. Left holds iff x < offset. Right holds iff x is not left and x > width - offset. Top and bottom follow the same rules. |
| Edges.ClassifyInteriorIsMoveZone | src/models/area-state.ts:217-221 | No flag is set iff offset <= x <= width - offset and offset <= y <= height - offset (the move zone). |
| Edges.ClassifyLeftWins | src/models/area-state.ts:217-218 | With x < offset, left is set and right is not, whatever the width. |
| Edges.ClassifyNarrowBoxExample | src/models/area-state.ts:217-218 | x = 7 on a box 15 wide with offset 10 gives the left flag only. |
| Edges.MarkEdges | src/models/area.ts:274-278 | The Area chains only set flags. The result keeps every old flag, gains every classified flag, and has nothing else. |
| Edges.MarkEdgesOnClearedFlags | src/models/area.ts:309-318 | Marking on cleared flags is exactly the classification. |
| Edges.MarkEdgesAfterSamePoint | src/models/area.ts:274-278 | Marking again at the point of the last classification changes nothing and stays exclusive per axis. |
| Edges.MarkEdgesCanBreakExclusivity | src/area.ts:192-196 | A stale left flag plus a press near the right edge leaves both horizontal flags set. |
| Edges.ClearFlags | src/area.ts:247-252 | The loop over the flag keys leaves every flag false. |
| Edges.FirstMatch | src/commons.ts:144-162 | The reference semantics of an `if`/`else if` chain. It returns the first rule whose flags are all set, or nothing if no rule applies. |
| Commons.CursorFor | src/commons.ts:140-163 | The cursor is one of the `cursors` values. It is `move` iff no flag is set, and a resize cursor otherwise. |
| Commons.CursorForFollowsTable | src/commons.ts:144-162 | The cursor is the first match in the order ne, nw, se, sw, s, e, w, n, else `move`. |
| Commons.CursorTableEdges | src/commons.ts:152-159 | After the corners, the order is s, e, w, n, and nothing matches when no flag is set. |
| Commons.CursorTableBottomCorners | src/commons.ts:148-151 | Of the bottom corners, se comes before sw, and both come before the single edges. |
| Commons.CursorForInjective | src/commons.ts:144-162 | Over the nine flag sets with at most one flag per axis, different flags give different cursors. |
| Commons.MinimumSizeIsTwenty | src/commons.ts:57 | The margin is 10, so the resize floor is 20. |
| Geometry.ParseIntOrZero | src/models/area.ts:268-269 | A conversion, whose contract is its definition: a position that parses gives its value, and one that does not parse gives 0. |
| Geometry.Clamp | src/models/space.ts:97 | `Math.max(2 * RESIZE_OFFSET, size)`: at least 20 and at least the size, and equal to one of them. |
| Geometry.TakeSnapshot | src/models/area.ts:264-269 | A conversion, whose contract is its definition, field by field: the start pointer is the client coordinates, the start size is the offset size, and the start position is the parsed style, or 0. |
| Geometry.ResizeAxis | src/models/space.ts:96-115 | The high edge wins over the low one. The size is max(20, start ± delta). On a low-edge resize, position + size stays start position + start size. |
| Geometry.ResizeStyle | src/models/space.ts:90-115 | On a right-edge resize, width = max(20, startWidth + dx). On a left-edge resize without a right flag, width = max(20, startWidth - dx), and left is re-anchored so that the right edge stays put. Bottom and top follow the same rules for the height. An axis with no flag is untouched, right and bottom keep left and top, and the cursor is kept. |
| Geometry.MoveStyle | src/models/space.ts:116-123 | The new left/top minus the start left/top equals the pointer's displacement. Width, height and cursor are kept. |
| Geometry.RightResizeWidth | src/models/space.ts:96-98 | On a right-edge resize, width = max(20, startWidth + deltaX) and left is not written. |
| Geometry.LeftResizeAnchorsRightEdge | src/models/space.ts:99-104 | On a left-edge resize, width = max(20, startWidth - deltaX) and left + width = startLeft + startWidth, even when clamped. |
| Geometry.TopResizeAnchorsBottomEdge | src/models/space.ts:110-115 | On a top-edge resize, height = max(20, startHeight - deltaY) and top + height = startTop + startHeight. |
| Geometry.BottomResizeHeight | src/models/space.ts:107-109 | On a bottom-edge resize, height = max(20, startHeight + deltaY) and top is not written. |
| Geometry.ResizeFramesDoNotAccumulate | src/models/space.ts:92-93 | A frame depends only on the snapshot and the latest pointer, not on earlier frames. |
| Geometry.MoveIsTranslation | src/models/space.ts:118-119 | Two move frames are apart by exactly the pointer's displacement between them. |
| Geometry.MoveAtStartPointIsIdentity | src/models/space.ts:118-122 | A move frame at the start pointer puts the box back at its start position. |
| Geometry.ResizeExamples | src/models/space.ts:96-104 | 400 wide with +50 to the right gives 450. The same from the left gives 350 at left 50. -10000 gives 20. |
| Geometry.MoveExample | src/models/space.ts:118-121 | Start left 10, pointer from 100 to 130 gives left 40. |
| Registry.On | src/models/events-handler.ts:16-20 | Adds the name if it is missing. Afterwards `cb` is in the set, the old set is a prefix of the new one, every other name is unchanged, and there are still no duplicates. |
| Registry.OnIdempotent | src/models/events-handler.ts:19 | Registering the same callback twice is the same as registering it once. |
| Registry.Deliver | src/models/area.ts:118-121 | One invocation per registered callback, in the set's order, each with the same event. |
| Registry.DeliverAppend | src/models/area.ts:120 | Delivering to two consecutive parts of a set is delivering to the whole set. |
| Registry.DeliverPrefixStep | src/models/area.ts:120 | Delivering to one more callback of the set appends exactly that one call. |
| EventsHandlers.EventsHandler.constructor | src/models/events-handler.ts:9-11 | A new handler has an empty registry. |
| EventsHandlers.EventsHandler.On | src/models/events-handler.ts:16-20 | The registry becomes `Registry.On` of the old one, so `cb` is registered under `name`. |
| EventsHandlers.EventsHandler.Off | src/models/events-handler.ts:25-27 | As written, the registry is unchanged. |
| EventsHandlers.EventsHandler.GetListeners | src/models/events-handler.ts:29-31 | A getter, whose contract is its definition: it returns the registry, with the same names and the same sets. |
| EventsHandlers.CreateEventHandler | src/models/events-handler.ts:36-38 | A fresh handler with an empty registry. |
| AreaRecords.MouseDownRecord | src/models/area.ts:253-289 | A prunable area is left unchanged. Otherwise the area is selected, the snapshot and offsets are taken, the edges are marked, resizing holds iff some flag is set, and moving holds iff not resizing. |
| AreaRecords.HoverRecord | src/models/area.ts:305-322 | Only an idle live area re-classifies its flags at the pointer; otherwise nothing changes. |
| AreaRecords.MouseUpRecord | src/models/area.ts:328-339 | A live area is deselected and returns to idle. Flags, snapshot and offsets stay. A prunable area is unchanged. |
| AreaRecords.SpaceMouseDownRecord | src/models/space.ts:134-140 | Sets resizing if some flag is set, and moving otherwise. The other flag is not touched. |
| AreaRecords.MouseDownPicksOneMode | src/models/area.ts:280-288 | After mouse-down exactly one of resizing and moving holds, and resizing holds iff some flag is set. |
| AreaRecords.HoverThenMouseDownIsExclusive | src/models/area.ts:274-278 | A press preceded by a hover at the same point gives the plain classification, one flag per axis. |
| AreaRecords.StaleFlagsSurviveMouseDown | src/models/area.ts:274-278 | Without that hover, an old left flag and a press near the right edge leave left and right both set. |
| AreaRecords.SpaceMouseDownAfterAreaMouseDown | src/models/space.ts:130-140 | The container's mouse-down, run after the element's, changes nothing more. |
| AreaRecords.GestureEndsIdle | src/models/area.ts:328-339 | A press and a release leave the area idle and deselected, with the press's snapshot. |
| AreaRecords.PrunableIgnoresPointer | src/models/area.ts:253-339 | On a prunable area, mouse-down, hover and mouse-up change nothing. |
| Areas.PositionString | src/models/area.ts:125-161 | `null` iff the input is null or has no flag. Otherwise a corner label iff one horizontal and one vertical flag are set. |
| Areas.PositionStringFollowsTable | src/models/area.ts:132-157 | The label is the first match in the order top-left, top-right, bottom-left, bottom-right, left, right, top, bottom. |
| Areas.SideTableEdges | src/models/area.ts:146-157 | After the corners, the order is left, right, top, bottom, and nothing matches when no flag is set. |
| Areas.SideTableBottomCorners | src/models/area.ts:138-143 | Of the bottom corners, bottom-left comes before bottom-right, and both come before the single edges. |
| Areas.SideAgreesWithCursor | src/models/area.ts:125-161 | With one flag per axis, the side label and the hover cursor name the same place. |
| Areas.SideAndCursorDifferOnAllFlags | src/models/area.ts:132-134 | With every flag set, the label says top-left and the cursor says ne-resize. |
| Areas.OrNumber | src/models/area.ts:167-170 | The falsy fallback on numbers: the first non-zero value, else null. |
| Areas.OrString | src/models/area.ts:171 | The falsy fallback on strings: `a` unless it is absent or empty. |
| Areas.CreateEvent | src/models/area.ts:163-174 | The event type is the name. A given non-zero `x`, `y`, `width` or `height` is kept. A missing or 0 one falls back to the offset or the start size, and a 0 there is reported as null. A given non-empty `side` is kept. A missing or empty one falls back to the position label. |
| Areas.ZeroOffsetIsReportedAsNull | src/models/area.ts:167 | A press exactly on the left border is reported with `x: null`. |
| Areas.AfterDeleteMissesPlainName | src/types/area-events.ts:13 | For any registry, registering a listener as `after-delete` adds it under that name and leaves unchanged the listeners the area's `" after-delete"` event reaches. |
| Areas.Area.constructor | src/models/area.ts:49-85 | The initial record and style, attached to the container, with no listeners and no calls. |
| Areas.Area.On | src/models/area.ts:109-114 | The registry becomes `Registry.On` of the old one. |
| Areas.Area.ExecuteListeners | src/models/area.ts:116-122 | Appends one invocation per callback registered for the name, in order, each with the event built from the state. |
| Areas.Area.ResetPosition | src/models/area.ts:341-346 | The flags are cleared and the rest of the record is kept. |
| Areas.Area.MouseDown | src/models/area.ts:253-299 | The state becomes `MouseDownRecord`. A live area fires `select` (after selecting) and then `resize-start` only when resizing. A prunable one fires nothing. |
| Areas.Area.MouseMove | src/models/area.ts:305-322 | The state becomes `HoverRecord`. The cursor becomes `CursorFor` of the new flags exactly when an idle live area is hovered. |
| Areas.Area.MouseUp | src/models/area.ts:328-339 | The state becomes `MouseUpRecord`. A live area gets the `default` cursor and fires `deselect`. A prunable one is untouched. |
| Areas.Area.Deselect | src/models/area.ts:105-107 | Has the same effect as `MouseUp`. |
| Areas.Area.Delete | src/models/area.ts:235-247 | Fires `before-delete`, sets `prunable` and detaches the element. Fires `" after-delete"` only if the element was attached; otherwise `ok` is false. |
| Areas.PrunableAreaIsInert | src/models/area.ts:253-339 | On a prunable area, the three handlers leave the area entirely unchanged. |
| Pruning.KeepUnmarked | src/models/space.ts:36 | The filter keeps a sub-list and invents nothing. |
| Pruning.KeepAppend | src/models/space.ts:36 | Filtering a concatenation filters each part, so the kept entries stay in order. |
| Pruning.KeepMember | src/models/space.ts:36 | An entry is kept iff it stands at some unmarked position. |
| Pruning.KeepNoneDead | src/models/space.ts:36 | With nothing marked, everything is kept. |
| Pruning.KeepSound | src/models/space.ts:36 | Every kept entry stands at some position that is not marked. |
| Spaces.LiveAreasExactly | src/models/space.ts:35-37 | After pruning, an area is in the list iff it was in it and is not prunable. |
| Spaces.LiveAreasKeepsOrder | src/models/space.ts:35-37 | Pruning keeps the relative order. It prunes each part of a list separately. |
| Spaces.LiveAreasWithoutPrunable | src/models/space.ts:35-37 | Pruning a list with no prunable area changes nothing. |
| Spaces.LiveAreas | src/models/space.ts:36 | The filter of `prune`: no longer than the list, and every area it keeps is in the list and not prunable. |
| Spaces.DragStyle | src/models/space.ts:90-123 | Resizing wins over moving: while resizing, the result is the resize frame, and with no flag set nothing changes. While only moving, left and top are the start position plus the pointer's displacement, with the size kept. When idle, nothing changes. The cursor is always kept. |
| Spaces.FirstSelected | src/models/space.ts:69-71 | Returns null iff no area is selected. Otherwise returns the first selected area. |
| Spaces.Space.constructor | src/models/space.ts:11-21 | No areas and a zero counter. |
| Spaces.Space.Prune | src/models/space.ts:35-38 | The list becomes the non-prunable areas, in order. |
| Spaces.Space.CreateArea | src/models/space.ts:44-49 | The counter goes up by one, and a fresh area in its initial state is appended at the end. |
| Spaces.Space.FindSelectedArea | src/models/space.ts:69-71 | The scan returns the first selected area, or null. |
| Spaces.Space.MouseMove | src/models/space.ts:86-124 | Without a selected area nothing changes. Otherwise only its box changes: a resize frame if resizing, else a move frame if moving. |
| Spaces.Space.MouseDown | src/models/space.ts:130-143 | Without a selected area nothing changes. Otherwise only its record changes, to `SpaceMouseDownRecord`. |
| Spaces.Space.MouseUp | src/models/space.ts:149-154 | Without a selected area nothing changes. Otherwise that area alone is deselected, as `Area.Deselect` states. |
| LegacyAreas.LegacyArea.constructor | src/area.ts:44-75 | The initial record and style, attached, owned by the given space. |
| LegacyAreas.LegacyArea.ResetPosition | src/area.ts:247-252 | The flags are cleared and the rest of the record is kept. |
| LegacyAreas.LegacyArea.MouseDown | src/area.ts:172-206 | The state becomes `MouseDownRecord`: a no-op when prunable, otherwise marked edges and one mode. |
| LegacyAreas.LegacyArea.MouseMove | src/area.ts:212-230 | The state becomes `HoverRecord`, and the cursor is updated exactly when an idle live area is hovered. |
| LegacyAreas.LegacyArea.MouseUp | src/area.ts:236-245 | The state becomes `MouseUpRecord`, and a live area gets the `default` cursor. |
| LegacyAreas.LegacyArea.Deselect | src/area.ts:95-97 | Has the same effect as `MouseUp`. |
| LegacyAreas.LegacyArea.Delete | src/area.ts:157-166 | Sets `prunable`. If the element was attached, detaches it and prunes the owner, which then no longer lists this area; otherwise the owner is untouched and `ok` is false. |
| LegacyAreas.LiveLegacyExactly | src/models/space.ts:35-37 | The owner's prune keeps an area iff it was listed and is not prunable. |
| LegacyAreas.LiveLegacy | src/models/space.ts:36 | The owner's prune filter: no longer than the list, and every area it keeps is in the list and not prunable. |
| LegacyAreas.LegacySpace.constructor | src/models/space.ts:11-21 | No areas and a zero counter. |
| LegacyAreas.LegacySpace.Prune | src/models/space.ts:35-38 | The list becomes the non-prunable areas, in order. |
| LegacyAreas.LegacySpace.CreateArea | src/models/space.ts:44-49 | The counter goes up by one, and a fresh area owned by this space is appended. |
| LegacyAreas.DeletedAreaIsInert | src/area.ts:157-237 | After `Delete`, the three handlers change neither the record (beyond `prunable`) nor the style. |
| MainListeners.MouseDownState | main.js:107-142 | The flags are the classification of the pointer, whatever they were before. The snapshot and offsets are taken. Some flag set enables resize and `isResizing`; otherwise movement is enabled. The other mode is left as it was. |
| MainListeners.MouseUpState | main.js:200-205 | All three mode flags are cleared. Flags, snapshot and offsets stay. |
| MainListeners.ClassifyAt | main.js:111-120 | The edge test of the press, relative to the bounding box: at most one flag per axis, and no flag iff the pointer is at least the margin inside every edge. |
| MainListeners.MouseDownFromIdlePicksOneMode | main.js:132-138 | From idle, exactly one mode is enabled, resizing iff some flag is set. |
| MainListeners.MouseDownIgnoresEarlierFlags | main.js:109 | The press result does not depend on the flags held before it. |
| MainListeners.PressDuringMoveKeepsBothModes | main.js:132-138 | For any closure state with movement enabled and any press that sets an edge flag, resize and isResizing are turned on and movement stays enabled. |
| MainListeners.GestureEndsIdle | main.js:200-203 | A press and a release leave every mode off. |
| MainListeners.UpdateCursorInCursors | main.js:6-17 | Every cursor `updateCursor` writes is one of the ten `Cursors` values, never `default`. |
| MainListeners.ElementController.constructor | main.js:86-104 | The initial closure state and the initial style. |
| MainListeners.ElementController.HandleMouseDown | main.js:107-142 | The state becomes `MouseDownState`. |
| MainListeners.ElementController.HandleMouseMove | main.js:144-198 | If resizing, a resize frame. Else, if moving, a move frame. Else the flags are re-classified and the cursor updated. Nothing else changes. |
| MainListeners.ElementController.HandleMouseUp | main.js:200-205 | The state becomes `MouseUpState` and the cursor `default`. |
| MainListeners.ElementController.UpdateCursor | main.js:207-230 | The cursor becomes `CursorFor` of the flags, a `Cursors` value. |
| AreaStates.AreaState.constructor | src/models/area-state.ts:6-36 | Every boolean is false, every start and offset field 0, and the geometry is unset. |
| AreaStates.AreaState.ResetPosition | src/models/area-state.ts:199-204 | The four edge flags are false, and no other field is written. |
| AreaStates.AreaState.UpdatePosition | src/models/area-state.ts:214-222 | The flags are the classification of the arguments, never two on one axis. Only the flags are written. |
| AreaStates.AreaState.Reset | src/models/area-state.ts:227-232 | Active, moving, resizing and the four flags are false. The start, offset and geometry fields are not written. |
| CursorSwitch.CursorAfterChange | cursors.js:46-52 | The body shows `c` iff it already did, or `c` is a `Cursors` value and the switch is not blocked. Any change is to such a `c`. |
| CursorSwitch.BlockedCursorNeverChanges | cursors.js:48 | While blocked, no sequence of changes moves the cursor. |
| CursorSwitch.UnblockedShowsLastValid | cursors.js:46-49 | Unblocked, the body shows the last valid value of a sequence. |
| CursorSwitch.InvalidTailKeepsCursor | cursors.js:47-51 | Invalid values change nothing. |
| CursorSwitch.CursorControl.constructor | cursors.js:44 | `blockCursor` starts false. |
| CursorSwitch.CursorControl.ChangeCursor | cursors.js:46-52 | `valid` says whether `c` is a `Cursors` value. The body cursor becomes `CursorAfterChange`, and `blockCursor` is never written. |

## Left out

- DOM construction and listener wiring are not modelled: `_createNewResizableDiv`, `createNewResizableDiv`, `addEventListener`/`removeEventListener`, `appendChild` and `preventDefault`.
  - The unbinding in both `_delete`s passes unbound, mismatched handlers and has no effect. The `prunable` guard is what makes a deleted area inert, and that guard is modelled.
  - `removeChild` is the `inDom` flag; its throw on a detached element is the `ok = false` path.
- The effects of callbacks are not modelled. Each call is recorded with its event, and a callback that re-enters the area is not modelled.
- The event's `target` field is not modelled; it is always the firing area.
- `_executeListeners` is modelled as it is called, with its optional arguments left out. `CreateEvent` covers the arguments in general.
- The `resize`, `resize-end`, `move-start`, `move` and `move-end` events are not fired anywhere in these sources.
- `Spaces.Space.MouseMove`: `_mouseMove` is `async` but awaits nothing, so it is modelled as synchronous.
- The layout (`getBoundingClientRect`, `offsetWidth`) is an input of each handler. It is not derived from the style the model writes.
- A style write `n + 'px'` is followed by `parseInt`, which reads `n` back. Pixel values are integers, and fractional layout values are not modelled.
- `GetState` and `GetTotalAreas` return fields and carry no contract of their own. `getResizable`, `getStyle` and `getContainer` hand out DOM objects and are not modelled.
- The getters and setters of `src/models/area-state.ts` are public fields of `AreaStates.AreaState`. `position` returns the live object, so flags written through it are writes to the fields.
- `EventsHandlers.EventsHandler.GetListeners` returns the map as a value; aliasing of the live `Map` is not modelled.
- `src/types/commons.ts`, which `src/models/area.ts` and `src/models/space.ts` import, is not part of this model. It is taken to be `src/commons.ts` (the same margin, cursors and `updateCursor`).
- The owner of `src/area.ts` (its `Space` interface) is modelled by `LegacyAreas.LegacySpace` with the list semantics of `src/models/space.ts`. `getContainer` is not modelled.
- `main.js` declares its own `RESIZE_OFFSET = 10` and `Cursors` table. The model uses the equal constants of `Commons`.
- `main.js`'s `cleanup` and the delete button's commented-out handler are not modelled.
- Not modelled: `console.log` and `console.warn` (the warning branch of `changeCursor` is reported as `valid = false`), and the `_id` strings.
- `waitUntilCondition` is not modelled; it is timer and Promise plumbing.
- The styling modules, the drawable area and its state, and the demo and build scripts are not modelled.
