/**
 * The listeners `useEvents` installs, driving the editor.  The three pointer
 * samples shared by the listeners and the hover target kept in React state
 * are the fields of one `PointerSamples` object.  Each handler is given the
 * canvas rectangle, the client point and, where it casts a ray, every hit
 * of that ray, nearest first.
 */
module Events {
  import opened Wrappers
  import opened Vectors
  import opened Scene
  import opened Pointer
  import opened EventConfig
  import opened EditorModel
  import opened Selection
  import Keyboard
  import ThrottleGate
  import ContextMenu

  /** The callback identity and delay with which the mouse-move handler is throttled. */
  const MouseMoveCallback: nat := 0
  const HoverThrottleMs: int := 200

  /**
   * `getIntersects(point, objects)`: stores `point` in normalised device
   * coordinates as the editor's mouse, and returns the hits on `objects`.
   */
  method GetIntersects(e: Editor, point: Vec2, ray: seq<Intersection>, objects: seq<NodeId>)
    returns (hits: seq<Intersection>)
    modifies e
    ensures hits == IntersectObjects(ray, objects)
    ensures e.State() == old(e.State()).(mouse := ToNdc(point))
  {
    e.mouse := ToNdc(point);
    hits := IntersectObjects(ray, objects);
  }

  class PointerSamples {
    var onDownPosition: Vec2
    var onUpPosition: Vec2
    /** Written by double-click and by mouse-move alike. */
    var onDoubleClickPosition: Vec2
    /** The `intersectObject` state of the mouse-move hook. */
    var intersectObject: Option<NodeId>

    constructor ()
      ensures onDownPosition == onUpPosition == onDoubleClickPosition == Vec2(0.0, 0.0)
      ensures intersectObject.None?
    {
      onDownPosition, onUpPosition, onDoubleClickPosition := Vec2(0.0, 0.0), Vec2(0.0, 0.0), Vec2(0.0, 0.0);
      intersectObject := None;
    }

    /** `onMouseDown` and `onTouchStart` on the canvas: record the press. */
    method OnPointerDown(rect: Rect, x: real, y: real)
      requires rect.width > 0.0 && rect.height > 0.0
      modifies this
      ensures onDownPosition == MousePosition(rect, x, y)
      ensures onUpPosition == old(onUpPosition) && onDoubleClickPosition == old(onDoubleClickPosition)
      ensures intersectObject == old(intersectObject)
    {
      onDownPosition := MousePosition(rect, x, y);
    }

    /**
     * `click()`: on a click, casts against the visible meshes and selects as
     * `ClickSelection` says, with exactly one `select`; on a drag, nothing
     * at all happens.
     */
    method Click(e: Editor, ray: seq<Intersection>)
      requires e.Valid()
      modifies e
      ensures e.Valid()
      ensures var r := ClickSelection(old(e.scene), ray, onDownPosition, onUpPosition);
        && (r.None? ==> e.State() == old(e.State()))
        && (r.Some? ==> e.State() == old(e.State()).(selected := r.value, mouse := ToNdc(onUpPosition),
                                                     notifications := old(e.notifications) + 1))
    {
      if IsClick(onDownPosition, onUpPosition) {
        var objects := CollectCandidates(e.scene);
        var intersects := GetIntersects(e, onUpPosition, ray, objects);
        if |intersects| > 0 {
          var first := FirstObject(intersects);
          assert intersects[0] in intersects;
          e.Select(Owner(e.scene, first.value));
        } else {
          e.Select(None);
        }
      }
    }

    /** `onMouseUp` and `onTouchEnd` on the canvas: record the release, then `click()`. */
    method OnPointerUp(rect: Rect, x: real, y: real, e: Editor, ray: seq<Intersection>)
      requires rect.width > 0.0 && rect.height > 0.0
      requires e.Valid()
      modifies this, e
      ensures e.Valid()
      ensures onUpPosition == MousePosition(rect, x, y)
      ensures onDownPosition == old(onDownPosition) && onDoubleClickPosition == old(onDoubleClickPosition)
      ensures intersectObject == old(intersectObject)
      ensures var r := ClickSelection(old(e.scene), ray, onDownPosition, onUpPosition);
        && (r.None? ==> e.State() == old(e.State()))
        && (r.Some? ==> e.State() == old(e.State()).(selected := r.value, mouse := ToNdc(onUpPosition),
                                                     notifications := old(e.notifications) + 1))
    {
      onUpPosition := MousePosition(rect, x, y);
      Click(e, ray);
    }

    /**
     * `onDoubleClick`: casts against `editor.objects`, hidden ones included,
     * and focuses the nearest hit when there is one; nothing is notified.
     */
    method OnDoubleClick(rect: Rect, x: real, y: real, e: Editor, ray: seq<Intersection>)
      requires rect.width > 0.0 && rect.height > 0.0
      modifies this, e
      ensures onDoubleClickPosition == MousePosition(rect, x, y)
      ensures onDownPosition == old(onDownPosition) && onUpPosition == old(onUpPosition)
      ensures intersectObject == old(intersectObject)
      ensures var hit := FirstHit(IntersectObjects(ray, old(e.objects)));
        e.State() == old(e.State()).(mouse := ToNdc(onDoubleClickPosition),
                                     log := old(e.log) + if hit.Some? then [Focused(hit.value)] else [])
    {
      onDoubleClickPosition := MousePosition(rect, x, y);
      var intersects := GetIntersects(e, onDoubleClickPosition, ray, e.objects);
      if |intersects| > 0 {
        var intersect := intersects[0];
        e.Focus(intersect.node);
      }
    }

    /**
     * `onMouseMove` itself, with the effect on `intersectObject`: the nearest
     * hit on `editor.objects`, or null, becomes the hover target, and
     * `setHovered` runs only when that target differs from the previous one.
     */
    method OnMouseMove(rect: Rect, x: real, y: real, e: Editor, ray: seq<Intersection>)
      requires rect.width > 0.0 && rect.height > 0.0
      requires e.Valid()
      modifies this, e
      ensures e.Valid()
      ensures onDoubleClickPosition == MousePosition(rect, x, y)
      ensures onDownPosition == old(onDownPosition) && onUpPosition == old(onUpPosition)
      ensures intersectObject == FirstHit(IntersectObjects(ray, old(e.objects)))
      ensures intersectObject == old(intersectObject) ==>
        e.State() == old(e.State()).(mouse := ToNdc(onDoubleClickPosition))
      ensures intersectObject != old(intersectObject) ==>
        e.State() == old(e.State()).(mouse := ToNdc(onDoubleClickPosition), hovered := intersectObject,
                                     notifications := old(e.notifications) + 1)
    {
      onDoubleClickPosition := MousePosition(rect, x, y);
      var intersects := GetIntersects(e, onDoubleClickPosition, ray, e.objects);
      var target := FirstHit(intersects);
      if target.Some? {
        assert intersects[0] in intersects;
      }
      if target != intersectObject {
        intersectObject := target;
        e.SetHovered(target);
      }
    }

    /**
     * The `mousemove` listener, `throttle(onMouseMove, 200, e)`: the handler
     * runs only when the shared gate is open, and then changes the editor as
     * `OnMouseMove` does; otherwise nothing changes.
     */
    method OnMouseMoveThrottled(rect: Rect, x: real, y: real, e: Editor, ray: seq<Intersection>, gate: ThrottleGate.Gate<real>)
      requires rect.width > 0.0 && rect.height > 0.0
      requires e.Valid() && gate.Valid()
      modifies this, e, gate
      ensures e.Valid() && gate.Valid()
      ensures gate.State() == ThrottleGate.Step(old(gate.State()), ThrottleGate.ThrottleCall(MouseMoveCallback, HoverThrottleMs, [x, y]))
      ensures !old(gate.enableCall) ==>
        && e.State() == old(e.State())
        && onDoubleClickPosition == old(onDoubleClickPosition)
        && intersectObject == old(intersectObject)
      ensures old(gate.enableCall) ==>
        && onDoubleClickPosition == MousePosition(rect, x, y)
        && intersectObject == FirstHit(IntersectObjects(ray, old(e.objects)))
      ensures old(gate.enableCall) && intersectObject == old(intersectObject) ==>
        e.State() == old(e.State()).(mouse := ToNdc(onDoubleClickPosition))
      ensures old(gate.enableCall) && intersectObject != old(intersectObject) ==>
        e.State() == old(e.State()).(mouse := ToNdc(onDoubleClickPosition), hovered := intersectObject,
                                     notifications := old(e.notifications) + 1)
      ensures onDownPosition == old(onDownPosition) && onUpPosition == old(onUpPosition)
    {
      var ran := gate.Throttle(MouseMoveCallback, HoverThrottleMs, [x, y]);
      if ran {
        OnMouseMove(rect, x, y, e, ray);
      }
    }
  }

  /**
   * `onKeyDown(event)`: carries out what `Keyboard.OnKeyDown` decides and
   * reports whether the default was prevented.
   */
  method OnKeyDown(config: Config, event: Keyboard.KeyEvent, isMac: bool, e: Editor) returns (preventDefault: bool)
    requires e.Valid()
    modifies e
    ensures e.Valid()
    ensures var o := Keyboard.OnKeyDown(config, event, isMac, old(e.selected));
      && preventDefault == o.preventDefault
      && (o.action.NoAction? ==> e.State() == old(e.State()))
      && (o.action.SetMode? ==> e.State() == old(e.State()).(log := old(e.log) + [ModeChanged(o.action.mode)]))
      && (o.action.UndoStep? ==> e.State() == old(e.State()).(log := old(e.log) + [Undid]))
      && (o.action.RedoStep? ==> e.State() == old(e.State()).(log := old(e.log) + [Redid]))
      && (o.action.FocusNode? ==> e.State() == old(e.State()).(log := old(e.log) + [Focused(o.action.node)]))
      && (o.action.RemoveNode? && old(e.scene).nodes[o.action.node].parent.None? ==>
            e.State() == old(e.State()).(notifications := old(e.notifications) + 1))
      && (o.action.RemoveNode? && old(e.scene).nodes[o.action.node].parent.Some? ==>
            e.State() == old(e.State()).(log := old(e.log) + [Executed(RemoveObjectCommand(o.action.node))],
                                         notifications := old(e.notifications) + 1))
  {
    var o := Keyboard.OnKeyDown(config, event, isMac, e.selected);
    preventDefault := o.preventDefault;
    match o.action
    case NoAction =>
    case RemoveNode(node) => e.RemoveObject(Some(node));
    case SetMode(mode) => e.ChangeMode(mode);
    case UndoStep => e.Undo();
    case RedoStep => e.Redo();
    case FocusNode(node) => e.Focus(node);
  }

  /**
   * `onContextMenu(event)`: when enabled, prevents the browser's menu, opens
   * the editor's at the client point and notifies once; otherwise returns
   * `true` and changes nothing.  `returned` is `None` for no return value.
   */
  method OnContextMenu(config: Config, x: real, y: real, e: Editor) returns (returned: Option<bool>, preventDefault: bool)
    modifies e
    ensures !Enabled(config.contextMenuEnabled) ==>
      returned == Some(true) && !preventDefault && e.State() == old(e.State())
    ensures Enabled(config.contextMenuEnabled) ==>
      && returned.None? && preventDefault
      && e.State() == old(e.State()).(contextMenu := ContextMenuState(true, Some(x), Some(y)),
                                      notifications := old(e.notifications) + 1)
  {
    if Enabled(config.contextMenuEnabled) {
      preventDefault := true;
      e.contextMenu := e.contextMenu.(open := true);
      e.contextMenu := e.contextMenu.(x := Some(x));
      e.contextMenu := e.contextMenu.(y := Some(y));
      e.Notify();
      returned := None;
    } else {
      returned, preventDefault := Some(true), false;
    }
  }

  /**
   * A menu opened by a right click is open, and closing it clears it; with
   * the default configuration a right click always opens it.
   */
  lemma ContextMenuOpensAndCloses(x: real, y: real)
    ensures Enabled(Merge(None).contextMenuEnabled)
    ensures ContextMenu.IsOpen(ContextMenuState(true, Some(x), Some(y)))
    ensures ContextMenu.Closed(ContextMenuState(true, Some(x), Some(y))) == ClosedMenu
  {
  }

}
