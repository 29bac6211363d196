/**
 * The context menu component: whether the menu shows, where it is placed
 * relative to the click that opened it, when a click elsewhere closes it,
 * and the close transition itself.
 */
module ContextMenu {
  import opened Wrappers
  import opened EditorModel

  /** `open`: the menu flag is set and neither coordinate is null. */
  function IsOpen(m: ContextMenuState): (b: bool)
    ensures !m.open ==> !b
    ensures m.x.None? || m.y.None? ==> !b
    ensures m.open && m.x.Some? && m.y.Some? ==> b
  {
    m.open && m.y.Some? && m.x.Some?
  }

  /** The menu state `closeContextMenu` leaves: closed, with both coordinates cleared. */
  function Closed(m: ContextMenuState): (r: ContextMenuState)
    ensures !IsOpen(r)
    ensures !IsOpen(m) ==> r == m
    ensures IsOpen(m) ==> r == ClosedMenu
  {
    if IsOpen(m) then ClosedMenu else m
  }

  lemma {:induction false} CloseIsIdempotent(m: ContextMenuState)
    ensures Closed(Closed(m)) == Closed(m)
  {
    assert !IsOpen(Closed(m));
  }

  /** The style of the menu box: shown at an offset, or `display: none`. */
  datatype MenuStyle = Shown(top: real, left: real) | Hidden

  /** A coordinate shifted back by `offset` when it is truthy; 0 or null puts the edge at 0. */
  function Offset(c: Option<real>, offset: real): (r: real)
    ensures Truthy(c) ==> r + offset == c.value
    ensures !Truthy(c) ==> r == 0.0
  {
    if Truthy(c) then c.value - offset else 0.0
  }

  /** `styles.menu` when open, `styles.menuClose` otherwise; the box starts 2 above and 4 left of the click. */
  function Style(m: ContextMenuState): (s: MenuStyle)
    ensures s.Shown? <==> IsOpen(m)
    ensures s.Shown? ==> s.top == Offset(m.y, 2.0) && s.left == Offset(m.x, 4.0)
  {
    if IsOpen(m) then Shown(Offset(m.y, 2.0), Offset(m.x, 4.0)) else Hidden
  }

  /**
   * A menu opened at a click is shown, with the click 2 below and 4 right of
   * its corner; at a coordinate of 0 the edge sits at 0 instead.
   */
  lemma OpenedAtClick(x: real, y: real)
    ensures var s := Style(ContextMenuState(true, Some(x), Some(y)));
      && s.Shown?
      && (y != 0.0 ==> s.top + 2.0 == y)
      && (x != 0.0 ==> s.left + 4.0 == x)
      && (y == 0.0 ==> s.top == 0.0)
      && (x == 0.0 ==> s.left == 0.0)
  {
  }

  /** After closing, the menu is hidden. */
  lemma ClosedIsHidden(m: ContextMenuState)
    ensures Style(Closed(m)) == Hidden
  {
  }

  /**
   * `handleClickOutside`: the close action fires only when the menu element
   * exists, the event has a target, and the element does not contain it.
   */
  function ClickOutside(hasElement: bool, hasTarget: bool, elementContainsTarget: bool): (fires: bool)
    ensures fires ==> hasElement && hasTarget
    ensures elementContainsTarget ==> !fires
    ensures hasElement && hasTarget && !elementContainsTarget ==> fires
  {
    hasElement && hasTarget && !elementContainsTarget
  }

  /**
   * `closeContextMenu`: an open menu is closed and one change is
   * notified; a menu that is not open is left as it is, without notification.
   */
  method CloseContextMenu(e: Editor)
    modifies e
    ensures e.State() == old(e.State()).(contextMenu := Closed(old(e.contextMenu)),
                                         notifications := old(e.notifications) + if IsOpen(old(e.contextMenu)) then 1 else 0)
    ensures !IsOpen(e.contextMenu)
  {
    if IsOpen(e.contextMenu) {
      e.contextMenu := ClosedMenu;
      e.Notify();
    }
  }

}
