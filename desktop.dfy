/** The desktop page: the two desktop icons with their own positions, and the
    end of a drag, which either moves a window (its draggable id carries the
    `window-modal-` prefix) or moves an icon inside the desktop's bounds. */
module Desktop {
  import opened WindowTypes
  import opened WindowList
  import Codec
  import Manager
  import Modal

  /** The prefix a window's draggable id carries in front of the window id. */
  const WindowDragPrefix: JsString := Ascii("window-modal-")

  /** Desktop icons are 80 x 80 px. */
  const IconSize: int := 80

  const IntroIcon: JsString := Ascii("introduction")
  const AboutIcon: JsString := Ascii("about-me")

  /** Where the two icons start. */
  const InitialIcons: map<JsString, Pos> := map[IntroIcon := Pos(20, 25), AboutIcon := Pos(20, 125)]

  /** The window each icon opens when clicked. */
  const IconTargets: map<JsString, JsString> :=
    map[IntroIcon := Ascii("intro.md"), AboutIcon := Ascii("about-me.md")]

  predicate HasPrefix(s: JsString, p: JsString)
  {
    |p| <= |s| && s[..|p|] == p
  }

  /** The draggable id of the window modal for `id`. */
  function DraggableId(id: JsString): (d: JsString)
    ensures HasPrefix(d, WindowDragPrefix) && d[|WindowDragPrefix|..] == id
  {
    WindowDragPrefix + id
  }

  /** The routing of a drag end: the window id behind a prefixed draggable id,
      or None for anything else (an icon). */
  function WindowIdOf(dragId: JsString): (r: Option<JsString>)
    ensures r.Some? <==> HasPrefix(dragId, WindowDragPrefix)
    ensures r.Some? ==> DraggableId(r.value) == dragId
  {
    if HasPrefix(dragId, WindowDragPrefix) then
      assert WindowDragPrefix + dragId[|WindowDragPrefix|..] == dragId;
      Some(dragId[|WindowDragPrefix|..])
    else None
  }

  /** Every window's draggable id is routed back to that window. */
  lemma DraggableIdRoutes(id: JsString)
    ensures WindowIdOf(DraggableId(id)) == Some(id)
  {
  }

  /** The two icons are not mistaken for windows. */
  lemma IconsAreNotWindows()
    ensures WindowIdOf(IntroIcon) == None && WindowIdOf(AboutIcon) == None
  {
    assert IntroIcon[0] != WindowDragPrefix[0];
    assert AboutIcon[1] != WindowDragPrefix[1];
  }

  /** Where a dragged window lands: its position moved by the drag, then
      pushed below the navbar or up from the bottom edge (checked in that
      order), and right of the left edge or left from the right edge. */
  function DraggedWindowPos(cur: WindowConfig, delta: Pos, scr: Screen): (p: Pos)
    ensures var want := cur.pos.y + delta.y;
      scr.navbar <= want && want + cur.size.height <= scr.height ==> p.y == want
    ensures var want := cur.pos.x + delta.x;
      0 <= want && want + cur.size.width <= scr.width ==> p.x == want
    ensures cur.pos.y + delta.y < scr.navbar ==> p.y == scr.navbar
    ensures cur.pos.x + delta.x < 0 ==> p.x == 0
    ensures cur.size.height <= scr.height - scr.navbar ==> scr.navbar <= p.y && p.y + cur.size.height <= scr.height
    ensures cur.size.width <= scr.width ==> 0 <= p.x && p.x + cur.size.width <= scr.width
    ensures p.y == scr.navbar || p.y + cur.size.height <= scr.height
    ensures p.x == 0 || p.x + cur.size.width <= scr.width
    ensures var want := cur.pos.y + delta.y;
      scr.navbar <= want && want + cur.size.height > scr.height ==> p.y == scr.height - cur.size.height
    ensures var want := cur.pos.x + delta.x;
      0 <= want && want + cur.size.width > scr.width ==> p.x == scr.width - cur.size.width
  {
    var newY := cur.pos.y + delta.y;
    var newX := cur.pos.x + delta.x;
    Pos(if newX < 0 then 0 else if newX + cur.size.width > scr.width then scr.width - cur.size.width else newX,
        if newY < scr.navbar then scr.navbar else if newY + cur.size.height > scr.height then scr.height - cur.size.height else newY)
  }

  /** A window taller than the space below the navbar is pulled up by its
      bottom edge, over the navbar: 900 px high on an 800 px viewport with a
      40 px navbar, dropped at y = 100, lands at y = -100. */
  lemma TallWindowCoversNavbar()
    ensures var cur := WindowConfig(Ascii("intro.md"), Pos(10, 100), Size(600, 900), true, false);
      DraggedWindowPos(cur, Pos(0, 0), Screen(1000, 800, 40)) == Pos(10, -100)
  {
  }

  /** An icon coordinate kept inside [0, bound - 80]; 0 wins when the bounds
      are smaller than an icon. */
  function ClampIcon(v: int, bound: int): (r: int)
    ensures 0 <= r
    ensures bound >= IconSize ==> r + IconSize <= bound
    ensures 0 <= v && v + IconSize <= bound ==> r == v
    ensures v < 0 || bound < IconSize ==> r == 0
    ensures bound >= IconSize && v + IconSize > bound ==> r == bound - IconSize
  {
    Max(0, Min(v, bound - IconSize))
  }

  /** The icon positions after icon `id` was dragged by `delta` inside a
      desktop of size `bounds`; an icon without an entry starts from (0, 0). */
  function IconDragged(icons: map<JsString, Pos>, id: JsString, delta: Pos, bounds: Size): (r: map<JsString, Pos>)
    ensures r.Keys == icons.Keys + {id}
    ensures forall k :: k in icons && k != id ==> r[k] == icons[k]
    ensures 0 <= r[id].x && 0 <= r[id].y
    ensures bounds.width >= IconSize ==> r[id].x + IconSize <= bounds.width
    ensures bounds.height >= IconSize ==> r[id].y + IconSize <= bounds.height
    ensures var cur := if id in icons then icons[id] else Pos(0, 0);
      0 <= cur.x + delta.x && cur.x + delta.x + IconSize <= bounds.width &&
      0 <= cur.y + delta.y && cur.y + delta.y + IconSize <= bounds.height
      ==> r[id] == Pos(cur.x + delta.x, cur.y + delta.y)
    ensures var want := (if id in icons then icons[id] else Pos(0, 0)).x + delta.x;
      && (want < 0 || bounds.width < IconSize ==> r[id].x == 0)
      && (bounds.width >= IconSize && want + IconSize > bounds.width ==> r[id].x == bounds.width - IconSize)
    ensures var want := (if id in icons then icons[id] else Pos(0, 0)).y + delta.y;
      && (want < 0 || bounds.height < IconSize ==> r[id].y == 0)
      && (bounds.height >= IconSize && want + IconSize > bounds.height ==> r[id].y == bounds.height - IconSize)
  {
    var cur := if id in icons then icons[id] else Pos(0, 0);
    icons[id := Pos(ClampIcon(cur.x + delta.x, bounds.width), ClampIcon(cur.y + delta.y, bounds.height))]
  }

  /** Dragging an icon to where it already is, inside the bounds, changes nothing. */
  lemma {:induction false} IconDragIdle(icons: map<JsString, Pos>, id: JsString, bounds: Size)
    requires id in icons
    requires 0 <= icons[id].x && icons[id].x + IconSize <= bounds.width
    requires 0 <= icons[id].y && icons[id].y + IconSize <= bounds.height
    ensures IconDragged(icons, id, Pos(0, 0), bounds) == icons
  {
    var r := IconDragged(icons, id, Pos(0, 0), bounds);
    assert r[id] == icons[id];
    assert r.Keys == icons.Keys;
  }

  /** The desktop page. */
  class Home {
    const store: Manager.WindowManager
    var iconPositions: map<JsString, Pos>
    /** The desktop's bounding box, once its element is attached. */
    var bounds: Option<Size>

    constructor (store: Manager.WindowManager)
      ensures this.store == store && iconPositions == InitialIcons && bounds == None
    {
      this.store := store;
      iconPositions := InitialIcons;
      bounds := None;
    }

    /** The ref callback of the desktop element. */
    method SetBounds(b: Option<Size>)
      modifies this
      ensures bounds == b && iconPositions == old(iconPositions)
    {
      bounds := b;
    }

    /** A click on an icon opens the window it stands for: an open window is
        focused and un-minimized, any other is placed and opened; either way
        the list is written at once. */
    method ClickIcon(icon: JsString, scr: Screen, middle: Pos)
      modifies store
      ensures icon !in IconTargets ==> unchanged(store)
      ensures icon in IconTargets ==>
        var target := IconTargets[icon];
        && (old(store.IsWindowOpen(target)) ==> store.windows == WithMinimized(old(store.windows), target, false))
        && (!old(store.IsWindowOpen(target)) ==>
              store.windows == Opened(old(store.windows), target, Placement(old(store.windows), target, PlacementStart(middle, scr))))
        && store.urlParam == Codec.Serialize(store.windows)
        && store.focused == Some(target) && store.IsWindowOpen(target)
        && store.sidebarOpen == old(store.sidebarOpen) && store.pendingSettles == old(store.pendingSettles)
        && store.updatingFromDrag == old(store.updatingFromDrag) && store.dragFlagTimers == old(store.dragFlagTimers)
        && store.pendingSizeWrite == old(store.pendingSizeWrite)
    {
      if icon !in IconTargets {
        return;
      }
      store.OpenWindow(IconTargets[icon], scr, middle);
      OpenedIsOpen(old(store.windows), IconTargets[icon], scr, middle);
    }

    /** `handleDragEnd`: a window drag moves the window through the store; an
        icon drag moves the icon, once the desktop's bounds are known.
        `enabled` says whether the dragged element's draggable was enabled; a
        disabled one (a window that is resizing or fullscreen) starts no drag,
        so nothing ends. */
    method HandleDragEnd(dragId: JsString, delta: Pos, scr: Screen, middle: Pos, enabled: bool)
      modifies this, store
      ensures bounds == old(bounds)
      ensures !enabled ==> unchanged(this) && unchanged(store)
      ensures enabled && WindowIdOf(dragId).Some? ==>
        var id := WindowIdOf(dragId).value;
        && store.windows == WithPos(old(store.windows), id, DraggedWindowPos(old(GetWindow(store.windows, id, middle)), delta, scr))
        && store.urlParam == Codec.Serialize(store.windows)
        && store.updatingFromDrag && store.dragFlagTimers == old(store.dragFlagTimers) + 1
        && store.focused == old(store.focused) && store.sidebarOpen == old(store.sidebarOpen)
        && store.pendingSizeWrite == old(store.pendingSizeWrite) && store.pendingSettles == old(store.pendingSettles)
        && iconPositions == old(iconPositions)
      ensures enabled && WindowIdOf(dragId).None? ==>
        && unchanged(store)
        && iconPositions == (if bounds.None? then old(iconPositions) else IconDragged(old(iconPositions), dragId, delta, bounds.value))
    {
      if !enabled {
        return;
      }
      if HasPrefix(dragId, WindowDragPrefix) {
        var windowId := dragId[|WindowDragPrefix|..];
        var current := GetWindow(store.windows, windowId, middle);
        var newY := current.pos.y + delta.y;
        var newX := current.pos.x + delta.x;
        if newY < scr.navbar {
          newY := scr.navbar;
        } else if newY + current.size.height > scr.height {
          newY := scr.height - current.size.height;
        }
        if newX < 0 {
          newX := 0;
        } else if newX + current.size.width > scr.width {
          newX := scr.width - current.size.width;
        }
        assert Pos(newX, newY) == DraggedWindowPos(current, delta, scr);
        assert WindowIdOf(dragId) == Some(windowId);
        store.UpdateWindowPos(windowId, Pos(newX, newY));
        return;
      }
      assert WindowIdOf(dragId).None?;
      if bounds.None? {
        return;
      }
      iconPositions := IconDragged(iconPositions, dragId, delta, bounds.value);
    }

    /** The end of a drag on a window modal's title bar: the modal's draggable
        is enabled only while it is neither resizing nor fullscreen. */
    method EndWindowDrag(modal: Modal.WindowModal, delta: Pos, scr: Screen, middle: Pos)
      requires modal.store == store
      modifies this, store
      ensures !old(modal.DragEnabled()) ==> unchanged(this) && unchanged(store)
      ensures old(modal.DragEnabled()) ==>
        && store.windows == WithPos(old(store.windows), modal.id, DraggedWindowPos(old(modal.Cfg(middle)), delta, scr))
        && store.urlParam == Codec.Serialize(store.windows)
        && store.updatingFromDrag && store.dragFlagTimers == old(store.dragFlagTimers) + 1
        && store.focused == old(store.focused) && store.sidebarOpen == old(store.sidebarOpen)
        && store.pendingSizeWrite == old(store.pendingSizeWrite) && store.pendingSettles == old(store.pendingSettles)
        && iconPositions == old(iconPositions)
    {
      DraggableIdRoutes(modal.id);
      HandleDragEnd(DraggableId(modal.id), delta, scr, middle, modal.DragEnabled());
    }
  }

  /** After `openWindow`, the window is open whether or not it was before. */
  lemma OpenedIsOpen(ws: seq<WindowConfig>, id: JsString, scr: Screen, middle: Pos)
    ensures IsOpenIn(ws, id) ==> IsOpenIn(WithMinimized(ws, id, false), id)
    ensures !IsOpenIn(ws, id) ==> IsOpenIn(Opened(ws, id, Placement(ws, id, PlacementStart(middle, scr))), id)
  {
  }
}
