/** The window manager store: the window list, the focused id and the sidebar
    flag, with the operations the rest of the page calls. Persistence is the
    last `windows` query value written; the timers of the source are explicit
    pending steps that the environment fires. */
module Manager {
  import opened WindowTypes
  import opened WindowList
  import Codec

  /** A close whose 300 ms settle step has not fired yet: the list as it was
      when close was called, and the id being closed. */
  datatype PendingSettle = PendingSettle(snapshot: seq<WindowConfig>, id: JsString)

  class WindowManager {
    var windows: seq<WindowConfig>
    var focused: Option<JsString>
    var sidebarOpen: bool
    /** `isUpdatingFromDrag`: while set, the layout effect does not re-apply the query value. */
    var updatingFromDrag: bool
    /** The `windows` query value as last written (the empty string when absent). */
    var urlParam: JsString
    /** The 100 ms timers started by `updateWindowPos` that have not fired yet. */
    var dragFlagTimers: nat
    /** The debounced 150 ms write of a resize: the list it will write, if any. */
    var pendingSizeWrite: Option<seq<WindowConfig>>
    /** The settle steps of closes, in the order they will fire. */
    var pendingSettles: seq<PendingSettle>

    constructor (param: JsString)
      ensures windows == [] && focused == None && !sidebarOpen && !updatingFromDrag
      ensures urlParam == param
      ensures dragFlagTimers == 0 && pendingSizeWrite == None && pendingSettles == []
    {
      windows := [];
      focused := None;
      sidebarOpen := false;
      updatingFromDrag := false;
      urlParam := param;
      dragFlagTimers := 0;
      pendingSizeWrite := None;
      pendingSettles := [];
    }

    /** A resize has been applied and its write is pending with the current list. */
    ghost predicate SizeWriteScheduled()
      reads this
    {
      updatingFromDrag && pendingSizeWrite == Some(windows)
    }

    /** Between two states, nothing but the list, the drag flag and the pending
        size write has changed: what a resize request may touch. */
    twostate predicate OnlyResizeStateChanged()
      reads this
    {
      && focused == old(focused) && sidebarOpen == old(sidebarOpen) && urlParam == old(urlParam)
      && dragFlagTimers == old(dragFlagTimers) && pendingSettles == old(pendingSettles)
    }

    /** `isWindowOpen`: some record with the id is open; with unique ids, that
        is the record `find` returns. */
    predicate IsWindowOpen(id: JsString)
      reads this
      ensures UniqueIds(windows) ==>
        (IsWindowOpen(id) <==> Find(windows, id).Some? && Find(windows, id).value.open)
    {
      if UniqueIds(windows) then OpenIffFoundOpen(windows, id); IsOpenIn(windows, id)
      else IsOpenIn(windows, id)
    }

    /** `setFocusedWindowId`. */
    method SetFocusedWindowId(f: Option<JsString>)
      modifies this
      ensures focused == f
      ensures windows == old(windows) && urlParam == old(urlParam) && sidebarOpen == old(sidebarOpen)
      ensures updatingFromDrag == old(updatingFromDrag) && dragFlagTimers == old(dragFlagTimers)
      ensures pendingSizeWrite == old(pendingSizeWrite) && pendingSettles == old(pendingSettles)
    {
      focused := f;
    }

    /** `setWindowMinimized`: only the flag changes; the list is written at once. */
    method SetWindowMinimized(id: JsString, minimized: bool)
      modifies this
      ensures windows == WithMinimized(old(windows), id, minimized)
      ensures urlParam == Codec.Serialize(windows)
      ensures focused == old(focused) && sidebarOpen == old(sidebarOpen)
      ensures updatingFromDrag == old(updatingFromDrag) && dragFlagTimers == old(dragFlagTimers)
      ensures pendingSizeWrite == old(pendingSizeWrite) && pendingSettles == old(pendingSettles)
    {
      windows := WithMinimized(windows, id, minimized);
      urlParam := Codec.Serialize(windows);
    }

    /** `openWindow`. An open window is only focused and un-minimized; any other
        id is placed by the collision-avoiding search and (re)created with the
        default size, then focused. */
    method OpenWindow(id: JsString, scr: Screen, middle: Pos)
      modifies this
      ensures old(IsWindowOpen(id)) ==> windows == WithMinimized(old(windows), id, false)
      ensures !old(IsWindowOpen(id)) ==>
        windows == Opened(old(windows), id, Placement(old(windows), id, PlacementStart(middle, scr)))
      ensures urlParam == Codec.Serialize(windows)
      ensures focused == Some(id)
      ensures sidebarOpen == old(sidebarOpen)
      ensures updatingFromDrag == old(updatingFromDrag) && dragFlagTimers == old(dragFlagTimers)
      ensures pendingSizeWrite == old(pendingSizeWrite) && pendingSettles == old(pendingSettles)
    {
      if IsOpenIn(windows, id) {
        focused := Some(id);
        SetWindowMinimized(id, false);
        return;
      }
      var pos, attempts := FindStartingPos(windows, id, PlacementStart(middle, scr));
      windows := Opened(windows, id, pos);
      urlParam := Codec.Serialize(windows);
      focused := Some(id);
    }

    /** `closeWindow`: a no-op unless open; otherwise the record is closed, the
        list written, the focus cleared and the settle step scheduled. */
    method CloseWindow(id: JsString)
      modifies this
      ensures !old(IsWindowOpen(id)) ==> unchanged(this)
      ensures old(IsWindowOpen(id)) ==>
        && windows == Closed(old(windows), id)
        && urlParam == Codec.Serialize(windows)
        && focused == None
        && pendingSettles == old(pendingSettles) + [PendingSettle(old(windows), id)]
      ensures sidebarOpen == old(sidebarOpen)
      ensures updatingFromDrag == old(updatingFromDrag) && dragFlagTimers == old(dragFlagTimers)
      ensures pendingSizeWrite == old(pendingSizeWrite)
    {
      if !IsOpenIn(windows, id) {
        return;
      }
      var snapshot := windows;
      windows := Closed(windows, id);
      urlParam := Codec.Serialize(windows);
      focused := None;
      pendingSettles := pendingSettles + [PendingSettle(snapshot, id)];
    }

    /** The 300 ms step after a close: the oldest pending settle rewrites the
        list from its snapshot with the record reset to the default geometry. */
    method FireSettle(middle: Pos)
      modifies this
      ensures old(pendingSettles) == [] ==> windows == old(windows) && pendingSettles == []
      ensures old(pendingSettles) != [] ==>
        && windows == Settled(old(pendingSettles)[0].snapshot, old(pendingSettles)[0].id, middle)
        && pendingSettles == old(pendingSettles)[1..]
      ensures urlParam == old(urlParam) && focused == old(focused) && sidebarOpen == old(sidebarOpen)
      ensures updatingFromDrag == old(updatingFromDrag) && dragFlagTimers == old(dragFlagTimers)
      ensures pendingSizeWrite == old(pendingSizeWrite)
    {
      if pendingSettles == [] {
        return;
      }
      var p := pendingSettles[0];
      windows := Settled(p.snapshot, p.id, middle);
      pendingSettles := pendingSettles[1..];
    }

    /** `updateWindowPos`: the position is applied unclamped and written at
        once; the drag flag is set and a timer to clear it is started. */
    method UpdateWindowPos(id: JsString, newPos: Pos)
      modifies this
      ensures windows == WithPos(old(windows), id, newPos)
      ensures urlParam == Codec.Serialize(windows)
      ensures updatingFromDrag && dragFlagTimers == old(dragFlagTimers) + 1
      ensures focused == old(focused) && sidebarOpen == old(sidebarOpen)
      ensures pendingSizeWrite == old(pendingSizeWrite) && pendingSettles == old(pendingSettles)
    {
      updatingFromDrag := true;
      windows := WithPos(windows, id, newPos);
      urlParam := Codec.Serialize(windows);
      dragFlagTimers := dragFlagTimers + 1;
    }

    /** One of the 100 ms timers of `updateWindowPos` fires and clears the flag. */
    method FireDragFlagTimer()
      modifies this
      ensures old(dragFlagTimers) == 0 ==>
        dragFlagTimers == 0 && updatingFromDrag == old(updatingFromDrag)
      ensures old(dragFlagTimers) > 0 ==>
        dragFlagTimers == old(dragFlagTimers) - 1 && !updatingFromDrag
      ensures windows == old(windows) && urlParam == old(urlParam)
      ensures focused == old(focused) && sidebarOpen == old(sidebarOpen)
      ensures pendingSizeWrite == old(pendingSizeWrite) && pendingSettles == old(pendingSettles)
    {
      if dragFlagTimers > 0 {
        dragFlagTimers := dragFlagTimers - 1;
        updatingFromDrag := false;
      }
    }

    /** `updateWindowSize`: the clamped size is applied at once; the write is
        debounced, replacing any write still pending. */
    method UpdateWindowSize(id: JsString, newSize: Size)
      modifies this
      ensures windows == WithSize(old(windows), id, newSize)
      ensures SizeWriteScheduled()
      ensures urlParam == old(urlParam)
      ensures focused == old(focused) && sidebarOpen == old(sidebarOpen)
      ensures dragFlagTimers == old(dragFlagTimers) && pendingSettles == old(pendingSettles)
    {
      updatingFromDrag := true;
      windows := WithSize(windows, id, newSize);
      pendingSizeWrite := Some(windows);
    }

    /** `updateWindowSizeAndPos`: as `UpdateWindowSize`, and the position is
        applied unclamped. */
    method UpdateWindowSizeAndPos(id: JsString, newSize: Size, newPos: Pos)
      modifies this
      ensures windows == WithSizeAndPos(old(windows), id, newSize, newPos)
      ensures SizeWriteScheduled()
      ensures urlParam == old(urlParam)
      ensures focused == old(focused) && sidebarOpen == old(sidebarOpen)
      ensures dragFlagTimers == old(dragFlagTimers) && pendingSettles == old(pendingSettles)
    {
      updatingFromDrag := true;
      windows := WithSizeAndPos(windows, id, newSize, newPos);
      pendingSizeWrite := Some(windows);
    }

    /** The 150 ms resize timer fires: the pending list is written and the drag
        flag cleared. */
    method FireSizeWrite()
      modifies this
      ensures old(pendingSizeWrite) == None ==>
        urlParam == old(urlParam) && updatingFromDrag == old(updatingFromDrag)
      ensures old(pendingSizeWrite).Some? ==>
        urlParam == Codec.Serialize(old(pendingSizeWrite).value) && !updatingFromDrag
      ensures pendingSizeWrite == None
      ensures windows == old(windows) && focused == old(focused) && sidebarOpen == old(sidebarOpen)
      ensures dragFlagTimers == old(dragFlagTimers) && pendingSettles == old(pendingSettles)
    {
      if pendingSizeWrite.Some? {
        urlParam := Codec.Serialize(pendingSizeWrite.value);
        updatingFromDrag := false;
        pendingSizeWrite := None;
      }
    }

    /** `setWindowManagerSidebarOpen`: opening runs the push-over pass and writes
        the list; closing changes no window. */
    method SetWindowManagerSidebarOpen(open: bool, scr: Screen)
      modifies this
      ensures sidebarOpen == open
      ensures open ==> windows == PushedOver(old(windows), scr.width) && urlParam == Codec.Serialize(windows)
      ensures !open ==> windows == old(windows) && urlParam == old(urlParam)
      ensures focused == old(focused)
      ensures updatingFromDrag == old(updatingFromDrag) && dragFlagTimers == old(dragFlagTimers)
      ensures pendingSizeWrite == old(pendingSizeWrite) && pendingSettles == old(pendingSettles)
    {
      sidebarOpen := open;
      if open {
        windows := PushedOver(windows, scr.width);
        urlParam := Codec.Serialize(windows);
      }
    }

    /** Back/forward navigation or a reload replaces the query value. */
    method Navigate(param: JsString)
      modifies this
      ensures urlParam == param
      ensures windows == old(windows) && focused == old(focused) && sidebarOpen == old(sidebarOpen)
      ensures updatingFromDrag == old(updatingFromDrag) && dragFlagTimers == old(dragFlagTimers)
      ensures pendingSizeWrite == old(pendingSizeWrite) && pendingSettles == old(pendingSettles)
    {
      urlParam := param;
    }

    /** The layout effect that runs when the query value changes: skipped while
        the drag flag is set, otherwise the decoded list, clamped to the screen,
        replaces the window list. */
    method ApplyUrlParam(scr: Screen)
      modifies this
      ensures updatingFromDrag ==> windows == old(windows)
      ensures !updatingFromDrag ==> windows == Restored(urlParam, scr)
      ensures urlParam == old(urlParam) && focused == old(focused) && sidebarOpen == old(sidebarOpen)
      ensures updatingFromDrag == old(updatingFromDrag) && dragFlagTimers == old(dragFlagTimers)
      ensures pendingSizeWrite == old(pendingSizeWrite) && pendingSettles == old(pendingSettles)
    {
      if updatingFromDrag {
        return;
      }
      windows := Restored(urlParam, scr);
    }
  }

  /** Opening an id that is already open changes neither its position nor its
      size, nor any other record: only `minimized` is cleared. */
  lemma ReopenKeepsGeometry(ws: seq<WindowConfig>, id: JsString)
    requires IsOpenIn(ws, id)
    ensures var r := WithMinimized(ws, id, false);
      && |r| == |ws|
      && forall i :: 0 <= i < |ws| ==> r[i].pos == ws[i].pos && r[i].size == ws[i].size && r[i].open == ws[i].open
  {
  }

  /** A close followed by its settle step leaves the record closed, at the
      middle position and with the default size. */
  lemma CloseThenSettle(ws: seq<WindowConfig>, id: JsString, middle: Pos)
    requires IsOpenIn(ws, id)
    ensures !IsOpenIn(Settled(ws, id, middle), id)
    ensures Find(Settled(ws, id, middle), id) == Some(
      Find(ws, id).value.(open := false, pos := middle, size := DefaultSize))
  {
    var r := Settled(ws, id, middle);
    assert HasId(ws, id) by {
      var j :| 0 <= j < |ws| && ws[j].id == id && ws[j].open;
    }
    assert Find(ws, id).Some?;
    assert exists i :: FirstWithId(ws, id, i) && ws[i] == Find(ws, id).value;
    var k :| FirstWithId(ws, id, k) && ws[k] == Find(ws, id).value;
    assert FirstWithId(r, id, k);
    FindFirst(r, id, k);
    forall i | 0 <= i < |r| && r[i].id == id
      ensures !r[i].open
    {
    }
  }
}
