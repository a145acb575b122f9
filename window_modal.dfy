/** The per-window controller: fullscreen with a single save slot, half-screen
    fill, minimize, the menu's size steps, reset and close, and the resize
    gesture (Idle, then Resizing from a snapshot, then Idle again). Every
    geometry change goes through the store's `UpdateWindowSizeAndPos`. */
module Modal {
  import opened WindowTypes
  import opened WindowList
  import Resize
  import Manager
  import Codec

  datatype Side = Left | Right

  /** The resize gesture: idle, or resizing from the snapshot taken at its start. */
  datatype Gesture =
    | Idle
    | Resizing(edge: Resize.Edge, startSize: Size, startPointer: Pos, startWindowPos: Pos, current: Size)

  const StepPx: int := 40

  /** The geometry requested on entering fullscreen: the whole width, and the
      height below the navbar, starting one pixel under its top edge. */
  function FullscreenFrame(scr: Screen): (f: Frame)
    ensures f.pos.x == 0 && f.pos.y == scr.navbar - 1
    ensures f.size.width == scr.width && f.pos.y + f.size.height == scr.height
  {
    Frame(Size(scr.width, scr.height - scr.navbar + 1), Pos(0, scr.navbar - 1))
  }

  /** The geometry requested on leaving fullscreen: the saved size, shrunk to
      leave a 60 px margin, and the saved position clamped so that window fits,
      at least 20 px below the navbar. */
  function RestoreFrame(saved: Frame, scr: Screen): (f: Frame)
    ensures f.size.width <= saved.size.width && f.size.width <= scr.width - 60
    ensures f.size.height <= saved.size.height && f.size.height <= scr.height - scr.navbar - 60
    ensures saved.size.width <= scr.width - 60 ==> f.size.width == saved.size.width
    ensures saved.size.height <= scr.height - scr.navbar - 60 ==> f.size.height == saved.size.height
    ensures f.pos.x >= 0 && f.pos.y >= scr.navbar + 20
    ensures f.size.width <= scr.width ==> f.pos.x + f.size.width <= scr.width
    ensures f.size.height <= scr.height - scr.navbar - 20 ==> f.pos.y + f.size.height <= scr.height
    ensures 0 <= saved.pos.x <= scr.width - f.size.width ==> f.pos.x == saved.pos.x
    ensures scr.navbar + 20 <= saved.pos.y <= scr.height - f.size.height ==> f.pos.y == saved.pos.y
    ensures f.size.width == Min(saved.size.width, scr.width - 60)
    ensures f.size.height == Min(saved.size.height, scr.height - scr.navbar - 60)
    ensures f.pos.x == Clamp(saved.pos.x, 0, scr.width - f.size.width)
    ensures f.pos.y == Clamp(saved.pos.y, scr.navbar + 20, scr.height - f.size.height)
  {
    var newWidth := Min(saved.size.width, scr.width - 60);
    var newHeight := Min(saved.size.height, scr.height - scr.navbar - 60);
    var newX := Clamp(saved.pos.x, 0, scr.width - newWidth);
    var newY := Clamp(saved.pos.y, scr.navbar + 20, scr.height - newHeight);
    Frame(Size(newWidth, newHeight), Pos(newX, newY))
  }

  /** The geometry requested by "fill left/right half". */
  function HalfFrame(side: Side, scr: Screen): (f: Frame)
    ensures f.pos.y == scr.navbar - 1 && f.pos.y + f.size.height == scr.height
    ensures side == Left ==> f.pos.x == 0
    ensures side == Right ==> f.pos.x == f.size.width
    ensures scr.width >= 0 ==> f.size.width <= scr.width - f.size.width <= f.size.width + 1
  {
    Frame(Size(scr.width / 2, scr.height - scr.navbar + 1),
          Pos(if side == Left then 0 else scr.width / 2, scr.navbar - 1))
  }

  /** The two halves sit side by side: the right one starts where the left one ends. */
  lemma HalvesAdjacent(scr: Screen)
    ensures HalfFrame(Left, scr).pos.x + HalfFrame(Left, scr).size.width == HalfFrame(Right, scr).pos.x
    ensures HalfFrame(Left, scr).size == HalfFrame(Right, scr).size
  {
  }

  /** Entering and then leaving fullscreen gives the window back its record
      exactly, provided the saved geometry already fitted the restore margins
      and the size bounds. */
  lemma FullscreenRoundTrip(ws: seq<WindowConfig>, id: JsString, middle: Pos, scr: Screen)
    requires UniqueIds(ws) && HasId(ws, id)
    requires var cfg := GetWindow(ws, id, middle);
      && SizeInBounds(cfg.size)
      && cfg.size.width <= scr.width - 60 && cfg.size.height <= scr.height - scr.navbar - 60
      && 0 <= cfg.pos.x <= scr.width - cfg.size.width
      && scr.navbar + 20 <= cfg.pos.y <= scr.height - cfg.size.height
    ensures var cfg := GetWindow(ws, id, middle);
      var full := FullscreenFrame(scr);
      var back := RestoreFrame(Frame(cfg.size, cfg.pos), scr);
      WithSizeAndPos(WithSizeAndPos(ws, id, full.size, full.pos), id, back.size, back.pos) == ws
  {
    var cfg := GetWindow(ws, id, middle);
    var k :| FirstWithId(ws, id, k) && cfg == ws[k];
    var full := FullscreenFrame(scr);
    var back := RestoreFrame(Frame(cfg.size, cfg.pos), scr);
    assert back == Frame(cfg.size, cfg.pos);
    var once := WithSizeAndPos(ws, id, full.size, full.pos);
    var twice := WithSizeAndPos(once, id, back.size, back.pos);
    forall i | 0 <= i < |ws|
      ensures twice[i] == ws[i]
    {
      if ws[i].id == id {
        assert i == k;
        assert once[i].id == id;
      }
    }
    assert twice == ws;
  }

  /** Where a window is drawn vertically: a minimized one is moved below the
      screen, without touching its stored position. */
  function DisplayTop(w: WindowConfig, screenHeight: int): (top: int)
    ensures w.minimized ==> top == screenHeight
    ensures !w.minimized ==> top == w.pos.y
  {
    if w.minimized then screenHeight else w.pos.y
  }

  /** One window's controller. `id` is the window it draws; `store` is the
      window manager it reads its record from and writes through. */
  class WindowModal {
    const id: JsString
    const store: Manager.WindowManager
    var isFullscreen: bool
    /** `lastKnownSizeAndPos`: one slot, overwritten on every save. */
    var saved: Option<Frame>
    var gesture: Gesture

    constructor (id: JsString, store: Manager.WindowManager)
      ensures this.id == id && this.store == store
      ensures !isFullscreen && saved == None && gesture == Idle
    {
      this.id := id;
      this.store := store;
      isFullscreen := false;
      saved := None;
      gesture := Idle;
    }

    /** The record this controller draws (`cfg`): the stored one, or the default. */
    function Cfg(middle: Pos): WindowConfig
      reads store
    {
      GetWindow(store.windows, id, middle)
    }

    /** `isResizing`. */
    predicate IsResizing()
      reads this
    {
      gesture.Resizing?
    }

    /** The drag handle is disabled while resizing or in fullscreen. */
    predicate DragEnabled()
      reads this
    {
      !IsResizing() && !isFullscreen
    }

    /** `toggleFullscreen`. Entering saves the current geometry in the slot and
        requests the fullscreen frame; leaving requests the re-clamped saved
        geometry when the slot holds one, and otherwise changes no geometry. */
    method ToggleFullscreen(scr: Screen, middle: Pos)
      modifies this, store
      ensures gesture == old(gesture)
      ensures !old(isFullscreen) ==>
        && isFullscreen
        && saved == Some(Frame(old(Cfg(middle)).size, old(Cfg(middle)).pos))
        && store.windows == WithSizeAndPos(old(store.windows), id, FullscreenFrame(scr).size, FullscreenFrame(scr).pos)
        && store.SizeWriteScheduled()
      ensures old(isFullscreen) && old(saved).Some? ==>
        && !isFullscreen && saved == old(saved)
        && store.windows == WithSizeAndPos(old(store.windows), id,
             RestoreFrame(old(saved).value, scr).size, RestoreFrame(old(saved).value, scr).pos)
        && store.SizeWriteScheduled()
      ensures old(isFullscreen) && old(saved).None? ==>
        !isFullscreen && saved == None && unchanged(store)
      ensures store.OnlyResizeStateChanged()
    {
      if isFullscreen {
        if saved.Some? {
          var f := RestoreFrame(saved.value, scr);
          store.UpdateWindowSizeAndPos(id, f.size, f.pos);
        }
        isFullscreen := false;
        return;
      }
      var cfg := Cfg(middle);
      saved := Some(Frame(cfg.size, cfg.pos));
      var f := FullscreenFrame(scr);
      store.UpdateWindowSizeAndPos(id, f.size, f.pos);
      isFullscreen := true;
    }

    /** `fillHalfScreen`: leaves fullscreen, overwrites the slot with the current
        geometry and requests the half frame; it never sets fullscreen. */
    method FillHalfScreen(side: Side, scr: Screen, middle: Pos)
      modifies this, store
      ensures !isFullscreen && gesture == old(gesture)
      ensures saved == Some(Frame(old(Cfg(middle)).size, old(Cfg(middle)).pos))
      ensures store.windows == WithSizeAndPos(old(store.windows), id, HalfFrame(side, scr).size, HalfFrame(side, scr).pos)
      ensures store.SizeWriteScheduled() && store.OnlyResizeStateChanged()
    {
      isFullscreen := false;
      var cfg := Cfg(middle);
      saved := Some(Frame(cfg.size, cfg.pos));
      var f := HalfFrame(side, scr);
      store.UpdateWindowSizeAndPos(id, f.size, f.pos);
    }

    /** `toggleMinimize`: flips only the `minimized` flag of the record, and the
        store writes the list at once. The minimize button is hidden in
        fullscreen, so there it does nothing. */
    method ToggleMinimize(middle: Pos)
      modifies store
      ensures isFullscreen ==> unchanged(store)
      ensures !isFullscreen ==>
        && store.windows == WithMinimized(old(store.windows), id, !old(Cfg(middle)).minimized)
        && store.urlParam == Codec.Serialize(store.windows)
        && store.focused == old(store.focused) && store.sidebarOpen == old(store.sidebarOpen)
        && store.updatingFromDrag == old(store.updatingFromDrag) && store.dragFlagTimers == old(store.dragFlagTimers)
        && store.pendingSizeWrite == old(store.pendingSizeWrite) && store.pendingSettles == old(store.pendingSettles)
    {
      if isFullscreen {
        return;
      }
      var cfg := Cfg(middle);
      store.SetWindowMinimized(id, !cfg.minimized);
    }

    /** The menu's "Reset window position": clears fullscreen and the slot, and
        requests the default size at `centre` (the middle of the screen for the
        window's current size). */
    method ResetWindow(centre: Pos)
      modifies this, store
      ensures !isFullscreen && saved == None && gesture == old(gesture)
      ensures store.windows == WithSizeAndPos(old(store.windows), id, DefaultSize, centre)
      ensures store.SizeWriteScheduled() && store.OnlyResizeStateChanged()
    {
      isFullscreen := false;
      saved := None;
      store.UpdateWindowSizeAndPos(id, DefaultSize, centre);
    }

    /** "Increase height by 40px"; the item is disabled at the maximum height
        and in fullscreen. It does not leave fullscreen. */
    method IncreaseHeight(middle: Pos)
      modifies store
      ensures var cfg := old(Cfg(middle));
        if cfg.size.height >= MaxHeight || isFullscreen then unchanged(store)
        else (store.windows == WithSizeAndPos(old(store.windows), id, Size(cfg.size.width, cfg.size.height + StepPx), cfg.pos)
              && store.SizeWriteScheduled() && store.OnlyResizeStateChanged())
    {
      var cfg := Cfg(middle);
      if cfg.size.height >= MaxHeight || isFullscreen {
        return;
      }
      store.UpdateWindowSizeAndPos(id, Size(cfg.size.width, cfg.size.height + StepPx), cfg.pos);
    }

    /** "Decrease height by 40px", never below the minimum height; disabled at
        the minimum. */
    method DecreaseHeight(middle: Pos)
      modifies this, store
      ensures gesture == old(gesture) && saved == old(saved)
      ensures var cfg := old(Cfg(middle));
        if cfg.size.height <= MinHeight then unchanged(store) && isFullscreen == old(isFullscreen)
        else (!isFullscreen && store.windows == WithSizeAndPos(old(store.windows), id, Size(cfg.size.width, Max(cfg.size.height - StepPx, MinHeight)), cfg.pos)
              && store.SizeWriteScheduled() && store.OnlyResizeStateChanged())
    {
      var cfg := Cfg(middle);
      if cfg.size.height <= MinHeight {
        return;
      }
      isFullscreen := false;
      store.UpdateWindowSizeAndPos(id, Size(cfg.size.width, Max(cfg.size.height - StepPx, MinHeight)), cfg.pos);
    }

    /** "Increase width by 40px", capped at the maximum width; disabled at the
        maximum and in fullscreen. */
    method IncreaseWidth(middle: Pos)
      modifies this, store
      ensures gesture == old(gesture) && saved == old(saved)
      ensures var cfg := old(Cfg(middle));
        if cfg.size.width >= MaxWidth || old(isFullscreen) then unchanged(store) && isFullscreen == old(isFullscreen)
        else (!isFullscreen && store.windows == WithSizeAndPos(old(store.windows), id, Size(Min(cfg.size.width + StepPx, MaxWidth), cfg.size.height), cfg.pos)
              && store.SizeWriteScheduled() && store.OnlyResizeStateChanged())
    {
      var cfg := Cfg(middle);
      if cfg.size.width >= MaxWidth || isFullscreen {
        return;
      }
      isFullscreen := false;
      store.UpdateWindowSizeAndPos(id, Size(Min(cfg.size.width + StepPx, MaxWidth), cfg.size.height), cfg.pos);
    }

    /** "Decrease width by 40px", never below the minimum width; disabled at
        the minimum. */
    method DecreaseWidth(middle: Pos)
      modifies this, store
      ensures gesture == old(gesture) && saved == old(saved)
      ensures var cfg := old(Cfg(middle));
        if cfg.size.width <= MinWidth then unchanged(store) && isFullscreen == old(isFullscreen)
        else (!isFullscreen && store.windows == WithSizeAndPos(old(store.windows), id, Size(Max(cfg.size.width - StepPx, MinWidth), cfg.size.height), cfg.pos)
              && store.SizeWriteScheduled() && store.OnlyResizeStateChanged())
    {
      var cfg := Cfg(middle);
      if cfg.size.width <= MinWidth {
        return;
      }
      isFullscreen := false;
      store.UpdateWindowSizeAndPos(id, Size(Max(cfg.size.width - StepPx, MinWidth), cfg.size.height), cfg.pos);
    }

    /** The menu's "Close window" and the title bar's X button: both clear
        fullscreen and the slot, then close the window in the store. */
    method Close()
      modifies this, store
      ensures !isFullscreen && saved == None && gesture == old(gesture)
      ensures old(IsOpenIn(store.windows, id)) ==>
        && store.windows == Closed(old(store.windows), id) && store.focused == None
        && store.urlParam == Codec.Serialize(store.windows)
        && store.pendingSettles == old(store.pendingSettles) + [Manager.PendingSettle(old(store.windows), id)]
      ensures !old(IsOpenIn(store.windows, id)) ==> unchanged(store)
      ensures store.sidebarOpen == old(store.sidebarOpen)
      ensures store.updatingFromDrag == old(store.updatingFromDrag) && store.dragFlagTimers == old(store.dragFlagTimers)
      ensures store.pendingSizeWrite == old(store.pendingSizeWrite)
    {
      isFullscreen := false;
      saved := None;
      store.CloseWindow(id);
    }

    /** A mouse-down anywhere on the window focuses it. */
    method HandleMouseDown()
      modifies store
      ensures store.focused == Some(id) && store.windows == old(store.windows) && store.urlParam == old(store.urlParam)
      ensures store.sidebarOpen == old(store.sidebarOpen)
      ensures store.updatingFromDrag == old(store.updatingFromDrag) && store.dragFlagTimers == old(store.dragFlagTimers)
      ensures store.pendingSizeWrite == old(store.pendingSizeWrite) && store.pendingSettles == old(store.pendingSettles)
    {
      store.SetFocusedWindowId(Some(id));
    }

    /** `handleResizeStart`: the gesture starts from a snapshot of the record's
        size and position and of the pointer. The resize handles take no
        pointer events in fullscreen, so there no gesture starts. */
    method HandleResizeStart(edge: Resize.Edge, pointer: Pos, middle: Pos)
      modifies this
      ensures isFullscreen ==> gesture == old(gesture)
      ensures !isFullscreen ==>
        gesture == Resizing(edge, old(Cfg(middle)).size, pointer, old(Cfg(middle)).pos, old(Cfg(middle)).size)
      ensures isFullscreen == old(isFullscreen) && saved == old(saved)
    {
      if isFullscreen {
        return;
      }
      var cfg := Cfg(middle);
      gesture := Resizing(edge, cfg.size, pointer, cfg.pos, cfg.size);
    }

    /** A pointer move: while resizing, the new geometry is computed from the
        start snapshot (never from the previous move) and requested; otherwise
        nothing happens. */
    method HandleMouseMove(pointer: Pos)
      modifies store
      ensures gesture.Idle? ==> unchanged(store)
      ensures gesture.Resizing? ==>
        var f := Resize.NewSizeAndPos(pointer, gesture.edge, gesture.startSize, gesture.startPointer,
                                      gesture.startWindowPos, gesture.current);
        && store.windows == WithSizeAndPos(old(store.windows), id, f.size, f.pos)
        && store.SizeWriteScheduled() && store.OnlyResizeStateChanged()
    {
      if gesture.Idle? {
        return;
      }
      var f := Resize.NewSizeAndPos(pointer, gesture.edge, gesture.startSize, gesture.startPointer,
                                    gesture.startWindowPos, gesture.current);
      store.UpdateWindowSizeAndPos(id, f.size, f.pos);
    }

    /** Mouse-up ends the gesture. */
    method HandleMouseUp()
      modifies this
      ensures gesture == Idle
      ensures isFullscreen == old(isFullscreen) && saved == old(saved)
    {
      gesture := Idle;
    }
  }
}
