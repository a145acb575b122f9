/** The window list as a value: lookup, the placement search for a newly opened
    window, and every list transformation the store applies (each replaces the
    whole list, as the store's `setWindows` calls do). */
module WindowList {
  import opened WindowTypes
  import Codec

  // ---------------------------------------------------------------------------
  // Lookup
  // ---------------------------------------------------------------------------

  predicate HasId(ws: seq<WindowConfig>, id: JsString)
  {
    exists i :: 0 <= i < |ws| && ws[i].id == id
  }

  /** `windows.some(w => w.id === id && w.open)`. */
  predicate IsOpenIn(ws: seq<WindowConfig>, id: JsString)
  {
    exists i :: 0 <= i < |ws| && ws[i].id == id && ws[i].open
  }

  /** With unique ids, `some` over the list agrees with the `open` flag of the
      record `find` returns. */
  lemma OpenIffFoundOpen(ws: seq<WindowConfig>, id: JsString)
    requires UniqueIds(ws)
    ensures IsOpenIn(ws, id) <==> Find(ws, id).Some? && Find(ws, id).value.open
  {
    if Find(ws, id).Some? {
      var k :| FirstWithId(ws, id, k) && ws[k] == Find(ws, id).value;
      if IsOpenIn(ws, id) {
        var j :| 0 <= j < |ws| && ws[j].id == id && ws[j].open;
        assert j == k;
      }
    }
  }

  /** `i` is the first index whose record carries `id`. */
  predicate FirstWithId(ws: seq<WindowConfig>, id: JsString, i: int)
  {
    0 <= i < |ws| && ws[i].id == id && forall j :: 0 <= j < i ==> ws[j].id != id
  }

  /** `windows.find(w => w.id === id)`. */
  function Find(ws: seq<WindowConfig>, id: JsString): (r: Option<WindowConfig>)
    ensures r.None? <==> !HasId(ws, id)
    ensures r.Some? ==> exists i :: FirstWithId(ws, id, i) && ws[i] == r.value
  {
    if ws == [] then None
    else if ws[0].id == id then (assert FirstWithId(ws, id, 0); Some(ws[0]))
    else
      var r := Find(ws[1..], id);
      if r.Some? then
        var i :| FirstWithId(ws[1..], id, i) && ws[1..][i] == r.value;
        assert FirstWithId(ws, id, i + 1);
        r
      else
        r
  }

  /** The record a fresh, closed window would have: default size at `middle`. */
  function DefaultRecord(id: JsString, middle: Pos): WindowConfig
  {
    WindowConfig(id, middle, DefaultSize, false, false)
  }

  /** `getWindow` / `useWindow`: the stored record, or a closed default one. */
  function GetWindow(ws: seq<WindowConfig>, id: JsString, middle: Pos): (w: WindowConfig)
    ensures w.id == id
    ensures HasId(ws, id) ==> exists i :: FirstWithId(ws, id, i) && w == ws[i]
    ensures !HasId(ws, id) ==> w == DefaultRecord(id, middle)
  {
    match Find(ws, id)
    case Some(w) => w
    case None => DefaultRecord(id, middle)
  }

  /** A list without `id` has nothing to find for it. */
  lemma FindAbsent(ws: seq<WindowConfig>, id: JsString)
    requires forall i :: 0 <= i < |ws| ==> ws[i].id != id
    ensures Find(ws, id) == None
  {
  }

  /** `find` returns the record at the first index carrying the id. */
  lemma {:induction false} FindFirst(ws: seq<WindowConfig>, id: JsString, k: int)
    requires FirstWithId(ws, id, k)
    ensures Find(ws, id) == Some(ws[k])
  {
    if k > 0 {
      assert ws[0].id != id;
      assert FirstWithId(ws[1..], id, k - 1);
      FindFirst(ws[1..], id, k - 1);
    }
  }

  // ---------------------------------------------------------------------------
  // Placement of a newly opened window
  // ---------------------------------------------------------------------------

  const PlacementOffset: int := 30
  const MaxAttempts: nat := 20

  function Abs(v: int): nat { if v < 0 then -v else v }

  /** The start of the search: the middle of the screen for the default size,
      clamped so the default-sized window fits and stays below the navbar. */
  function PlacementStart(middle: Pos, scr: Screen): (p: Pos)
    ensures p.x >= 0 && p.y >= scr.navbar - 1
    ensures DefaultWidth <= scr.width ==> p.x + DefaultWidth <= scr.width
    ensures DefaultHeight <= scr.height - scr.navbar + 1 ==> p.y + DefaultHeight <= scr.height
    ensures 0 <= middle.x <= scr.width - DefaultWidth ==> p.x == middle.x
    ensures scr.navbar - 1 <= middle.y <= scr.height - DefaultHeight ==> p.y == middle.y
  {
    Pos(Clamp(middle.x, 0, scr.width - DefaultWidth),
        Clamp(middle.y, scr.navbar - 1, scr.height - DefaultHeight))
  }

  /** Another open window sits strictly within 30 px of `p` on both axes. */
  predicate Near(w: WindowConfig, id: JsString, p: Pos)
  {
    w.open && w.id != id && Abs(w.pos.x - p.x) < PlacementOffset && Abs(w.pos.y - p.y) < PlacementOffset
  }

  predicate Crowded(ws: seq<WindowConfig>, id: JsString, p: Pos)
  {
    exists i :: 0 <= i < |ws| && Near(ws[i], id, p)
  }

  function Offset(start: Pos, k: int): Pos
  {
    Pos(start.x + PlacementOffset * k, start.y + PlacementOffset * k)
  }

  /** The number of (+30, +30) steps the search takes, counting from `k`. */
  function PlacementSteps(ws: seq<WindowConfig>, id: JsString, start: Pos, k: nat): nat
    requires k <= MaxAttempts
    decreases MaxAttempts - k
  {
    if k == MaxAttempts || !Crowded(ws, id, Offset(start, k)) then k
    else PlacementSteps(ws, id, start, k + 1)
  }

  /** Where `openWindow` puts a window that is not open yet. */
  function Placement(ws: seq<WindowConfig>, id: JsString, start: Pos): Pos
  {
    Offset(start, PlacementSteps(ws, id, start, 0))
  }

  lemma {:induction false} PlacementStepsFrom(ws: seq<WindowConfig>, id: JsString, start: Pos, k: nat)
    requires k <= MaxAttempts
    requires forall j :: 0 <= j < k ==> Crowded(ws, id, Offset(start, j))
    ensures k <= PlacementSteps(ws, id, start, k) <= MaxAttempts
    ensures forall j :: 0 <= j < PlacementSteps(ws, id, start, k) ==> Crowded(ws, id, Offset(start, j))
    ensures PlacementSteps(ws, id, start, k) < MaxAttempts ==>
              !Crowded(ws, id, Offset(start, PlacementSteps(ws, id, start, k)))
    decreases MaxAttempts - k
  {
    if k < MaxAttempts && Crowded(ws, id, Offset(start, k)) {
      PlacementStepsFrom(ws, id, start, k + 1);
    }
  }

  /** The placement is the start shifted by (30k, 30k) with k at most 20; every
      earlier candidate was crowded, and unless the search gave up the chosen
      one is not. */
  lemma PlacementIsFirstFree(ws: seq<WindowConfig>, id: JsString, start: Pos)
    ensures var k := PlacementSteps(ws, id, start, 0);
      && k <= MaxAttempts
      && Placement(ws, id, start) == Offset(start, k)
      && (forall j :: 0 <= j < k ==> Crowded(ws, id, Offset(start, j)))
      && (k < MaxAttempts ==> !Crowded(ws, id, Placement(ws, id, start)))
  {
    PlacementStepsFrom(ws, id, start, 0);
  }

  /** The `while` loop of `openWindow`: step (+30, +30) while another open window
      is near, at most 20 times. */
  method FindStartingPos(ws: seq<WindowConfig>, id: JsString, start: Pos) returns (pos: Pos, attempts: nat)
    ensures attempts == PlacementSteps(ws, id, start, 0)
    ensures pos == Offset(start, attempts)
  {
    pos, attempts := start, 0;
    while attempts < MaxAttempts && Crowded(ws, id, pos)
      invariant attempts <= MaxAttempts
      invariant pos == Offset(start, attempts)
      invariant PlacementSteps(ws, id, start, attempts) == PlacementSteps(ws, id, start, 0)
      decreases MaxAttempts - attempts
    {
      pos := Pos(pos.x + PlacementOffset, pos.y + PlacementOffset);
      attempts := attempts + 1;
    }
  }

  // ---------------------------------------------------------------------------
  // List transformations
  // ---------------------------------------------------------------------------

  /** `r` has the same length and ids as `ws`, and records with another id are untouched. */
  predicate OnlyIdChanged(ws: seq<WindowConfig>, r: seq<WindowConfig>, id: JsString)
  {
    && |r| == |ws|
    && (forall i :: 0 <= i < |ws| ==> r[i].id == ws[i].id)
    && (forall i :: 0 <= i < |ws| && ws[i].id != id ==> r[i] == ws[i])
  }

  /** A map over the list that only touches records with `id` leaves a list
      without `id` exactly as it was. */
  lemma UnknownIdUnchanged(ws: seq<WindowConfig>, r: seq<WindowConfig>, id: JsString)
    requires OnlyIdChanged(ws, r, id)
    requires !HasId(ws, id)
    ensures r == ws
  {
  }

  /** A freshly opened record. */
  function OpenedRecord(id: JsString, pos: Pos): WindowConfig
  {
    WindowConfig(id, pos, DefaultSize, true, false)
  }

  /** The list `openWindow` writes for an id that is not open: records with
      `id` are replaced where they stand, or one record is appended. */
  function Opened(ws: seq<WindowConfig>, id: JsString, pos: Pos): (r: seq<WindowConfig>)
    ensures HasId(ws, id) ==> OnlyIdChanged(ws, r, id)
    ensures !HasId(ws, id) ==> r == ws + [OpenedRecord(id, pos)]
    ensures forall i :: 0 <= i < |r| && r[i].id == id ==> r[i] == OpenedRecord(id, pos)
    ensures IsOpenIn(r, id) && Find(r, id) == Some(OpenedRecord(id, pos))
  {
    if HasId(ws, id) then
      var r := seq(|ws|, i requires 0 <= i < |ws| => if ws[i].id == id then OpenedRecord(id, pos) else ws[i]);
      FindReplaced(ws, id, OpenedRecord(id, pos), r);
      r
    else
      var r := ws + [OpenedRecord(id, pos)];
      assert r[|ws|] == OpenedRecord(id, pos);
      FindAbsent(ws, id);
      FindAppend(ws, id, OpenedRecord(id, pos));
      r
  }

  /** Replacing every record with `id` by `w` makes `find` return `w`. */
  lemma FindReplaced(ws: seq<WindowConfig>, id: JsString, w: WindowConfig, r: seq<WindowConfig>)
    requires HasId(ws, id) && w.id == id
    requires |r| == |ws|
    requires forall i :: 0 <= i < |ws| ==> r[i] == (if ws[i].id == id then w else ws[i])
    ensures Find(r, id) == Some(w)
    ensures exists i :: 0 <= i < |r| && r[i] == w
  {
    assert Find(ws, id).Some?;
    assert exists i :: FirstWithId(ws, id, i) && ws[i] == Find(ws, id).value;
    var k :| FirstWithId(ws, id, k) && ws[k] == Find(ws, id).value;
    assert FirstWithId(r, id, k);
    FindFirst(r, id, k);
  }

  lemma {:induction false} FindAppend(ws: seq<WindowConfig>, id: JsString, w: WindowConfig)
    requires !HasId(ws, id) && w.id == id
    ensures Find(ws + [w], id) == Some(w)
  {
    if ws != [] {
      assert (ws + [w])[1..] == ws[1..] + [w];
      FindAppend(ws[1..], id, w);
    }
  }

  /** Opening keeps ids unique. */
  lemma OpenedKeepsIdsUnique(ws: seq<WindowConfig>, id: JsString, pos: Pos)
    requires UniqueIds(ws)
    ensures UniqueIds(Opened(ws, id, pos))
  {
    var r := Opened(ws, id, pos);
    if !HasId(ws, id) {
      forall i, j | 0 <= i < j < |r|
        ensures r[i].id != r[j].id
      {
        if j == |ws| {
          assert r[i] == ws[i];
        }
      }
    }
  }

  /** The list `closeWindow` writes at once: only `open` of records with `id` changes. */
  function Closed(ws: seq<WindowConfig>, id: JsString): (r: seq<WindowConfig>)
    ensures OnlyIdChanged(ws, r, id)
    ensures forall i :: 0 <= i < |ws| && ws[i].id == id ==> r[i] == ws[i].(open := false)
    ensures !IsOpenIn(r, id)
  {
    seq(|ws|, i requires 0 <= i < |ws| => if ws[i].id == id then ws[i].(open := false) else ws[i])
  }

  /** The list the settle step writes 300 ms after a close: it maps over the list
      as it was when close was called (`snapshot`), not over the current one. */
  function Settled(snapshot: seq<WindowConfig>, id: JsString, middle: Pos): (r: seq<WindowConfig>)
    ensures OnlyIdChanged(snapshot, r, id)
    ensures forall i :: 0 <= i < |r| && r[i].id == id ==>
      r[i] == snapshot[i].(open := false, pos := middle, size := DefaultSize)
  {
    seq(|snapshot|, i requires 0 <= i < |snapshot| =>
      if snapshot[i].id == id then snapshot[i].(open := false, pos := middle, size := DefaultSize) else snapshot[i])
  }

  /** Because the settle step starts from the snapshot, a window that was opened
      for the first time during the 300 ms delay is no longer in the list. */
  lemma SettleDropsLaterOpen(snapshot: seq<WindowConfig>, id: JsString, other: JsString, middle: Pos)
    requires !HasId(snapshot, other)
    ensures HasId(Opened(Closed(snapshot, id), other, middle), other)
    ensures !HasId(Settled(snapshot, id, middle), other)
  {
    var o := Opened(Closed(snapshot, id), other, middle);
    assert o[|snapshot|].id == other;
  }

  /** `updateWindowPos`: the position of records with `id` is replaced, unclamped. */
  function WithPos(ws: seq<WindowConfig>, id: JsString, p: Pos): (r: seq<WindowConfig>)
    ensures OnlyIdChanged(ws, r, id)
    ensures forall i :: 0 <= i < |ws| && ws[i].id == id ==> r[i] == ws[i].(pos := p)
  {
    seq(|ws|, i requires 0 <= i < |ws| => if ws[i].id == id then ws[i].(pos := p) else ws[i])
  }

  /** `updateWindowSize`: records with `id` get the requested size clamped into
      [340, 10000] x [150, 9000]; nothing else changes. */
  function WithSize(ws: seq<WindowConfig>, id: JsString, req: Size): (r: seq<WindowConfig>)
    ensures OnlyIdChanged(ws, r, id)
    ensures forall i :: 0 <= i < |ws| && ws[i].id == id ==>
      SizeInBounds(r[i].size) && r[i] == ws[i].(size := r[i].size)
    ensures forall i :: 0 <= i < |ws| && ws[i].id == id && SizeInBounds(req) ==> r[i].size == req
    ensures forall i :: 0 <= i < |ws| && ws[i].id == id ==> r[i].size == ClampSize(req)
  {
    seq(|ws|, i requires 0 <= i < |ws| => if ws[i].id == id then ws[i].(size := ClampSize(req)) else ws[i])
  }

  /** `updateWindowSizeAndPos`: the size is clamped as in `WithSize`, the
      position is taken as given. */
  function WithSizeAndPos(ws: seq<WindowConfig>, id: JsString, req: Size, p: Pos): (r: seq<WindowConfig>)
    ensures OnlyIdChanged(ws, r, id)
    ensures forall i :: 0 <= i < |ws| && ws[i].id == id ==>
      SizeInBounds(r[i].size) && r[i] == ws[i].(size := r[i].size, pos := p)
    ensures forall i :: 0 <= i < |ws| && ws[i].id == id && SizeInBounds(req) ==> r[i].size == req
    ensures forall i :: 0 <= i < |ws| && ws[i].id == id ==> r[i].size == ClampSize(req)
  {
    seq(|ws|, i requires 0 <= i < |ws| => if ws[i].id == id then ws[i].(size := ClampSize(req), pos := p) else ws[i])
  }

  /** `setWindowMinimized`: only the `minimized` flag of records with `id` changes. */
  function WithMinimized(ws: seq<WindowConfig>, id: JsString, m: bool): (r: seq<WindowConfig>)
    ensures OnlyIdChanged(ws, r, id)
    ensures forall i :: 0 <= i < |ws| && ws[i].id == id ==> r[i] == ws[i].(minimized := m)
  {
    seq(|ws|, i requires 0 <= i < |ws| => if ws[i].id == id then ws[i].(minimized := m) else ws[i])
  }

  /** Minimizing and then restoring a window that was not minimized gives back
      the list exactly: position and size are never touched. */
  lemma MinimizeRestores(ws: seq<WindowConfig>, id: JsString)
    requires forall i :: 0 <= i < |ws| && ws[i].id == id ==> !ws[i].minimized
    ensures WithMinimized(WithMinimized(ws, id, true), id, false) == ws
  {
    var r := WithMinimized(WithMinimized(ws, id, true), id, false);
    forall i | 0 <= i < |ws|
      ensures r[i] == ws[i]
    {
    }
  }

  // ---------------------------------------------------------------------------
  // Sidebar push-over
  // ---------------------------------------------------------------------------

  /** The sidebar width plus its 20 px buffer. */
  const PushoverWidth: int := SidebarWidth + 20

  /** A window is pushed when it is open, visible, not pinned at x = 0, and its
      right edge reaches into the strip the sidebar covers. */
  predicate ClipsSidebar(w: WindowConfig, viewportWidth: int)
  {
    w.pos.x + w.size.width > viewportWidth - PushoverWidth && w.open && !w.minimized && w.pos.x != 0
  }

  function PushOne(w: WindowConfig, viewportWidth: int): WindowConfig
  {
    if ClipsSidebar(w, viewportWidth)
    then w.(pos := Pos(Max(0, viewportWidth - PushoverWidth - w.size.width), w.pos.y))
    else w
  }

  /** The push-over pass run when the sidebar opens. */
  function PushedOver(ws: seq<WindowConfig>, viewportWidth: int): (r: seq<WindowConfig>)
    ensures |r| == |ws|
    ensures forall i :: 0 <= i < |ws| ==>
      r[i] == ws[i].(pos := Pos(r[i].pos.x, ws[i].pos.y))
    ensures forall i :: 0 <= i < |ws| && !ClipsSidebar(ws[i], viewportWidth) ==> r[i] == ws[i]
    ensures forall i :: 0 <= i < |ws| && ClipsSidebar(ws[i], viewportWidth) ==>
      && r[i].pos.x >= 0
      && (r[i].pos.x < ws[i].pos.x || ws[i].pos.x < 0)
      && (r[i].pos.x + r[i].size.width <= viewportWidth - PushoverWidth || r[i].pos.x == 0)
    ensures forall i :: 0 <= i < |ws| && ClipsSidebar(ws[i], viewportWidth) && ws[i].size.width <= viewportWidth - PushoverWidth ==>
      r[i].pos.x + r[i].size.width == viewportWidth - PushoverWidth
    ensures forall i :: 0 <= i < |ws| && ClipsSidebar(ws[i], viewportWidth) && ws[i].size.width > viewportWidth - PushoverWidth ==>
      r[i].pos.x == 0
  {
    seq(|ws|, i requires 0 <= i < |ws| => PushOne(ws[i], viewportWidth))
  }

  /** Pushing twice moves nothing further: the pass is idempotent. */
  lemma PushOverIdempotent(ws: seq<WindowConfig>, viewportWidth: int)
    ensures PushedOver(PushedOver(ws, viewportWidth), viewportWidth) == PushedOver(ws, viewportWidth)
  {
    var once := PushedOver(ws, viewportWidth);
    var twice := PushedOver(once, viewportWidth);
    forall i | 0 <= i < |ws|
      ensures twice[i] == once[i]
    {
      if ClipsSidebar(ws[i], viewportWidth) {
        assert !ClipsSidebar(once[i], viewportWidth);
      } else {
        assert once[i] == ws[i];
      }
    }
  }

  // ---------------------------------------------------------------------------
  // Re-applying the persisted list
  // ---------------------------------------------------------------------------

  /** The clamp applied to each decoded record: x into [0, W - width], y into
      [navbar - 1, H - height], the lower bound winning. */
  function ClampRestored(w: WindowConfig, scr: Screen): (r: WindowConfig)
    ensures r == w.(pos := r.pos)
    ensures r.pos.x >= 0 && r.pos.y >= scr.navbar - 1
    ensures w.size.width <= scr.width ==> r.pos.x + w.size.width <= scr.width
    ensures w.size.height <= scr.height - scr.navbar + 1 ==> r.pos.y + w.size.height <= scr.height
    ensures 0 <= w.pos.x <= scr.width - w.size.width ==> r.pos.x == w.pos.x
    ensures scr.navbar - 1 <= w.pos.y <= scr.height - w.size.height ==> r.pos.y == w.pos.y
    ensures w.pos.x < 0 || w.size.width > scr.width ==> r.pos.x == 0
    ensures w.size.width <= scr.width && w.pos.x > scr.width - w.size.width ==> r.pos.x == scr.width - w.size.width
    ensures w.pos.y < scr.navbar - 1 || w.size.height > scr.height - scr.navbar + 1 ==> r.pos.y == scr.navbar - 1
    ensures w.size.height <= scr.height - scr.navbar + 1 && w.pos.y > scr.height - w.size.height ==>
      r.pos.y == scr.height - w.size.height
  {
    w.(pos := Pos(Clamp(w.pos.x, 0, scr.width - w.size.width),
                  Clamp(w.pos.y, scr.navbar - 1, scr.height - w.size.height)))
  }

  /** The list the layout effect installs for a query value: empty for an
      empty (or missing) value, otherwise the decoded records, clamped. */
  function Restored(param: JsString, scr: Screen): (r: seq<WindowConfig>)
    ensures param == [] ==> r == []
    ensures param != [] ==> |r| == |Codec.Deserialize(param)|
    ensures forall i :: 0 <= i < |r| ==> r[i] == ClampRestored(Codec.Deserialize(param)[i], scr)
  {
    var ws := Codec.Deserialize(param);
    seq(|ws|, i requires 0 <= i < |ws| => ClampRestored(ws[i], scr))
  }

  /** Writing a list and re-applying it restores it exactly when every record
      is encodable and already lies inside the screen. */
  lemma RestoreAfterWrite(ws: seq<WindowConfig>, scr: Screen)
    requires forall i :: 0 <= i < |ws| ==> Codec.Encodable(ws[i])
    requires forall i :: 0 <= i < |ws| ==>
      && 0 <= ws[i].pos.x <= scr.width - ws[i].size.width
      && scr.navbar - 1 <= ws[i].pos.y <= scr.height - ws[i].size.height
    ensures Restored(Codec.Serialize(ws), scr) == ws
  {
    Codec.RoundTrip(ws);
  }
}
