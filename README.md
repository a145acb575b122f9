# Desktop window manager — a verified model

This project models the window manager of a simulated desktop in a web page.
The desktop shows icons that open movable, resizable windows. A store keeps
three things:

- the list of window records (`id`, `pos`, `size`, `open`, `minimized`);
- the focused id;
- the sidebar flag.

The store also writes the list into one `windows` query value and re-applies
that value on navigation. Around the store sit:

- the resize engine;
- the per-window controller, which handles fullscreen with a single save slot,
  half-screen fill, minimize, the ±40 px menu steps and the resize gesture;
- the drag-end handler of the desktop page, which clamps windows and icons;
- the sidebar, which lists the open windows.

Modules, one per source file:

| module | file | source |
|---|---|---|
| `WindowTypes` | `window_types.dfy` | records, constants and clamps (`types.ts`, `constants.ts`) |
| `Codec` | `codec.dfy` | `strManip`, `serializeWindowParams`, `deserializeWindowParams`, with JavaScript `parseInt`, `split` and `join` |
| `WindowList` | `window_list.dfy` | the list transformations each store operation applies, and the placement search |
| `Manager` | `window_manager.dfy` | class `WindowManager`: the store with its state and its operations |
| `Resize` | `resize.dfy` | `calcNewSizeAndPosFromResize` |
| `Modal` | `window_modal.dfy` | class `WindowModal`: the per-window controller |
| `Desktop` | `desktop.dfy` | class `Home`: the desktop page and `handleDragEnd` |
| `Sidebar` | `sidebar.dfy` | icon choice, the listed entries and the entry actions |

## How the model represents the source

- Strings are JavaScript strings, that is, sequences of UTF-16 code units
  (`CodeUnit` is 0..0xFFFF).
  - `strManip` adds or subtracts 1 modulo 2^16, as `String.fromCharCode` does.
  - `parseInt` is modelled as `Option<int>`. `None` stands for NaN. It skips
    leading whitespace, takes an optional sign and reads the leading digits.
- The inputs the core reads from its surroundings are parameters:
  - `window.innerWidth` and `window.innerHeight`, with the navbar height, form
    a `Screen`;
  - the result of `getMiddleOfScreenPos` is a `middle: Pos` argument;
  - `window.screen.height` is passed to `DisplayTop`.
- The query value is the store field `urlParam`; the empty string stands for
  an absent value.
  - The layout effect is the method `ApplyUrlParam`.
  - Back/forward navigation and reloads are the method `Navigate`.
- The timers are explicit pending steps, which the environment fires by
  calling a method:
  - each 100 ms drag-flag timer of `updateWindowPos` is `FireDragFlagTimer`;
  - the 150 ms debounced write of a resize is `FireSizeWrite`, and a new resize
    replaces the pending one;
  - the 300 ms settle step of each close is `FireSettle`, in first-in,
    first-out order.
- The per-window controller and the desktop page are classes that hold a
  reference to the store. Every geometry change goes through the store's
  methods.
- Controls that are disabled cannot be used, and are modelled as guarded
  no-ops:
  - menu items rendered with `data-disabled` (`pointer-events-none`);
  - the resize handles and the minimize button, in fullscreen;
  - a window's draggable, while resizing or in fullscreen
    (`WindowModal.DragEnabled`, passed to `HandleDragEnd`).

## Behaviour the code has

The model follows the code. The points below say where its behaviour may
surprise, and name the lemma that shows it, where there is one.

- **Close clears the focus.** `closeWindow` sets the focus to null whether or
  not the closed window had it.
- **Position writes are immediate.** `updateWindowPos` writes the query value
  at once. Only the reset of the drag flag waits 100 ms. Size writes are the
  ones that are debounced.
- **Decoded sizes are not clamped.** Decoding clamps positions but not sizes,
  so a decoded width or height can lie outside [340, 10000] × [150, 9000].
  Zero, missing or non-numeric sizes fall back to 600 and 325.
- **Malformed values still decode.** A malformed query value decodes to one
  record per `|`-separated piece, not to the empty list. A piece without `:`
  becomes a closed record with that id and the default size. Its position is
  NaN in the code, since `parseInt(undefined)` is NaN and the restore clamp
  keeps NaN; the model reads it as (0, 0), as the `Codec.CoordField` line under
  "## Left out" says (`MalformedPartDefaults`).
- **Settling maps over the old list.** The settle step maps over the list as
  it was when close was called. A window opened for the first time within those
  300 ms disappears from the list again (`SettleDropsLaterOpen`).
- **Dragging can cover the navbar.** The vertical drag clamp is an
  `if`/`else if`. When a window is taller than the space below the navbar, the
  bottom-edge rule wins and the window ends up over the navbar
  (`TallWindowCoversNavbar`).
- **The push-over can move a window right.** A clipping window with a negative
  x is moved right, to x = 0.
- **Round trips need safe ids.** The codec round-trips a record only when its
  width and height are non-zero and its id contains neither `9` nor `{`, which
  `strManip` shifts to the delimiters `:` and `|` (`RoundTrip`,
  `ShiftedDelimiters`).

## Model

| member | source | states |
|---|---|---|
| `WindowTypes.Clamp` | components/desktop/windows/use-window-manager.ts:169-170 | `max(lo, min(v, hi))` is at least `lo`, at most `hi` when `lo <= hi`, is `v` inside the range, snaps to the nearer bound outside it, and is `lo` when `hi < lo` |
| `WindowTypes.ClampSize` | components/desktop/windows/use-window-manager.ts:168-171 | each axis lands in its own [MIN, MAX] range, independently; an in-range axis is kept, one below snaps to MIN and one above to MAX |
| `Codec.StrManip` | components/desktop/windows/use-window-manager.ts:8-14 | the loop builds the string whose every code unit is shifted by ±1 modulo 2^16 |
| `Codec.UnshiftShift` | components/desktop/windows/use-window-manager.ts:8-14 | unshift after shift gives back every string |
| `Codec.ShiftUnshift` | components/desktop/windows/use-window-manager.ts:8-14 | shift after unshift gives back every string |
| `Codec.ShiftedDelimiters` | components/desktop/windows/use-window-manager.ts:20 | a code unit shifts to the colon exactly when it is `9`, and to the bar exactly when it is `{` |
| `Codec.ParseIntOfDecimal` | components/desktop/windows/use-window-manager.ts:31 | `parseInt` reads back every integer written in decimal |
| `Codec.Split` | components/desktop/windows/use-window-manager.ts:27 | `split` yields at least one piece and no piece holds the delimiter |
| `Codec.SplitJoin` | components/desktop/windows/use-window-manager.ts:22 | splitting a join gives back the parts when no part holds the delimiter |
| `Codec.JoinSplit` | components/desktop/windows/use-window-manager.ts:27 | joining the pieces of a split gives back the string |
| `Codec.SizeField` | components/desktop/windows/use-window-manager.ts:33-34 | a NaN or zero width or height is replaced by the default, any other parsed value is kept, and the result is never zero |
| `Codec.DecodeRecord` | components/desktop/windows/use-window-manager.ts:27-38 | a decoded record never has a zero width or height |
| `Codec.MalformedPartDefaults` | components/desktop/windows/use-window-manager.ts:28-38 | a piece without `:` decodes to a closed record with that id and the default size, at (0, 0) where the code has NaN (see `Codec.CoordField` under "## Left out") |
| `Codec.Serialize` | components/desktop/windows/use-window-manager.ts:16-23 | the written value is empty exactly when the list is empty |
| `Codec.Deserialize` | components/desktop/windows/use-window-manager.ts:25-40 | the empty value and only it gives the empty list; otherwise there is one record per bar-separated piece, none with a zero size |
| `Codec.DecodeEncodeRecord` | components/desktop/windows/use-window-manager.ts:16-38 | an encodable record's encoding holds no bar and decodes back to the record |
| `Codec.RoundTrip` | components/desktop/windows/use-window-manager.ts:16-40 | decoding the encoding of a list of encodable records gives back the list |
| `WindowList.Find` | components/desktop/windows/use-window-manager.ts:207 | `find` fails exactly when no record has the id, and otherwise returns the record at the first index that has it |
| `WindowList.FindFirst` | components/desktop/windows/use-window-manager.ts:207 | the record at the first index that has the id is the one `find` returns |
| `WindowList.OpenIffFoundOpen` | components/desktop/windows/use-window-manager.ts:52-54 | with unique ids, `some` open agrees with the `open` flag of the record `find` returns |
| `WindowList.GetWindow` | components/desktop/windows/use-window-manager.ts:206-216 | the stored record with the id, or a closed, unminimized default-sized record at the middle when there is none |
| `WindowList.PlacementStart` | components/desktop/windows/use-window-manager.ts:65-74 | the start of the search keeps a default-sized window on screen and at or below navbar−1, and is the middle itself when that already fits |
| `WindowList.PlacementIsFirstFree` | components/desktop/windows/use-window-manager.ts:76-92 | the placement is start + (30k, 30k) with k ≤ 20; every earlier candidate was crowded, and the chosen one is free unless k = 20 |
| `WindowList.FindStartingPos` | components/desktop/windows/use-window-manager.ts:76-92 | the bounded `while` loop stops after the number of steps the placement prescribes, at that candidate |
| `WindowList.UnknownIdUnchanged` | components/desktop/windows/use-window-manager.ts:157 | a per-id update of a list without that id leaves the list as it was |
| `WindowList.Opened` | components/desktop/windows/use-window-manager.ts:94-111 | records with the id are replaced in place, or exactly one record is appended; it is open, unminimized, default-sized at the placement, and found by `find` |
| `WindowList.OpenedKeepsIdsUnique` | components/desktop/windows/use-window-manager.ts:94-111 | opening keeps ids unique |
| `WindowList.Closed` | components/desktop/windows/use-window-manager.ts:126 | only `open` of records with the id becomes false, and the id is no longer open |
| `WindowList.Settled` | components/desktop/windows/use-window-manager.ts:137-142 | from the snapshot, records with the id become closed, at the middle, default-sized; others are kept |
| `WindowList.SettleDropsLaterOpen` | components/desktop/windows/use-window-manager.ts:137-142 | a window first opened after the close is gone from the list the settle step writes |
| `WindowList.WithPos` | components/desktop/windows/use-window-manager.ts:157 | only records with the id change, and only their position, unclamped |
| `WindowList.WithSize` | components/desktop/windows/use-window-manager.ts:166-172 | only records with the id change, and only their size, which is the request clamped axis by axis (`ClampSize`): kept when in bounds, snapped to the bound otherwise |
| `WindowList.WithSizeAndPos` | components/desktop/windows/use-window-manager.ts:189-194 | as `WithSize`, and the position is the request, unclamped |
| `WindowList.WithMinimized` | components/desktop/windows/use-window-manager.ts:230-234 | only the `minimized` flag of records with the id changes |
| `WindowList.MinimizeRestores` | components/desktop/windows/use-window-manager.ts:230-234 | minimizing then restoring an unminimized window gives back the list exactly |
| `WindowList.PushedOver` | components/desktop/windows/use-window-manager.ts:236-265 | only open, visible windows with x ≠ 0 reaching into the sidebar strip move; y and size never change; a moved window's right edge lands on the strip's edge, or at x = 0 when it is wider than the space left of the strip |
| `WindowList.PushOverIdempotent` | components/desktop/windows/use-window-manager.ts:236-265 | a second push-over moves nothing |
| `WindowList.ClampRestored` | components/desktop/windows/use-window-manager.ts:278-290 | only the position changes; a position already inside is kept; x snaps to 0 when negative or when the window is wider than the screen, and to W−w when past the right edge; y snaps to navbar−1 when above it or when the window is too tall, and to H−h when past the bottom |
| `WindowList.Restored` | components/desktop/windows/use-window-manager.ts:267-293 | an empty value installs the empty list; otherwise each decoded record, clamped to the screen |
| `WindowList.RestoreAfterWrite` | components/desktop/windows/use-window-manager.ts:267-293 | re-applying the written value gives back a list of encodable records that already lie on screen |
| `Manager.WindowManager.constructor` | components/desktop/windows/use-window-manager.ts:42-50 | the store starts empty, unfocused, sidebar closed, flag clear, with the query value it was loaded with |
| `Manager.WindowManager.IsWindowOpen` | components/desktop/windows/use-window-manager.ts:52-54 | true when some record with the id is open; with unique ids, exactly when the record `find` returns is open |
| `Manager.WindowManager.SetFocusedWindowId` | components/desktop/windows/use-window-manager.ts:47 | only the focus changes |
| `Manager.WindowManager.SetWindowMinimized` | components/desktop/windows/use-window-manager.ts:230-234 | the list becomes `WithMinimized` and is written at once |
| `Manager.WindowManager.OpenWindow` | components/desktop/windows/use-window-manager.ts:56-122 | an open window is only focused and unminimized; any other is placed and opened, written, and focused |
| `Manager.WindowManager.CloseWindow` | components/desktop/windows/use-window-manager.ts:124-143 | a window that is not open changes nothing; otherwise the list is closed and written, the focus cleared, and a settle step of the current list queued |
| `Manager.WindowManager.FireSettle` | components/desktop/windows/use-window-manager.ts:137-142 | the oldest queued settle replaces the list with `Settled` of its snapshot, without a write |
| `Manager.WindowManager.UpdateWindowPos` | components/desktop/windows/use-window-manager.ts:155-164 | the position is set unclamped and written at once; the flag is set and one more flag timer pending |
| `Manager.WindowManager.FireDragFlagTimer` | components/desktop/windows/use-window-manager.ts:161-163 | a pending flag timer clears the flag; nothing else changes |
| `Manager.WindowManager.UpdateWindowSize` | components/desktop/windows/use-window-manager.ts:166-182 | the clamped size is applied at once; the write is pending with the new list, replacing any earlier one |
| `Manager.WindowManager.UpdateWindowSizeAndPos` | components/desktop/windows/use-window-manager.ts:184-204 | as `UpdateWindowSize`, with the position set unclamped |
| `Manager.WindowManager.FireSizeWrite` | components/desktop/windows/use-window-manager.ts:178-181 | the pending list is written and the flag cleared |
| `Manager.WindowManager.SetWindowManagerSidebarOpen` | components/desktop/windows/use-window-manager.ts:236-265 | opening pushes windows over and writes the list; closing changes no window |
| `Manager.WindowManager.Navigate` | components/desktop/windows/use-window-manager.ts:45 | only the query value changes |
| `Manager.WindowManager.ApplyUrlParam` | components/desktop/windows/use-window-manager.ts:267-293 | skipped while the flag is set; otherwise the list becomes the restored value |
| `Manager.ReopenKeepsGeometry` | components/desktop/windows/use-window-manager.ts:57-61 | opening an open window changes no position, size or open flag |
| `Manager.CloseThenSettle` | components/desktop/windows/use-window-manager.ts:124-143 | after close and settle the window is closed, at the middle, with the default size |
| `Resize.NewSizeAndPos` | components/desktop/windows/utils.ts:4-37 | a moved height is the start height plus the pointer's y delta, clamped to [150, 9000]; a moved width is the start width plus (east) or minus (west) the x delta, clamped to [340, 10000]; unmoved axes keep the current size; the top edge never moves, only west edges move x, and west edges keep the right edge anchored |
| `Resize.EdgesFollowPointer` | components/desktop/windows/utils.ts:12-22 | within bounds the east edge follows the pointer and the west edge follows it mirrored, moving x by the pointer delta |
| `Resize.WestClampedAnchor` | components/desktop/windows/utils.ts:19-33 | past the maximum, x moves by the width change actually applied, not by the pointer |
| `Resize.WidthMonotone` | components/desktop/windows/utils.ts:15-19 | further right never narrows an east resize nor widens a west resize |
| `Resize.SouthEastExample` | components/desktop/windows/utils.ts:12-35 | south-east by (50, −10) from 600 × 325 at (100, 100) gives 650 × 315 at (100, 100) |
| `Resize.WestExample` | components/desktop/windows/utils.ts:12-35 | west by −40 from 600 × 325 gives width 640 at x = 60 |
| `Modal.FullscreenFrame` | components/desktop/windows/window-modal.tsx:104-110 | the full width from x = 0, from navbar−1 down to the bottom edge |
| `Modal.RestoreFrame` | components/desktop/windows/window-modal.tsx:79-98 | the size is the saved one capped at W−60 and H−navbar−60; x is the saved x clamped to [0, W−w] and y the saved y clamped to [navbar+20, H−h], so fitting values are kept and others snap to the nearer edge |
| `Modal.HalfFrame` | components/desktop/windows/window-modal.tsx:113-130 | half the width, from navbar−1 to the bottom, at x = 0 or at x = the width of the half |
| `Modal.HalvesAdjacent` | components/desktop/windows/window-modal.tsx:125-129 | the right half starts where the left half ends, with the same size |
| `Modal.FullscreenRoundTrip` | components/desktop/windows/window-modal.tsx:79-110 | entering then leaving fullscreen gives back the list exactly when the saved geometry fits the margins |
| `Modal.DisplayTop` | components/desktop/windows/window-modal.tsx:148 | a minimized window is drawn at the screen height and its stored position is not consulted |
| `Modal.WindowModal.constructor` | components/desktop/windows/window-modal.tsx:18-27 | a controller starts windowed, with an empty slot and no gesture |
| `Modal.WindowModal.ToggleFullscreen` | components/desktop/windows/window-modal.tsx:76-111 | entering saves the geometry in the slot and requests the fullscreen frame; leaving requests the restore frame, or with an empty slot only clears the flag |
| `Modal.WindowModal.FillHalfScreen` | components/desktop/windows/window-modal.tsx:113-130 | clears fullscreen, overwrites the slot and requests the half frame |
| `Modal.WindowModal.ToggleMinimize` | components/desktop/windows/window-modal.tsx:132-134 | hidden, so a no-op, in fullscreen; otherwise only `minimized` is flipped, the list is written at once, and nothing else in the store changes |
| `Modal.WindowModal.ResetWindow` | components/desktop/windows/window-modal.tsx:241-246 | clears fullscreen and the slot and requests the default size at the centre |
| `Modal.WindowModal.IncreaseHeight` | components/desktop/windows/window-modal.tsx:254-264 | disabled at the maximum height or in fullscreen; otherwise 40 px higher at the same position, without leaving fullscreen |
| `Modal.WindowModal.DecreaseHeight` | components/desktop/windows/window-modal.tsx:271-286 | disabled at the minimum; otherwise 40 px lower but not below 150, same position, fullscreen cleared |
| `Modal.WindowModal.IncreaseWidth` | components/desktop/windows/window-modal.tsx:293-305 | disabled at the maximum or in fullscreen; otherwise 40 px wider capped at 10000, same position |
| `Modal.WindowModal.DecreaseWidth` | components/desktop/windows/window-modal.tsx:312-324 | disabled at the minimum; otherwise 40 px narrower but not below 340, same position |
| `Modal.WindowModal.Close` | components/desktop/windows/window-modal.tsx:331-335 | clears fullscreen and the slot; an open window is closed in the store, the list written, the focus cleared and a settle step of the old list queued; otherwise the store is unchanged |
| `Modal.WindowModal.HandleMouseDown` | components/desktop/windows/window-modal.tsx:201 | the window becomes focused; nothing else in the store changes |
| `Modal.WindowModal.HandleResizeStart` | components/desktop/windows/window-modal.tsx:38-46 | no gesture starts in fullscreen; otherwise the gesture starts resizing from a snapshot of the record and the pointer |
| `Modal.WindowModal.HandleMouseMove` | components/desktop/windows/window-modal.tsx:48-61 | while resizing, the frame computed from the start snapshot is requested; otherwise nothing changes |
| `Modal.WindowModal.HandleMouseUp` | components/desktop/windows/window-modal.tsx:63-68 | the gesture returns to idle |
| `Desktop.DraggableId` | components/desktop/windows/window-modal.tsx:30-33 | a window's draggable id carries the prefix followed by the window id |
| `Desktop.WindowIdOf` | app/page.tsx:29-30 | a drag is a window drag exactly when the id has the prefix, and the stripped id rebuilds the draggable id |
| `Desktop.DraggableIdRoutes` | app/page.tsx:29-30 | stripping inverts building the draggable id |
| `Desktop.IconsAreNotWindows` | app/page.tsx:92-107 | the two icons' ids are not routed to windows |
| `Desktop.DraggedWindowPos` | app/page.tsx:33-47 | an in-bounds target is kept; above the navbar snaps to it, left of 0 snaps to 0; past the bottom snaps to H−h and past the right edge to W−w; a window that fits ends in [0, W−w] × [navbar, H−h] |
| `Desktop.TallWindowCoversNavbar` | app/page.tsx:37-41 | a window taller than the space below the navbar is dropped over the navbar |
| `Desktop.ClampIcon` | app/page.tsx:71-72 | an icon coordinate is never negative and keeps the 80 px footprint inside; an inside value is kept, a negative one snaps to 0 and one past the far edge to bound−80; 0 when the bounds are smaller than an icon |
| `Desktop.IconDragged` | app/page.tsx:61-75 | only the dragged icon's entry changes; a missing entry starts at (0, 0); an in-bounds target is kept, and an out-of-range target snaps to 0 or to bound−80 on each axis |
| `Desktop.IconDragIdle` | app/page.tsx:61-75 | a zero drag of an icon inside the bounds changes nothing |
| `Desktop.Home.constructor` | app/page.tsx:12-16 | the icons start at (20, 25) and (20, 125), with no bounds |
| `Desktop.Home.SetBounds` | app/page.tsx:12 | only the bounds change |
| `Desktop.Home.ClickIcon` | app/page.tsx:95-103 | a click on an icon focuses its window; an open window is un-minimized, any other is placed and opened; the list is written at once; no flag, timer, pending write or settle changes; other icons change nothing |
| `Desktop.Home.EndWindowDrag` | components/desktop/windows/window-modal.tsx:30-33 | a window's drag ends only when its draggable is enabled, neither resizing nor fullscreen; then it moves to the clamped target, is written at once, the flag is set with one more timer, and nothing else in the store changes |
| `Desktop.Home.HandleDragEnd` | app/page.tsx:25-76 | a drag from a disabled draggable changes nothing; a window drag moves the window to the clamped target through the store, writes at once and starts one more flag timer; an icon drag moves the icon, or nothing without bounds |
| `Sidebar.Extension` | components/desktop/windows/window-manager-sidebar.tsx:11 | the extension has no dot and is no longer than the id |
| `Sidebar.ExtensionWithoutDot` | components/desktop/windows/window-manager-sidebar.tsx:11 | an id without a dot is taken whole as its extension, lower-cased |
| `Sidebar.IconFor` | components/desktop/windows/window-manager-sidebar.tsx:10-27 | the text icon exactly for the extensions txt, md and pdf |
| `Sidebar.ExtensionAfterDot` | components/desktop/windows/window-manager-sidebar.tsx:11 | the extension of `name.ext` is `ext` lower-cased when `ext` has no dot |
| `Sidebar.MarkdownIsText` | components/desktop/windows/window-manager-sidebar.tsx:15-19 | `intro.md` gets the text icon |
| `Sidebar.UpperCaseTxtIsText` | components/desktop/windows/window-manager-sidebar.tsx:11-19 | `notes.TXT` gets the text icon: the comparison ignores case |
| `Sidebar.ImageIsWindow` | components/desktop/windows/window-manager-sidebar.tsx:20-23 | `photo.png` gets the window icon |
| `Sidebar.BareExtensionIsText` | components/desktop/windows/window-manager-sidebar.tsx:11 | an id without a dot is its own extension: `md` gets the text icon |
| `Sidebar.TrailingDotIsWindow` | components/desktop/windows/window-manager-sidebar.tsx:13 | an id ending in a dot has an empty extension and gets the window icon |
| `Sidebar.OpenEntries` | components/desktop/windows/window-manager-sidebar.tsx:40 | the entries are open records of the store, and every open record is listed |
| `Sidebar.OpenEntriesAppend` | components/desktop/windows/window-manager-sidebar.tsx:40 | the filter keeps store order: it distributes over concatenation |
| `Sidebar.ListedIffOpen` | components/desktop/windows/window-manager-sidebar.tsx:40 | an id is listed exactly when the store reports it open |
| `Sidebar.Activate` | components/desktop/windows/window-manager-sidebar.tsx:77-80 | the window is focused and unminimized, the list is written at once, and its entries are highlighted |
| `Sidebar.KeyDown` | components/desktop/windows/window-manager-sidebar.tsx:81-87 | Enter and Space activate the entry, writing the list at once; other keys change nothing |
| `Sidebar.ActivatedIsHighlighted` | components/desktop/windows/window-manager-sidebar.tsx:73 | after activation every listed entry with the id is highlighted |
| `Sidebar.CloseEntry` | components/desktop/windows/window-manager-sidebar.tsx:100-103 | an open window is closed, the list written, the focus cleared, a settle step queued, and the window is no longer listed; otherwise the store is unchanged |
| `Sidebar.ClosedIsUnlisted` | components/desktop/windows/window-manager-sidebar.tsx:40 | a closed window is not among the entries |
| `Sidebar.Hide` | components/desktop/windows/window-manager-sidebar.tsx:55 | the sidebar closes; no window moves, nothing is written, and no other store field changes |

## Left out

- Routing and URL plumbing (`useRouter`, `useSearchParams`, `URLSearchParams`, `router.replace`, `window.location`). Persistence is the last written `windows` value only.
- Real time. The 100, 150 and 300 ms timers are pending steps that the environment fires; their interleaving with other events is up to the caller.
- React machinery and rendering: hooks, JSX, CSS, tooltips, the dropdown's open state, `isNarrow`, the mount flag, transitions and the `console.log` effect.
- dnd-kit and DOM event wiring. Drags arrive as deltas at drag end; resize gestures arrive as start, move and up events.
- The visual drag offset of a window or icon during a drag (`transform`). Only the drag-end handler changes state.
- The thin or purely visual files: navbar, button, app layout, desktop icon, the two static window contents and the context provider. `NAVBAR_HEIGHT` and `getMiddleOfScreenPos` are not part of this model and are taken as parameters.
- The server-rendering guard `typeof window === "undefined"`. The model always runs in the browser.
- `Codec.CoordField`: `parseInt` of a missing or non-numeric x or y is NaN in the source. The model reads it as 0, since positions are integers here.
- `Codec.ParseInt`: models `parseInt` on integer values. The loss of precision above 2^53 is not modelled, nor the exponent form (`1e+21`) in which the template literal writes numbers of 10^21 and above, which `parseInt` would read back as 1.
- `Modal.HalfFrame`: for an odd viewport width the source requests W/2 as a fraction. The model rounds it down.
- `Sidebar.LowerUnit`: lower-cases the ASCII letters only. `toLowerCase` on other code units is not modelled; it cannot turn an extension into `txt`, `md` or `pdf`.
- `Modal.WindowModal.HandleMouseMove`: listeners of an earlier gesture that never received a mouse-up are not modelled. Each controller has one gesture at a time. The source's move listener calls the `updateWindowSizeAndPos` captured when the gesture started, which maps over the list of that render; the model maps over the current list, so a change made to another window during the gesture is kept here.
- `Manager.WindowManager.ApplyUrlParam`: the layout effect runs on mount and when the query value changes. The model lets the environment call it at any time, so it may also re-apply a value that has not changed.
- Fractional geometry. In the source, drag deltas, `W / 2` and the centre of the screen can be fractional, and writing then decoding the query value truncates them through `parseInt`. The model's positions and sizes are integers, so this truncation is not modelled.
