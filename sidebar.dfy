/** The window-manager sidebar: the list of open windows, each with an icon
    chosen from its id's extension, a highlight for the focused one, and the
    actions its entries and its hide button trigger in the store. */
module Sidebar {
  import opened WindowTypes
  import opened WindowList
  import Codec
  import Manager

  const Dot: CodeUnit := 46

  datatype Icon = FileTextIcon | AppWindowIcon

  /** The keys an entry reacts to; every other key is ignored. */
  datatype Key = Enter | Space | OtherKey

  function Last<T>(s: seq<T>): T
    requires |s| >= 1
  {
    s[|s| - 1]
  }

  /** `toLowerCase` on one code unit, for the ASCII letters. */
  function LowerUnit(c: CodeUnit): (r: CodeUnit)
    ensures 65 <= c <= 90 ==> r as int == c as int + 32
    ensures !(65 <= c <= 90) ==> r == c
    ensures !(65 <= r <= 90)
  {
    if 65 <= c <= 90 then c + 32 else c
  }

  function ToLower(s: JsString): (r: JsString)
    ensures |r| == |s|
    ensures forall i :: 0 <= i < |s| ==> r[i] == LowerUnit(s[i])
  {
    seq(|s|, i requires 0 <= i < |s| => LowerUnit(s[i]))
  }

  /** `id.split(".").pop().toLowerCase()`: the last dot-separated piece,
      lower-cased (the whole id when it has no dot). */
  function Extension(id: JsString): (e: JsString)
    ensures Dot !in e
    ensures |e| <= |id|
  {
    var pieces := Codec.Split(id, Dot);
    LastPieceIsSuffix(id, Dot);
    ToLower(Last(pieces))
  }

  const Txt: JsString := Ascii("txt")
  const Md: JsString := Ascii("md")
  const Pdf: JsString := Ascii("pdf")

  /** `getIconFromExtension`: a text icon for txt, md and pdf, the window icon
      for everything else, including an empty extension. Images take the
      window icon as well, through their own case. */
  function IconFor(id: JsString): (icon: Icon)
    ensures icon == FileTextIcon <==> Extension(id) in {Txt, Md, Pdf}
  {
    var ext := Extension(id);
    if ext == [] then AppWindowIcon
    else if ext == Txt || ext == Md || ext == Pdf then FileTextIcon
    else AppWindowIcon
  }

  /** The last piece of a split is a suffix of the string. */
  lemma {:induction false} LastPieceIsSuffix(s: JsString, d: CodeUnit)
    ensures var l := Last(Codec.Split(s, d)); |l| <= |s| && s[|s| - |l|..] == l
  {
    if s != [] {
      var tail := s[1..];
      var rest := Codec.Split(tail, d);
      LastPieceIsSuffix(tail, d);
      var l := Last(rest);
      assert s[|s| - |l|..] == tail[|tail| - |l|..];
      if s[0] == d {
        assert Codec.Split(s, d) == [[]] + rest;
      } else if |rest| > 1 {
        assert Codec.Split(s, d) == [[s[0]] + rest[0]] + rest[1..];
      } else {
        Codec.JoinSplit(tail, d);
        assert rest == [tail];
        assert Codec.Split(s, d) == [[s[0]] + tail];
        assert [s[0]] + tail == s;
      }
    }
  }

  /** The piece after the last delimiter is the last piece of the split. */
  lemma {:induction false} SplitLast(p: JsString, e: JsString, d: CodeUnit)
    requires d !in e
    ensures |Codec.Split(p + [d] + e, d)| >= 2
    ensures Last(Codec.Split(p + [d] + e, d)) == e
  {
    var s := p + [d] + e;
    if p == [] {
      assert s[1..] == e;
      Codec.SplitNoDelimiter(e, d);
    } else {
      assert s[1..] == p[1..] + [d] + e;
      SplitLast(p[1..], e, d);
    }
  }

  /** An id `name.ext` whose `ext` has no dot has extension `ext`, lower-cased. */
  lemma ExtensionAfterDot(name: JsString, ext: JsString)
    requires Dot !in ext
    ensures Extension(name + [Dot] + ext) == ToLower(ext)
  {
    SplitLast(name, ext, Dot);
  }

  /** An id without a dot is taken whole as its extension, lower-cased. */
  lemma ExtensionWithoutDot(id: JsString)
    requires Dot !in id
    ensures Extension(id) == ToLower(id)
  {
    Codec.SplitNoDelimiter(id, Dot);
  }

  lemma MarkdownIsText()
    ensures IconFor(Ascii("intro.md")) == FileTextIcon
  {
    var name := Ascii("intro");
    assert Ascii("intro.md") == name + [Dot] + Md;
    ExtensionAfterDot(name, Md);
    assert ToLower(Md) == Md;
  }

  lemma UpperCaseTxtIsText()
    ensures IconFor(Ascii("notes.TXT")) == FileTextIcon
  {
    var name, ext := Ascii("notes"), Ascii("TXT");
    assert Ascii("notes.TXT") == name + [Dot] + ext;
    ExtensionAfterDot(name, ext);
    assert ToLower(ext) == Txt;
  }

  lemma ImageIsWindow()
    ensures IconFor(Ascii("photo.png")) == AppWindowIcon
  {
    var name, png := Ascii("photo"), Ascii("png");
    assert Ascii("photo.png") == name + [Dot] + png;
    ExtensionAfterDot(name, png);
    assert ToLower(png) == png;
    assert png[0] != Txt[0] && png[0] != Md[0] && png[1] != Pdf[1];
  }

  /** An id without a dot is its own extension. */
  lemma BareExtensionIsText()
    ensures IconFor(Md) == FileTextIcon
  {
    ExtensionWithoutDot(Md);
    assert ToLower(Md) == Md;
  }

  /** An id ending in a dot has an empty extension. */
  lemma TrailingDotIsWindow()
    ensures IconFor(Ascii("archive.")) == AppWindowIcon
  {
    var name := Ascii("archive");
    assert Ascii("archive.") == name + [Dot] + [];
    ExtensionAfterDot(name, []);
  }

  /** The entries the sidebar lists: the open records, in store order. */
  function OpenEntries(ws: seq<WindowConfig>): (r: seq<WindowConfig>)
    ensures |r| <= |ws|
    ensures forall i :: 0 <= i < |r| ==> r[i].open && r[i] in ws
    ensures forall w :: w in ws && w.open ==> w in r
  {
    if ws == [] then []
    else if ws[0].open then [ws[0]] + OpenEntries(ws[1..])
    else OpenEntries(ws[1..])
  }

  /** The filter keeps the order of the store: it distributes over concatenation. */
  lemma {:induction false} OpenEntriesAppend(a: seq<WindowConfig>, b: seq<WindowConfig>)
    ensures OpenEntries(a + b) == OpenEntries(a) + OpenEntries(b)
  {
    if a != [] {
      assert (a + b)[0] == a[0];
      assert (a + b)[1..] == a[1..] + b;
      OpenEntriesAppend(a[1..], b);
      if a[0].open {
        assert OpenEntries(a + b) == [a[0]] + OpenEntries(a[1..] + b);
        assert OpenEntries(a) == [a[0]] + OpenEntries(a[1..]);
      } else {
        assert OpenEntries(a + b) == OpenEntries(a[1..] + b);
        assert OpenEntries(a) == OpenEntries(a[1..]);
      }
    } else {
      assert a + b == b;
    }
  }

  /** An id is listed exactly when the store reports it open. */
  lemma {:induction false} ListedIffOpen(ws: seq<WindowConfig>, id: JsString)
    ensures (exists i :: 0 <= i < |OpenEntries(ws)| && OpenEntries(ws)[i].id == id) <==> IsOpenIn(ws, id)
  {
    var r := OpenEntries(ws);
    if IsOpenIn(ws, id) {
      var k :| 0 <= k < |ws| && ws[k].id == id && ws[k].open;
      assert ws[k] in r;
      var j :| 0 <= j < |r| && r[j] == ws[k];
      assert OpenEntries(ws)[j].id == id;
    }
    if j :| 0 <= j < |r| && r[j].id == id {
      assert r[j].open && r[j] in ws;
      var k :| 0 <= k < |ws| && ws[k] == r[j];
      assert ws[k].id == id && ws[k].open;
      assert IsOpenIn(ws, id);
      assert OpenEntries(ws)[j].id == id;
    }
  }

  /** An entry is highlighted when it is focused and not minimized. */
  predicate Highlighted(w: WindowConfig, focused: Option<JsString>)
  {
    focused == Some(w.id) && !w.minimized
  }

  /** A click on an entry (or Enter or Space on it): focus the window and
      bring it back from minimized. */
  method Activate(store: Manager.WindowManager, id: JsString)
    modifies store
    ensures store.focused == Some(id)
    ensures store.windows == WithMinimized(old(store.windows), id, false)
    ensures store.urlParam == Codec.Serialize(store.windows)
    ensures store.sidebarOpen == old(store.sidebarOpen)
    ensures store.updatingFromDrag == old(store.updatingFromDrag) && store.dragFlagTimers == old(store.dragFlagTimers)
    ensures store.pendingSizeWrite == old(store.pendingSizeWrite) && store.pendingSettles == old(store.pendingSettles)
    ensures forall w :: w in OpenEntries(store.windows) && w.id == id ==> Highlighted(w, store.focused)
  {
    store.SetFocusedWindowId(Some(id));
    store.SetWindowMinimized(id, false);
    ActivatedIsHighlighted(old(store.windows), id);
  }

  /** A key press on an entry: Enter and Space activate it, other keys do nothing. */
  method KeyDown(store: Manager.WindowManager, id: JsString, key: Key)
    modifies store
    ensures key == OtherKey ==> unchanged(store)
    ensures key != OtherKey ==>
      && store.focused == Some(id) && store.windows == WithMinimized(old(store.windows), id, false)
      && store.urlParam == Codec.Serialize(store.windows)
      && store.sidebarOpen == old(store.sidebarOpen)
      && store.updatingFromDrag == old(store.updatingFromDrag) && store.dragFlagTimers == old(store.dragFlagTimers)
      && store.pendingSizeWrite == old(store.pendingSizeWrite) && store.pendingSettles == old(store.pendingSettles)
  {
    if key == Enter || key == Space {
      Activate(store, id);
    }
  }

  /** Activating an entry leaves every listed record with that id highlighted. */
  lemma ActivatedIsHighlighted(ws: seq<WindowConfig>, id: JsString)
    ensures forall w :: w in OpenEntries(WithMinimized(ws, id, false)) && w.id == id ==> Highlighted(w, Some(id))
  {
    var r := WithMinimized(ws, id, false);
    forall w | w in OpenEntries(r) && w.id == id
      ensures !w.minimized
    {
      var k :| 0 <= k < |r| && r[k] == w;
    }
  }

  /** The close button of an entry closes that window. */
  method CloseEntry(store: Manager.WindowManager, id: JsString)
    modifies store
    ensures old(store.IsWindowOpen(id)) ==>
      && store.windows == Closed(old(store.windows), id) && store.focused == None
      && store.urlParam == Codec.Serialize(store.windows)
      && store.pendingSettles == old(store.pendingSettles) + [Manager.PendingSettle(old(store.windows), id)]
    ensures old(store.IsWindowOpen(id)) ==> forall w :: w in OpenEntries(store.windows) ==> w.id != id
    ensures !old(store.IsWindowOpen(id)) ==> unchanged(store)
    ensures store.sidebarOpen == old(store.sidebarOpen)
    ensures store.updatingFromDrag == old(store.updatingFromDrag) && store.dragFlagTimers == old(store.dragFlagTimers)
    ensures store.pendingSizeWrite == old(store.pendingSizeWrite)
  {
    store.CloseWindow(id);
    ClosedIsUnlisted(old(store.windows), id);
  }

  /** After a close, the window is no longer listed. */
  lemma ClosedIsUnlisted(ws: seq<WindowConfig>, id: JsString)
    ensures forall w :: w in OpenEntries(Closed(ws, id)) ==> w.id != id
  {
    var r := Closed(ws, id);
    forall w | w in OpenEntries(r)
      ensures w.id != id
    {
      var k :| 0 <= k < |r| && r[k] == w;
    }
  }

  /** The hide button closes the sidebar; hiding never moves a window. */
  method Hide(store: Manager.WindowManager, scr: Screen)
    modifies store
    ensures !store.sidebarOpen && store.windows == old(store.windows) && store.urlParam == old(store.urlParam)
    ensures store.focused == old(store.focused)
    ensures store.updatingFromDrag == old(store.updatingFromDrag) && store.dragFlagTimers == old(store.dragFlagTimers)
    ensures store.pendingSizeWrite == old(store.pendingSizeWrite) && store.pendingSettles == old(store.pendingSettles)
  {
    store.SetWindowManagerSidebarOpen(false, scr);
  }
}
