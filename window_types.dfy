/** Records, constants and small clamps shared by the window manager, the codec,
    the resize and drag engines and the sidebar. */
module WindowTypes {

  /** One UTF-16 code unit, as returned by `charCodeAt`. */
  newtype CodeUnit = x: int | 0 <= x < 0x1_0000

  /** A JavaScript string: a sequence of UTF-16 code units. */
  type JsString = seq<CodeUnit>

  datatype Option<+T> = None | Some(value: T)

  datatype Pos = Pos(x: int, y: int)
  datatype Size = Size(width: int, height: int)

  /** A size together with a top-left position. */
  datatype Frame = Frame(size: Size, pos: Pos)

  /** One window record: the store keeps a list of these. */
  datatype WindowConfig = WindowConfig(id: JsString, pos: Pos, size: Size, open: bool, minimized: bool)

  /** What the page reads from its environment: `window.innerWidth`,
      `window.innerHeight` and the navbar height constant. */
  datatype Screen = Screen(width: int, height: int, navbar: int)

  const DefaultWidth: int := 600
  const DefaultHeight: int := 325
  const MinWidth: int := 340
  const MinHeight: int := 150
  const MaxWidth: int := 10000
  const MaxHeight: int := 9000
  const SidebarWidth: int := 300

  const DefaultSize: Size := Size(DefaultWidth, DefaultHeight)

  function Min(a: int, b: int): int { if a <= b then a else b }
  function Max(a: int, b: int): int { if a >= b then a else b }

  /** `Math.max(lo, Math.min(v, hi))`: the lower bound wins when `hi < lo`. */
  function Clamp(v: int, lo: int, hi: int): (r: int)
    ensures r >= lo
    ensures lo <= hi ==> r <= hi
    ensures lo <= v <= hi ==> r == v
    ensures v < lo ==> r == lo
    ensures lo <= hi < v ==> r == hi
    ensures hi < lo ==> r == lo
  {
    Max(lo, Min(v, hi))
  }

  /** The size clamp of `updateWindowSize` and `updateWindowSizeAndPos`:
      each axis is clamped into its own [MIN, MAX] range. */
  function ClampSize(s: Size): (r: Size)
    ensures MinWidth <= r.width <= MaxWidth
    ensures MinHeight <= r.height <= MaxHeight
    ensures MinWidth <= s.width <= MaxWidth ==> r.width == s.width
    ensures MinHeight <= s.height <= MaxHeight ==> r.height == s.height
    ensures s.width < MinWidth ==> r.width == MinWidth
    ensures s.width > MaxWidth ==> r.width == MaxWidth
    ensures s.height < MinHeight ==> r.height == MinHeight
    ensures s.height > MaxHeight ==> r.height == MaxHeight
  {
    Size(Clamp(s.width, MinWidth, MaxWidth), Clamp(s.height, MinHeight, MaxHeight))
  }

  predicate SizeInBounds(s: Size)
  {
    MinWidth <= s.width <= MaxWidth && MinHeight <= s.height <= MaxHeight
  }

  /** The string literal `s`, all of whose characters are ASCII, as code units. */
  function Ascii(s: string): (r: JsString)
    requires forall i :: 0 <= i < |s| ==> s[i] as int < 128
    ensures |r| == |s|
    ensures forall i :: 0 <= i < |s| ==> r[i] as int == s[i] as int
  {
    seq(|s|, i requires 0 <= i < |s| => s[i] as int as CodeUnit)
  }

  /** At most one record per id. */
  predicate UniqueIds(ws: seq<WindowConfig>)
  {
    forall i, j :: 0 <= i < j < |ws| ==> ws[i].id != ws[j].id
  }
}
