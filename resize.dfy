/** The resize engine: from the pointer position, the active edge and the
    snapshot taken when the gesture started, the new size and position. */
module Resize {
  import opened WindowTypes

  /** The resize handles: east, south, south-east, west, south-west. There is no
      handle on the top edge. */
  datatype Edge = E | S | SE | W | SW

  predicate IsWest(edge: Edge) { edge == W || edge == SW }
  predicate MovesWidth(edge: Edge) { edge == E || edge == SE || edge == W || edge == SW }
  predicate MovesHeight(edge: Edge) { edge == S || edge == SE || edge == SW }

  /** calcNewSizeAndPosFromResize. `pointer` is the current pointer position,
      `startPointer`, `startSize` and `startWindowPos` the snapshot taken at the
      start of the gesture, `current` the size the window had then. */
  function NewSizeAndPos(pointer: Pos, edge: Edge, startSize: Size, startPointer: Pos,
                         startWindowPos: Pos, current: Size): (f: Frame)
    ensures MovesWidth(edge) ==> MinWidth <= f.size.width <= MaxWidth
    ensures !MovesWidth(edge) ==> f.size.width == current.width
    ensures MovesHeight(edge) ==> MinHeight <= f.size.height <= MaxHeight
    ensures !MovesHeight(edge) ==> f.size.height == current.height
    ensures f.pos.y == startWindowPos.y
    ensures !IsWest(edge) ==> f.pos.x == startWindowPos.x
    ensures IsWest(edge) ==> f.pos.x + f.size.width == startWindowPos.x + startSize.width
    ensures MovesHeight(edge) ==>
      f.size.height == Clamp(startSize.height + (pointer.y - startPointer.y), MinHeight, MaxHeight)
    ensures MovesWidth(edge) && !IsWest(edge) ==>
      f.size.width == Clamp(startSize.width + (pointer.x - startPointer.x), MinWidth, MaxWidth)
    ensures IsWest(edge) ==>
      f.size.width == Clamp(startSize.width - (pointer.x - startPointer.x), MinWidth, MaxWidth)
  {
    var deltaX := pointer.x - startPointer.x;
    var deltaY := pointer.y - startPointer.y;
    var widthDelta := if IsWest(edge) then -deltaX else deltaX;
    var newWidth := Clamp(startSize.width + widthDelta, MinWidth, MaxWidth);
    var newHeight := Clamp(startSize.height + deltaY, MinHeight, MaxHeight);
    var actualWidthChange := newWidth - startSize.width;
    Frame(
      Size(if MovesWidth(edge) then newWidth else current.width,
           if MovesHeight(edge) then newHeight else current.height),
      Pos(if IsWest(edge) then startWindowPos.x - actualWidthChange else startWindowPos.x,
          startWindowPos.y))
  }

  /** Within the size bounds, the east edge follows the pointer exactly and the
      west edge follows it mirrored: moving left by `d` widens by `d` and moves
      the window left by `d`. */
  lemma {:induction false} EdgesFollowPointer(pointer: Pos, edge: Edge, startSize: Size, startPointer: Pos, startWindowPos: Pos)
    requires MovesWidth(edge)
    requires var dx := pointer.x - startPointer.x;
      MinWidth <= startSize.width + (if IsWest(edge) then -dx else dx) <= MaxWidth
    ensures var f := NewSizeAndPos(pointer, edge, startSize, startPointer, startWindowPos, startSize);
      var dx := pointer.x - startPointer.x;
      && (!IsWest(edge) ==> f.size.width == startSize.width + dx)
      && (IsWest(edge) ==> f.size.width == startSize.width - dx && f.pos.x == startWindowPos.x + dx)
  {
  }

  /** Beyond the bounds the west edge still keeps the right edge anchored: the
      window moves by the width change actually applied, not by the pointer. */
  lemma WestClampedAnchor(pointer: Pos, startSize: Size, startPointer: Pos, startWindowPos: Pos)
    requires MinWidth <= startSize.width <= MaxWidth
    requires startSize.width - (pointer.x - startPointer.x) > MaxWidth
    ensures var f := NewSizeAndPos(pointer, W, startSize, startPointer, startWindowPos, startSize);
      f.size.width == MaxWidth && f.pos.x == startWindowPos.x - (MaxWidth - startSize.width)
  {
  }

  /** Widening is monotone in the pointer: further right never gives a
      narrower window on the east side, nor a wider one on the west side. */
  lemma WidthMonotone(p1: Pos, p2: Pos, edge: Edge, startSize: Size, startPointer: Pos, startWindowPos: Pos, current: Size)
    requires MovesWidth(edge) && p1.x <= p2.x
    ensures var w1 := NewSizeAndPos(p1, edge, startSize, startPointer, startWindowPos, current).size.width;
      var w2 := NewSizeAndPos(p2, edge, startSize, startPointer, startWindowPos, current).size.width;
      if IsWest(edge) then w1 >= w2 else w1 <= w2
  {
  }

  /** The south-east handle moved by (50, -10) from 600 x 325 at (100, 100)
      gives 650 x 315 at (100, 100). */
  lemma SouthEastExample()
    ensures NewSizeAndPos(Pos(150, 90), SE, Size(600, 325), Pos(100, 100), Pos(100, 100), Size(600, 325))
         == Frame(Size(650, 315), Pos(100, 100))
  {
  }

  /** The west handle moved 40 px to the left from 600 x 325 at (100, 100)
      gives width 640 and moves the window to x = 60. */
  lemma WestExample()
    ensures NewSizeAndPos(Pos(60, 100), W, Size(600, 325), Pos(100, 100), Pos(100, 100), Size(600, 325))
         == Frame(Size(640, 325), Pos(60, 100))
  {
  }
}
