/**
 * Geometry of the 102x64 UC1701 panel: the physical constants of the
 * driver header, the logical canvas size for each of the four rotations
 * (kept by the graphics base class), the logical-to-physical rotation
 * transform of writePixel, and the index of a pixel's byte in the packed
 * page-organised framebuffer.
 */
module Screen {

  // Largest physical column and row addresses (uint8_t constants).
  const ScreenHMax: int := 101
  const ScreenVMax: int := 63
  const ScreenWidth: int := ScreenHMax + 1
  const ScreenHeight: int := ScreenVMax + 1

  // The controller addresses rows in pages of eight.
  const PageHeight: int := 8
  const Pages: int := ScreenHeight / PageHeight

  // Size of the framebuffer, one bit per pixel.
  const BufSize: int := ScreenWidth * ScreenHeight / 8

  /** The buffer is exactly eight pages of 102 one-byte columns. */
  lemma BufferGeometry()
    ensures ScreenWidth == 102 && ScreenHeight == 64
    ensures ScreenHeight % PageHeight == 0 && Pages == 8
    ensures BufSize == Pages * ScreenWidth == 816
  {
  }

  /** The graphics base class keeps its rotation in 0..3. */
  type Rotation = r: int | 0 <= r <= 3

  /**
   * width() of the graphics canvas: the canvas is built as 102x64 and turns
   * with the rotation, so it is the panel's width for rotations 0 and 2 and
   * its height for 1 and 3, and width plus height is always the panel's.
   */
  function LogicalWidth(rotation: Rotation): (w: int)
    ensures (w == ScreenWidth) == (rotation % 2 == 0) && (w == ScreenHeight) == (rotation % 2 == 1)
    ensures w + LogicalHeight(rotation) == ScreenWidth + ScreenHeight
  {
    if rotation % 2 == 0 then ScreenWidth else ScreenHeight
  }

  /** height() of the graphics canvas: the panel's height for rotations 0 and 2, its width for 1 and 3. */
  function LogicalHeight(rotation: Rotation): (h: int)
    ensures (h == ScreenHeight) == (rotation % 2 == 0) && (h == ScreenWidth) == (rotation % 2 == 1)
  {
    if rotation % 2 == 0 then ScreenHeight else ScreenWidth
  }

  /** The bounds test writePixel applies before transforming. */
  predicate InLogical(rotation: Rotation, x: int, y: int)
  {
    0 <= x <= LogicalWidth(rotation) - 1 && 0 <= y <= LogicalHeight(rotation) - 1
  }

  /** The defensive physical bounds test writePixel applies after transforming. */
  predicate InPhysical(x: int, y: int)
  {
    0 <= x <= ScreenHMax && 0 <= y <= ScreenVMax
  }

  datatype Point = Point(x: int, y: int)

  /**
   * The rotation switch of writePixel. Rotation 1 swaps the coordinates and
   * reflects the new x across height(), rotation 2 reflects both, rotation 3
   * swaps and reflects the new y across width(); rotation 0 is the identity.
   * Every logically in-range pixel lands on the physical panel.
   */
  function ToPhysical(rotation: Rotation, x: int, y: int): (p: Point)
    ensures InLogical(rotation, x, y) ==> InPhysical(p.x, p.y)
  {
    if rotation == 1 then Point(LogicalHeight(1) - y - 1, x)
    else if rotation == 2 then Point(LogicalWidth(2) - x - 1, LogicalHeight(2) - y - 1)
    else if rotation == 3 then Point(y, LogicalWidth(3) - x - 1)
    else Point(x, y)
  }

  /** Independent inverse of the rotation transform, from the physical panel back to the canvas. */
  function ToLogical(rotation: Rotation, px: int, py: int): (p: Point)
    ensures InPhysical(px, py) ==> InLogical(rotation, p.x, p.y)
  {
    if rotation == 1 then Point(py, ScreenHMax - px)
    else if rotation == 2 then Point(ScreenHMax - px, ScreenVMax - py)
    else if rotation == 3 then Point(ScreenVMax - py, px)
    else Point(px, py)
  }

  /** ToLogical undoes the rotation transform on the logical canvas. */
  lemma ToLogicalOfToPhysical(rotation: Rotation, x: int, y: int)
    requires InLogical(rotation, x, y)
    ensures ToLogical(rotation, ToPhysical(rotation, x, y).x, ToPhysical(rotation, x, y).y) == Point(x, y)
  {
  }

  /** The rotation transform undoes ToLogical on the physical panel, so every physical pixel is reached. */
  lemma ToPhysicalOfToLogical(rotation: Rotation, px: int, py: int)
    requires InPhysical(px, py)
    ensures ToPhysical(rotation, ToLogical(rotation, px, py).x, ToLogical(rotation, px, py).y) == Point(px, py)
  {
  }

  /** Two distinct logical pixels never share a physical pixel. */
  lemma ToPhysicalInjective(rotation: Rotation, x: int, y: int, x': int, y': int)
    requires InLogical(rotation, x, y) && InLogical(rotation, x', y')
    requires ToPhysical(rotation, x, y) == ToPhysical(rotation, x', y')
    ensures x == x' && y == y'
  {
    ToLogicalOfToPhysical(rotation, x, y);
    ToLogicalOfToPhysical(rotation, x', y');
  }

  /**
   * Byte of the framebuffer that holds physical pixel (x, y): column x of
   * page y / 8. The index is in the buffer and gives back the column and page.
   */
  function Index(x: int, y: int): (i: nat)
    requires InPhysical(x, y)
    ensures i < BufSize
    ensures i % ScreenWidth == x && i / ScreenWidth == y / PageHeight
  {
    x + (y / 8) * ScreenWidth
  }

  /** Two physical pixels share a byte exactly when they share a column and a page. */
  lemma IndexShared(x: int, y: int, x': int, y': int)
    requires InPhysical(x, y) && InPhysical(x', y')
    ensures Index(x, y) == Index(x', y') <==> x == x' && y / PageHeight == y' / PageHeight
  {
  }

  /** The byte of column x in page p lies inside the buffer. */
  lemma PageByteInBuffer(p: int, x: int)
    requires 0 <= p < Pages && 0 <= x < ScreenWidth
    ensures 0 <= x + p * ScreenWidth < BufSize
  {
  }
}
