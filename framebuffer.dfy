/**
 * The packed framebuffer: 816 bytes, byte x + (y / 8) * 102 holding column x
 * of page y / 8, bit y % 8 of that byte holding row y. WritePixel is the
 * value-level meaning of writePixel; the driver class updates its array to
 * match it.
 */
module Framebuffer {
  import opened Screen

  /** The byte 1 << k with only bit k set, for k in 0 .. 7: exactly one bit is set. */
  function Mask(k: nat): (m: bv8)
    requires k < 8
    ensures m != 0 && m & (m - 1) == 0
  {
    if k == 0 then 0x01 else if k == 1 then 0x02 else if k == 2 then 0x04 else if k == 3 then 0x08
    else if k == 4 then 0x10 else if k == 5 then 0x20 else if k == 6 then 0x40 else 0x80
  }

  lemma MaskIsShift(k: nat)
    requires k < 8
    ensures Mask(k) == 1 << k
  {
  }

  /** Bit k of a buffer byte. */
  predicate BitOf(b: bv8, k: nat)
    requires k < 8
  {
    b & Mask(k) != 0
  }

  /**
   * Set bit k (OR with 1 << k) when on, clear it (AND with its complement)
   * otherwise; bit k then reads back as on.
   */
  function SetBit(b: bv8, k: nat, on: bool): (r: bv8)
    requires k < 8
    ensures BitOf(r, k) == on
  {
    if on then b | Mask(k) else b & !Mask(k)
  }

  /** Setting or clearing bit k keeps bit j != k. */
  lemma SetBitKeeps(b: bv8, k: nat, on: bool, j: nat)
    requires k < 8 && j < 8 && j != k
    ensures BitOf(SetBit(b, k, on), j) == BitOf(b, j)
  {
  }

  /** Setting or clearing bit k keeps every other bit. */
  lemma SetBitKeepsOthers(b: bv8, k: nat, on: bool)
    requires k < 8
    ensures forall j: nat :: j < 8 && j != k ==> BitOf(SetBit(b, k, on), j) == BitOf(b, j)
  {
    forall j: nat | j < 8 && j != k {
      SetBitKeeps(b, k, on, j);
    }
  }

  /** The all-off buffer that clearDisplay leaves behind. */
  function Blank(): (s: seq<bv8>)
    ensures |s| == BufSize && forall i :: 0 <= i < |s| ==> s[i] == 0
  {
    seq(BufSize, _ => 0)
  }

  /** Physical pixel (x, y) of a buffer. */
  predicate PixelAt(s: seq<bv8>, x: int, y: int)
    requires |s| == BufSize && InPhysical(x, y)
  {
    BitOf(s[Index(x, y)], y % PageHeight)
  }

  /** Logical pixel (x, y) of a buffer under a rotation. */
  predicate LogicalPixelAt(s: seq<bv8>, rotation: Rotation, x: int, y: int)
    requires |s| == BufSize && InLogical(rotation, x, y)
  {
    PixelAt(s, ToPhysical(rotation, x, y).x, ToPhysical(rotation, x, y).y)
  }

  /** Every pixel of the blank buffer is off. */
  lemma BlankIsDark(x: int, y: int)
    requires InPhysical(x, y)
    ensures !PixelAt(Blank(), x, y)
  {
  }

  /**
   * The value a write gives its bit: on only when the driver is enabled and
   * the colour is non-zero. A zero colour, or a disabled driver, means off.
   */
  predicate Lit(enabled: bool, color: nat)
  {
    enabled && color != 0
  }

  /**
   * The buffer after writePixel(x, y, color): unchanged when (x, y) is off
   * the logical canvas or (defensively) off the panel after rotation,
   * otherwise one bit of one byte set or cleared.
   */
  function WritePixel(s: seq<bv8>, rotation: Rotation, enabled: bool, x: int, y: int, color: nat): (r: seq<bv8>)
    requires |s| == BufSize
    ensures |r| == BufSize
  {
    if x > LogicalWidth(rotation) - 1 || y > LogicalHeight(rotation) - 1 || x < 0 || y < 0 then s
    else
      var p := ToPhysical(rotation, x, y);
      if InPhysical(p.x, p.y) then
        var i := Index(p.x, p.y);
        s[i := SetBit(s[i], p.y % PageHeight, Lit(enabled, color))]
      else s
  }

  /** A write on the logical canvas sets or clears one bit of the byte of its physical pixel. */
  lemma WritePixelOnCanvas(s: seq<bv8>, rotation: Rotation, enabled: bool, x: int, y: int, color: nat)
    requires |s| == BufSize && InLogical(rotation, x, y)
    ensures var p := ToPhysical(rotation, x, y);
      InPhysical(p.x, p.y) &&
      WritePixel(s, rotation, enabled, x, y, color) ==
        s[Index(p.x, p.y) := SetBit(s[Index(p.x, p.y)], p.y % PageHeight, Lit(enabled, color))]
  {
  }

  /** A write off the logical canvas leaves every byte as it was. */
  lemma WritePixelOutOfRange(s: seq<bv8>, rotation: Rotation, enabled: bool, x: int, y: int, color: nat)
    requires |s| == BufSize
    requires x < 0 || y < 0 || x > LogicalWidth(rotation) - 1 || y > LogicalHeight(rotation) - 1
    ensures WritePixel(s, rotation, enabled, x, y, color) == s
  {
  }

  /**
   * A write on the logical canvas changes only bit y % 8 of byte
   * Index(ToPhysical(x, y)), which is below 816: the defensive physical test
   * always passes, every other byte and every other bit of that byte is kept,
   * and the bit becomes Lit(enabled, color).
   */
  lemma WritePixelChangesOneBit(s: seq<bv8>, rotation: Rotation, enabled: bool, x: int, y: int, color: nat)
    requires |s| == BufSize && InLogical(rotation, x, y)
    ensures var p := ToPhysical(rotation, x, y);
      var r := WritePixel(s, rotation, enabled, x, y, color);
      InPhysical(p.x, p.y) && Index(p.x, p.y) < BufSize &&
      (forall i :: 0 <= i < BufSize && i != Index(p.x, p.y) ==> r[i] == s[i]) &&
      BitOf(r[Index(p.x, p.y)], p.y % PageHeight) == Lit(enabled, color) &&
      (forall k: nat :: k < 8 && k != p.y % PageHeight ==>
         BitOf(r[Index(p.x, p.y)], k) == BitOf(s[Index(p.x, p.y)], k))
  {
    var p := ToPhysical(rotation, x, y);
    SetBitKeepsOthers(s[Index(p.x, p.y)], p.y % PageHeight, Lit(enabled, color));
  }

  /**
   * Reading back: after a write on the canvas the written pixel is lit
   * exactly when the driver is enabled and the colour is non-zero (a zero
   * colour, or a disabled driver, always clears it), and every other
   * logical pixel is as it was.
   */
  lemma WritePixelReadBack(s: seq<bv8>, rotation: Rotation, enabled: bool, x: int, y: int, color: nat)
    requires |s| == BufSize && InLogical(rotation, x, y)
    ensures LogicalPixelAt(WritePixel(s, rotation, enabled, x, y, color), rotation, x, y) == Lit(enabled, color)
    ensures forall x', y' :: InLogical(rotation, x', y') && (x' != x || y' != y) ==>
      LogicalPixelAt(WritePixel(s, rotation, enabled, x, y, color), rotation, x', y') ==
      LogicalPixelAt(s, rotation, x', y')
  {
    var r := WritePixel(s, rotation, enabled, x, y, color);
    var p := ToPhysical(rotation, x, y);
    WritePixelChangesOneBit(s, rotation, enabled, x, y, color);
    forall x', y' | InLogical(rotation, x', y') && (x' != x || y' != y)
      ensures LogicalPixelAt(r, rotation, x', y') == LogicalPixelAt(s, rotation, x', y')
    {
      var q := ToPhysical(rotation, x', y');
      if q == p {
        ToPhysicalInjective(rotation, x, y, x', y');
      }
      IndexShared(p.x, p.y, q.x, q.y);
    }
  }

  /** Writing the same pixel with the same colour twice is the same as writing it once. */
  lemma WritePixelIdempotent(s: seq<bv8>, rotation: Rotation, enabled: bool, x: int, y: int, color: nat)
    requires |s| == BufSize
    ensures var once := WritePixel(s, rotation, enabled, x, y, color);
      WritePixel(once, rotation, enabled, x, y, color) == once
  {
    var once := WritePixel(s, rotation, enabled, x, y, color);
    if InLogical(rotation, x, y) {
      var p := ToPhysical(rotation, x, y);
      var i := Index(p.x, p.y);
      var k := p.y % PageHeight;
      var b := SetBit(s[i], k, Lit(enabled, color));
      assert SetBit(b, k, Lit(enabled, color)) == b;
    }
  }
}
