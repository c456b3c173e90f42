/**
 * What the driver puts on the bus. Every byte goes out either as a command
 * (command/data line low) or as data (line high); the SPI framing and pin
 * toggling around each byte are not modelled, so a transfer is one Event.
 * This module defines, as values, the byte sequences that sendBuf, init,
 * setEnabled(false), setContrast, setResistor and setInverted emit.
 */
module Protocol {
  import opened Screen

  /** A command byte, as the number 0 .. 255 it stands for. */
  type Byte = v: int | 0 <= v < 256

  /**
   * One transfer: a command (an opcode or an opcode's argument) or a data
   * byte, which for this driver is always a column of eight framebuffer bits.
   */
  datatype Event = Cmd(op: Byte) | Data(bits: bv8)

  function Min(a: int, b: int): int { if a < b then a else b }
  function Max(a: int, b: int): int { if a < b then b else a }

  /** First page sendBuf visits, max(y0 / 8, 0): the page that holds row y0. */
  function FirstPage(y0: nat): (r: int)
    ensures 0 <= r && r * PageHeight <= y0 < r * PageHeight + PageHeight
  {
    Max(y0 / PageHeight, 0)
  }

  /**
   * Last page sendBuf visits, min(y1, 63) / 8: the page that holds row y1,
   * or the last page for a row below the panel. The end row is clamped, the
   * end column is not.
   */
  function LastPage(y1: nat): (r: int)
    ensures 0 <= r < Pages
    ensures y1 <= ScreenVMax ==> r * PageHeight <= y1 < r * PageHeight + PageHeight
    ensures y1 > ScreenVMax ==> r == Pages - 1
  {
    Min(y1, ScreenVMax) / PageHeight
  }

  /**
   * Column-address MSB, column-address LSB and page-address commands that
   * open page p of a flush starting at column x0.
   */
  function PageHeader(x0: nat, xOffset: nat, p: nat): (r: seq<Event>)
    requires x0 + xOffset < 256 && p < Pages
    ensures |r| == 3 && r[0].Cmd? && r[1].Cmd? && r[2].Cmd?
  {
    [Cmd(0x10 + (x0 + xOffset) / 16),
     Cmd(0x00 + (x0 + xOffset) % 16),
     Cmd(0xB0 + p)]
  }

  /**
   * The header addresses the controller: the first command is prefix 0x10
   * plus the high nibble of column x0 + xOffset, the second is its low
   * nibble, so that together they give back the column; the third is page
   * command 0xB0 + p, in 0xB0 .. 0xB7.
   */
  lemma PageHeaderAddresses(x0: nat, xOffset: nat, p: nat)
    requires x0 + xOffset < 256 && p < Pages
    ensures var r := PageHeader(x0, xOffset, p);
      0x10 <= r[0].op <= 0x1F && r[1].op <= 0x0F &&
      (r[0].op - 0x10) * 16 + r[1].op == x0 + xOffset &&
      0xB0 <= r[2].op <= 0xB7 && r[2].op - 0xB0 == p
  {
  }

  /**
   * The only commands a flush sends: column address MSB (0x10 .. 0x1F), LSB
   * (0x00 .. 0x0F) and page address (0xB0 .. 0xB7).
   */
  predicate AddressCommand(op: Byte)
  {
    op <= 0x1F || 0xB0 <= op <= 0xB7
  }

  /** The buffer byte holding the eight rows of page p at column x. */
  function PageByte(s: seq<bv8>, p: nat, x: nat): bv8
    requires |s| == BufSize && p < Pages && x < ScreenWidth
  {
    s[x + p * ScreenWidth]
  }

  /** Data bytes of page p for columns x0 .. x - 1, in column order: data transfers only. */
  function PageData(s: seq<bv8>, p: nat, x0: nat, x: nat): (r: seq<Event>)
    requires |s| == BufSize && p < Pages && (x <= x0 || x <= ScreenWidth)
    ensures forall i :: 0 <= i < |r| ==> r[i].Data?
    decreases x
  {
    if x <= x0 then [] else PageData(s, p, x0, x - 1) + [Data(PageByte(s, p, x - 1))]
  }

  /**
   * The events of page p: its header, then its data bytes for columns
   * x0 .. x1. Exactly the first three are commands, all address commands.
   */
  function PageTrace(s: seq<bv8>, xOffset: nat, x0: nat, x1: nat, p: nat): (r: seq<Event>)
    requires |s| == BufSize && x0 + xOffset < 256 && x1 <= ScreenHMax && p < Pages
    ensures 3 <= |r| && forall i :: 0 <= i < |r| ==> (r[i].Cmd? <==> i < 3)
    ensures forall i :: 0 <= i < 3 ==> AddressCommand(r[i].op)
  {
    PageHeader(x0, xOffset, p) + PageData(s, p, x0, x1 + 1)
  }

  /** Header and data of pages p0 .. p - 1, in page order; every command is an address command. */
  function FlushPages(s: seq<bv8>, xOffset: nat, x0: nat, x1: nat, p0: nat, p: nat): (r: seq<Event>)
    requires |s| == BufSize && x0 + xOffset < 256 && x1 <= ScreenHMax
    requires p <= p0 || p <= Pages
    ensures forall i :: 0 <= i < |r| && r[i].Cmd? ==> AddressCommand(r[i].op)
    decreases p
  {
    if p <= p0 then []
    else FlushPages(s, xOffset, x0, x1, p0, p - 1) + PageTrace(s, xOffset, x0, x1, p - 1)
  }

  /**
   * The bus traffic of sendBuf(x0, y0, x1, y1) on buffer s when flushing is
   * not suppressed: pages FirstPage(y0) .. LastPage(y1), each as header and
   * then columns x0 .. x1. It never touches the controller's configuration:
   * every command in it is an address command. An empty page range sends
   * nothing.
   */
  function FlushTrace(s: seq<bv8>, xOffset: nat, x0: nat, y0: nat, x1: nat, y1: nat): (r: seq<Event>)
    requires |s| == BufSize && x0 + xOffset < 256 && y0 < 256 && x1 <= ScreenHMax && y1 < 256
    ensures forall i :: 0 <= i < |r| && r[i].Cmd? ==> AddressCommand(r[i].op)
    ensures FirstPage(y0) > LastPage(y1) ==> r == []
  {
    FlushPages(s, xOffset, x0, x1, FirstPage(y0), LastPage(y1) + 1)
  }

  /** Number of data bytes per page: the columns x0 .. x1. */
  function Columns(x0: nat, x1: nat): nat
  {
    if x0 <= x1 then x1 - x0 + 1 else 0
  }

  /** Block j of length L of a trace. */
  function Block(t: seq<Event>, L: nat, j: nat): (b: seq<Event>)
    requires j * L + L <= |t|
    ensures |b| == L
  {
    t[j * L .. j * L + L]
  }

  // Proof helpers. These restate facts of integer arithmetic and of sequence
  // concatenation in the shape the proofs below need; they model nothing of
  // the driver.

  lemma MulStep(a: int, n: int, L: int)
    requires a == n + 1
    ensures a * L == n * L + L
  {
  }

  lemma MulCongruence(a: int, b: int, a': int, b': int)
    requires a == a' && b == b'
    ensures a * b == a' * b'
  {
  }

  lemma AppendAssoc<T>(a: seq<T>, b: seq<T>, c: seq<T>)
    ensures a + (b + c) == a + b + c
  {
  }

  lemma EmptyAppend<T>(b: seq<T>)
    ensures [] + b == b
  {
  }

  /** The middle part of a three-part concatenation is cut out again by its offsets. */
  lemma SliceMiddle<T>(a: seq<T>, b: seq<T>, c: seq<T>)
    ensures |a| + |b| <= |a + b + c| && (a + b + c)[|a| .. |a| + |b|] == b
  {
    assert (a + b + c)[|a| .. |a| + |b|] == (b + c)[..|b|];
  }

  /** In a + b + c with a made of j blocks of length |b|, block j is b. */
  lemma BlockOfConcat(a: seq<Event>, b: seq<Event>, c: seq<Event>, L: nat, j: nat)
    requires |a| == j * L && |b| == L
    ensures j * L + L <= |a + b + c| && Block(a + b + c, L, j) == b
  {
    SliceMiddle(a, b, c);
  }

  // Properties of the flush trace.

  lemma {:induction false} PageDataLength(s: seq<bv8>, p: nat, x0: nat, x: nat)
    requires |s| == BufSize && p < Pages && (x <= x0 || x <= ScreenWidth)
    ensures |PageData(s, p, x0, x)| == if x0 <= x then x - x0 else 0
    decreases x
  {
    if x > x0 {
      PageDataLength(s, p, x0, x - 1);
    }
  }

  /** The i-th data byte of a page is the byte of column x0 + i in page p. */
  lemma {:induction false} PageDataAt(s: seq<bv8>, p: nat, x0: nat, x: nat, i: nat)
    requires |s| == BufSize && p < Pages && x <= ScreenWidth && x0 + i < x
    ensures |PageData(s, p, x0, x)| == x - x0
    ensures PageData(s, p, x0, x)[i] == Data(PageByte(s, p, x0 + i))
    decreases x
  {
    PageDataLength(s, p, x0, x);
    if x0 + i < x - 1 {
      PageDataAt(s, p, x0, x - 1, i);
    }
  }

  /** A page is three header commands and one data byte per column x0 .. x1. */
  lemma PageTraceLength(s: seq<bv8>, xOffset: nat, x0: nat, x1: nat, p: nat)
    requires |s| == BufSize && x0 + xOffset < 256 && x1 <= ScreenHMax && p < Pages
    ensures |PageTrace(s, xOffset, x0, x1, p)| == 3 + Columns(x0, x1)
  {
    PageDataLength(s, p, x0, x1 + 1);
  }

  lemma {:induction false} FlushPagesLength(s: seq<bv8>, xOffset: nat, x0: nat, x1: nat, p0: nat, p: nat)
    requires |s| == BufSize && x0 + xOffset < 256 && x1 <= ScreenHMax && p0 <= p <= Pages
    ensures |FlushPages(s, xOffset, x0, x1, p0, p)| == (p - p0) * (3 + Columns(x0, x1))
    decreases p
  {
    if p > p0 {
      var L := 3 + Columns(x0, x1);
      var prefix := FlushPages(s, xOffset, x0, x1, p0, p - 1);
      var page := PageTrace(s, xOffset, x0, x1, p - 1);
      assert FlushPages(s, xOffset, x0, x1, p0, p) == prefix + page;
      FlushPagesLength(s, xOffset, x0, x1, p0, p - 1);
      PageTraceLength(s, xOffset, x0, x1, p - 1);
      assert |prefix + page| == (p - 1 - p0) * L + L;
      MulStep(p - p0, p - 1 - p0, L);
    }
  }

  /** A flush of pages p0 .. p - 1 is the flush of p0 .. q - 1 followed by that of q .. p - 1. */
  lemma {:induction false} FlushPagesSplit(s: seq<bv8>, xOffset: nat, x0: nat, x1: nat, p0: nat, q: nat, p: nat)
    requires |s| == BufSize && x0 + xOffset < 256 && x1 <= ScreenHMax
    requires p0 <= q <= p <= Pages
    ensures FlushPages(s, xOffset, x0, x1, p0, p) ==
      FlushPages(s, xOffset, x0, x1, p0, q) + FlushPages(s, xOffset, x0, x1, q, p)
    decreases p
  {
    if p > q {
      FlushPagesSplit(s, xOffset, x0, x1, p0, q, p - 1);
    }
  }

  /** Pages p0 .. p - 1 are those before q, then page q, then those after q. */
  lemma FlushPagesLayout(s: seq<bv8>, xOffset: nat, x0: nat, x1: nat, p0: nat, q: nat, p: nat)
    requires |s| == BufSize && x0 + xOffset < 256 && x1 <= ScreenHMax && p0 <= q < p <= Pages
    ensures FlushPages(s, xOffset, x0, x1, p0, p) ==
      FlushPages(s, xOffset, x0, x1, p0, q) + PageTrace(s, xOffset, x0, x1, q) +
      FlushPages(s, xOffset, x0, x1, q + 1, p)
  {
    var page := PageTrace(s, xOffset, x0, x1, q);
    FlushPagesSplit(s, xOffset, x0, x1, p0, q, p);
    FlushPagesSplit(s, xOffset, x0, x1, q, q + 1, p);
    EmptyAppend(page);
    assert FlushPages(s, xOffset, x0, x1, q, q + 1) == page;
    AppendAssoc(FlushPages(s, xOffset, x0, x1, p0, q), page, FlushPages(s, xOffset, x0, x1, q + 1, p));
  }

  /**
   * Length of a flush: one header of three commands and Columns(x0, x1) data
   * bytes for each page FirstPage(y0) .. LastPage(y1), nothing when that
   * range is empty.
   */
  lemma FlushTraceLength(s: seq<bv8>, xOffset: nat, x0: nat, y0: nat, x1: nat, y1: nat)
    requires |s| == BufSize && x0 + xOffset < 256 && y0 < 256 && x1 <= ScreenHMax && y1 < 256
    ensures var p0, p1 := FirstPage(y0), LastPage(y1);
      |FlushTrace(s, xOffset, x0, y0, x1, y1)| ==
        if p0 <= p1 then (p1 - p0 + 1) * (3 + Columns(x0, x1)) else 0
  {
    var p0, p1 := FirstPage(y0), LastPage(y1);
    if p0 <= p1 {
      FlushPagesLength(s, xOffset, x0, x1, p0, p1 + 1);
    }
  }

  /**
   * Layout of one page: the column-address MSB command
   * 0x10 + (x0 + xOffset) / 16, the LSB command (x0 + xOffset) % 16, the page
   * command 0xB0 + p (always in 0xB0 .. 0xB7), then for each column x0 + i up
   * to x1 the byte of that column in page p, as data.
   */
  lemma PageTraceLayout(s: seq<bv8>, xOffset: nat, x0: nat, x1: nat, p: nat)
    requires |s| == BufSize && x0 + xOffset < 256 && x1 <= ScreenHMax && p < Pages
    ensures var b := PageTrace(s, xOffset, x0, x1, p);
      |b| == 3 + Columns(x0, x1) &&
      b[0] == Cmd(0x10 + (x0 + xOffset) / 16) &&
      b[1] == Cmd((x0 + xOffset) % 16) &&
      b[2] == Cmd(0xB0 + p) && 0xB0 <= b[2].op <= 0xB7 &&
      forall i :: 0 <= i < Columns(x0, x1) ==> b[3..][i] == Data(PageByte(s, p, x0 + i))
  {
    var header, data := PageHeader(x0, xOffset, p), PageData(s, p, x0, x1 + 1);
    var b := PageTrace(s, xOffset, x0, x1, p);
    PageDataLength(s, p, x0, x1 + 1);
    assert b[0] == header[0] && b[1] == header[1] && b[2] == header[2] && b[3..] == data;
    forall i | 0 <= i < Columns(x0, x1)
      ensures b[3..][i] == Data(PageByte(s, p, x0 + i))
    {
      PageDataAt(s, p, x0, x1 + 1, i);
    }
  }

  /**
   * Layout of a flush: for every page q from FirstPage(y0) to LastPage(y1),
   * the trace is the earlier pages, taking (q - FirstPage(y0)) blocks of
   * 3 + Columns(x0, x1) events, then page q, then the later pages.
   */
  lemma FlushTraceLayout(s: seq<bv8>, xOffset: nat, x0: nat, y0: nat, x1: nat, y1: nat, q: nat)
    requires |s| == BufSize && x0 + xOffset < 256 && y0 < 256 && x1 <= ScreenHMax && y1 < 256
    requires FirstPage(y0) <= q <= LastPage(y1)
    ensures var p0, p1 := FirstPage(y0), LastPage(y1);
      var before := FlushPages(s, xOffset, x0, x1, p0, q);
      FlushTrace(s, xOffset, x0, y0, x1, y1) ==
        before + PageTrace(s, xOffset, x0, x1, q) + FlushPages(s, xOffset, x0, x1, q + 1, p1 + 1) &&
      |before| == (q - p0) * (3 + Columns(x0, x1))
  {
    FlushPagesLayout(s, xOffset, x0, x1, FirstPage(y0), q, LastPage(y1) + 1);
    FlushPagesLength(s, xOffset, x0, x1, FirstPage(y0), q);
  }

  /** Block j of 105 events of the default flush is page j. */
  lemma FullFlushBlock(s: seq<bv8>, xOffset: nat, j: nat)
    requires |s| == BufSize && xOffset < 256 && j < Pages
    ensures var t := FlushTrace(s, xOffset, 0, 0, ScreenHMax, ScreenVMax);
      j * 105 + 105 <= |t| && Block(t, 105, j) == PageTrace(s, xOffset, 0, ScreenHMax, j)
  {
    FlushTraceLayout(s, xOffset, 0, 0, ScreenHMax, ScreenVMax, j);
    MulCongruence(j - FirstPage(0), 3 + Columns(0, ScreenHMax), j, 105);
    PageTraceLength(s, xOffset, 0, ScreenHMax, j);
    BlockOfConcat(FlushPages(s, xOffset, 0, ScreenHMax, 0, j), PageTrace(s, xOffset, 0, ScreenHMax, j),
                  FlushPages(s, xOffset, 0, ScreenHMax, j + 1, 8), 105, j);
  }

  /** The default flush is 840 transfers long. */
  lemma FullFlushLength(s: seq<bv8>, xOffset: nat)
    requires |s| == BufSize && xOffset < 256
    ensures |FlushTrace(s, xOffset, 0, 0, ScreenHMax, ScreenVMax)| == 840
  {
    FlushTraceLength(s, xOffset, 0, 0, ScreenHMax, ScreenVMax);
    MulCongruence(LastPage(ScreenVMax) - FirstPage(0) + 1, 3 + Columns(0, ScreenHMax), 8, 105);
  }

  /**
   * Block j of the default flush opens with page command 0xB0 + j and
   * carries every column of page j of the buffer.
   */
  lemma FullFlushPage(s: seq<bv8>, xOffset: nat, j: nat)
    requires |s| == BufSize && xOffset < 256 && j < Pages
    ensures var t := FlushTrace(s, xOffset, 0, 0, ScreenHMax, ScreenVMax);
      j * 105 + 105 <= |t| &&
      Block(t, 105, j) == PageTrace(s, xOffset, 0, ScreenHMax, j) &&
      Block(t, 105, j)[2] == Cmd(0xB0 + j) &&
      forall x :: 0 <= x < ScreenWidth ==> Block(t, 105, j)[3..][x] == Data(PageByte(s, j, x))
  {
    FullFlushBlock(s, xOffset, j);
    PageTraceLayout(s, xOffset, 0, ScreenHMax, j);
    var b := PageTrace(s, xOffset, 0, ScreenHMax, j);
    forall x | 0 <= x < ScreenWidth
      ensures b[3..][x] == Data(PageByte(s, j, x))
    {
      assert b[3..][0 + x] == Data(PageByte(s, j, 0 + x));
    }
  }

  /**
   * The default flush (0, 0, 101, 63) sends all eight pages, each as three
   * commands and 102 data bytes: 840 transfers. Block j of 105 events is
   * page j, opening with page command 0xB0 + j and carrying every column of
   * page j of the buffer.
   */
  lemma FullFlush(s: seq<bv8>, xOffset: nat)
    requires |s| == BufSize && xOffset < 256
    ensures var t := FlushTrace(s, xOffset, 0, 0, ScreenHMax, ScreenVMax);
      |t| == 8 * (3 + 102) &&
      forall j :: 0 <= j < 8 ==>
        Block(t, 105, j) == PageTrace(s, xOffset, 0, ScreenHMax, j) &&
        Block(t, 105, j)[2] == Cmd(0xB0 + j) &&
        forall x :: 0 <= x < ScreenWidth ==> Block(t, 105, j)[3..][x] == Data(PageByte(s, j, x))
  {
    FullFlushLength(s, xOffset);
    forall j | 0 <= j < 8
      ensures var t := FlushTrace(s, xOffset, 0, 0, ScreenHMax, ScreenVMax);
        Block(t, 105, j) == PageTrace(s, xOffset, 0, ScreenHMax, j) &&
        Block(t, 105, j)[2] == Cmd(0xB0 + j) &&
        forall x :: 0 <= x < ScreenWidth ==> Block(t, 105, j)[3..][x] == Data(PageByte(s, j, x))
    {
      FullFlushPage(s, xOffset, j);
    }
  }

  /**
   * SEG (column) scan direction: 0xA1 mirrors the columns, 0xA0 is normal,
   * so bit 0 of the command is the column mirror flag.
   */
  function SegDirection(xFlip: bool): (r: Byte)
    ensures r - r % 2 == 0xA0 && (r % 2 == 1) == xFlip
  {
    if xFlip then 0xA1 else 0xA0
  }

  /**
   * COM (row) scan direction: 0xC8 mirrors the rows, 0xC0 is normal, so
   * bit 3 of the command is the row mirror flag and bits 0 .. 2 are clear.
   */
  function ComDirection(yFlip: bool): (r: Byte)
    ensures r - r % 16 == 0xC0 && r % 8 == 0 && (r / 8 % 2 == 1) == yFlip
  {
    if yFlip then 0xC8 else 0xC0
  }

  /**
   * The panel set-up part of init, sent after the system reset: display
   * off, scroll line 0, SEG and COM direction, all-pixel off, inverse off,
   * bias ratio, power control on.
   */
  function SetupCommands(xFlip: bool, yFlip: bool): (r: seq<Event>)
    ensures |r| == 8 && forall i :: 0 <= i < |r| ==> r[i].Cmd?
    ensures r[0] == Cmd(0xAE) && r[7] == Cmd(0x2F)
  {
    [Cmd(0xAE), Cmd(0x40), Cmd(SegDirection(xFlip)), Cmd(ComDirection(yFlip)),
     Cmd(0xA4), Cmd(0xA6), Cmd(0xA2), Cmd(0x2F)]
  }

  /**
   * The part of init sent once the supply has settled: resistor ratio,
   * electronic volume 0x06, advanced program control 0x90, all-pixel off,
   * display on.
   */
  function PowerOnCommands(): (r: seq<Event>)
    ensures |r| == 7 && forall i :: 0 <= i < |r| ==> r[i].Cmd?
    ensures r[0] == Cmd(0x27) && r[6] == Cmd(0xAF)
  {
    [Cmd(0x27), Cmd(0x81), Cmd(0x06), Cmd(0xFA), Cmd(0x90), Cmd(0xA4), Cmd(0xAF)]
  }

  /**
   * The sixteen configuration commands of init, in order: system reset,
   * the panel set-up and the power-on part. The mirror flags choose only
   * the SEG and COM direction commands.
   */
  function InitCommands(xFlip: bool, yFlip: bool): (r: seq<Event>)
    ensures |r| == 16 && forall i :: 0 <= i < |r| ==> r[i].Cmd?
    ensures r[0] == Cmd(0xE2) && r[1] == Cmd(0xAE) && r[15] == Cmd(0xAF)
    ensures (r[3] == Cmd(0xA1)) == xFlip && (r[3] == Cmd(0xA0)) == !xFlip
    ensures (r[4] == Cmd(0xC8)) == yFlip && (r[4] == Cmd(0xC0)) == !yFlip
  {
    [Cmd(0xE2)] + SetupCommands(xFlip, yFlip) + PowerOnCommands()
  }

  /** The mirror flags only choose the SEG and COM direction commands. */
  lemma InitCommandsFlipsOnly(xFlip: bool, yFlip: bool, xFlip': bool, yFlip': bool)
    ensures forall i :: 0 <= i < 16 && i != 3 && i != 4 ==>
      InitCommands(xFlip, yFlip)[i] == InitCommands(xFlip', yFlip')[i]
  {
  }

  /** setEnabled(false): power control with every supply bit cleared, then display off. */
  function DisableCommands(): (r: seq<Event>)
    ensures |r| == 2 && r[0].Cmd? && r[1].Cmd?
    ensures var powerOn := InitCommands(false, false)[8].op;
      r[0].op == powerOn - powerOn % 8 && r[0].op % 8 == 0
    ensures r[1] == InitCommands(false, false)[1]
  {
    [Cmd(0x28), Cmd(0xAE)]
  }

  /**
   * setContrast(value): the electronic-volume command, then value & 0x3F as
   * a command. On a byte the mask is the remainder by 64: a value in the
   * documented range 0 .. 63 goes out unchanged, a larger one is cut to its
   * low six bits.
   */
  function ContrastCommands(value: Byte): (r: seq<Event>)
    ensures |r| == 2 && r[0] == Cmd(0x81) && r[1].Cmd?
    ensures r[1].op <= 0x3F && (value <= 0x3F ==> r[1].op == value)
    ensures (value - r[1].op) % 0x40 == 0
  {
    [Cmd(0x81), Cmd(value % 0x40)]
  }

  /**
   * setResistor(value): one resistor-ratio command 0x20 + (value & 7); the
   * mask is the remainder by 8, so a value in 0 .. 7 is sent as is.
   */
  function ResistorCommands(value: Byte): (r: seq<Event>)
    ensures |r| == 1 && r[0].Cmd? && 0x20 <= r[0].op <= 0x27
    ensures value <= 7 ==> r[0].op == 0x20 + value
    ensures (value - (r[0].op - 0x20)) % 8 == 0
  {
    [Cmd(0x20 + value % 8)]
  }

  /**
   * setInverted(inv): one command, 0xA6 for true and 0xA7 for false. For
   * true it is the same byte init sends as its inverse-off command.
   */
  function InvertCommands(inv: bool): (r: seq<Event>)
    ensures |r| == 1 && r[0].Cmd? && (r[0].op == 0xA6 || r[0].op == 0xA7)
    ensures (r[0].op == 0xA6) == inv
    ensures inv ==> r[0] == InitCommands(false, false)[6]
  {
    [Cmd(if inv then 0xA6 else 0xA7)]
  }
}
