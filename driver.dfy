/**
 * The UC1701_SOLDERED driver object: its framebuffer array, its state
 * fields, and the bytes it has sent to the controller. Each method changes
 * the object as the driver's member function of the same name does; bus
 * transfers are appended to `bus`, and the pin levels, SPI framing and
 * delays around them are not modelled.
 */
module Driver {
  import opened Screen
  import opened Framebuffer
  import opened Protocol

  class Uc1701 {
    /** The framebuffer: 8 pages of 102 one-byte columns. */
    const buf: array<bv8>
    /** While positive, flushes send nothing. */
    var dontSendBuf: int
    /** Set by init; a write in the buffer lights a pixel only while it holds. */
    var enabled: bool
    /** Added to the start column of every flush. */
    var xOffset: nat
    /** Whether begin has handed the driver an SPI interface (spiInterface is not null). */
    var hasSpi: bool
    var spiClock: nat
    var pinCS: nat
    var pinCD: nat
    var pinRST: nat
    var curxFlip: bool
    var curyFlip: bool
    /** Rotation of the graphics canvas; the graphics base class keeps it in 0 .. 3. */
    var rotation: int
    /** Every command and data byte sent to the controller, oldest first. */
    var bus: seq<Event>

    ghost predicate Valid()
      reads this
    {
      buf.Length == BufSize && 0 <= rotation <= 3 && xOffset == 0
    }

    /**
     * A driver object before begin: a blank buffer, flushing allowed, not
     * enabled, no SPI interface, rotation 0, nothing sent.
     */
    constructor ()
      ensures Valid() && fresh(buf)
      ensures buf[..] == Blank() && dontSendBuf == 0 && !enabled && xOffset == 0
      ensures !hasSpi && rotation == 0 && bus == []
    {
      buf := new bv8[BufSize](_ => 0);
      dontSendBuf := 0;
      enabled := false;
      xOffset := 0;
      hasSpi := false;
      spiClock, pinCS, pinCD, pinRST := 0, 0, 0, 0;
      curxFlip, curyFlip := false, false;
      rotation := 0;
      bus := [];
    }

    /** width() of the graphics canvas. */
    function Width(): (w: int)
      reads this
      requires Valid()
      ensures (w == ScreenWidth) == (rotation % 2 == 0) && w + Height() == ScreenWidth + ScreenHeight
    {
      LogicalWidth(rotation)
    }

    /** height() of the graphics canvas. */
    function Height(): (h: int)
      reads this
      requires Valid()
      ensures (h == ScreenHeight) == (rotation % 2 == 0) && (h == ScreenWidth) == (rotation % 2 == 1)
    {
      LogicalHeight(rotation)
    }

    /**
     * Send one byte with the command/data line low. The transfer goes
     * through the SPI interface, so there must be one.
     */
    method SendCommand(b: Byte)
      requires hasSpi
      modifies this`bus
      ensures bus == old(bus) + [Cmd(b)]
    {
      bus := bus + [Cmd(b)];
    }

    /** Send one byte with the command/data line high, through the SPI interface. */
    method SendData(b: bv8)
      requires hasSpi
      modifies this`bus
      ensures bus == old(bus) + [Data(b)]
    {
      bus := bus + [Data(b)];
    }

    /**
     * One page of a flush: the column and page address commands, then the
     * bytes of page p for columns x0 .. x1, left to right.
     */
    method SendPage(x0: nat, x1: nat, p: nat)
      requires Valid() && hasSpi && x0 < 256 && x1 <= ScreenHMax && p < Pages
      modifies this`bus
      ensures bus == old(bus) + PageTrace(buf[..], xOffset, x0, x1, p)
    {
      var header := PageHeader(x0, xOffset, p);
      assert header == [Cmd(header[0].op), Cmd(header[1].op), Cmd(header[2].op)];
      SendCommand(header[0].op); // column address MSB
      SendCommand(header[1].op); // column address LSB
      SendCommand(header[2].op); // page address
      assert bus == old(bus) + header;
      SendColumns(x0, x1, p);
    }

    /** The data bytes of page p for columns x0 .. x1, left to right. */
    method SendColumns(x0: nat, x1: nat, p: nat)
      requires Valid() && hasSpi && x1 <= ScreenHMax && p < Pages
      modifies this`bus
      ensures bus == old(bus) + PageData(buf[..], p, x0, x1 + 1)
    {
      var x := x0;
      while x <= x1
        invariant x0 <= x && (x == x0 || x <= x1 + 1)
        invariant bus == old(bus) + PageData(buf[..], p, x0, x)
      {
        PageByteInBuffer(p, x);
        SendData(buf[x + p * ScreenWidth]);
        x := x + 1;
      }
    }

    /**
     * Flush the rectangle of columns x0 .. x1 and rows y0 .. y1 (default:
     * the whole panel) page by page. Nothing is sent while dontSendBuf is
     * positive; the buffer is never changed. The end column is not clamped,
     * so it must lie on the panel. An SPI interface is needed whenever some
     * byte is sent: flushing not suppressed and the page range not empty.
     */
    method SendBuf(x0: nat := 0, y0: nat := 0, x1: nat := ScreenHMax, y1: nat := ScreenVMax)
      requires Valid() && x0 < 256 && y0 < 256 && y1 < 256 && x1 <= ScreenHMax
      requires hasSpi || dontSendBuf > 0 || FirstPage(y0) > LastPage(y1)
      modifies this`bus
      ensures dontSendBuf > 0 ==> bus == old(bus)
      ensures dontSendBuf <= 0 ==> bus == old(bus) + FlushTrace(buf[..], xOffset, x0, y0, x1, y1)
    {
      if dontSendBuf > 0 {
        return;
      }
      var p0 := Max(y0 / 8, 0);
      var p1 := Min(y1, ScreenVMax) / 8;
      assert p1 < Pages;
      var p := p0;
      while p <= p1
        invariant p0 <= p && (p == p0 || p <= p1 + 1)
        invariant bus == old(bus) + FlushPages(buf[..], xOffset, x0, x1, p0, p)
      {
        ghost var pages := FlushPages(buf[..], xOffset, x0, x1, p0, p);
        ghost var page := PageTrace(buf[..], xOffset, x0, x1, p);
        SendPage(x0, x1, p);
        AppendAssoc(old(bus), pages, page);
        assert FlushPages(buf[..], xOffset, x0, x1, p0, p + 1) == pages + page;
        p := p + 1;
      }
      assert FlushTrace(buf[..], xOffset, x0, y0, x1, y1) == FlushPages(buf[..], xOffset, x0, x1, p0, p);
    }

    /** Flush a rectangle of the buffer; the defaults cover the whole panel. */
    method Display(x0: nat := 0, y0: nat := 0, x1: nat := ScreenHMax, y1: nat := ScreenVMax)
      requires Valid() && x0 < 256 && y0 < 256 && y1 < 256 && x1 <= ScreenHMax
      requires hasSpi || dontSendBuf > 0 || FirstPage(y0) > LastPage(y1)
      modifies this`bus
      ensures dontSendBuf > 0 ==> bus == old(bus)
      ensures dontSendBuf <= 0 ==> bus == old(bus) + FlushTrace(buf[..], xOffset, x0, y0, x1, y1)
    {
      SendBuf(x0, y0, x1, y1);
    }

    /**
     * Write logical pixel (x, y) in the buffer only: off the canvas nothing
     * changes, otherwise the bit of its rotated physical pixel is set when
     * the driver is enabled and the colour is non-zero and cleared otherwise.
     */
    method WritePixel(x: int, y: int, color: nat)
      requires Valid()
      modifies buf
      ensures buf[..] == Framebuffer.WritePixel(old(buf[..]), rotation, enabled, x, y, color)
    {
      if x > Width() - 1 || y > Height() - 1 || x < 0 || y < 0 {
        WritePixelOutOfRange(buf[..], rotation, enabled, x, y, color);
        return;
      }
      WritePixelOnCanvas(buf[..], rotation, enabled, x, y, color);
      var px, py := x, y;
      if rotation == 1 {
        px, py := py, px;
        px := Height() - px - 1;
      } else if rotation == 2 {
        px := Width() - px - 1;
        py := Height() - py - 1;
      } else if rotation == 3 {
        px, py := py, px;
        py := Width() - py - 1;
      }
      assert Point(px, py) == ToPhysical(rotation, x, y);
      if px >= 0 && px <= ScreenHMax && py >= 0 && py <= ScreenVMax {
        WriteBit(px + (py / 8) * ScreenWidth, py % 8, enabled && color != 0);
      }
    }

    /** Set (on) or clear bit k of buffer byte i, as the two branches of writePixel do. */
    method WriteBit(i: nat, k: nat, on: bool)
      requires i < buf.Length && k < 8
      modifies buf
      ensures buf[..] == old(buf[..])[i := SetBit(old(buf[i]), k, on)]
    {
      if on {
        buf[i] := buf[i] | Mask(k);
      } else {
        buf[i] := buf[i] & !Mask(k);
      }
    }

    /** The graphics base class's pixel hook; the same as WritePixel. */
    method DrawPixel(x: int, y: int, color: nat)
      requires Valid()
      modifies buf
      ensures buf[..] == Framebuffer.WritePixel(old(buf[..]), rotation, enabled, x, y, color)
    {
      WritePixel(x, y, color);
    }

    /** Zero every byte of the buffer and allow flushing again. */
    method ClearDisplay()
      requires Valid()
      modifies this`dontSendBuf, buf
      ensures Valid() && dontSendBuf == 0 && buf[..] == Blank()
    {
      dontSendBuf := 0;
      forall i | 0 <= i < buf.Length {
        buf[i] := 0;
      }
    }

    /** Electronic volume: the contrast command and the low six bits of value. */
    method SetContrast(value: Byte)
      requires hasSpi
      modifies this`bus
      ensures bus == old(bus) + ContrastCommands(value)
    {
      SendCommand(0x81);
      SendCommand(value % 0x40);
    }

    /** Resistor ratio: one command carrying the low three bits of value. */
    method SetResistor(value: Byte)
      requires hasSpi
      modifies this`bus
      ensures bus == old(bus) + ResistorCommands(value)
    {
      SendCommand(0x20 + value % 8);
    }

    /** Display inversion: 0xA6 when inv holds, 0xA7 otherwise. */
    method SetInverted(inv: bool)
      requires hasSpi
      modifies this`bus
      ensures bus == old(bus) + InvertCommands(inv)
    {
      if inv {
        SendCommand(0xA6);
      } else {
        SendCommand(0xA7);
      }
    }

    /** The SEG and COM direction commands init chooses from the mirror flags. */
    method SendScanDirections()
      requires hasSpi
      modifies this`bus, this`xOffset
      ensures bus == old(bus) + [Cmd(SegDirection(curxFlip)), Cmd(ComDirection(curyFlip))]
      ensures xOffset == 0
    {
      if curxFlip {
        SendCommand(0xA1); // SEG direction mirrored
        xOffset := 0;
      } else {
        SendCommand(0xA0); // SEG direction normal
        xOffset := 0;
      }
      if curyFlip {
        SendCommand(0xC8); // COM direction mirrored
      } else {
        SendCommand(0xC0); // COM direction normal
      }
    }

    /** The panel set-up part of init. */
    method SendSetup()
      requires hasSpi
      modifies this`bus, this`xOffset
      ensures bus == old(bus) + SetupCommands(curxFlip, curyFlip) && xOffset == 0
    {
      SendCommand(0xAE); // display off
      SendCommand(0x40); // scroll line 0
      SendScanDirections();
      SendCommand(0xA4); // all-pixel off
      SendCommand(0xA6); // inverse off
      SendCommand(0xA2); // bias ratio
      SendCommand(0x2F); // power control on
    }

    /** The part of init sent once the supply has settled. */
    method SendPowerOn()
      requires hasSpi
      modifies this`bus
      ensures bus == old(bus) + PowerOnCommands()
    {
      SendCommand(0x27); // resistor ratio
      SendCommand(0x81); // electronic volume
      SendCommand(0x06);
      SendCommand(0xFA); // advanced program control
      SendCommand(0x90);
      SendCommand(0xA4); // all-pixel off
      SendCommand(0xAF); // display on
    }

    /**
     * Initialise the controller. Without an SPI interface nothing changes.
     * Otherwise: enabled becomes true, the sixteen configuration commands go
     * out in order, xOffset is 0, and the buffer is cleared, which also
     * allows flushing again. The configuration itself is kept.
     */
    method Init()
      requires Valid()
      modifies this`bus, this`enabled, this`xOffset, this`dontSendBuf, buf
      ensures Valid()
      ensures !hasSpi ==> bus == old(bus) && enabled == old(enabled) && dontSendBuf == old(dontSendBuf)
                          && buf[..] == old(buf[..])
      ensures hasSpi ==> bus == old(bus) + InitCommands(curxFlip, curyFlip) && enabled && xOffset == 0
                         && dontSendBuf == 0 && buf[..] == Blank()
    {
      if !hasSpi {
        return;
      }
      enabled := true;
      // pin setup and the reset pulse are not modelled
      SendCommand(0xE2); // system reset
      // the settling delay is not modelled
      SendSetup();
      // the settling delay is not modelled
      SendPowerOn();
      ClearDisplay();
    }

    /**
     * Record the SPI interface, clock, pins and mirror flags, then
     * initialise; afterwards the driver is enabled with a blank buffer.
     */
    method Begin(clockFrequency: nat, cs: nat, cd: nat, rst: nat, xFlip: bool := false, yFlip: bool := false)
      requires Valid()
      modifies this`hasSpi, this`spiClock, this`pinCS, this`pinCD, this`pinRST, this`curxFlip, this`curyFlip
      modifies this`bus, this`enabled, this`xOffset, this`dontSendBuf, buf
      ensures Valid()
      ensures hasSpi && spiClock == clockFrequency && pinCS == cs && pinCD == cd && pinRST == rst
      ensures curxFlip == xFlip && curyFlip == yFlip
      ensures bus == old(bus) + InitCommands(xFlip, yFlip)
      ensures enabled && xOffset == 0 && dontSendBuf == 0 && buf[..] == Blank()
    {
      hasSpi := true;
      spiClock := clockFrequency;
      pinCS := cs;
      pinCD := cd;
      pinRST := rst;
      curxFlip := xFlip;
      curyFlip := yFlip;
      Init();
    }

    /**
     * Enabling re-runs Init. Disabling sends power-control off and display
     * off, and changes nothing else: the buffer and the enabled flag stay.
     * Only Init checks for a missing SPI interface, so disabling needs one.
     */
    method SetEnabled(en: bool)
      requires Valid() && (en || hasSpi)
      modifies this`bus, this`enabled, this`xOffset, this`dontSendBuf, buf
      ensures Valid()
      ensures en && !hasSpi ==> bus == old(bus) && enabled == old(enabled) && dontSendBuf == old(dontSendBuf)
                                && buf[..] == old(buf[..])
      ensures en && hasSpi ==> bus == old(bus) + InitCommands(curxFlip, curyFlip) && enabled && xOffset == 0
                               && dontSendBuf == 0 && buf[..] == Blank()
      ensures !en ==> bus == old(bus) + DisableCommands() && enabled == old(enabled)
                      && dontSendBuf == old(dontSendBuf) && buf[..] == old(buf[..])
    {
      if en {
        Init();
      } else {
        SendCommand(0x28);
        SendCommand(0xAE);
      }
    }
  }
}
