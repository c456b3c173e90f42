# UC1701_SOLDERED driver model

This project models the core of the `UC1701_SOLDERED` Arduino driver for a 102x64 monochrome LCD with a UC1701 controller, and proves properties about the model. The model has three parts:

- **The packed framebuffer and the pixel write.** The 816-byte buffer holds 8 pages of 102 one-byte columns. Bit `y % 8` of byte `x + (y / 8) * 102` is row `y` of column `x`.
  - `writePixel` bounds-checks against the logical canvas, applies one of four rotations, and then sets or clears exactly one bit.
  - `clearDisplay` zeroes the buffer.
- **The flush protocol.** `sendBuf` and `display` walk pages and columns and put a fixed sequence of command and data bytes on the bus.
- **The controller command sequences.** These are `init`, `begin`, `setEnabled`, `setContrast`, `setResistor` and `setInverted`.

The project has four modules:

- `Screen` (`screen.dfy`) holds:
  - the panel constants from the header;
  - the logical canvas size for each rotation;
  - the rotation transform of `writePixel`, with an independent inverse;
  - the packed byte index.
- `Framebuffer` (`framebuffer.dfy`):
  - gives the value-level meaning of a pixel write on a buffer, as a function on `seq<bv8>`;
  - proves the write's "one bit changes" properties, its read-back property and its idempotence.
- `Protocol` (`protocol.dfy`):
  - models a bus transfer as an `Event`, either `Cmd(op)` or `Data(bits)`. Pin levels and SPI framing are not modelled.
  - defines, as values, the traces that a flush and each command encoder emit;
  - proves their layout, length, and the command ranges they respect.
- `Driver` (`driver.dfy`) is the driver object, `class Uc1701`:
  - `buf` is an `array<bv8>`;
  - the source's state fields are mutable fields;
  - everything sent is recorded in the field `bus`, oldest first.

  Each method updates these as the member function of the same name does. Each method is proved against the functions of `Framebuffer` and `Protocol`.

Command bytes are numbers 0..255 (`Protocol.Byte`). Data bytes are buffer bytes, `bv8`.

- `value & 0x3F` in `setContrast` is written as `value % 0x40`.
- `value & 7` in `setResistor` is written as `value % 8`.

On a byte these are the same number.

A few helper methods split one source function into parts. They have no counterpart of their own in the source:

- `SendPage` and `SendColumns` split out of `sendBuf`.
- `SendScanDirections`, `SendSetup` and `SendPowerOn` split out of `init`.
- `WriteBit` splits out of `writePixel`.

Their calls are made in the source's order, so the bytes sent and the buffer update are unchanged.

Behaviour of the driver worth knowing, which the model keeps:

- **Rotation 1.** Rotation 1 reflects the swapped x across `height()`, which is 102 for odd rotations. So logical (0, 0) lands on physical (101, 0); a reflection across the panel's height 64 would have given (63, 0). Every in-range pixel still lands on the panel (`Screen.ToPhysical`), and the transform is a bijection.
- **Disabled driver.** While `enabled` is false, every write clears its bit, whatever the colour.
- **Re-enabling clears the buffer.** `setEnabled(true)` re-runs `init`, which ends with `clearDisplay`. So the buffer is not preserved across disable and enable.
- **Inversion byte.** `setInverted(true)` sends 0xA6. `init` sends the same byte, and its comment calls it "inverse display off".
- **Contrast value.** `setContrast` sends its value as a command byte (command/data line low), not as data.
- **Flush suppression.** A flush is suppressed only when `dontSendBuf > 0`, so a negative counter does not suppress it. The driver changes `dontSendBuf` only in `clearDisplay`, which resets it to 0.
- **SPI interface.** Only `init` checks for a missing SPI interface. `sendCommand` and `sendData` use it unchecked, so every operation that sends a byte requires one (`hasSpi`), except `init` itself.

## Model

| member | source | states |
|---|---|---|
| Screen.BufferGeometry | src/UC1701-SOLDERED.h:23-28 | The panel is 102x64 and 64 is a multiple of the page height 8. The buffer is 8 pages of 102 columns, 816 bytes. |
| Screen.LogicalWidth | src/UC1701-SOLDERED.h:49 | width() of the canvas built as 102x64: 102 for rotations 0 and 2, 64 for 1 and 3, and width plus height is always 166. |
| Screen.LogicalHeight | src/UC1701-SOLDERED.h:49 | height() of the canvas: 64 for rotations 0 and 2, 102 for 1 and 3. |
| Screen.InLogical | src/UC1701-SOLDERED.cpp:122 | The negation of writePixel's early-return test: 0 <= x <= width() - 1 and 0 <= y <= height() - 1. Its use is stated by WritePixelOutOfRange, WritePixelOnCanvas and ToPhysical. |
| Screen.InPhysical | src/UC1701-SOLDERED.cpp:141 | The defensive panel test 0 <= x <= 101 and 0 <= y <= 63 after the rotation. ToPhysical proves it always holds on the canvas. |
| Screen.ToPhysical | src/UC1701-SOLDERED.cpp:125-141 | Every pixel on the logical canvas of any rotation 0..3 transforms to a pixel with 0 <= x <= 101 and 0 <= y <= 63, so the defensive physical test always passes. |
| Screen.ToLogical | src/UC1701-SOLDERED.cpp:125-139 | This is the inverse transform, defined independently. Every physical pixel maps to a pixel on the logical canvas. |
| Screen.ToLogicalOfToPhysical | src/UC1701-SOLDERED.cpp:125-139 | Undoing the rotation transform gives back the logical pixel, for every rotation. |
| Screen.ToPhysicalOfToLogical | src/UC1701-SOLDERED.cpp:125-139 | Every physical pixel is reached by some logical pixel, so the transform is onto the panel. |
| Screen.ToPhysicalInjective | src/UC1701-SOLDERED.cpp:125-139 | Two distinct logical pixels never land on the same physical pixel. |
| Screen.Index | src/UC1701-SOLDERED.cpp:145 | The byte index of a physical pixel is below 816. Its remainder by 102 is the column and its quotient by 102 is the page y / 8. |
| Screen.IndexShared | src/UC1701-SOLDERED.cpp:145-149 | Two physical pixels share a buffer byte if and only if they share both column and page. |
| Screen.PageByteInBuffer | src/UC1701-SOLDERED.cpp:109 | The flush's index x + p * 102 is inside the buffer for every page and column on the panel. |
| Framebuffer.Mask | src/UC1701-SOLDERED.cpp:145 | The mask for row k of a page has exactly one bit set. |
| Framebuffer.MaskIsShift | src/UC1701-SOLDERED.cpp:145 | The bit mask used for row k of a page is the byte 1 << k. |
| Framebuffer.SetBit | src/UC1701-SOLDERED.cpp:143-150 | After OR-ing with the mask, or AND-ing with its complement, bit k reads back as the requested value. |
| Framebuffer.SetBitKeeps | src/UC1701-SOLDERED.cpp:145-149 | Setting or clearing bit k leaves any other bit j of the byte as it was. |
| Framebuffer.SetBitKeepsOthers | src/UC1701-SOLDERED.cpp:145-149 | Setting or clearing bit k leaves all seven other bits of the byte as they were. |
| Framebuffer.Blank | src/UC1701-SOLDERED.cpp:172 | The cleared buffer has 816 bytes, all zero. |
| Framebuffer.BlankIsDark | src/UC1701-SOLDERED.cpp:169-173 | Every pixel of the cleared buffer is off. |
| Framebuffer.Lit | src/UC1701-SOLDERED.cpp:143 | The condition enabled && color of writePixel. Its effect on the buffer is stated by WritePixelChangesOneBit and WritePixelReadBack. |
| Framebuffer.WritePixel | src/UC1701-SOLDERED.cpp:120-152 | A pixel write keeps the buffer at 816 bytes. What it changes is stated by the lemmas below. |
| Framebuffer.WritePixelOnCanvas | src/UC1701-SOLDERED.cpp:141-150 | On the logical canvas, a write is one byte update at the index of the rotated pixel. That byte gets bit y % 8 set to Lit(enabled, color). |
| Framebuffer.WritePixelOutOfRange | src/UC1701-SOLDERED.cpp:122-123 | A write with x < 0, y < 0, x > width() - 1 or y > height() - 1 leaves the buffer unchanged. |
| Framebuffer.WritePixelChangesOneBit | src/UC1701-SOLDERED.cpp:141-151 | A write on the canvas changes only bit y % 8 of one byte, whose index is below 816. Every other byte, and every other bit of that byte, is unchanged. The bit becomes enabled && color != 0. |
| Framebuffer.WritePixelReadBack | src/UC1701-SOLDERED.cpp:143-150 | After a write, the logical pixel reads back lit if and only if the driver is enabled and the colour is non-zero. Every other logical pixel reads as before. |
| Framebuffer.WritePixelIdempotent | src/UC1701-SOLDERED.cpp:143-150 | Writing the same pixel with the same colour twice leaves the same buffer as writing it once. |
| Protocol.FirstPage | src/UC1701-SOLDERED.cpp:99 | The first page of a flush, max(y0 / 8, 0), is the page that holds row y0. |
| Protocol.LastPage | src/UC1701-SOLDERED.cpp:100 | The last page of a flush, min(y1, 63) / 8, is a page of the panel: the page that holds row y1, or the last page for a row below the panel. |
| Protocol.PageByte | src/UC1701-SOLDERED.cpp:109 | The byte buf[x + p * 102] the column loop sends for column x of page p. PageByteInBuffer proves the index in bounds; PageDataAt and PageTraceLayout state where it goes in the trace. |
| Protocol.PageHeader | src/UC1701-SOLDERED.cpp:104-106 | A page opens with exactly three commands. |
| Protocol.PageHeaderAddresses | src/UC1701-SOLDERED.cpp:104-106 | The column-address MSB command lies in 0x10..0x1F and the LSB in 0x00..0x0F. Together they give back the column x0 + xOffset. The page command lies in 0xB0..0xB7 and encodes p. |
| Protocol.PageData | src/UC1701-SOLDERED.cpp:108-109 | The column loop sends data transfers only. |
| Protocol.PageTrace | src/UC1701-SOLDERED.cpp:104-109 | A page is at least three transfers. Exactly the first three are commands, and they are address commands. |
| Protocol.FlushPages | src/UC1701-SOLDERED.cpp:102-110 | Every command in a run of pages is a column or page address command. |
| Protocol.FlushTrace | src/UC1701-SOLDERED.cpp:99-110 | A flush never sends a configuration command: every command in it is a column or page address command. An empty page range sends nothing. Its layout and length are stated by the lemmas below. |
| Protocol.PageDataLength | src/UC1701-SOLDERED.cpp:108-109 | A page carries one data byte per column x0..x1, and none when x0 > x1. |
| Protocol.PageDataAt | src/UC1701-SOLDERED.cpp:108-109 | The i-th data byte of a page is the buffer byte of column x0 + i in that page. |
| Protocol.PageTraceLength | src/UC1701-SOLDERED.cpp:104-109 | One page is 3 commands plus one data byte per column. |
| Protocol.FlushPagesLength | src/UC1701-SOLDERED.cpp:102-110 | The pages p0..p - 1 take (p - p0) * (3 + Columns(x0, x1)) transfers, with no data bytes when x0 > x1. |
| Protocol.FlushPagesSplit | src/UC1701-SOLDERED.cpp:102-110 | A run of pages is the run before a split point followed by the run after it. |
| Protocol.FlushPagesLayout | src/UC1701-SOLDERED.cpp:102-110 | A run of pages is the pages before q, then page q, then the pages after q. |
| Protocol.FlushTraceLength | src/UC1701-SOLDERED.cpp:99-110 | A flush is (p1 - p0 + 1) * (3 + Columns(x0, x1)) transfers when the page range is non-empty, with p0 = max(y0 / 8, 0) and p1 = min(y1, 63) / 8. Columns(x0, x1) is x1 - x0 + 1 for x0 <= x1 and 0 otherwise, so a page with x0 > x1 is its three header commands only. An empty page range gives an empty flush. |
| Protocol.PageTraceLayout | src/UC1701-SOLDERED.cpp:104-109 | A page is sent as: the MSB command 0x10 + (x0 + xOffset) / 16, the LSB command (x0 + xOffset) % 16, and the page command 0xB0 + p in 0xB0..0xB7. These are followed by Data(buf[x + p * 102]) for x = x0..x1 in order. |
| Protocol.FlushTraceLayout | src/UC1701-SOLDERED.cpp:99-110 | For each page q from p0 to p1, a flush consists of: the earlier pages, taking (q - p0) * (3 + columns) transfers; then page q; then the later pages. |
| Protocol.FullFlushBlock | src/UC1701-SOLDERED.h:45 | In the default flush (0, 0, 101, 63), block j of 105 transfers is page j. |
| Protocol.FullFlushLength | src/UC1701-SOLDERED.h:45 | The default flush is 840 transfers long. |
| Protocol.FullFlushPage | src/UC1701-SOLDERED.cpp:102-110 | Block j of the default flush opens with page command 0xB0 + j and carries all 102 columns of page j of the buffer. |
| Protocol.FullFlush | src/UC1701-SOLDERED.h:45 | The default flush is 8 blocks of 3 + 102 transfers. Block j has page command 0xB0 + j and every column of page j. |
| Protocol.SegDirection | src/UC1701-SOLDERED.cpp:246-255 | The SEG direction command is 0xA0 with bit 0 set exactly when the columns are mirrored. |
| Protocol.ComDirection | src/UC1701-SOLDERED.cpp:256-263 | The COM direction command is 0xC0 with bit 3 set exactly when the rows are mirrored, and bits 0..2 clear. |
| Protocol.SetupCommands | src/UC1701-SOLDERED.cpp:244-267 | The set-up part of init is eight commands, from display off 0xAE to power control on 0x2F. |
| Protocol.PowerOnCommands | src/UC1701-SOLDERED.cpp:269-275 | The power-on part of init is seven commands, from resistor ratio 0x27 to display on 0xAF. |
| Protocol.InitCommands | src/UC1701-SOLDERED.cpp:242-275 | Init sends 16 transfers, all commands. They open with system reset 0xE2 and display off 0xAE, and end with display on 0xAF. The SEG command is 0xA1 if and only if xFlip (otherwise 0xA0), and the COM command is 0xC8 if and only if yFlip (otherwise 0xC0). |
| Protocol.InitCommandsFlipsOnly | src/UC1701-SOLDERED.cpp:246-263 | The mirror flags change only the SEG and COM commands. All other init commands are the same for every flag setting. |
| Protocol.DisableCommands | src/UC1701-SOLDERED.cpp:291-293 | Disabling sends two commands. The first is init's power-control command with every supply bit cleared, and the second is init's display-off command. |
| Protocol.ContrastCommands | src/UC1701-SOLDERED.cpp:191-195 | setContrast sends the command 0x81, then the value masked to at most 0x3F, also as a command. The masked value differs from the input by a multiple of 64, and a value in 0..63 goes out unchanged. |
| Protocol.ResistorCommands | src/UC1701-SOLDERED.cpp:200-203 | setResistor sends one command in 0x20..0x27 whose low three bits agree with the value's, so 0x20 + value for a value in 0..7. |
| Protocol.InvertCommands | src/UC1701-SOLDERED.cpp:208-214 | setInverted sends one command: 0xA6 if and only if inv holds, and 0xA7 otherwise. 0xA6 is the same byte init sends. |
| Driver.Uc1701.constructor | src/UC1701-SOLDERED.h:49 | A fresh driver has a blank buffer and flushing allowed. It is not enabled, has xOffset 0, no SPI interface and rotation 0, and has sent nothing. |
| Driver.Uc1701.Width | src/UC1701-SOLDERED.h:49 | width() of the driver's canvas: the panel width for even rotations, and width plus height is the panel's. |
| Driver.Uc1701.Height | src/UC1701-SOLDERED.h:49 | height() of the driver's canvas: the panel height for even rotations and the panel width for odd ones. |
| Driver.Uc1701.SendCommand | src/UC1701-SOLDERED.cpp:55-65 | Needs an SPI interface. Appends exactly one command transfer of the byte to the bus. |
| Driver.Uc1701.SendData | src/UC1701-SOLDERED.cpp:72-82 | Needs an SPI interface. Appends exactly one data transfer of the byte to the bus. |
| Driver.Uc1701.SendPage | src/UC1701-SOLDERED.cpp:104-109 | Appends one page of a flush to the bus: its header, then columns x0..x1 of page p of the current buffer. |
| Driver.Uc1701.SendColumns | src/UC1701-SOLDERED.cpp:108-109 | The column loop appends the data bytes of page p for columns x0..x1, in order. |
| Driver.Uc1701.SendBuf | src/UC1701-SOLDERED.cpp:92-111 | Needs an SPI interface unless nothing is to be sent. With dontSendBuf > 0 nothing is sent. Otherwise the bus gains exactly the flush trace of the current buffer. Only the bus can change, so the buffer and every other field stay as they were. |
| Driver.Uc1701.Display | src/UC1701-SOLDERED.cpp:183-186 | The same effect as SendBuf on the same rectangle. Both default to the full panel (0, 0, 101, 63). |
| Driver.Uc1701.WritePixel | src/UC1701-SOLDERED.cpp:120-152 | The array becomes Framebuffer.WritePixel of its old contents, so the lemmas on that function hold of it. Only the buffer can change. |
| Driver.Uc1701.WriteBit | src/UC1701-SOLDERED.cpp:143-150 | The array changes only at byte i, which gets bit k set (on) or cleared (off). |
| Driver.Uc1701.DrawPixel | src/UC1701-SOLDERED.cpp:161-164 | The same effect as WritePixel. |
| Driver.Uc1701.ClearDisplay | src/UC1701-SOLDERED.cpp:169-173 | All 816 bytes become 0 and dontSendBuf becomes 0. Nothing else changes. |
| Driver.Uc1701.SetContrast | src/UC1701-SOLDERED.cpp:191-195 | The bus gains exactly ContrastCommands(value). |
| Driver.Uc1701.SetResistor | src/UC1701-SOLDERED.cpp:200-203 | The bus gains exactly ResistorCommands(value). |
| Driver.Uc1701.SetInverted | src/UC1701-SOLDERED.cpp:208-214 | The bus gains exactly InvertCommands(inv). |
| Driver.Uc1701.SendScanDirections | src/UC1701-SOLDERED.cpp:246-263 | Sends the SEG and then the COM direction command chosen by the mirror flags, and sets xOffset to 0 on both branches. |
| Driver.Uc1701.SendSetup | src/UC1701-SOLDERED.cpp:244-267 | Sends the eight set-up commands of init after the reset, in order, and leaves xOffset at 0. |
| Driver.Uc1701.SendPowerOn | src/UC1701-SOLDERED.cpp:269-275 | Sends the last seven commands of init, in order. |
| Driver.Uc1701.Init | src/UC1701-SOLDERED.cpp:219-278 | Without an SPI interface nothing is sent and no field changes. Otherwise the bus gains exactly the 16 init commands and enabled becomes true. xOffset becomes 0, the buffer becomes all zero and dontSendBuf becomes 0. |
| Driver.Uc1701.Begin | src/UC1701-SOLDERED.cpp:38-48 | Records the clock, the pins and the mirror flags, then runs init. Afterwards the bus has gained the 16 init commands for those flags, and the driver is enabled with a blank buffer. |
| Driver.Uc1701.SetEnabled | src/UC1701-SOLDERED.cpp:283-301 | setEnabled(true) has exactly Init's effect. setEnabled(false) needs an SPI interface, sends 0x28 then 0xAE and leaves the buffer, enabled and dontSendBuf unchanged. |

## Left out

- The SPI transport is not modelled. The `SPISettings` mode and clock, `beginTransaction`, `transfer` and `endTransaction` reduce to one `Event` per byte.
- Pin setup, pin levels and the reset pulse are not modelled. This covers `pinMode` and `digitalWrite`, including the pins driven low by `setEnabled(false)`.
- The `delay` calls are not modelled; only the order of transfers is kept.
- The `Serial.println` error message of `init` is not modelled. An unset SPI interface is the boolean field `hasSpi`.
- The graphics base class Adafruit_GFX is not part of this model:
  - its drawing primitives and `setRotation` are absent;
  - `rotation` is a field kept in 0..3 by `Valid()`;
  - `width()` and `height()` are 102x64 for rotations 0 and 2 and 64x102 for rotations 1 and 3.
- The `SPIClass` object is not modelled, only whether one was given. `begin` always gives one, so its parameter is left out.
- Driver.Uc1701.SendBuf: requires the end column `x1 <= 101`. The source never clamps `x1`. A larger one sends the following page's bytes, and reads past the end of the buffer on the last page.
  - The coordinates are numbers 0..255, matching the source's `uint8_t` parameters.
  - `x0 + xOffset < 256` holds because `xOffset` is always 0.
- Driver.Uc1701.Display: takes its coordinates already in 0..255 with `x1 <= 101`. The implicit narrowing of `display`'s `int` arguments to `sendBuf`'s `uint8_t` parameters is not modelled.
- Driver.Uc1701.WritePixel: coordinates are unbounded integers and the colour a natural number. The `int16_t` and `uint16_t` parameter widths are not modelled, because every in-range coordinate fits them.
- Fields the source leaves uninitialised before `begin` are not modelled as undefined. These are `buf`, `dontSendBuf`, `enabled`, `spiInterface`, `spiClock`, the pins and the flags; only `xOffset` has an initial value in the header. The constructor gives them the values of a zero-initialised, statically allocated driver. A fresh driver therefore has a null `spiInterface`, which is why it has `hasSpi` false and why `init` (and `setEnabled(true)`) before `begin` takes the no-interface branch. For a driver object that is not zero-initialised, that test reads an indeterminate pointer, which the model does not capture.
- Nothing in the driver changes `dontSendBuf` except `clearDisplay`, which sets it to 0. The field is kept as an integer so that the suppressed case of a flush can be stated.
