/** The `LCD` class of app_3.py: an HD44780 character display behind a PCF8574
    I2C expander, driven in 4-bit mode. Every command or character goes out as
    two nibbles, each strobed with the enable bit, with the backlight bit set
    while `backlight` is true. The I2C bus is the trace `bus` of bytes written
    to the expander, oldest first. */
module LcdFourBit {
  import opened Hd44780
  import opened Text

  const LCD_BACKLIGHT: bv8 := 0x08
  const LCD_CMD: bv8 := 0x00
  const LCD_CHR: bv8 := 0x01
  const LCD_ENABLE: bv8 := 0x04
  const LCD_WIDTH: nat := 16
  const LINE_1: bv8 := 0x80
  const LINE_2: bv8 := 0xC0

  /** What `write_byte` puts on the bus for `val`. */
  function BusByte(val: bv8, backlight: bool): bv8 {
    if backlight then val | LCD_BACKLIGHT else val
  }

  /** The two bytes of `strobe(data)`: enable raised, then enable cleared. */
  function StrobeBytes(data: bv8, backlight: bool): seq<bv8> {
    [BusByte(data | LCD_ENABLE, backlight), BusByte(data & !LCD_ENABLE, backlight)]
  }

  /** `value & 0xF0` */
  function HighNibble(value: bv8): bv8 { value & 0xF0 }

  /** `(value << 4) & 0xF0` */
  function LowNibble(value: bv8): bv8 { (value << 4) & 0xF0 }

  /** The four bytes of `write_cmd` (mode `LCD_CMD`) or `write_char` (mode
      `LCD_CHR`). Both masks keep bits of the low byte only, so the Python
      `int` argument is taken here as its low byte. */
  function ByteWrite(mode: bv8, value: bv8, backlight: bool): seq<bv8> {
    StrobeBytes(mode | HighNibble(value), backlight) + StrobeBytes(mode | LowNibble(value), backlight)
  }

  /** `str(message).ljust(16)[:16]` */
  function Fit(message: string): string {
    if |message| >= LCD_WIDTH then message[..LCD_WIDTH]
    else message + seq(LCD_WIDTH - |message|, _ => ' ')
  }

  /** The low bytes of the code points of `s`: `ord(c)` for each character, as `write_char` uses it. */
  function Codes(s: string): (r: seq<bv8>)
    ensures |r| == |s|
  {
    if |s| == 0 then [] else Codes(s[..|s| - 1]) + [Low8(s[|s| - 1] as nat)]
  }

  /** The bytes of one `ByteWrite` per value, in order. */
  function WriteAll(mode: bv8, values: seq<bv8>, backlight: bool): seq<bv8> {
    if |values| == 0 then []
    else WriteAll(mode, values[..|values| - 1], backlight) + ByteWrite(mode, values[|values| - 1], backlight)
  }

  /** One `write_char(ord(c))` per character of `s`, in order. */
  function TextBytes(s: string, backlight: bool): seq<bv8> {
    WriteAll(LCD_CHR, Codes(s), backlight)
  }

  /** The DDRAM address command `write_string` sends first. */
  function LineCommand(line: int, backlight: bool): seq<bv8> {
    if line == 0 then ByteWrite(LCD_CMD, LINE_1, backlight)
    else if line == 1 then ByteWrite(LCD_CMD, LINE_2, backlight)
    else []
  }

  /** The four raw writes that open `init`. */
  function InitRawBytes(backlight: bool): seq<bv8> {
    [BusByte(0x30, backlight), BusByte(0x30, backlight), BusByte(0x30, backlight), BusByte(0x20, backlight)]
  }

  /** The bytes of `init`: four raw writes, then the five commands 0x28, 0x08, 0x01, 0x06, 0x0C. */
  function InitBytes(backlight: bool): seq<bv8> {
    InitRawBytes(backlight) +
    ByteWrite(LCD_CMD, 0x28, backlight) + ByteWrite(LCD_CMD, 0x08, backlight) +
    ByteWrite(LCD_CMD, 0x01, backlight) + ByteWrite(LCD_CMD, 0x06, backlight) +
    ByteWrite(LCD_CMD, 0x0C, backlight)
  }

  /** The transfers the controller should receive for `values`, one each, in order. */
  function Transfers(rs: bool, values: seq<bv8>): (r: seq<Transfer>)
    ensures |r| == |values|
    ensures forall i :: 0 <= i < |values| ==> r[i] == Transfer(rs, values[i])
  {
    if |values| == 0 then [] else Transfers(rs, values[..|values| - 1]) + [Transfer(rs, values[|values| - 1])]
  }

  class Lcd {
    const addr: nat
    var backlight: bool
    var bus: seq<bv8>

    /** `LCD(addr=0x27)`: the backlight starts on. */
    constructor (addr: nat := 0x27)
      ensures this.addr == addr && backlight && bus == []
    {
      this.addr := addr;
      backlight := true;
      bus := [];
    }

    method WriteByte(val: bv8)
      modifies this`bus
      ensures bus == old(bus) + [BusByte(val, backlight)]
    {
      var v := val;
      if backlight {
        v := v | LCD_BACKLIGHT;
      }
      bus := bus + [v];
    }

    method Strobe(data: bv8)
      modifies this`bus
      ensures bus == old(bus) + StrobeBytes(data, backlight)
    {
      WriteByte(data | LCD_ENABLE);
      WriteByte(data & !LCD_ENABLE);
    }

    method WriteCmd(cmd: bv8)
      modifies this`bus
      ensures bus == old(bus) + ByteWrite(LCD_CMD, cmd, backlight)
    {
      Strobe(LCD_CMD | HighNibble(cmd));
      Strobe(LCD_CMD | LowNibble(cmd));
    }

    method WriteChar(charvalue: nat)
      modifies this`bus
      ensures bus == old(bus) + ByteWrite(LCD_CHR, Low8(charvalue), backlight)
    {
      Strobe(LCD_CHR | HighNibble(Low8(charvalue)));
      Strobe(LCD_CHR | LowNibble(Low8(charvalue)));
    }

    method Init()
      modifies this`bus
      ensures bus == old(bus) + InitBytes(backlight)
    {
      WriteByte(0x30);
      WriteByte(0x30);
      WriteByte(0x30);
      WriteByte(0x20);
      ghost var sent := InitRawBytes(backlight);
      assert bus == old(bus) + sent;
      WriteCmd(0x28);
      Assoc(old(bus), sent, ByteWrite(LCD_CMD, 0x28, backlight));
      sent := sent + ByteWrite(LCD_CMD, 0x28, backlight);
      WriteCmd(0x08);
      Assoc(old(bus), sent, ByteWrite(LCD_CMD, 0x08, backlight));
      sent := sent + ByteWrite(LCD_CMD, 0x08, backlight);
      WriteCmd(0x01);
      Assoc(old(bus), sent, ByteWrite(LCD_CMD, 0x01, backlight));
      sent := sent + ByteWrite(LCD_CMD, 0x01, backlight);
      WriteCmd(0x06);
      Assoc(old(bus), sent, ByteWrite(LCD_CMD, 0x06, backlight));
      sent := sent + ByteWrite(LCD_CMD, 0x06, backlight);
      WriteCmd(0x0C);
      Assoc(old(bus), sent, ByteWrite(LCD_CMD, 0x0C, backlight));
    }

    method Clear()
      modifies this`bus
      ensures bus == old(bus) + ByteWrite(LCD_CMD, 0x01, backlight)
    {
      WriteCmd(0x01);
    }

    method WriteString(message: string, line: int := 0)
      modifies this`bus
      ensures bus == old(bus) + LineCommand(line, backlight) + TextBytes(Fit(message), backlight)
    {
      if line == 0 {
        WriteCmd(LINE_1);
      } else if line == 1 {
        WriteCmd(LINE_2);
      }
      var text := Fit(message);
      ghost var start := bus;
      for i := 0 to |text|
        invariant bus == start + TextBytes(text[..i], backlight)
      {
        WriteChar(text[i] as nat);
        TextBytesSnoc(text, i, backlight);
        Assoc(start, TextBytes(text[..i], backlight), ByteWrite(LCD_CHR, Low8(text[i] as nat), backlight));
      }
      assert text[..|text|] == text;
      Assoc(old(bus), LineCommand(line, backlight), TextBytes(text, backlight));
    }
  }

  // ---------------------------------------------------------------------
  // Properties of the encoding

  /** A strobe is a pulse on E: raised in the first byte, cleared in the
      second, every other line the same in both and equal to `data`'s, and
      the backlight line on in both while the backlight is on. */
  lemma StrobePulse(data: bv8, backlight: bool)
    ensures |StrobeBytes(data, backlight)| == 2
    ensures EnableHigh(StrobeBytes(data, backlight)[0]) && !EnableHigh(StrobeBytes(data, backlight)[1])
    ensures StrobeBytes(data, backlight)[0] & !EN == StrobeBytes(data, backlight)[1] & !EN
    ensures StrobeBytes(data, backlight)[1] & !(EN | BL) == data & !(EN | BL)
    ensures backlight ==> StrobeBytes(data, backlight)[0] & BL == BL && StrobeBytes(data, backlight)[1] & BL == BL
  {
  }

  /** The two nibbles sent recombine into the byte written. */
  lemma NibbleRoundTrip(mode: bv8, value: bv8, backlight: bool)
    requires mode == LCD_CMD || mode == LCD_CHR
    ensures |ByteWrite(mode, value, backlight)| == 4
    ensures (ByteWrite(mode, value, backlight)[0] & 0xF0) | ((ByteWrite(mode, value, backlight)[2] & 0xF0) >> 4) == value
  {
  }

  /** RS (P0) is clear in all four bytes of a command; R/W (P1) is never set. */
  lemma CommandSelect(value: bv8, backlight: bool)
    ensures forall k :: 0 <= k < 4 ==> ByteWrite(LCD_CMD, value, backlight)[k] & RS == 0
    ensures forall k :: 0 <= k < 4 ==> ByteWrite(LCD_CMD, value, backlight)[k] & RW == 0
  {
  }

  /** RS (P0) is set in all four bytes of a character; R/W (P1) is never set. */
  lemma CharSelect(value: bv8, backlight: bool)
    ensures forall k :: 0 <= k < 4 ==> ByteWrite(LCD_CHR, value, backlight)[k] & RS == RS
    ensures forall k :: 0 <= k < 4 ==> ByteWrite(LCD_CHR, value, backlight)[k] & RW == 0
  {
  }

  lemma WriteAllSnoc(mode: bv8, values: seq<bv8>, v: bv8, backlight: bool)
    ensures WriteAll(mode, values + [v], backlight) == WriteAll(mode, values, backlight) + ByteWrite(mode, v, backlight)
  {
    assert (values + [v])[..|values|] == values;
  }

  lemma TextBytesSnoc(s: string, i: nat, backlight: bool)
    requires i < |s|
    ensures TextBytes(s[..i + 1], backlight) == TextBytes(s[..i], backlight) + ByteWrite(LCD_CHR, Low8(s[i] as nat), backlight)
  {
    assert s[..i + 1][..i] == s[..i];
    assert Codes(s[..i + 1]) == Codes(s[..i]) + [Low8(s[i] as nat)];
    WriteAllSnoc(LCD_CHR, Codes(s[..i]), Low8(s[i] as nat), backlight);
  }

  /** A strobe with R/W low latches exactly one nibble, the high four bits of
      `data`, with RS as `data` has it; with R/W high it latches nothing. Either
      way E is left low. */
  lemma StrobeReceived(data: bv8, backlight: bool)
    ensures Latched(StrobeBytes(data, backlight), false) ==
            if data & RW == 0 then [Nibble(data & RS != 0, data >> 4)] else []
    ensures !EnableAfter(StrobeBytes(data, backlight), false)
  {
    var s := StrobeBytes(data, backlight);
    OneLatched(s[0], false);
    OneLatched(s[1], EnableHigh(s[0]));
    LatchedAppend([s[0]], [s[1]], false);
    assert [s[0]] + [s[1]] == s;
    assert s[1] & RS == data & RS && s[1] & RW == data & RW && s[1] >> 4 == data >> 4;
  }

  /** A command or character write latches its two nibbles, high first. */
  lemma ByteWriteLatched(mode: bv8, value: bv8, backlight: bool)
    requires mode == LCD_CMD || mode == LCD_CHR
    ensures Latched(ByteWrite(mode, value, backlight), false) ==
            [Nibble((mode | HighNibble(value)) & RS != 0, (mode | HighNibble(value)) >> 4),
             Nibble((mode | LowNibble(value)) & RS != 0, (mode | LowNibble(value)) >> 4)]
    ensures !EnableAfter(ByteWrite(mode, value, backlight), false)
  {
    var hi, lo := mode | HighNibble(value), mode | LowNibble(value);
    assert hi & RW == 0 && lo & RW == 0;
    StrobeReceived(hi, backlight);
    StrobeReceived(lo, backlight);
    LatchedAppend(StrobeBytes(hi, backlight), StrobeBytes(lo, backlight), false);
  }

  /** The controller receives exactly one transfer per `write_cmd`/`write_char`:
      the value's low byte, as an instruction or as data, and E is left low. */
  lemma ByteWriteReceived(mode: bv8, value: bv8, backlight: bool)
    requires mode == LCD_CMD || mode == LCD_CHR
    ensures |Latched(ByteWrite(mode, value, backlight), false)| == 2
    ensures Pair(Latched(ByteWrite(mode, value, backlight), false)) == [Transfer(mode == LCD_CHR, value)]
    ensures !EnableAfter(ByteWrite(mode, value, backlight), false)
  {
    var hi, lo := mode | HighNibble(value), mode | LowNibble(value);
    ByteWriteLatched(mode, value, backlight);
    NibblesRecombine(mode, value);
    PairTwo(Nibble(hi & RS != 0, hi >> 4), Nibble(lo & RS != 0, lo >> 4));
  }

  /** The high and low nibble sent for `value` make `value` again, and RS
      tells a character from a command. */
  lemma NibblesRecombine(mode: bv8, value: bv8)
    requires mode == LCD_CMD || mode == LCD_CHR
    ensures (((mode | HighNibble(value)) >> 4) << 4) | (((mode | LowNibble(value)) >> 4) & 0x0F) == value
    ensures ((mode | HighNibble(value)) & RS != 0) == (mode == LCD_CHR)
  {
  }

  /** Values written one `ByteWrite` each arrive at the controller as one
      transfer per value, in order, and E is left low. */
  lemma {:induction false} WriteAllReceived(mode: bv8, values: seq<bv8>, backlight: bool)
    requires mode == LCD_CMD || mode == LCD_CHR
    ensures |WriteAll(mode, values, backlight)| == 4 * |values|
    ensures |Latched(WriteAll(mode, values, backlight), false)| == 2 * |values|
    ensures Pair(Latched(WriteAll(mode, values, backlight), false)) == Transfers(mode == LCD_CHR, values)
    ensures !EnableAfter(WriteAll(mode, values, backlight), false)
  {
    if |values| > 0 {
      var front := WriteAll(mode, values[..|values| - 1], backlight);
      var last := ByteWrite(mode, values[|values| - 1], backlight);
      WriteAllReceived(mode, values[..|values| - 1], backlight);
      ByteWriteReceived(mode, values[|values| - 1], backlight);
      LatchedAppend(front, last, false);
      PairAppend(Latched(front, false), Latched(last, false));
    }
  }

  /** `write_string` pads or cuts the message to exactly 16 characters. */
  lemma FitShape(message: string)
    ensures |Fit(message)| == LCD_WIDTH
    ensures forall i :: 0 <= i < LCD_WIDTH ==> Fit(message)[i] == if i < |message| then message[i] else ' '
  {
  }

  function LineTransfers(line: int): seq<Transfer> {
    if line == 0 then [Transfer(false, 0x80)]
    else if line == 1 then [Transfer(false, 0xC0)]
    else []
  }

  /** What the controller receives from `write_string(message, line)`: the
      DDRAM address of line 0 (0x80) or line 1 (0xC0), nothing for any other
      line, then the 16 characters of the fitted message as data. */
  lemma WriteStringReceived(message: string, line: int, backlight: bool)
    ensures |TextBytes(Fit(message), backlight)| == 4 * LCD_WIDTH
    ensures Pair(Latched(LineCommand(line, backlight) + TextBytes(Fit(message), backlight), false)) ==
            LineTransfers(line) + Transfers(true, Codes(Fit(message)))
  {
    var cmd := LineCommand(line, backlight);
    var text := TextBytes(Fit(message), backlight);
    FitShape(message);
    WriteAllReceived(LCD_CHR, Codes(Fit(message)), backlight);
    if line == 0 || line == 1 {
      ByteWriteReceived(LCD_CMD, if line == 0 then LINE_1 else LINE_2, backlight);
    }
    LatchedAppend(cmd, text, false);
    PairAppend(Latched(cmd, false), Latched(text, false));
  }

  /** The controller has received exactly `received` from `bus`, with no
      nibble pending and E low. */
  predicate Paired(bus: seq<bv8>, received: seq<Transfer>) {
    |Latched(bus, false)| % 2 == 0 && !EnableAfter(bus, false) && Pair(Latched(bus, false)) == received
  }

  /** One more command after a trace the controller has fully paired adds
      exactly that command to what it received. */
  lemma CommandAppended(prefix: seq<bv8>, received: seq<Transfer>, cmd: bv8, backlight: bool)
    requires Paired(prefix, received)
    ensures Paired(prefix + ByteWrite(LCD_CMD, cmd, backlight), received + [Transfer(false, cmd)])
  {
    var last := ByteWrite(LCD_CMD, cmd, backlight);
    ByteWriteReceived(LCD_CMD, cmd, backlight);
    LatchedAppend(prefix, last, false);
    PairAppend(Latched(prefix, false), Latched(last, false));
  }

  /** The four raw writes of `init` carry no enable pulse: nothing is latched
      and E stays low. */
  lemma RawInitSilent(backlight: bool)
    ensures Latched(InitRawBytes(backlight), false) == [] && !EnableAfter(InitRawBytes(backlight), false)
  {
    var raw := InitRawBytes(backlight);
    assert raw[1..][1..][1..][1..] == [];
  }

  /** The controller latches only the five commands that follow the raw writes
      of `init`, as instructions, in order. */
  lemma InitReceived(backlight: bool)
    ensures Pair(Latched(InitBytes(backlight), false)) ==
            [Transfer(false, 0x28), Transfer(false, 0x08), Transfer(false, 0x01),
             Transfer(false, 0x06), Transfer(false, 0x0C)]
  {
    var t1, t2, t3 := Transfer(false, 0x28), Transfer(false, 0x08), Transfer(false, 0x01);
    var t4, t5 := Transfer(false, 0x06), Transfer(false, 0x0C);
    var s0 := InitRawBytes(backlight);
    var s1 := s0 + ByteWrite(LCD_CMD, 0x28, backlight);
    var s2 := s1 + ByteWrite(LCD_CMD, 0x08, backlight);
    var s3 := s2 + ByteWrite(LCD_CMD, 0x01, backlight);
    var s4 := s3 + ByteWrite(LCD_CMD, 0x06, backlight);
    assert Paired(s1, [t1]) by {
      RawInitSilent(backlight);
      CommandAppended(s0, [], 0x28, backlight);
    }
    assert Paired(s2, [t1, t2]) by {
      CommandAppended(s1, [t1], 0x08, backlight);
    }
    assert Paired(s3, [t1, t2, t3]) by {
      CommandAppended(s2, [t1, t2], 0x01, backlight);
    }
    assert Paired(s4, [t1, t2, t3, t4]) by {
      CommandAppended(s3, [t1, t2, t3], 0x06, backlight);
    }
    CommandAppended(s4, [t1, t2, t3, t4], 0x0C, backlight);
  }
}
