/** The LCD routines of app_monitor.py: `lcd_write` sends each command or
    character as three bytes around an enable pulse, without splitting it into
    nibbles, over a module-level `SMBus`. A `write_byte` the device does not
    answer raises; `lcd_write` catches it, so the bytes of that call already
    sent stay sent, the rest of that call is skipped, and the next call tries
    the bus again. The bus is the trace `sent` of bytes that went out. Whether
    the device answers is an input: for each `lcd_write` call, `failAt` is the
    number (from 0) of its first `write_byte` that raises, 3 or more where all
    three go through. */
module LcdDirect {
  import opened Hd44780
  import opened Text

  const LCD_ADDR: nat := 0x27

  /** The three bytes of `lcd_write(data, mode)`: `data | 0x09`, `data | 0x0D`,
      `data | 0x09` for data (RS and backlight set), `data & 0xFB`,
      `(data & 0xFB) | 0x04`, `data & 0xFB` for commands. `data` is the byte
      that reaches the expander: ORing and ANDing with byte constants commute
      with taking the low byte, so a wider Python `int` gives the bytes of its
      low byte. */
  function WriteBytes(data: bv8, mode: bool): seq<bv8> {
    if mode then [data | 0x09, data | 0x0D, data | 0x09]
    else [data & 0xFB, (data & 0xFB) | 0x04, data & 0xFB]
  }

  /** One call `lcd_write(data, mode)`, `data` taken as its low byte. */
  datatype Write = Write(data: bv8, mode: bool)

  function Bytes(w: Write): seq<bv8> {
    WriteBytes(w.data, w.mode)
  }

  /** The `lcd_write` of `lcd_display_string`'s address command: line 1 and line 2 only. */
  function LineWrites(line: int): seq<Write> {
    if line == 1 then [Write(0x80, false)]
    else if line == 2 then [Write(0xC0, false)]
    else []
  }

  /** One data-mode `lcd_write(ord(char), 1)` per character of `s`, in order. */
  function CharWrites(s: string): (r: seq<Write>)
    ensures |r| == |s|
  {
    if |s| == 0 then [] else CharWrites(s[..|s| - 1]) + [Write(Low8(s[|s| - 1] as nat), true)]
  }

  /** The six `lcd_write` calls of `lcd_init`, in order. */
  function InitWrites(): seq<Write> {
    [Write(0x33, false), Write(0x32, false), Write(0x06, false),
     Write(0x0C, false), Write(0x28, false), Write(0x01, false)]
  }

  /** The bytes of `calls`, one call after another. */
  function Flatten(calls: seq<Write>): (r: seq<bv8>)
    ensures |r| == 3 * |calls|
  {
    if |calls| == 0 then [] else Flatten(calls[..|calls| - 1]) + Bytes(calls[|calls| - 1])
  }

  // ---------------------------------------------------------------------
  // The bus

  /** The bytes of the call `w` that go out when its `write_byte` number
      `failAt` raises: those before it. */
  function Sends(w: Write, failAt: nat): (r: seq<bv8>)
    ensures |r| == if failAt < 3 then failAt else 3
    ensures r == Bytes(w)[..|r|]
  {
    if failAt < 3 then Bytes(w)[..failAt] else Bytes(w)
  }

  /** What the calls `calls` send in turn, call `i` failing at `failAts[i]`:
      each call sends its own part, whatever the calls before it did. */
  function SentBy(calls: seq<Write>, failAts: seq<nat>): seq<bv8>
    requires |failAts| == |calls|
  {
    if |calls| == 0 then []
    else SentBy(calls[..|calls| - 1], failAts[..|calls| - 1]) + Sends(calls[|calls| - 1], failAts[|calls| - 1])
  }

  /** What the same calls would send if the first exception ended them all,
      as the outer handlers of `lcd_init` and `lcd_display_string` would if
      `lcd_write` passed it on. */
  function SentUntilRaise(calls: seq<Write>, failAts: seq<nat>): seq<bv8>
    requires |failAts| == |calls|
  {
    if |calls| == 0 then []
    else if failAts[0] < 3 then Sends(calls[0], failAts[0])
    else Bytes(calls[0]) + SentUntilRaise(calls[1..], failAts[1..])
  }

  class Bus {
    var sent: seq<bv8>

    constructor ()
      ensures sent == []
    {
      sent := [];
    }

    /** `bus.write_byte(LCD_ADDR, value)`: it raises where `ok` is false (the
        device does not answer), and then nothing goes out. */
    method WriteByte(value: bv8, ok: bool) returns (raised: bool)
      modifies this`sent
      ensures raised == !ok
      ensures sent == if ok then old(sent) + [value] else old(sent)
    {
      raised := !ok;
      if ok {
        sent := sent + [value];
      }
    }

    /** The three `bus.write_byte` calls of one `lcd_write`, up to the first
        one that raises; `raised` tells whether one did. */
    method WriteThree(b0: bv8, b1: bv8, b2: bv8, failAt: nat) returns (raised: bool)
      modifies this`sent
      ensures sent == old(sent) + [b0, b1, b2][..if failAt < 3 then failAt else 3]
      ensures raised == (failAt < 3)
    {
      raised := WriteByte(b0, failAt > 0);
      if !raised {
        raised := WriteByte(b1, failAt > 1);
        if !raised {
          raised := WriteByte(b2, failAt > 2);
        }
      }
      assert [b0, b1, b2][..0] == [] && [b0, b1, b2][..1] == [b0];
      assert [b0, b1, b2][..2] == [b0, b1] && [b0, b1, b2][..3] == [b0, b1, b2];
    }

    /** `lcd_write`: an exception of the bus is caught here and not passed on,
        so the caller goes on to its next call. */
    method LcdWrite(data: bv8, mode: bool, failAt: nat)
      modifies this`sent
      ensures sent == old(sent) + Sends(Write(data, mode), failAt)
    {
      var raised;
      if mode {
        raised := WriteThree(data | 0x09, data | 0x0D, data | 0x09, failAt);
      } else {
        raised := WriteThree(data & 0xFB, (data & 0xFB) | 0x04, data & 0xFB, failAt);
      }
    }

    /** `lcd_clear`. */
    method LcdClear(failAt: nat)
      modifies this`sent
      ensures sent == old(sent) + Sends(Write(0x01, false), failAt)
    {
      LcdWrite(0x01, false, failAt);
    }

    /** One more `lcd_write` after the calls `done` of a routine that started
        with `start` sent. */
    method Continue(ghost start: seq<bv8>, ghost done: seq<Write>, ghost doneFails: seq<nat>,
                    data: bv8, mode: bool, failAt: nat)
      requires |doneFails| == |done| && sent == start + SentBy(done, doneFails)
      modifies this`sent
      ensures sent == start + SentBy(done + [Write(data, mode)], doneFails + [failAt])
    {
      LcdWrite(data, mode, failAt);
      SentBySnoc(done, doneFails, Write(data, mode), failAt);
      Assoc(start, SentBy(done, doneFails), Sends(Write(data, mode), failAt));
    }

    /** `lcd_init`: six commands, the `i`-th failing at `failAts[i]`. Each
        `lcd_write` catches its own errors, so the outer handler never runs
        and every command is tried. */
    method LcdInit(failAts: seq<nat>)
      requires |failAts| == 6
      modifies this`sent
      ensures sent == old(sent) + SentBy(InitWrites(), failAts)
    {
      ghost var start := sent;
      ghost var done: seq<Write> := [];
      LcdWrite(0x33, false, failAts[0]);
      assert sent == start + SentBy(InitWrites()[..1], failAts[..1]) by {
        SentBySnoc([], [], Write(0x33, false), failAts[0]);
        assert InitWrites()[..1] == [Write(0x33, false)] && failAts[..1] == [] + [failAts[0]];
      }
      Next(start, failAts, 1, 0x32);
      Next(start, failAts, 2, 0x06);
      Next(start, failAts, 3, 0x0C);
      Next(start, failAts, 4, 0x28);
      Next(start, failAts, 5, 0x01);
      assert InitWrites()[..6] == InitWrites() && failAts[..6] == failAts;
    }

    /** Command `k` of `lcd_init`, `cmd`, after the first `k`. */
    method Next(ghost start: seq<bv8>, failAts: seq<nat>, k: nat, cmd: bv8)
      requires |failAts| == 6 && 0 < k < 6 && InitWrites()[k] == Write(cmd, false)
      requires sent == start + SentBy(InitWrites()[..k], failAts[..k])
      modifies this`sent
      ensures sent == start + SentBy(InitWrites()[..k + 1], failAts[..k + 1])
    {
      ghost var w := InitWrites();
      Continue(start, w[..k], failAts[..k], cmd, false, failAts[k]);
      assert w[..k] + [Write(cmd, false)] == w[..k + 1];
      assert failAts[..k] + [failAts[k]] == failAts[..k + 1];
    }

    /** `lcd_display_string(s, line)`: the line's address command, then one data
        write per character of `s`, neither padded nor cut; call `i` fails at
        `failAts[i]`. */
    method LcdDisplayString(s: string, line: int, failAts: seq<nat>)
      requires |failAts| == |LineWrites(line)| + |s|
      modifies this`sent
      ensures sent == old(sent) + SentBy(LineWrites(line) + CharWrites(s), failAts)
    {
      ghost var start := sent;
      var n := |LineWrites(line)|;
      if line == 1 || line == 2 {
        var cmd: bv8 := if line == 1 then 0x80 else 0xC0;
        Continue(start, [], [], cmd, false, failAts[0]);
        TakeSnoc(failAts, 0);
      }
      WriteChars(start, LineWrites(line), failAts[..n], s, failAts[n..]);
      assert failAts[..n] + failAts[n..] == failAts;
    }

    /** The loop of `lcd_display_string`: one data write per character of
        `s`, after the calls `pre` of a routine that started with `start`
        sent. */
    method WriteChars(ghost start: seq<bv8>, ghost pre: seq<Write>, ghost fpre: seq<nat>, s: string, fs: seq<nat>)
      requires |fpre| == |pre| && |fs| == |s|
      requires sent == start + SentBy(pre, fpre)
      modifies this`sent
      ensures sent == start + SentBy(pre + CharWrites(s), fpre + fs)
    {
      assert s[..0] == [] && fs[..0] == [];
      assert pre + CharWrites(s[..0]) == pre && fpre + fs[..0] == fpre;
      for i := 0 to |s|
        invariant sent == start + SentBy(pre + CharWrites(s[..i]), fpre + fs[..i])
      {
        Continue(start, pre + CharWrites(s[..i]), fpre + fs[..i], Low8(s[i] as nat), true, fs[i]);
        CharStep(pre, fpre, s, fs, i);
      }
      assert s[..|s|] == s && fs[..|s|] == fs;
    }
  }

  lemma SentBySnoc(calls: seq<Write>, failAts: seq<nat>, c: Write, f: nat)
    requires |failAts| == |calls|
    ensures SentBy(calls + [c], failAts + [f]) == SentBy(calls, failAts) + Sends(c, f)
  {
    assert (calls + [c])[..|calls|] == calls && (failAts + [f])[..|calls|] == failAts;
  }

  lemma FlattenSnoc(calls: seq<Write>, k: nat)
    requires k < |calls|
    ensures Flatten(calls[..k + 1]) == Flatten(calls[..k]) + Bytes(calls[k])
  {
    assert calls[..k + 1][..k] == calls[..k];
  }

  /** Two runs of calls one after the other send what each sends on its own:
      what the bus did to the first run has no effect on the second, whose
      every call is tried again. */
  lemma {:induction false} SentByAppend(a: seq<Write>, fa: seq<nat>, b: seq<Write>, fb: seq<nat>)
    requires |fa| == |a| && |fb| == |b|
    ensures SentBy(a + b, fa + fb) == SentBy(a, fa) + SentBy(b, fb)
    decreases |b|
  {
    if |b| == 0 {
      assert a + b == a && fa + fb == fa;
    } else {
      var b', fb' := b[..|b| - 1], fb[..|b| - 1];
      var c, f := b[|b| - 1], fb[|b| - 1];
      assert a + b == (a + b') + [c] && fa + fb == (fa + fb') + [f];
      assert b == b' + [c] && fb == fb' + [f];
      SentByAppend(a, fa, b', fb');
      SentBySnoc(a + b', fa + fb', c, f);
      SentBySnoc(b', fb', c, f);
      Assoc(SentBy(a, fa), SentBy(b', fb'), Sends(c, f));
    }
  }

  /** A bus that answers every write delivers every byte of every call. */
  lemma {:induction false} HealthyBusDeliversAll(calls: seq<Write>, failAts: seq<nat>)
    requires |failAts| == |calls|
    requires forall i :: 0 <= i < |failAts| ==> failAts[i] >= 3
    ensures SentBy(calls, failAts) == Flatten(calls)
  {
    if |calls| > 0 {
      HealthyBusDeliversAll(calls[..|calls| - 1], failAts[..|calls| - 1]);
    }
  }

  /** A bus that does not answer the very first write loses only the first
      command of `lcd_init`: the other five all go out. Had `lcd_write` let the
      error through to `lcd_init`'s own handler, nothing would have gone out. */
  lemma OneRefusalCostsOneCommand()
    ensures SentBy(InitWrites(), [0, 3, 3, 3, 3, 3]) == Flatten(InitWrites()[1..])
    ensures SentUntilRaise(InitWrites(), [0, 3, 3, 3, 3, 3]) == []
  {
    var w, f := InitWrites(), [0, 3, 3, 3, 3, 3];
    assert w == [w[0]] + w[1..] && f == [f[0]] + f[1..];
    SentByAppend([w[0]], [f[0]], w[1..], f[1..]);
    assert SentBy([w[0]], [f[0]]) == [] by {
      SentBySnoc([], [], w[0], f[0]);
    }
    HealthyBusDeliversAll(w[1..], f[1..]);
  }

  lemma CharsSnoc(s: string)
    requires |s| > 0
    ensures CharWrites(s) == CharWrites(s[..|s| - 1]) + [Write(Low8(s[|s| - 1] as nat), true)]
    ensures Flatten(CharWrites(s)) == Flatten(CharWrites(s[..|s| - 1])) + WriteBytes(Low8(s[|s| - 1] as nat), true)
  {
    var c := CharWrites(s);
    assert c[..|c| - 1] == CharWrites(s[..|s| - 1]);
  }

  /** One more character of `s` after the first `i`, behind the calls `pre`
      failing at `fpre`. */
  lemma CharStep(pre: seq<Write>, fpre: seq<nat>, s: string, fs: seq<nat>, i: nat)
    requires i < |s| == |fs|
    ensures pre + CharWrites(s[..i]) + [Write(Low8(s[i] as nat), true)] == pre + CharWrites(s[..i + 1])
    ensures fpre + fs[..i] + [fs[i]] == fpre + fs[..i + 1]
  {
    CharsSnoc(s[..i + 1]);
    assert s[..i + 1][..i] == s[..i] && s[..i + 1][i] == s[i];
    Assoc(pre, CharWrites(s[..i]), [Write(Low8(s[i] as nat), true)]);
    TakeSnoc(fs, i);
    Assoc(fpre, fs[..i], [fs[i]]);
  }

  lemma SliceLeft<T>(x: seq<T>, y: seq<T>, lo: nat, hi: nat)
    requires lo <= hi <= |x|
    ensures (x + y)[lo..hi] == x[lo..hi]
  {
  }

  lemma SliceRight<T>(x: seq<T>, y: seq<T>)
    ensures (x + y)[|x|..|x| + |y|] == y
  {
  }

  /** Character `i` of the string is the `i`-th three-byte data write. */
  lemma {:induction false} CharsBytesAt(s: string, i: nat)
    requires i < |s|
    ensures Flatten(CharWrites(s))[3 * i..3 * i + 3] == WriteBytes(Low8(s[i] as nat), true)
    decreases |s|
  {
    var n := |s|;
    var front := Flatten(CharWrites(s[..n - 1]));
    var last := WriteBytes(Low8(s[n - 1] as nat), true);
    CharsSnoc(s);
    if i < n - 1 {
      CharsBytesAt(s[..n - 1], i);
      SliceLeft(front, last, 3 * i, 3 * i + 3);
      var c := s[..n - 1][i];
      assert c == s[i];
      assert front[3 * i..3 * i + 3] == WriteBytes(Low8(c as nat), true);
      assert Flatten(CharWrites(s))[3 * i..3 * i + 3] == front[3 * i..3 * i + 3];
    } else {
      CharsBytesLast(s, i);
    }
  }

  lemma CharsBytesLast(s: string, i: nat)
    requires i + 1 == |s|
    ensures Flatten(CharWrites(s))[3 * i..3 * i + 3] == WriteBytes(Low8(s[i] as nat), true)
  {
    var front := Flatten(CharWrites(s[..i]));
    var last := WriteBytes(Low8(s[i] as nat), true);
    CharsSnoc(s);
    assert |front| == 3 * i && |last| == 3;
    SliceRight(front, last);
  }

  // ---------------------------------------------------------------------
  // What the controller latches

  /** The first and third bytes are equal and the middle one is the first with
      E set. Data bytes carry RS and the backlight; command bytes carry E clear
      in the outer bytes and otherwise the command's own bits. Neither mask
      touches bit 1, so R/W is the data's own bit 1 in all three bytes. */
  lemma WriteShape(data: bv8, mode: bool)
    ensures |WriteBytes(data, mode)| == 3
    ensures WriteBytes(data, mode)[0] == WriteBytes(data, mode)[2]
    ensures WriteBytes(data, mode)[1] == WriteBytes(data, mode)[0] | EN
    ensures forall k :: 0 <= k < 3 ==> WriteBytes(data, mode)[k] & RW == data & RW
    ensures mode ==> WriteBytes(data, mode)[0] & (RS | BL) == RS | BL
    ensures mode ==> WriteBytes(data, mode)[0] & !(RS | BL) == data & !(RS | BL)
    ensures !mode ==> !EnableHigh(WriteBytes(data, mode)[0])
    ensures !mode ==> WriteBytes(data, mode)[0] & !EN == data & !EN
  {
  }

  /** In data mode the outer bytes keep bit 2 of the character, so E is high
      in them exactly when the character code has that bit set. */
  lemma DataModeEnable(data: bv8)
    ensures EnableHigh(WriteBytes(data, true)[0]) <==> data & EN != 0
  {
  }

  /** What the controller latches from a three-byte write that starts after E
      was left at `enable`. */
  lemma ThreeLatched(b0: bv8, b1: bv8, b2: bv8, enable: bool)
    ensures Latched([b0, b1, b2], enable) ==
            (if Writes(b0, enable) then [Nibble(b0 & RS != 0, b0 >> 4)] else []) +
            (if Writes(b1, EnableHigh(b0)) then [Nibble(b1 & RS != 0, b1 >> 4)] else []) +
            (if Writes(b2, EnableHigh(b1)) then [Nibble(b2 & RS != 0, b2 >> 4)] else [])
    ensures EnableAfter([b0, b1, b2], enable) == EnableHigh(b2)
  {
    OneLatched(b0, enable);
    OneLatched(b1, EnableHigh(b0));
    OneLatched(b2, EnableHigh(b1));
    LatchedAppend([b1], [b2], EnableHigh(b0));
    assert [b1] + [b2] == [b1, b2];
    LatchedAppend([b0], [b1, b2], enable);
    assert [b0] + [b1, b2] == [b0, b1, b2];
  }

  /** A command write with bit 1 clear latches one nibble only, the command's
      high four bits, with RS taken from its bit 0: the low nibble never
      reaches the controller. With bit 1 set, R/W is high and the enable pulse
      is a read cycle that latches nothing. */
  lemma CommandLatched(data: bv8)
    ensures Latched(WriteBytes(data, false), false) ==
            if data & RW == 0 then [Nibble(data & RS != 0, data >> 4)] else []
    ensures !EnableAfter(WriteBytes(data, false), false)
  {
    ThreeLatched(data & 0xFB, (data & 0xFB) | 0x04, data & 0xFB, false);
    assert ((data & 0xFB) & RS != 0) == (data & RS != 0) && (data & 0xFB) >> 4 == data >> 4;
    assert (data & 0xFB) & RW == data & RW;
  }

  /** A character whose code has bit 2 clear latches its high nibble as data
      when bit 1 is clear too, and nothing (a read cycle) when bit 1 is set. */
  lemma DataLatched(data: bv8)
    requires data & EN == 0
    ensures Latched(WriteBytes(data, true), false) ==
            if data & RW == 0 then [Nibble(true, data >> 4)] else []
    ensures !EnableAfter(WriteBytes(data, true), false)
  {
    ThreeLatched(data | 0x09, data | 0x0D, data | 0x09, false);
    assert (data | 0x09) >> 4 == data >> 4;
    assert (data | 0x09) & RW == data & RW;
  }

  /** A character whose code has bit 2 set keeps E high through all three
      bytes, so nothing is latched and E stays high afterwards. */
  lemma DataEnableStuck(data: bv8, enable: bool)
    requires data & EN != 0
    ensures Latched(WriteBytes(data, true), enable) == []
    ensures EnableAfter(WriteBytes(data, true), enable)
  {
    ThreeLatched(data | 0x09, data | 0x0D, data | 0x09, enable);
  }

  lemma CommandAppended(prefix: seq<bv8>, cmd: bv8)
    requires !EnableAfter(prefix, false)
    ensures !EnableAfter(prefix + WriteBytes(cmd, false), false)
    ensures Latched(prefix + WriteBytes(cmd, false), false) ==
            Latched(prefix, false) + if cmd & RW == 0 then [Nibble(cmd & RS != 0, cmd >> 4)] else []
  {
    CommandLatched(cmd);
    LatchedAppend(prefix, WriteBytes(cmd, false), false);
  }

  /** The nibbles a controller latches from the command calls `calls`: the
      high four bits of each command whose bit 1 (R/W) is clear, with RS its
      bit 0. */
  function CommandNibbles(calls: seq<Write>): seq<Nibble> {
    if |calls| == 0 then []
    else
      var c := calls[|calls| - 1].data;
      CommandNibbles(calls[..|calls| - 1]) + if c & RW == 0 then [Nibble(c & RS != 0, c >> 4)] else []
  }

  /** A run of command calls on a bus that answers every write latches one
      nibble per command with R/W clear, in order, and leaves E low. */
  /** Every call of `calls` is a command. */
  predicate AllCommands(calls: seq<Write>) {
    forall i :: 0 <= i < |calls| ==> !calls[i].mode
  }

  lemma InitAllCommands()
    ensures AllCommands(InitWrites()) && AllCommands(InitWrites()[..3])
  {
  }

  lemma {:induction false} CommandsLatched(calls: seq<Write>)
    requires AllCommands(calls)
    ensures !EnableAfter(Flatten(calls), false)
    ensures Latched(Flatten(calls), false) == CommandNibbles(calls)
  {
    if |calls| > 0 {
      var k := |calls| - 1;
      CommandsLatched(calls[..k]);
      FlattenSnoc(calls, k);
      assert calls[..k + 1] == calls;
      CommandAppended(Flatten(calls[..k]), calls[k].data);
    }
  }

  lemma {:induction false} CommandNibblesAppend(a: seq<Write>, b: seq<Write>)
    ensures CommandNibbles(a + b) == CommandNibbles(a) + CommandNibbles(b)
    decreases |b|
  {
    if |b| == 0 {
      assert a + b == a;
    } else {
      var k := |b| - 1;
      assert (a + b)[..|a + b| - 1] == a + b[..k];
      CommandNibblesAppend(a, b[..k]);
    }
  }

  /** The nibbles of `lcd_init`'s commands, three at a time. */
  lemma InitNibbles()
    ensures CommandNibbles(InitWrites()[..3]) == []
    ensures CommandNibbles(InitWrites()) == [Nibble(false, 0x0), Nibble(false, 0x2), Nibble(true, 0x0)]
  {
    var w := InitWrites();
    var opening, closing := [w[0], w[1], w[2]], [w[3], w[4], w[5]];
    assert w[..3] == opening && w == opening + closing;
    assert CommandNibbles(opening) == [] by {
      assert opening[..2] == [w[0], w[1]] && opening[..2][..1] == [w[0]];
      assert CommandNibbles([w[0]]) == [];
      assert CommandNibbles([w[0], w[1]]) == [];
    }
    assert CommandNibbles(closing) == [Nibble(false, 0x0), Nibble(false, 0x2), Nibble(true, 0x0)] by {
      assert closing[..2] == [w[3], w[4]] && closing[..2][..1] == [w[3]];
      assert CommandNibbles([w[3]]) == [Nibble(false, 0x0)];
      assert CommandNibbles([w[3], w[4]]) == [Nibble(false, 0x0), Nibble(false, 0x2)];
    }
    CommandNibblesAppend(opening, closing);
  }

  /** The first three commands of `lcd_init` latch nothing and leave E low. */
  lemma InitOpeningSilent()
    ensures Latched(Flatten(InitWrites()[..3]), false) == [] && !EnableAfter(Flatten(InitWrites()[..3]), false)
  {
    InitAllCommands();
    CommandsLatched(InitWrites()[..3]);
    InitNibbles();
  }

  /** 0x33, 0x32 and 0x06 have bit 1, R/W, set: the enable pulses of the first
      three commands of `lcd_init` end read cycles. */
  lemma InitOpeningReads()
    ensures ReadCycle(WriteBytes(0x33, false)[2]) && ReadCycle(WriteBytes(0x32, false)[2]) && ReadCycle(WriteBytes(0x06, false)[2])
  {
    WriteShape(0x33, false);
    WriteShape(0x32, false);
    WriteShape(0x06, false);
  }

  /** The last three commands of `lcd_init` after the first three. */
  /** On a bus that answers every write, `lcd_init` gets three nibbles to the
      controller: the first three commands' pulses are read cycles
      (InitOpeningReads); of 0x0C, 0x28 and 0x01 the high nibbles 0, 2 and 0
      are latched, RS set for 0x01, whose bit 0 the command mask keeps. */
  lemma InitLatched()
    ensures Latched(Flatten(InitWrites()), false) == [Nibble(false, 0x0), Nibble(false, 0x2), Nibble(true, 0x0)]
  {
    InitAllCommands();
    CommandsLatched(InitWrites());
    InitNibbles();
  }
}
