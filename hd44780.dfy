/** The receiving side of a PCF8574 I2C backpack wired to an HD44780 controller
    in the 4-bit interface of the Hitachi HD44780U datasheet: each byte written
    to the expander drives P0 = RS, P1 = R/W, P2 = E, P3 = backlight and
    P4..P7 = D4..D7. A falling edge of E with R/W low ends a write cycle: the
    controller latches D4..D7 (and RS). With R/W high it ends a read cycle, in
    which the controller drives the data lines and takes nothing in. Two latched
    nibbles, high first, make one instruction or data byte. The controller is
    taken to be in 4-bit mode already, with no nibble pending.
    This is the reference against which the two programs' byte encoders are checked. */
module Hd44780 {
  import opened Text

  const RS: bv8 := 0x01
  const EN: bv8 := 0x04
  const BL: bv8 := 0x08
  const RW: bv8 := 0x02

  /** The low 8 bits of a Python `int`, the part of it that reaches the expander. */
  function Low8(n: nat): bv8 {
    (n % 256) as bv8
  }

  predicate EnableHigh(b: bv8) { b & EN != 0 }

  /** R/W high: the cycle this byte takes part in is a read. */
  predicate ReadCycle(b: bv8) { b & RW != 0 }

  /** `b` brings E down, E having been `enable`, in a write cycle. */
  predicate Writes(b: bv8, enable: bool) { enable && !EnableHigh(b) && !ReadCycle(b) }

  /** A nibble on D4..D7 and the state of RS when the controller latched it. */
  datatype Nibble = Nibble(rs: bool, bits: bv8)

  /** A complete byte the controller received: an instruction (`rs` false) or data. */
  datatype Transfer = Transfer(rs: bool, value: bv8)

  /** The nibbles latched while `bus` is written, when E was `enable` before the first byte. */
  function Latched(bus: seq<bv8>, enable: bool): seq<Nibble> {
    if |bus| == 0 then []
    else
      (if Writes(bus[0], enable) then [Nibble(bus[0] & RS != 0, bus[0] >> 4)] else []) +
      Latched(bus[1..], EnableHigh(bus[0]))
  }

  /** The state of E after `bus` has been written. */
  function EnableAfter(bus: seq<bv8>, enable: bool): bool {
    if |bus| == 0 then enable else EnableHigh(bus[|bus| - 1])
  }

  /** Pairs latched nibbles, high nibble first, into bytes (a trailing odd
      nibble is still waiting for its partner). */
  function Pair(ns: seq<Nibble>): seq<Transfer> {
    if |ns| < 2 then []
    else [Transfer(ns[0].rs, (ns[0].bits << 4) | (ns[1].bits & 0x0F))] + Pair(ns[2..])
  }

  /** A single byte latches a nibble exactly when it brings E down with R/W low. */
  lemma OneLatched(b: bv8, enable: bool)
    ensures Latched([b], enable) == if Writes(b, enable) then [Nibble(b & RS != 0, b >> 4)] else []
    ensures EnableAfter([b], enable) == EnableHigh(b)
  {
    assert [b][1..] == [];
  }

  /** Two nibbles make one transfer, the first giving the high four bits. */
  lemma PairTwo(x: Nibble, y: Nibble)
    ensures Pair([x, y]) == [Transfer(x.rs, (x.bits << 4) | (y.bits & 0x0F))]
  {
    assert [x, y][2..] == [];
  }

  /** Latching is compositional: what is latched across two writes is what
      each latches on its own, the second starting from the E state the first left. */
  lemma {:induction false} LatchedAppend(a: seq<bv8>, b: seq<bv8>, enable: bool)
    ensures Latched(a + b, enable) == Latched(a, enable) + Latched(b, EnableAfter(a, enable))
    ensures EnableAfter(a + b, enable) == EnableAfter(b, EnableAfter(a, enable))
  {
    if |a| == 0 {
      assert a + b == b;
    } else {
      var ab, e := a + b, EnableHigh(a[0]);
      assert ab[0] == a[0];
      assert ab[1..] == a[1..] + b;
      LatchedAppend(a[1..], b, e);
      var head := if Writes(a[0], enable) then [Nibble(a[0] & RS != 0, a[0] >> 4)] else [];
      assert Latched(ab, enable) == head + Latched(a[1..] + b, e);
      assert Latched(a, enable) == head + Latched(a[1..], e);
      assert EnableAfter(a, enable) == EnableAfter(a[1..], e);
      Assoc(head, Latched(a[1..], e), Latched(b, EnableAfter(a, enable)));
    }
  }

  lemma {:induction false} PairAppend(a: seq<Nibble>, b: seq<Nibble>)
    requires |a| % 2 == 0 && |b| % 2 == 0
    ensures Pair(a + b) == Pair(a) + Pair(b)
  {
    if |a| == 0 {
      assert a + b == b;
    } else {
      assert (a + b)[2..] == a[2..] + b;
      PairAppend(a[2..], b);
    }
  }
}
