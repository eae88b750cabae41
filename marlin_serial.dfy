/**
 * The serial transport of the display UART: a receive ring filled by the
 * receive interrupt, a transmit ring drained by the data-register-empty
 * interrupt, XON/XOFF software flow control packed in one flag byte, and the
 * emergency-command scanner fed from the receive interrupt.
 *
 * Hardware is reduced to what the logic observes: the UDRE flag (data
 * register empty) is an input, the UDRIE flag (its interrupt enabled) is a
 * field, and every byte written to the data register is appended to `wire`.
 * Each public operation runs atomically; an interrupt is a call of
 * `StoreRxdChar` or `TxUdrEmptyIrq`. The transmit side's busy wait for room
 * runs the transmit interrupt until a slot frees up, which is what either
 * the pending interrupt or the polling branch of the wait does.
 */
module MarlinSerial {
  import opened Bits
  import opened Wrappers
  import Ring
  import EP = EmergencyParser
  import opened NumberText

  const RX_BUFFER_SIZE: nat := 128
  const TX_BUFFER_SIZE: nat := 32

  const XON_XOFF_CHAR_SENT: byte := 0x80
  const XON_XOFF_CHAR_MASK: byte := 0x1F
  const XON_CHAR: byte := 17
  const XOFF_CHAR: byte := 19

  /** The states the flag byte takes: XON sent, XOFF sent, XOFF owed (sent bit clear). */
  const XON_SENT: byte := 0x91
  const XOFF_SENT: byte := 0x93

  const DEC: int := 10
  const HEX: int := 16
  const OCT: int := 8
  const BIN: int := 2
  const BYTE: int := 0

  /** Width in bits of `ring_buffer_pos_t1` for a receive ring of n bytes. */
  function PosBits(n: nat): nat
  {
    if n > 256 then 16 else 8
  }

  /** Both ring sizes are powers of two, so masking with size - 1 reduces modulo the size. */
  lemma SizesArePowersOfTwo()
    ensures RX_BUFFER_SIZE == Pow2(7) && TX_BUFFER_SIZE == Pow2(5)
    ensures Ring.ByteSize(RX_BUFFER_SIZE) && Ring.ByteSize(TX_BUFFER_SIZE)
  {
    Pow2Table();
  }

  /**
   * The position type chosen by the width rule holds every index of any
   * power-of-two receive ring of up to 2^16 bytes.
   */
  lemma {:induction false} PositionsFit(k: nat, p: nat)
    requires k <= 16 && p < Pow2(k)
    ensures p < Pow2(PosBits(Pow2(k)))
  {
    Pow2Table();
    if k <= 8 {
      Pow2Monotone(k, 8);
    } else {
      Pow2Monotone(k, 16);
    }
  }

  lemma {:induction false} Pow2Monotone(a: nat, b: nat)
    requires a <= b
    ensures Pow2(a) <= Pow2(b)
    decreases b
  {
    if a < b {
      Pow2Monotone(a, b - 1);
    }
  }

  /**
   * Why the transmit ring stops at 256: with `uint8_t` positions, a 512-byte
   * ring would wrap from position 255 to 0 instead of moving on to 256.
   */
  lemma TxOver256Wraps()
    ensures Trunc8(255 + 1) == 0
    ensures Ring.Next(255, Pow2(9)) == 256
  {
    Pow2Table();
    assert Pow2(9) == 512;
  }

  predicate LegalFlag(s: byte)
  {
    s == XON_SENT || s == XOFF_SENT || s == XOFF_CHAR
  }

  /** What the firmware's bit operations on the flag byte compute in each legal state. */
  lemma FlagFacts(s: byte)
    requires LegalFlag(s)
    ensures (And8(s, XON_XOFF_CHAR_SENT) == 0) == (s == XOFF_CHAR)
    ensures And8(s, XON_XOFF_CHAR_MASK) == (if s == XON_SENT then XON_CHAR else XOFF_CHAR)
    ensures Or8(s, XON_XOFF_CHAR_SENT) == (if s == XON_SENT then XON_SENT else XOFF_SENT)
    ensures Or8(XOFF_CHAR, XON_XOFF_CHAR_SENT) == XOFF_SENT
    ensures Or8(XON_CHAR, XON_XOFF_CHAR_SENT) == XON_SENT
  {
    HighBit(s);
    FlagChar(s);
    HighBit(XOFF_CHAR);
    HighBit(XON_CHAR);
  }

  /** The character a legal flag byte holds in its low five bits. */
  lemma FlagChar(s: byte)
    requires LegalFlag(s)
    ensures And8(s, XON_XOFF_CHAR_MASK) == (if s == XON_SENT then XON_CHAR else XOFF_CHAR)
  {
    LowBits(s);
    FlagMod(s);
  }

  lemma FlagMod(s: byte)
    requires LegalFlag(s)
    ensures s % 32 == (if s == XON_SENT then XON_CHAR else XOFF_CHAR)
  {
  }

  /** The counter after k drops from 0: the count itself up to 255, then counting on in 1..255. */
  function DropCount(k: nat): byte
  {
    if k == 0 then 0 else (k - 1) % 255 + 1
  }

  /** One more drop moves the counter from `DropCount(k)` to `DropCount(k + 1)`. */
  lemma DropCountStep(k: nat)
    ensures IncSkipZero(DropCount(k)) == DropCount(k + 1)
  {
    IncSkipZeroValues(DropCount(k));
    if k > 0 {
      var q, r := (k - 1) / 255, (k - 1) % 255;
      if r == 254 {
        DivModUnique(k, 255, q + 1, 0);
      } else {
        DivModUnique(k, 255, q, r + 1);
      }
    }
  }

  /** One received byte, abstractly: appended if the ring has room, otherwise counted as dropped. */
  function RxStore(q: seq<byte>, dropped: byte, c: byte): (seq<byte>, byte)
  {
    if |q| < RX_BUFFER_SIZE - 1 then (q + [c], dropped) else (q, IncSkipZero(dropped))
  }

  function RxStoreAll(q: seq<byte>, dropped: byte, input: seq<byte>): (seq<byte>, byte)
    decreases |input|
  {
    if input == [] then (q, dropped)
    else
      var r := RxStore(q, dropped, input[0]);
      RxStoreAll(r.0, r.1, input[1..])
  }

  /**
   * Bytes arriving with nobody reading: the ring keeps the first N - 1 and
   * drops the rest, and the drop counter equals the number dropped as long as
   * that is below 256.
   */
  lemma {:induction false} RxFlood(q: seq<byte>, k: nat, input: seq<byte>)
    requires |q| <= RX_BUFFER_SIZE - 1
    requires k == 0 || |q| == RX_BUFFER_SIZE - 1
    ensures var room := RX_BUFFER_SIZE - 1 - |q|;
      RxStoreAll(q, DropCount(k), input) ==
        if |input| <= room then (q + input, DropCount(k))
        else (q + input[..room], DropCount(k + |input| - room))
    decreases |input|
  {
    var room := RX_BUFFER_SIZE - 1 - |q|;
    if input == [] {
      assert q + input == q;
    } else {
      var c := input[0];
      var r := RxStoreAll(q, DropCount(k), input);
      if room > 0 {
        assert RxStore(q, DropCount(k), c) == (q + [c], DropCount(k));
        assert r == RxStoreAll(q + [c], DropCount(k), input[1..]);
        RxFlood(q + [c], k, input[1..]);
        if |input| <= room {
          assert q + [c] + input[1..] == q + input;
        } else {
          assert q + [c] + input[1..][..room - 1] == q + input[..room];
        }
      } else {
        DropCountStep(k);
        assert r == RxStoreAll(q, DropCount(k + 1), input[1..]);
        RxFlood(q, k + 1, input[1..]);
        assert input[..0] == [] && q + [] == q;
        assert k + 1 + |input[1..]| == k + |input|;
      }
    }
  }

  /** The bytes `write(const char*)` sends: those before the terminating NUL. */
  function CString(s: seq<byte>): (t: seq<byte>)
    requires 0 in s
    ensures 0 !in t && t + [0] <= s
  {
    if s[0] == 0 then [] else [s[0]] + CString(s[1..])
  }

  /**
   * The firmware's position arithmetic on a ring of n bytes: the sum taken
   * in a byte and masked by n - 1. (The transmit interrupt adds in `int`,
   * which for positions below 32 is the same value.)
   */
  method MaskedNextValue(p: nat, n: nat) returns (q: nat)
    requires Ring.ByteSize(n) && p < n
    ensures q == Ring.Next(p, n)
  {
    Ring.MaskedNext(p, n);
    q := And8(Trunc8(p + 1), n - 1);
  }

  /** `(N + head - tail) & (N - 1)`, the count `available()` and `availableForWrite()` return. */
  method MaskedCountValue(head: nat, tail: nat, n: nat) returns (c: nat)
    requires Ring.ByteSize(n) && Ring.Ok(n, head, tail)
    ensures c == Ring.Count(n, head, tail)
  {
    Ring.MaskedCount(head, tail, n);
    c := And8(Trunc8(n + head - tail), n - 1);
  }

  /** `(head - tail) & (N - 1)` in the position type, the count the receive path uses. */
  method MaskedDiffValue(head: nat, tail: nat, n: nat) returns (c: nat)
    requires Ring.ByteSize(n) && Ring.Ok(n, head, tail)
    ensures c == Ring.Count(n, head, tail)
  {
    Ring.MaskedDiff(head, tail, n);
    c := And8(Trunc8(head - tail), n - 1);
  }

  /** `state & XON_XOFF_CHAR_MASK`: the control character the flag byte holds. */
  method ControlChar(s: byte) returns (ch: byte)
    requires LegalFlag(s)
    ensures ch == if s == XON_SENT then XON_CHAR else XOFF_CHAR
  {
    FlagFacts(s);
    ch := And8(s, XON_XOFF_CHAR_MASK);
  }

  /** `state & XON_XOFF_CHAR_SENT`, tested for non-zero: the control character has gone out. */
  method IsSent(s: byte) returns (sent: bool)
    requires LegalFlag(s)
    ensures sent <==> s != XOFF_CHAR
  {
    FlagFacts(s);
    sent := And8(s, XON_XOFF_CHAR_SENT) != 0;
  }

  /** `ch | XON_XOFF_CHAR_SENT`: the flag byte with the sent bit set. */
  method MarkSent(s: byte) returns (r: byte)
    requires LegalFlag(s) || s == XON_CHAR
    ensures r == if s == XON_SENT || s == XON_CHAR then XON_SENT else XOFF_SENT
  {
    if s == XON_CHAR {
      FlagFacts(XON_SENT);
    } else {
      FlagFacts(s);
    }
    r := Or8(s, XON_XOFF_CHAR_SENT);
  }

  /**
   * The first loop of `printNumber`: the digits of n, least significant
   * first, in a fresh 32-byte buffer, and how many there are.
   */
  method CollectDigits(n: nat, base: byte) returns (buf: array<byte>, i: nat)
    requires n < ULONG_LIMIT && base >= 2
    ensures fresh(buf) && buf.Length == 32
    ensures i == |Digits(n, base)| && i <= 32
    ensures forall k :: 0 <= k < i ==> buf[k] == Digits(n, base)[k]
  {
    buf := new byte[32];
    ghost var ds := Digits(n, base);
    DigitsFitLong(n, base);
    i := 0;
    var m: nat := n;
    while m != 0
      invariant i + |Digits(m, base)| == |ds| && Digits(m, base) == ds[i..]
      invariant forall k :: 0 <= k < i ==> buf[k] == ds[k]
      decreases m
    {
      CollectStep(n, base, m, i);
      buf[i] := m % base;
      m := m / base;
      i := i + 1;
    }
  }

  /** One turn of the digit loop: digit i of n is m % base, and m / base holds the digits after it. */
  lemma CollectStep(n: nat, base: byte, m: nat, i: nat)
    requires base >= 2 && m != 0
    requires i + |Digits(m, base)| == |Digits(n, base)| && Digits(m, base) == Digits(n, base)[i..]
    ensures i < |Digits(n, base)| && Digits(n, base)[i] == m % base && m % base < base && m / base < m
    ensures i + 1 + |Digits(m / base, base)| == |Digits(n, base)| && Digits(m / base, base) == Digits(n, base)[i + 1..]
  {
    DigitsStep(m, base);
    var ds := Digits(n, base);
    assert ds[i..][1..] == ds[i + 1..];
  }

  class Serial1 {
    var rxBuf: array<byte>
    var rxHead: nat
    var rxTail: nat
    var txBuf: array<byte>
    var txHead: nat
    var txTail: nat
    var xonXoffState: byte
    var rxDroppedBytes: byte
    var rxMaxEnqueued: nat
    /** `_written1`: some byte has been handed to `writeNoHandshake`. */
    var written: bool
    /** UDRIE: the data-register-empty interrupt is enabled. */
    var udrie: bool
    /** Every byte written to the data register, oldest first. */
    var wire: seq<byte>
    var parserState: EP.State
    /** Every effect the emergency scanner has fired, oldest first. */
    var effects: seq<EP.Effect>
    /** Every byte the receive interrupt has taken from the data register. */
    ghost var received: seq<byte>

    /** The receive ring's shape. */
    ghost predicate RxOk()
      reads this`rxBuf, this`rxHead, this`rxTail, this`rxMaxEnqueued
    {
      rxBuf.Length == RX_BUFFER_SIZE && rxHead < RX_BUFFER_SIZE && rxTail < RX_BUFFER_SIZE &&
      rxMaxEnqueued < RX_BUFFER_SIZE
    }

    /** The transmit ring's shape and the flag byte; the interrupt stays enabled while it has work. */
    ghost predicate TxOk()
      reads this`txBuf, this`txHead, this`txTail, this`xonXoffState, this`udrie
    {
      txBuf.Length == TX_BUFFER_SIZE && txHead < TX_BUFFER_SIZE && txTail < TX_BUFFER_SIZE &&
      LegalFlag(xonXoffState) &&
      ((txHead != txTail || xonXoffState == XOFF_CHAR) ==> udrie)
    }

    /** The scanner's state and effects are the fold over every received byte. */
    ghost predicate ScanOk()
      reads this`received, this`parserState, this`effects
    {
      EP.Run(EP.Reset, received) == (parserState, effects)
    }

    ghost predicate Valid()
      reads this
    {
      RxOk() && TxOk() && ScanOk()
    }

    ghost function RxContents(): seq<byte>
      reads this`rxBuf, this`rxHead, this`rxTail, this`rxMaxEnqueued, rxBuf
      requires RxOk()
    {
      Ring.Contents(rxBuf[..], rxHead, rxTail)
    }

    ghost function TxContents(): seq<byte>
      reads this`txBuf, this`txHead, this`txTail, this`xonXoffState, this`udrie, txBuf
      requires TxOk()
    {
      Ring.Contents(txBuf[..], txHead, txTail)
    }

    ghost predicate TxFull()
      reads this`txBuf, this`txHead, this`txTail, this`xonXoffState, this`udrie
      requires TxOk()
    {
      Ring.Next(txHead, TX_BUFFER_SIZE) == txTail
    }

    /** A control character is owed: the flag byte's sent bit is clear. */
    ghost predicate Owed()
      reads this`xonXoffState
    {
      xonXoffState == XOFF_CHAR
    }

    /** The bytes committed to the line so far: sent, then queued. */
    ghost function Committed(): seq<byte>
      reads this`wire, this`txBuf, this`txHead, this`txTail, this`xonXoffState, this`udrie, txBuf
      requires TxOk()
    {
      wire + TxContents()
    }

    /**
     * The bytes already on the wire, then an owed control character (sent
     * with priority), then the transmit ring. While `Quiet()` holds, this is
     * what the line carries once the transmit interrupt has run dry.
     */
    ghost function Out(): seq<byte>
      reads this`wire, this`txBuf, this`txHead, this`txTail, this`xonXoffState, this`udrie, txBuf
      requires TxOk()
    {
      wire + (if Owed() then [XOFF_CHAR] else []) + TxContents()
    }

    /**
     * What `Out()` holds before the bytes of the next `write()`. With a
     * control character owed, `write` queues it behind the ring's contents;
     * if the ring is full, the interrupt run by the busy wait has already sent
     * it once ahead of them.
     */
    ghost function BeforeNext(): seq<byte>
      reads this`wire, this`txBuf, this`txHead, this`txTail, this`xonXoffState, this`udrie, txBuf
      requires TxOk()
    {
      if Owed() then wire + (if TxFull() then [XOFF_CHAR] else []) + TxContents() + [XOFF_CHAR]
      else Out()
    }

    /** `Out()` after `write()` is called on each of `bs` in turn. */
    ghost function OutAfter(bs: seq<byte>): seq<byte>
      reads this`wire, this`txBuf, this`txHead, this`txTail, this`xonXoffState, this`udrie, txBuf
      requires TxOk()
    {
      if bs == [] then Out() else BeforeNext() + bs
    }

    constructor ()
      ensures Valid() && fresh(rxBuf) && fresh(txBuf)
      ensures RxContents() == [] && TxContents() == [] && wire == [] && effects == []
      ensures xonXoffState == XON_SENT && rxDroppedBytes == 0 && rxMaxEnqueued == 0
      ensures !udrie && !written && parserState == EP.Reset
    {
      rxBuf := new byte[RX_BUFFER_SIZE](_ => 0);
      txBuf := new byte[TX_BUFFER_SIZE](_ => 0);
      rxHead, rxTail, txHead, txTail := 0, 0, 0, 0;
      xonXoffState := XON_SENT;
      rxDroppedBytes := 0;
      rxMaxEnqueued := 0;
      written := false;
      udrie := false;
      wire := [];
      parserState := EP.Reset;
      effects := [];
      received := [];
    }

    /** `store_rxd_char1`: the receive interrupt, taking byte c from the data register. */
    method StoreRxdChar(c: byte, udre: bool)
      requires Valid()
      modifies rxBuf, this`rxHead, this`rxDroppedBytes, this`rxMaxEnqueued, this`xonXoffState,
        this`udrie, this`wire, this`parserState, this`effects, this`received
      ensures Valid()
      ensures (RxContents(), rxDroppedBytes) == RxStore(old(RxContents()), old(rxDroppedBytes), c)
      ensures |old(RxContents())| == RX_BUFFER_SIZE - 1 ==> rxHead == old(rxHead) && rxBuf[..] == old(rxBuf[..])
      ensures rxMaxEnqueued == if old(rxMaxEnqueued) < |RxContents()| then |RxContents()| else old(rxMaxEnqueued)
      // flow control: XOFF is due when XON is in force and the ring holds at least 1/8 of its size
      ensures var due := old(xonXoffState) == XON_SENT && |RxContents()| >= RX_BUFFER_SIZE / 8;
        && (!due ==> xonXoffState == old(xonXoffState) && udrie == old(udrie) && wire == old(wire))
        && (due && !old(udrie) && udre ==> xonXoffState == XOFF_SENT && udrie == old(udrie) && wire == old(wire) + [XOFF_CHAR])
        && (due && (old(udrie) || !udre) ==> xonXoffState == XOFF_CHAR && udrie && wire == old(wire))
      ensures received == old(received) + [c]
      ensures parserState == EP.Step(old(parserState), c).0
      ensures effects == old(effects) + EP.OptSeq(EP.Step(old(parserState), c).1)
    {
      StoreOrDrop(c);
      TrackMaxEnqueued();
      RxFlowControl(udre);
      EmergencyParse(c);
    }

    /** The ring part of the receive interrupt: store c and advance head, or count a drop. */
    method StoreOrDrop(c: byte)
      requires Valid()
      modifies rxBuf, this`rxHead, this`rxDroppedBytes
      ensures Valid()
      ensures (RxContents(), rxDroppedBytes) == RxStore(old(RxContents()), old(rxDroppedBytes), c)
      ensures |old(RxContents())| == RX_BUFFER_SIZE - 1 ==> rxHead == old(rxHead) && rxBuf[..] == old(rxBuf[..])
    {
      SizesArePowersOfTwo();
      var h := rxHead;
      var i := MaskedNextValue(h, RX_BUFFER_SIZE);
      Ring.FullIff(RX_BUFFER_SIZE, h, rxTail);
      if i != rxTail {
        Ring.Push(rxBuf[..], h, rxTail, c);
        rxBuf[h] := c;
        rxHead := i;
      } else {
        var d := Trunc8(rxDroppedBytes + 1);
        if d == 0 {
          d := Trunc8(d + 1);
        }
        rxDroppedBytes := d;
      }
    }

    /** `NOLESS(rx_max_enqueued1, rx_count)`. */
    method TrackMaxEnqueued()
      requires Valid()
      modifies this`rxMaxEnqueued
      ensures Valid()
      ensures rxMaxEnqueued == if old(rxMaxEnqueued) < |RxContents()| then |RxContents()| else old(rxMaxEnqueued)
    {
      SizesArePowersOfTwo();
      var rxCount := MaskedDiffValue(rxHead, rxTail, RX_BUFFER_SIZE);
      if rxMaxEnqueued < rxCount {
        rxMaxEnqueued := rxCount;
      }
    }

    /** The receive interrupt's XOFF decision: send it now, or schedule it for the transmit interrupt. */
    method RxFlowControl(udre: bool)
      requires Valid()
      modifies this`xonXoffState, this`udrie, this`wire
      ensures Valid()
      ensures var due := old(xonXoffState) == XON_SENT && |RxContents()| >= RX_BUFFER_SIZE / 8;
        && (!due ==> xonXoffState == old(xonXoffState) && udrie == old(udrie) && wire == old(wire))
        && (due && !old(udrie) && udre ==> xonXoffState == XOFF_SENT && udrie == old(udrie) && wire == old(wire) + [XOFF_CHAR])
        && (due && (old(udrie) || !udre) ==> xonXoffState == XOFF_CHAR && udrie && wire == old(wire))
    {
      SizesArePowersOfTwo();
      var ch := ControlChar(xonXoffState);
      if ch == XON_CHAR {
        var count := MaskedDiffValue(rxHead, rxTail, RX_BUFFER_SIZE);
        if count >= RX_BUFFER_SIZE / 8 {
          if !udrie && udre {
            wire := wire + [XOFF_CHAR];
            xonXoffState := MarkSent(XOFF_CHAR);
          } else {
            udrie := true;
            xonXoffState := XOFF_CHAR;
          }
        }
      }
    }

    /** `emergency_parser1(c)`: one step of the scanner, recording the effect it fires. */
    method EmergencyParse(c: byte)
      requires Valid()
      modifies this`parserState, this`effects, this`received
      ensures Valid()
      ensures received == old(received) + [c]
      ensures parserState == EP.Step(old(parserState), c).0
      ensures effects == old(effects) + EP.OptSeq(EP.Step(old(parserState), c).1)
    {
      var st := EP.Step(parserState, c);
      EP.RunSnoc(EP.Reset, received, c);
      ghost var r := EP.Run(EP.Reset, received + [c]);
      parserState := st.0;
      if st.1.Some? {
        effects := effects + [st.1.value];
      }
      assert r.0 == parserState && r.1 == effects;
      received := received + [c];
    }

    /** `peek()`: the oldest unread byte, or -1 when there is none. */
    method Peek() returns (v: int)
      requires Valid()
      ensures v == if RxContents() == [] then -1 else RxContents()[0] as int
    {
      Ring.EmptyIff(RX_BUFFER_SIZE, rxHead, rxTail);
      if rxHead == rxTail {
        v := -1;
      } else {
        Ring.Pop(rxBuf[..], rxHead, rxTail);
        v := rxBuf[rxTail];
      }
    }

    /** `available()`: the number of stored-but-unread bytes. */
    method Available() returns (n: nat)
      requires Valid()
      ensures n == |RxContents()|
    {
      SizesArePowersOfTwo();
      n := MaskedCountValue(rxHead, rxTail, RX_BUFFER_SIZE);
    }

    /**
     * `availableForWrite()`: the same formula on the transmit ring, so it
     * returns the number of bytes still queued, not the free space.
     */
    method AvailableForWrite() returns (n: nat)
      requires Valid()
      ensures n == |TxContents()|
    {
      SizesArePowersOfTwo();
      n := MaskedCountValue(txHead, txTail, TX_BUFFER_SIZE);
    }

    /**
     * `_tx_udr_empty_irq1`: the transmit interrupt, run while UDRIE is set.
     * An owed control character goes out first; otherwise the byte at tail.
     */
    method TxUdrEmptyIrq()
      requires Valid() && udrie
      modifies this`txTail, this`wire, this`xonXoffState, this`udrie
      ensures Valid()
      ensures old(Owed()) ==> wire == old(wire) + [XOFF_CHAR] && xonXoffState == XOFF_SENT && txTail == old(txTail)
      ensures !old(Owed()) ==> (wire == old(wire) + [old(txBuf[txTail])] && txTail == Ring.Next(old(txTail), TX_BUFFER_SIZE)
        && xonXoffState == old(xonXoffState))
      ensures udrie == (txHead != txTail)
      ensures old(Owed() || txHead != txTail) ==> Out() == old(Out())
    {
      var sent := IsSent(xonXoffState);
      if !sent {
        SendControl();
      } else {
        SendQueued();
      }
      if txHead == txTail {
        udrie := false;
      }
    }

    /** The owed control character goes out and the flag byte records it as sent. */
    method SendControl()
      requires Valid() && Owed()
      modifies this`wire, this`xonXoffState
      ensures Valid()
      ensures wire == old(wire) + [XOFF_CHAR] && xonXoffState == XOFF_SENT
      ensures Out() == old(Out())
    {
      var state := xonXoffState;
      var ch := ControlChar(state);
      wire := wire + [ch];
      xonXoffState := MarkSent(state);
    }

    /** The byte at tail goes out and tail advances. */
    method SendQueued()
      requires Valid() && !Owed() && udrie
      modifies this`txTail, this`wire
      ensures Valid()
      ensures wire == old(wire) + [old(txBuf[txTail])] && txTail == Ring.Next(old(txTail), TX_BUFFER_SIZE)
      ensures old(txHead != txTail) ==> Out() == old(Out())
    {
      SizesArePowersOfTwo();
      var t := txTail;
      var c := txBuf[t];
      if txHead != t {
        Ring.Pop(txBuf[..], txHead, t);
      }
      txTail := MaskedNextValue(t, TX_BUFFER_SIZE);
      wire := wire + [c];
    }

    /**
     * `writeNoHandshake(c)`. With an empty ring and an empty data register
     * the byte goes straight to the register; otherwise it is queued, after
     * waiting for a free slot, and the transmit interrupt is enabled.
     */
    method WriteNoHandshake(c: byte, udre: bool)
      requires Valid()
      modifies txBuf, this`txHead, this`txTail, this`wire, this`xonXoffState, this`udrie, this`written
      ensures Valid() && written
      ensures old(txHead == txTail) && udre ==>
        wire == old(wire) + [c] && txHead == old(txHead) && txTail == old(txTail) && txBuf[..] == old(txBuf[..])
        && xonXoffState == old(xonXoffState) && udrie == old(udrie)
      ensures !(old(txHead == txTail) && udre) ==>
        Out() == old(Out()) + [c] && udrie && txHead != txTail
        && xonXoffState == (if old(TxFull() && Owed()) then XOFF_SENT else old(xonXoffState))
        && (!old(TxFull()) ==> wire == old(wire) && TxContents() == old(TxContents()) + [c])
      ensures !old(Owed()) ==> Out() == old(Out()) + [c] && !Owed()
    {
      written := true;
      var empty := txHead == txTail;
      if empty && udre {
        wire := wire + [c];
        Ring.EmptyIff(TX_BUFFER_SIZE, txHead, txTail);
        return;
      }
      Enqueue(c);
    }

    /** The queueing path of `writeNoHandshake`: wait for a free slot, store c there, enable the interrupt. */
    method Enqueue(c: byte)
      requires Valid()
      modifies txBuf, this`txHead, this`txTail, this`wire, this`xonXoffState, this`udrie
      ensures Valid()
      ensures Out() == old(Out()) + [c] && udrie && txHead != txTail
      ensures xonXoffState == (if old(TxFull() && Owed()) then XOFF_SENT else old(xonXoffState))
      ensures !old(TxFull()) ==> wire == old(wire) && TxContents() == old(TxContents()) + [c]
    {
      SizesArePowersOfTwo();
      var i := MaskedNextValue(txHead, TX_BUFFER_SIZE);
      AwaitRoom(i);
      PushTx(c, i);
    }

    /** Store c at head and advance head to i, the free slot after it. */
    method PushTx(c: byte, i: nat)
      requires Valid() && i == Ring.Next(txHead, TX_BUFFER_SIZE) && i != txTail
      modifies txBuf, this`txHead, this`udrie
      ensures Valid() && udrie && txHead != txTail
      ensures TxContents() == old(TxContents()) + [c]
      ensures Out() == old(Out()) + [c]
    {
      Ring.Push(txBuf[..], txHead, txTail, c);
      txBuf[txHead] := c;
      txHead := i;
      udrie := true;
    }

    /**
     * The busy wait of `writeNoHandshake` while the ring is full: whichever of
     * the pending interrupt or the polling branch runs, the transmit
     * interrupt handler runs until a slot is free.
     */
    method AwaitRoom(i: nat)
      requires Valid() && i == Ring.Next(txHead, TX_BUFFER_SIZE)
      modifies this`txTail, this`wire, this`xonXoffState, this`udrie
      ensures Valid() && i != txTail
      ensures Out() == old(Out())
      ensures xonXoffState == (if old(TxFull() && Owed()) then XOFF_SENT else old(xonXoffState))
      ensures !old(TxFull()) ==> txTail == old(txTail) && wire == old(wire) && udrie == old(udrie)
    {
      ghost var wasFull := i == txTail;
      ghost var flag0 := xonXoffState;
      while i == txTail
        invariant Valid()
        invariant Out() == old(Out())
        invariant xonXoffState == (if wasFull && flag0 == XOFF_CHAR then XOFF_SENT else flag0) || (wasFull && xonXoffState == flag0 && Owed())
        invariant !wasFull ==> xonXoffState == flag0 && txTail == old(txTail) && wire == old(wire) && udrie == old(udrie)
        invariant wasFull && Owed() ==> i == txTail
        decreases (if Owed() then 1 else 0) + (if i == txTail then 1 else 0)
      {
        Ring.FullIff(TX_BUFFER_SIZE, txHead, txTail);
        TxUdrEmptyIrq();
      }
    }

    /**
     * `write(c)`: an owed control character first, then c. The data register
     * flag is sampled afresh by each inner `writeNoHandshake`.
     */
    method Write(c: byte)
      requires Valid()
      modifies txBuf, this`txHead, this`txTail, this`wire, this`xonXoffState, this`udrie, this`written
      ensures Valid() && !Owed() && written
      ensures Out() == old(BeforeNext()) + [c]
    {
      ghost var w0, tx0, full0 := wire, TxContents(), TxFull();
      var state := xonXoffState;
      var sent := IsSent(state);
      if !sent {
        var ch := ControlChar(state);
        var u1: bool :| true;
        WriteNoHandshake(ch, u1);
        xonXoffState := MarkSent(state);
        assert Out() == w0 + (if full0 then [XOFF_CHAR] else []) + tx0 + [XOFF_CHAR];
      }
      ghost var out1 := Out();
      var u2: bool :| true;
      WriteNoHandshake(c, u2);
      assert Out() == out1 + [c];
    }

    /**
     * `read()`: the oldest unread byte, or -1 when there is none. When XOFF
     * is in force (sent or still owed) and the read leaves fewer than a tenth
     * of the ring queued, XON replaces it and is written at once.
     */
    method Read(udre: bool) returns (v: int)
      requires Valid()
      modifies this`rxTail, txBuf, this`txHead, this`txTail, this`wire, this`xonXoffState, this`udrie, this`written
      ensures Valid()
      ensures v == if old(RxContents()) == [] then -1 else old(RxContents())[0] as int
      ensures RxContents() == if old(RxContents()) == [] then [] else old(RxContents())[1..]
      ensures var xon := old(RxContents()) != [] && old(xonXoffState) != XON_SENT && |RxContents()| < RX_BUFFER_SIZE / 10;
        && (xon ==> xonXoffState == XON_SENT && Out() == old(Committed()) + [XON_CHAR])
        && (!xon ==> (xonXoffState == old(xonXoffState) && wire == old(wire) && udrie == old(udrie)
               && written == old(written) && txHead == old(txHead) && txTail == old(txTail) && txBuf[..] == old(txBuf[..])))
    {
      SizesArePowersOfTwo();
      var t := rxTail;
      Ring.EmptyIff(RX_BUFFER_SIZE, rxHead, t);
      if rxHead == t {
        v := -1;
      } else {
        Ring.Pop(rxBuf[..], rxHead, t);
        v := rxBuf[t];
        rxTail := MaskedNextValue(t, RX_BUFFER_SIZE);
        var ch := ControlChar(xonXoffState);
        if ch == XOFF_CHAR {
          var count := MaskedDiffValue(rxHead, rxTail, RX_BUFFER_SIZE);
          if count < RX_BUFFER_SIZE / 10 {
            ResumeRx(udre);
          }
        }
      }
    }

    /**
     * `flush()`: discards every unread byte by moving head back to tail;
     * with XOFF in force, XON replaces it and is written at once.
     */
    method Flush(udre: bool)
      requires Valid()
      modifies this`rxHead, txBuf, this`txHead, this`txTail, this`wire, this`xonXoffState, this`udrie, this`written
      ensures Valid()
      ensures RxContents() == []
      ensures old(xonXoffState) != XON_SENT ==> xonXoffState == XON_SENT && Out() == old(Committed()) + [XON_CHAR]
      ensures old(xonXoffState) != XON_SENT && old(txHead == txTail) && udre ==>
        wire == old(wire) + [XON_CHAR] && txHead == old(txHead) && txTail == old(txTail) && udrie == old(udrie)
        && txBuf[..] == old(txBuf[..])
      ensures old(xonXoffState) == XON_SENT ==> (xonXoffState == XON_SENT && wire == old(wire) && udrie == old(udrie)
        && written == old(written) && txHead == old(txHead) && txTail == old(txTail) && txBuf[..] == old(txBuf[..]))
    {
      rxHead := rxTail;
      Ring.EmptyIff(RX_BUFFER_SIZE, rxHead, rxTail);
      var ch := ControlChar(xonXoffState);
      if ch == XOFF_CHAR {
        ResumeRx(udre);
      }
    }

    /** XON replaces XOFF in the flag byte and is written at once, ahead of nothing but what is committed. */
    method ResumeRx(udre: bool)
      requires Valid() && xonXoffState != XON_SENT
      modifies txBuf, this`txHead, this`txTail, this`wire, this`xonXoffState, this`udrie, this`written
      ensures Valid() && xonXoffState == XON_SENT
      ensures Out() == old(Committed()) + [XON_CHAR]
      ensures old(txHead == txTail) && udre ==>
        wire == old(wire) + [XON_CHAR] && txHead == old(txHead) && txTail == old(txTail) && udrie == old(udrie)
        && txBuf[..] == old(txBuf[..])
    {
      xonXoffState := MarkSent(XON_CHAR);
      WriteNoHandshake(XON_CHAR, udre);
    }

    // ----- UDRIE left set on an empty ring -----

    /** UDRIE is set only while the transmit interrupt has work: a queued byte or an owed control character. */
    ghost predicate Quiet()
      reads this`txHead, this`txTail, this`xonXoffState, this`udrie
    {
      udrie ==> txHead != txTail || Owed()
    }

    /**
     * As the firmware is written. A byte received at one eighth fill while the
     * data register is busy schedules XOFF and sets UDRIE; `flush()` then
     * replaces it by XON, which goes straight to the empty data register and
     * leaves UDRIE set on an empty ring. The next transmit interrupt sends the
     * stale byte at tail, and since the ring then looks full it stays enabled
     * for all of it: the line is due to carry a whole ring of bytes nobody
     * wrote.
     */
    method StaleAfterFlush(c: byte)
      requires Valid() && xonXoffState == XON_SENT && txHead == txTail
      requires RX_BUFFER_SIZE / 8 - 1 <= |RxContents()| < RX_BUFFER_SIZE - 1
      modifies rxBuf, this`rxHead, this`rxDroppedBytes, this`rxMaxEnqueued, this`parserState, this`effects,
        this`received, txBuf, this`txHead, this`txTail, this`wire, this`xonXoffState, this`udrie, this`written
      ensures Valid() && udrie
      ensures wire == old(wire) + [XON_CHAR, old(txBuf[txTail])]
      ensures |TxContents()| == TX_BUFFER_SIZE - 1
      ensures |Out()| == |old(wire)| + 1 + TX_BUFFER_SIZE
    {
      StoreRxdChar(c, false);
      Flush(true);
      assert udrie && txHead == txTail && !Owed();
      TxUdrEmptyIrq();
      Ring.FullIff(TX_BUFFER_SIZE, txHead, txTail);
    }

    /**
     * `writeNoHandshake` with the direct path taken only while UDRIE is clear,
     * the test the receive interrupt's own shortcut makes. Afterwards UDRIE is
     * set only while there is work, whatever the state before.
     */
    method GuardedWrite(c: byte, udre: bool)
      requires Valid()
      modifies txBuf, this`txHead, this`txTail, this`wire, this`xonXoffState, this`udrie, this`written
      ensures Valid() && written && Quiet()
      ensures xonXoffState == (if old(TxFull() && Owed()) then XOFF_SENT else old(xonXoffState))
      ensures old(txHead == txTail && !udrie) && udre ==>
        wire == old(wire) + [c] && txHead == old(txHead) && txTail == old(txTail) && txBuf[..] == old(txBuf[..])
        && xonXoffState == old(xonXoffState) && !udrie
      ensures !(old(txHead == txTail && !udrie) && udre) ==> Out() == old(Out()) + [c] && udrie && txHead != txTail
      ensures !old(Owed()) ==> Out() == old(Out()) + [c] && !Owed()
    {
      written := true;
      var empty := txHead == txTail;
      if empty && !udrie && udre {
        wire := wire + [c];
        Ring.EmptyIff(TX_BUFFER_SIZE, txHead, txTail);
      } else {
        Enqueue(c);
      }
    }

    /** `flush()` over `GuardedWrite`: it keeps UDRIE set only while there is work. */
    method GuardedFlush(udre: bool)
      requires Valid() && Quiet()
      modifies this`rxHead, txBuf, this`txHead, this`txTail, this`wire, this`xonXoffState, this`udrie, this`written
      ensures Valid() && Quiet()
      ensures RxContents() == []
      ensures old(xonXoffState) != XON_SENT ==> xonXoffState == XON_SENT && Out() == old(Committed()) + [XON_CHAR]
      ensures old(xonXoffState) == XON_SENT ==> (xonXoffState == XON_SENT && wire == old(wire) && udrie == old(udrie)
        && written == old(written) && txHead == old(txHead) && txTail == old(txTail) && txBuf[..] == old(txBuf[..]))
    {
      rxHead := rxTail;
      Ring.EmptyIff(RX_BUFFER_SIZE, rxHead, rxTail);
      var ch := ControlChar(xonXoffState);
      if ch == XOFF_CHAR {
        GuardedResume(udre);
      }
    }

    /** `ResumeRx` over `GuardedWrite`. */
    method GuardedResume(udre: bool)
      requires Valid() && xonXoffState != XON_SENT
      modifies txBuf, this`txHead, this`txTail, this`wire, this`xonXoffState, this`udrie, this`written
      ensures Valid() && Quiet() && xonXoffState == XON_SENT
      ensures Out() == old(Committed()) + [XON_CHAR]
    {
      xonXoffState := MarkSent(XON_CHAR);
      GuardedWrite(XON_CHAR, udre);
    }

    /**
     * The run of `StaleAfterFlush` over the guarded `flush()`: XON is queued
     * instead, and the transmit interrupt that follows sends it and nothing
     * else, so the line is due to carry exactly what was written.
     */
    method NoStaleAfterFlush(c: byte)
      requires Valid() && Quiet() && xonXoffState == XON_SENT && txHead == txTail
      requires RX_BUFFER_SIZE / 8 - 1 <= |RxContents()| < RX_BUFFER_SIZE - 1
      modifies rxBuf, this`rxHead, this`rxDroppedBytes, this`rxMaxEnqueued, this`parserState, this`effects,
        this`received, txBuf, this`txHead, this`txTail, this`wire, this`xonXoffState, this`udrie, this`written
      ensures Valid() && Quiet()
      ensures Out() == old(wire) + [XON_CHAR]
    {
      StoreRxdChar(c, false);
      assert Quiet() && Committed() == old(wire);
      GuardedFlush(true);
      if udrie {
        TxUdrEmptyIrq();
      }
    }

    /** `write(const char*)`: each byte before the terminating NUL, in order. */
    method WriteStr(s: seq<byte>)
      requires Valid() && 0 in s
      modifies txBuf, this`txHead, this`txTail, this`wire, this`xonXoffState, this`udrie, this`written
      ensures Valid()
      ensures Out() == old(OutAfter(CString(s)))
      ensures CString(s) != [] ==> !Owed()
    {
      ghost var t := CString(s);
      var i := 0;
      while s[i] != 0
        invariant Valid() && i <= |t| && s[..i] == t[..i]
        invariant BeforeNext() == old(BeforeNext()) + t[..i]
        invariant i > 0 ==> !Owed()
        invariant i == 0 ==> Out() == old(Out())
        decreases |t| - i
      {
        assert s[i] == t[i] by {
          assert s[..i + 1] == t[..i + 1] by {
            assert (t + [0])[..i + 1] == t[..i + 1];
          }
        }
        Write(s[i]);
        assert t[..i + 1] == t[..i] + [t[i]];
        i := i + 1;
      }
      assert t[..i] == t;
    }

    /** `write(buffer, size)`: exactly the first `size` bytes of the buffer, in order. */
    method WriteBuffer(buffer: seq<byte>, size: nat)
      requires Valid() && size <= |buffer|
      modifies txBuf, this`txHead, this`txTail, this`wire, this`xonXoffState, this`udrie, this`written
      ensures Valid()
      ensures Out() == old(OutAfter(buffer[..size]))
      ensures size > 0 ==> !Owed()
    {
      var left := size;
      var j := 0;
      while left > 0
        invariant Valid() && j + left == size
        invariant BeforeNext() == old(BeforeNext()) + buffer[..j]
        invariant j > 0 ==> !Owed()
        invariant j == 0 ==> Out() == old(Out())
      {
        left := left - 1;
        Write(buffer[j]);
        assert buffer[..j + 1] == buffer[..j] + [buffer[j]];
        j := j + 1;
      }
    }

    /** `print(const String&)`: each of the string's `length()` characters, in order. */
    method PrintString(s: seq<byte>)
      requires Valid()
      modifies txBuf, this`txHead, this`txTail, this`wire, this`xonXoffState, this`udrie, this`written
      ensures Valid()
      ensures Out() == old(OutAfter(s))
      ensures s != [] ==> !Owed()
    {
      var i := 0;
      while i < |s|
        invariant Valid() && i <= |s|
        invariant BeforeNext() == old(BeforeNext()) + s[..i]
        invariant i > 0 ==> !Owed()
        invariant i == 0 ==> Out() == old(Out())
      {
        Write(s[i]);
        assert s[..i + 1] == s[..i] + [s[i]];
        i := i + 1;
      }
      assert s[..i] == s;
    }

    /** `println()`: carriage return, then line feed. */
    method Println()
      requires Valid()
      modifies txBuf, this`txHead, this`txTail, this`wire, this`xonXoffState, this`udrie, this`written
      ensures Valid() && !Owed()
      ensures Out() == old(BeforeNext()) + [13, 10]
    {
      Write(13);
      ghost var out1 := Out();
      Write(10);
      assert Out() == out1 + [10];
    }

    /**
     * `printNumber(n, base)`: the base-`base` digits of n are collected least
     * significant first in a 32-byte buffer, then written back to front;
     * zero prints as "0".
     */
    method PrintNumber(n: nat, base: byte)
      requires Valid() && n < ULONG_LIMIT && base >= 2
      modifies txBuf, this`txHead, this`txTail, this`wire, this`xonXoffState, this`udrie, this`written
      ensures Valid() && !Owed()
      ensures Out() == old(BeforeNext()) + NumberText.NumberText(n, base)
    {
      if n != 0 {
        var buf, i := CollectDigits(n, base);
        WriteDigits(buf, i, Digits(n, base));
      } else {
        Write(Ch('0'));
      }
    }

    /** The second loop of `printNumber`: the collected digits are written from the last one down. */
    method WriteDigits(buf: array<byte>, count: nat, ghost ds: seq<nat>)
      requires Valid() && buf != txBuf && ds != [] && count == |ds| <= buf.Length
      requires forall k :: 0 <= k < count ==> buf[k] == ds[k]
      modifies txBuf, this`txHead, this`txTail, this`wire, this`xonXoffState, this`udrie, this`written
      ensures Valid() && !Owed()
      ensures Out() == old(BeforeNext()) + RevText(ds)
    {
      var i := count;
      while i > 0
        invariant Valid() && 0 <= i <= |ds|
        invariant BeforeNext() == old(BeforeNext()) + RevText(ds[i..])
        invariant i < |ds| ==> !Owed()
      {
        i := i - 1;
        RevTextSuffix(ds, i);
        Write(DigitChar(buf[i]));
      }
      assert ds[0..] == ds;
    }

    /**
     * `print(unsigned long n, base)`: base 0 writes the low byte of n,
     * any other base prints the number in that base.
     */
    method PrintULong(n: nat, base: int)
      requires Valid() && n < ULONG_LIMIT && PrintableBase(base)
      modifies txBuf, this`txHead, this`txTail, this`wire, this`xonXoffState, this`udrie, this`written
      ensures Valid() && !Owed()
      ensures Out() == old(BeforeNext()) + ULongText(n, base)
    {
      if base == 0 {
        Write(Trunc8(n));
      } else {
        PrintNumber(n, Trunc8(base));
      }
    }

    /**
     * `print(long n, base)`: base 0 writes the low byte of n, base 10 writes
     * '-' and the magnitude for a negative n, any other base prints the bits
     * of n read as an `unsigned long`.
     */
    method PrintLong(n: int, base: int)
      requires Valid() && LONG_MIN <= n < LONG_LIMIT && PrintableBase(base)
      modifies txBuf, this`txHead, this`txTail, this`wire, this`xonXoffState, this`udrie, this`written
      ensures Valid() && !Owed()
      ensures Out() == old(BeforeNext()) + LongText(n, base)
    {
      LongTextCases(n, base);
      ghost var before0, text := BeforeNext(), LongText(n, base);
      if base == 0 {
        Write(Trunc8(n));
        assert Out() == before0 + text;
      } else if base == 10 {
        PrintDecimal(n);
      } else {
        PrintNumber(Trunc32(n), Trunc8(base));
        assert Out() == before0 + text;
      }
    }

    /** The base-10 branch of `print(long n, base)`: '-' for a negative n, then the magnitude. */
    method PrintDecimal(n: int)
      requires Valid() && LONG_MIN <= n < LONG_LIMIT
      modifies txBuf, this`txHead, this`txTail, this`wire, this`xonXoffState, this`udrie, this`written
      ensures Valid() && !Owed()
      ensures Out() == old(BeforeNext()) + LongText(n, 10)
    {
      LongTextCases(n, 10);
      if n < 0 {
        ghost var b0 := BeforeNext();
        PrintNegative(n, 10);
        assert b0 + [Ch('-')] + NumberText.NumberText(Trunc32(-n), 10) == b0 + LongText(n, 10);
      } else {
        PrintNumber(Trunc32(n), 10);
      }
    }

    /**
     * A negative `long`: '-', then n is negated and its magnitude printed in
     * `base`. `print(long, base)` takes this path for base 10 only.
     */
    method PrintNegative(n: int, base: byte)
      requires Valid() && LONG_MIN <= n < 0 && base >= 2
      modifies txBuf, this`txHead, this`txTail, this`wire, this`xonXoffState, this`udrie, this`written
      ensures Valid() && !Owed()
      ensures Out() == old(BeforeNext()) + [Ch('-')] + NumberText.NumberText(Trunc32(-n), base)
    {
      Write(Ch('-'));
      var m := -n;
      PrintNumber(Trunc32(m), base);
    }
  }
}
