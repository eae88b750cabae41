/**
 * The byte frames exchanged with the DWIN touch display.
 *
 * Every frame the firmware sends is `FH0, FH1, L, CMD_VAR_W` followed by
 * `L - 1` payload bytes, so `L` is the frame length minus 3. The display
 * answers a variable read with `FH0, FH1, L, CMD_VAR_R, addr_hi, addr_lo,
 * n, words...`. Addresses and values travel high byte first.
 *
 * The header bytes and opcodes are build-time constants of the firmware
 * that are not part of this model; `Link` carries them.
 */
module DwinFrames {
  import opened Bits
  import opened Wrappers

  /** `DW_FH_0`, `DW_FH_1`, `DW_CMD_VAR_W`, `DW_CMD_VAR_R`. */
  datatype Link = Link(fh0: byte, fh1: byte, cmdW: byte, cmdR: byte)

  /** The four bytes every outbound frame starts with. */
  function Header(k: Link, len: byte): seq<byte>
  {
    [k.fh0, k.fh1, len, k.cmdW]
  }

  /** A 16-bit quantity, high byte first. */
  function Word(v: int): (w: seq<byte>)
    ensures |w| == 2
  {
    [Hi(v), Lo(v)]
  }

  /** A write frame: the header, then the length byte says how many bytes follow it. */
  predicate Framed(k: Link, f: seq<byte>)
  {
    4 <= |f| < 259 && f[0] == k.fh0 && f[1] == k.fh1 && f[2] == |f| - 3 && f[3] == k.cmdW
  }

  /** `LGT_Change_Page`: switch the display to a page. */
  function PageFrame(k: Link, page: int): (f: seq<byte>)
    ensures |f| == 10
  {
    Header(k, 0x07) + [0x00, 0x84, 0x5A, 0x01] + Word(page)
  }

  /** `LGT_Clean_DW_Display_Data`: blank the variable at addr. */
  function ClearFrame(k: Link, addr: int): (f: seq<byte>)
    ensures |f| == 8
  {
    Header(k, 0x05) + Word(addr) + [0xFF, 0xFF]
  }

  /** `LGT_Send_Data_To_Screen(uint16_t, int16_t)`: write a 16-bit value. */
  function ValueFrame(k: Link, addr: int, num: int): (f: seq<byte>)
    ensures |f| == 8
  {
    Header(k, 0x05) + Word(addr) + Word(num)
  }

  /** `LGT_Send_Data_To_Screen(unsigned int, char*)`: write the first 7 bytes of buf. */
  function Text7Frame(k: Link, addr: int, buf: seq<byte>): (f: seq<byte>)
    requires |buf| >= 7
    ensures |f| == 13
  {
    Header(k, 0x0A) + Word(addr) + buf[..7]
  }

  /**
   * `LGT_Send_Data_To_Screen1` and `LGT_MAC_Send_Filename`: write the first
   * 31 bytes of a text buffer or of a file's long name.
   */
  function Text31Frame(k: Link, addr: int, buf: seq<byte>): (f: seq<byte>)
    requires |buf| >= 31
    ensures |f| == 37
  {
    Header(k, 0x22) + Word(addr) + buf[..31]
  }

  /** `LGT_Screen_System_Reset`. */
  function ResetFrame(k: Link): (f: seq<byte>)
    ensures |f| == 10
  {
    Header(k, 0x07) + [0x00, 0x04, 0x55, 0xAA, 0x5A, 0xA5]
  }

  /** `LGT_Disable_Enable_Screen_Button`. */
  function ButtonFrame(k: Link, page: int, button: int, sta: int): (f: seq<byte>)
    ensures |f| == 14
  {
    Header(k, 0x0B) + [0x00, 0xB0, 0x5A, 0xA5] + Word(page) + Word(button) + Word(sta)
  }

  /**
   * `LGT_Save_Recovery_Filename(cmd, sys_cmd, addr, length)`. The `cmd`
   * argument is not used by the firmware: the opcode is always `CMD_VAR_W`.
   */
  function RecoveryNameFrame(k: Link, sysCmd: byte, addr: int, length: int): (f: seq<byte>)
    ensures |f| == 14
  {
    Header(k, 0x0B) + [0x00, 0x08, sysCmd, 0x00, 0x00, 0x00] + Word(addr) + Word(length)
  }

  // ----- the shape of each outbound frame -----

  /** The two bytes of a word join back to the quantity, cut to 16 bits. */
  lemma WordSplit(v: int)
    ensures Join(Word(v)[0], Word(v)[1]) == v % 65536
  {
    JoinSplit(v);
  }

  /** A page frame is a well-formed write of the page id into the page register. */
  lemma PageFrameShape(k: Link, page: int)
    ensures var f := PageFrame(k, page);
      Framed(k, f) && f[2] == 0x07 && f[4..8] == [0x00, 0x84, 0x5A, 0x01] && Join(f[8], f[9]) == page % 65536
  {
    WordSplit(page);
  }

  /** A clear frame writes 0xFFFF to the address. */
  lemma ClearFrameShape(k: Link, addr: int)
    ensures var f := ClearFrame(k, addr);
      Framed(k, f) && f[2] == 0x05 && Join(f[4], f[5]) == addr % 65536 && f[6] == 0xFF && f[7] == 0xFF
  {
    WordSplit(addr);
  }

  /** A value frame carries the address and the value, each cut to 16 bits. */
  lemma ValueFrameShape(k: Link, addr: int, num: int)
    ensures var f := ValueFrame(k, addr, num);
      Framed(k, f) && f[2] == 0x05 && Join(f[4], f[5]) == addr % 65536 && Join(f[6], f[7]) == num % 65536
  {
    WordSplit(addr);
    WordSplit(num);
  }

  /** A short text frame carries the first 7 bytes of the buffer. */
  lemma Text7FrameShape(k: Link, addr: int, buf: seq<byte>)
    requires |buf| >= 7
    ensures var f := Text7Frame(k, addr, buf);
      Framed(k, f) && f[2] == 0x0A && Join(f[4], f[5]) == addr % 65536 && f[6..] == buf[..7]
  {
    WordSplit(addr);
  }

  /** A text frame carries the first 31 bytes of the buffer. */
  lemma Text31FrameShape(k: Link, addr: int, buf: seq<byte>)
    requires |buf| >= 31
    ensures var f := Text31Frame(k, addr, buf);
      Framed(k, f) && f[2] == 0x22 && Join(f[4], f[5]) == addr % 65536 && f[6..] == buf[..31]
  {
    WordSplit(addr);
  }

  /** The reset frame is a well-formed write of the reset magic. */
  lemma ResetFrameShape(k: Link)
    ensures var f := ResetFrame(k);
      Framed(k, f) && f[2] == 0x07 && f[4..] == [0x00, 0x04, 0x55, 0xAA, 0x5A, 0xA5]
  {
  }

  /** A button frame carries the page, the button and the new state, each cut to 16 bits. */
  lemma ButtonFrameShape(k: Link, page: int, button: int, sta: int)
    ensures var f := ButtonFrame(k, page, button, sta);
      Framed(k, f) && f[2] == 0x0B && f[4..8] == [0x00, 0xB0, 0x5A, 0xA5]
      && Join(f[8], f[9]) == page % 65536 && Join(f[10], f[11]) == button % 65536
      && Join(f[12], f[13]) == sta % 65536
  {
    WordSplit(page);
    WordSplit(button);
    WordSplit(sta);
  }

  /** The recovery-name frame carries `sys_cmd`, the address and the length, never `cmd`. */
  lemma RecoveryNameFrameShape(k: Link, sysCmd: byte, addr: int, length: int)
    ensures var f := RecoveryNameFrame(k, sysCmd, addr, length);
      Framed(k, f) && f[2] == 0x0B && f[6] == sysCmd && f[7..10] == [0, 0, 0]
      && Join(f[10], f[11]) == addr % 65536 && Join(f[12], f[13]) == length % 65536
  {
    WordSplit(addr);
    WordSplit(length);
  }

  // ----- the inbound side -----

  /** A decoded variable read: the address and the 16-bit words. */
  datatype Command = Command(addr: u16, data: seq<u16>)

  /** Byte i of the receive buffer; bytes never stored read as the zero the buffer was cleared to. */
  function At(s: seq<byte>, i: nat): byte
  {
    if i < |s| then s[i] else 0
  }

  /** The received bytes once every byte before the first `FH0` is discarded. */
  function Synced(k: Link, input: seq<byte>): (t: seq<byte>)
    ensures |t| <= |input| && t == input[|input| - |t|..]
    ensures t != [] ==> t[0] == k.fh0
    ensures forall i :: 0 <= i < |input| - |t| ==> input[i] != k.fh0
  {
    if input == [] || input[0] == k.fh0 then input else Synced(k, input[1..])
  }

  function Min(a: nat, b: nat): nat
  {
    if a < b then a else b
  }

  /** What the read loop stores: at most `room` bytes from the first `FH0` on. */
  function Stored(k: Link, input: seq<byte>, room: nat): (s: seq<byte>)
    ensures |s| <= room && (s != [] ==> s[0] == k.fh0)
  {
    var t := Synced(k, input);
    t[..Min(room, |t|)]
  }

  /** How many bytes the read loop takes from the receiver. */
  function Consumed(k: Link, input: seq<byte>, room: nat): (n: nat)
    ensures n <= |input|
  {
    |input| - |Synced(k, input)| + |Stored(k, input, room)|
  }

  /**
   * The words of a read reply: word j joins the bytes at 7 + 2j and 8 + 2j,
   * for every even offset 2j below the length byte at position 6.
   */
  function Words(s: seq<byte>): (ws: seq<u16>)
    ensures |ws| == (At(s, 6) + 1) / 2
    ensures forall j :: 0 <= j < |ws| ==> ws[j] == Join(At(s, 7 + 2 * j), At(s, 8 + 2 * j))
  {
    seq((At(s, 6) + 1) / 2, (j: nat) => Join(At(s, 7 + 2 * j), At(s, 8 + 2 * j)))
  }

  /**
   * `LGT_Get_MYSERIAL1_Cmd`'s decision on the stored bytes: a command is
   * dispatched only when at least two bytes were stored, both header bytes
   * match and the opcode is `CMD_VAR_R`. The length byte is never checked.
   */
  function Decode(k: Link, s: seq<byte>): (r: Option<Command>)
    ensures r.Some? <==> |s| >= 2 && s[0] == k.fh0 && s[1] == k.fh1 && At(s, 3) == k.cmdR
    ensures r.Some? ==> r.value.addr == Join(At(s, 4), At(s, 5)) && r.value.data == Words(s)
  {
    if |s| >= 2 && s[0] == k.fh0 && s[1] == k.fh1 && At(s, 3) == k.cmdR then
      Some(Command(Join(At(s, 4), At(s, 5)), Words(s)))
    else None
  }

  /**
   * Zeros after the stored bytes change nothing the decoder sees: the
   * decision on the first n bytes can be read off the whole zero-padded
   * buffer.
   */
  lemma PaddedDecode(k: Link, s: seq<byte>, n: nat)
    requires n <= |s| && forall i :: n <= i < |s| ==> s[i] == 0
    ensures Decode(k, s[..n]) ==
      if n >= 2 && s[0] == k.fh0 && s[1] == k.fh1 && At(s, 3) == k.cmdR
      then Some(Command(Join(At(s, 4), At(s, 5)), Words(s)))
      else None
  {
    assert forall i: nat :: At(s[..n], i) == At(s, i);
    assert Words(s[..n]) == Words(s);
  }

  /** The display's reply to a read of one variable holding w. */
  function ReadReply(k: Link, addr: u16, w: u16): (f: seq<byte>)
    ensures |f| == 9
  {
    [k.fh0, k.fh1, 0x06, k.cmdR] + Word(addr) + [0x01] + Word(w)
  }

  // ----- lemmas -----

  /** The decoder joins what the encoders split: an address or value goes through unchanged. */
  lemma WordJoin(v: u16)
    ensures Join(Word(v)[0], Word(v)[1]) == v
  {
    WordSplit(v);
  }

  /** A one-word reply decodes to its address and value. */
  lemma ReplyRoundTrip(k: Link, addr: u16, w: u16)
    ensures Decode(k, ReadReply(k, addr, w)) == Some(Command(addr, [w]))
  {
    var f := ReadReply(k, addr, w);
    var a, v := Word(addr), Word(w);
    WordJoin(addr);
    WordJoin(w);
    assert f == [k.fh0, k.fh1, 0x06, k.cmdR, a[0], a[1], 0x01, v[0], v[1]];
    assert At(f, 4) == a[0] && At(f, 5) == a[1] && At(f, 6) == 1;
    var ws := Words(f);
    assert |ws| == 1 && ws[0] == Join(v[0], v[1]);
    assert ws == [w];
  }

  /**
   * A reply preceded by noise that holds no `FH0` byte and followed by
   * anything decodes to the same command, provided the buffer has room for
   * the reply: the discarded prefix and the ignored tail do not matter.
   */
  lemma ReplyInStream(k: Link, noise: seq<byte>, addr: u16, w: u16, rest: seq<byte>, room: nat)
    requires room >= 9
    requires forall i :: 0 <= i < |noise| ==> noise[i] != k.fh0
    ensures Decode(k, Stored(k, noise + ReadReply(k, addr, w) + rest, room)) == Some(Command(addr, [w]))
  {
    var f := ReadReply(k, addr, w);
    assert noise + f + rest == noise + (f + rest);
    StoredPrefix(k, noise, f + rest, room, 9);
    assert (f + rest)[..9] == f;
    ReplyPrefix(k, Stored(k, noise + f + rest, room), addr, w);
  }

  /** After noise without `FH0`, the first n bytes of a frame are stored when the buffer has room for them. */
  lemma StoredPrefix(k: Link, noise: seq<byte>, t: seq<byte>, room: nat, n: nat)
    requires 0 < n <= room && n <= |t| && t[0] == k.fh0
    requires forall i :: 0 <= i < |noise| ==> noise[i] != k.fh0
    ensures |Stored(k, noise + t, room)| >= n && Stored(k, noise + t, room)[..n] == t[..n]
  {
    SyncedSkips(k, noise, t);
    var m := Min(room, |t|);
    assert Stored(k, noise + t, room) == t[..m];
    assert t[..m][..n] == t[..n];
  }

  /** Stored bytes that begin with a one-word reply decode to it, whatever follows. */
  lemma ReplyPrefix(k: Link, s: seq<byte>, addr: u16, w: u16)
    requires |s| >= 9 && s[..9] == ReadReply(k, addr, w)
    ensures Decode(k, s) == Some(Command(addr, [w]))
  {
    var f := ReadReply(k, addr, w);
    ReplyRoundTrip(k, addr, w);
    assert s[0] == f[0] && s[1] == f[1] && s[3] == f[3] && s[4] == f[4] && s[5] == f[5];
    assert s[6] == f[6] && s[7] == f[7] && s[8] == f[8];
    var ws := Words(s);
    assert |ws| == 1 && ws[0] == Words(f)[0];
    assert ws == [w];
  }

  /** Noise without `FH0` in front of a frame starting with `FH0` is skipped exactly. */
  lemma {:induction false} SyncedSkips(k: Link, noise: seq<byte>, t: seq<byte>)
    requires t != [] && t[0] == k.fh0
    requires forall i :: 0 <= i < |noise| ==> noise[i] != k.fh0
    ensures Synced(k, noise + t) == t
    decreases |noise|
  {
    if noise != [] {
      assert (noise + t)[1..] == noise[1..] + t;
      SyncedSkips(k, noise[1..], t);
    } else {
      assert noise + t == t;
    }
  }

  /** Changing the length byte of a stored frame never changes what is decoded. */
  lemma LengthIgnored(k: Link, s: seq<byte>, b: byte)
    requires |s| > 2
    ensures Decode(k, s[2 := b]) == Decode(k, s)
  {
    var s' := s[2 := b];
    assert forall i :: i != 2 ==> At(s', i) == At(s, i);
    assert Words(s') == Words(s);
  }

  /** The loop reads the discarded prefix and then the stored bytes, in order, from the front of the input. */
  lemma ConsumedSplit(k: Link, input: seq<byte>, room: nat)
    ensures input[..Consumed(k, input, room)] == input[..|input| - |Synced(k, input)|] + Stored(k, input, room)
  {
    var t := Synced(k, input);
    var d := |input| - |t|;
    assert input[..Consumed(k, input, room)] == input[..d] + input[d..Consumed(k, input, room)];
  }

  /**
   * The read loop stops only with the buffer full or the receiver empty, so
   * a second read loop entered before `re_count` is reset reads nothing.
   */
  lemma PassExhausts(k: Link, input: seq<byte>, room: nat)
    ensures |Stored(k, input, room)| == room || Consumed(k, input, room) == |input|
  {
    var t := Synced(k, input);
    if room > |t| {
      assert Stored(k, input, room) == t;
    }
  }
}
