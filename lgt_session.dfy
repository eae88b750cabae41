/**
 * The values the display session works with and the specification
 * functions its methods are proved against: what a read pass leaves in the
 * receive buffer, which card entries the file list shows, the work-time
 * text, the status LED table, the commands that reheat a recovered job and
 * the corner-levelling moves.
 */
module LgtSession {
  import opened Bits
  import opened Wrappers
  import opened DwinFrames
  import opened LgtConfig
  import Recovery
  import NumberText

  /** A directory entry as `card.getfilename(i)` reports it: `filenameIsDir` and the `longFilename` buffer. */
  datatype Entry = Entry(isDir: bool, longName: seq<byte>)

  /** `PRINTER_STATUS`; `PrinterOther` is a value outside the enumeration. */
  datatype Status =
    | PrinterSetup | PrinterStandby | PrinterHeat | PrinterPrinting | PrinterPause | PrinterPrintingF
    | PrinterOther(code: int)

  datatype Color = LedRed | LedGreen | LedBlue

  /** `current_position`: X, Y, Z and E, in tenths of a millimetre. */
  datatype Position = Position(x: int, y: int, z: int, e: int)

  /** `current_position[axis]`. */
  function Coord(p: Position, a: Axis): int
  {
    match a
    case X => p.x
    case Y => p.y
    case Z => p.z
    case E => p.e
  }

  /** `current_position[axis] = v`: that coordinate takes the value and the others keep theirs. */
  function Moved(p: Position, a: Axis, v: int): (q: Position)
    ensures Coord(q, a) == v
    ensures forall b :: b != a ==> Coord(q, b) == Coord(p, b)
  {
    match a
    case X => p.(x := v)
    case Y => p.(y := v)
    case Z => p.(z := v)
    case E => p.(e := v)
  }

  /** Calls into the planner, card, print timer, thermal manager, EEPROM and LEDs, in the order made. */
  datatype Event =
    | LineTo(axis: Axis, to: Position)
    | SetHotendTarget(celsius: int)
    | SetBedTarget(celsius: int)
    | DataUpdate
    | IdleCall
    | Dehighlight
    | Highlight
    | OpenFile(index: int)
    | StartFilePrint
    | PauseFilePrint
    | StopFilePrint
    | TimerStart
    | TimerPause
    | TimerStop
    | ClearQueue
    | QuickStop
    | EnableSteppers
    | DisableZ
    | DisableHeaters
    | FansOff
    | MoveToResume
    | RunoutReset
    | SetEPosition(e: int)
    | SaveTotalTime(minutes: u32)
    | ResetSettings
    | Led(color: Color, period: nat, mode: nat)

  /** Temperatures the thermal manager reports: current and target, hotend 0 and bed. */
  datatype Thermal = Thermal(hotend: int, hotendTarget: int, bed: int, bedTarget: int)

  function Zeros(n: nat): (z: seq<byte>)
    ensures |z| == n && forall i :: 0 <= i < n ==> z[i] == 0
  {
    seq(n, _ => 0)
  }

  // ----- the read pass -----

  /**
   * `data_storage` after the read loop: the stored bytes followed by the
   * zeros of the initial `memset`; when nothing was stored, slot 0 keeps the
   * last discarded byte, because each byte is read into `data_storage[0]`
   * before it is tested.
   */
  function Received(k: Link, input: seq<byte>, room: nat): (b: seq<byte>)
    requires room > 0
    ensures |b| == room
    ensures Stored(k, input, room) != [] ==> b[..|Stored(k, input, room)|] == Stored(k, input, room)
    ensures forall i :: 0 < i < room && i >= |Stored(k, input, room)| ==> b[i] == 0
  {
    var st := Stored(k, input, room);
    if st == [] then [if input == [] then 0 else input[|input| - 1]] + Zeros(room - 1)
    else st + Zeros(room - |st|)
  }

  /**
   * The read loop's state after n bytes of `input` with r of them stored in
   * `buf`: while nothing is stored, slot 0 holds the last byte read, no
   * `DW_FH_0` has been seen and the rest of the buffer is 0; once storing
   * has begun, the stored bytes are the start of the synchronised input and
   * the rest of the buffer is 0.
   */
  predicate Passed(k: Link, input: seq<byte>, n: int, r: int, buf: seq<byte>)
  {
    var d := |input| - |Synced(k, input)|;
    0 <= n <= |input| && 0 <= r <= |buf| && |buf| > 0
    && (r == 0 ==> n <= d && buf[0] == (if n == 0 then 0 else input[n - 1]))
    && (r == 0 ==> forall i :: 1 <= i < |buf| ==> buf[i] == 0)
    && (r > 0 ==> n == d + r && buf[..r] == Synced(k, input)[..r])
    && (r > 0 ==> forall i :: r <= i < |buf| ==> buf[i] == 0)
  }

  /** The read loop starts with nothing read and the buffer cleared. */
  lemma PassedStart(k: Link, input: seq<byte>, room: nat)
    requires room > 0
    ensures Passed(k, input, 0, 0, Zeros(room))
  {
  }

  /** The read loop's step: byte n goes to slot r, and r advances once slot 0 holds `DW_FH_0`. */
  lemma PassedStep(k: Link, input: seq<byte>, n: int, r: int, buf: seq<byte>)
    requires Passed(k, input, n, r, buf) && r < |buf| && n < |input|
    ensures var b := buf[r := input[n]]; Passed(k, input, n + 1, if b[0] == k.fh0 then r + 1 else r, b)
  {
    if r > 0 {
      StoringStep(k, input, n, r, buf);
    } else {
      SeekingStep(k, input, n, buf);
    }
  }

  /** Once storing has begun, every byte read is stored: slot 0 keeps its `DW_FH_0`. */
  lemma StoringStep(k: Link, input: seq<byte>, n: int, r: int, buf: seq<byte>)
    requires Passed(k, input, n, r, buf) && 0 < r < |buf| && n < |input|
    ensures buf[r := input[n]][0] == k.fh0 && Passed(k, input, n + 1, r + 1, buf[r := input[n]])
  {
    var sy := Synced(k, input);
    var b := buf[r := input[n]];
    assert buf[0] == sy[0];
    assert input[n] == sy[r];
    assert b[..r + 1] == buf[..r] + [input[n]];
    assert sy[..r + 1] == sy[..r] + [sy[r]];
  }

  /** Before storing, a byte goes to slot 0 and storing begins exactly when it is `DW_FH_0`. */
  lemma SeekingStep(k: Link, input: seq<byte>, n: int, buf: seq<byte>)
    requires Passed(k, input, n, 0, buf) && n < |input|
    ensures var b := buf[0 := input[n]]; Passed(k, input, n + 1, if b[0] == k.fh0 then 1 else 0, b)
  {
    var sy := Synced(k, input);
    var d := |input| - |sy|;
    var b := buf[0 := input[n]];
    if n == d {
      assert input[n] == sy[0];
      assert b[..1] == sy[..1];
    }
  }

  /** When the loop stops, the buffer holds what `Received` says and r counts the stored bytes. */
  lemma PassedExit(k: Link, input: seq<byte>, n: int, r: int, buf: seq<byte>)
    requires Passed(k, input, n, r, buf) && (r < |buf| ==> n == |input|)
    ensures r == |Stored(k, input, |buf|)| && n == Consumed(k, input, |buf|)
    ensures buf == Received(k, input, |buf|)
  {
    var sy := Synced(k, input);
    var st := Stored(k, input, |buf|);
    if r == 0 {
      assert n == |input| && sy == [];
      assert st == [];
    } else {
      assert st == sy[..r];
      assert buf == st + Zeros(|buf| - r);
    }
  }

  /**
   * Once a frame has been stored, every position of the receive buffer reads
   * as the stored bytes do, including past the end, where both read 0.
   */
  lemma ReceivedAgrees(k: Link, input: seq<byte>, room: nat)
    requires room > 0 && Stored(k, input, room) != []
    ensures forall i: nat :: At(Received(k, input, room), i) == At(Stored(k, input, room), i)
  {
  }

  // ----- the file list -----

  /** The indices below n of entries that are not directories, from the highest down. */
  function Scan(files: seq<Entry>, n: nat): seq<int>
    requires n <= |files|
  {
    if n == 0 then [] else (if files[n - 1].isDir then [] else [n - 1]) + Scan(files, n - 1)
  }

  /**
   * How many entries the loop `for (int i = FileCnt - 1; i >= 0; i--)`
   * visits: with a 16-bit `int`, `FileCnt - 1` above 32767 reads negative
   * and the loop visits nothing.
   */
  function Visited(count: nat): (n: nat)
    requires count < 0x1_0000
    ensures n <= count && (count <= 0x8000 ==> n == count)
  {
    if count <= 0x8000 then count else 0
  }

  /** `gcode_id[0..gcode_num)` after `LGT_Display_Filename`: the first `max` indices the scan finds. */
  function Listing(files: seq<Entry>, max: nat): (ids: seq<int>)
    requires |files| < 0x1_0000
    ensures |ids| <= max
  {
    var s := Scan(files, Visited(|files|));
    if |s| <= max then s else s[..max]
  }

  /** Entry names as they are sent: row j at `addr0 + j * len`, 31 bytes of the entry's long name. */
  function ListFrames(k: Link, files: seq<Entry>, ids: seq<int>, addr0: int, len: int): (f: seq<byte>)
    requires forall j :: 0 <= j < |ids| ==> 0 <= ids[j] < |files| && |files[ids[j]].longName| >= 31
    ensures |f| == 37 * |ids|
  {
    if ids == [] then []
    else
      var j := |ids| - 1;
      ListFrames(k, files, ids[..j], addr0, len) + Text31Frame(k, addr0 + j * len, files[ids[j]].longName)
  }

  /** Listing one more entry appends its name frame at the next row address. */
  lemma ListFramesSnoc(k: Link, files: seq<Entry>, ids: seq<int>, i: int, addr0: int, len: int)
    requires forall j :: 0 <= j < |ids| ==> 0 <= ids[j] < |files| && |files[ids[j]].longName| >= 31
    requires 0 <= i < |files| && |files[i].longName| >= 31
    ensures ListFrames(k, files, ids + [i], addr0, len)
      == ListFrames(k, files, ids, addr0, len) + Text31Frame(k, addr0 + |ids| * len, files[i].longName)
  {
    assert (ids + [i])[..|ids|] == ids;
  }

  /** The `idle()` calls the listing makes, after its 10th and its 20th entry. */
  function ListIdles(n: nat): (e: seq<Event>)
    ensures |e| <= 2
  {
    (if n >= 10 then [IdleCall] else []) + (if n >= 20 then [IdleCall] else [])
  }

  /** The n+1-th listed entry adds an `idle()` call exactly when it is the 10th or the 20th. */
  lemma ListIdlesSnoc(n: nat)
    ensures ListIdles(n + 1) == ListIdles(n) + (if n + 1 == 10 || n + 1 == 20 then [IdleCall] else [])
  {
  }

  // ----- the work-time text -----

  /**
   * `LGT_Total_Time_To_String`: "%lu h %lu m" of the hours and the remaining
   * minutes. It never needs more than 15 bytes, so its NUL always fits in
   * the 31-byte buffer.
   */
  function TimeText(t: u32): (s: seq<byte>)
    ensures |s| <= 15
  {
    assert Pow10(8) == 100000000 && Pow10(2) == 100;
    assert t / 60 < 100000000;
    DecimalTextFits(t / 60, 8);
    DecimalTextFits(t % 60, 2);
    NumberText.ULongText(t / 60, 10) + Ascii(" h ") + NumberText.ULongText(t % 60, 10) + Ascii(" m")
  }

  /** `printer_work_time` after `sprintf`: the text, its NUL, and the old bytes after it. */
  function TimeBuffer(t: u32, buf: seq<byte>): (b: seq<byte>)
    requires |buf| == 31
    ensures |b| == 31 && b[..|TimeText(t)|] == TimeText(t) && b[|TimeText(t)|] == 0
    ensures b[|TimeText(t)| + 1..] == buf[|TimeText(t)| + 1..]
  {
    TimeText(t) + [0] + buf[|TimeText(t)| + 1..]
  }

  function Pow10(d: nat): nat
  {
    if d == 0 then 1 else 10 * Pow10(d - 1)
  }

  /** A number below 10^d has at most d decimal digits. */
  lemma {:induction false} DecimalDigitsFit(n: nat, d: nat)
    requires n < Pow10(d)
    ensures |NumberText.Digits(n, 10)| <= d
    decreases n
  {
    if n > 0 {
      assert d > 0;
      assert n / 10 < Pow10(d - 1);
      DecimalDigitsFit(n / 10, d - 1);
    }
  }

  lemma DecimalTextFits(n: nat, d: nat)
    requires n < Pow10(d) && d >= 1
    ensures |NumberText.NumberText(n, 10)| <= d
  {
    if n > 0 {
      DecimalDigitsFit(n, d);
    }
  }

  /** The text reads back as the hours and the minutes below 60 that make up t. */
  lemma TimeTextParts(t: u32)
    ensures var h, m := NumberText.NumberText(t / 60, 10), NumberText.NumberText(t % 60, 10);
      TimeText(t) == h + Ascii(" h ") + m + Ascii(" m")
      && NumberText.Parse(h, 10) * 60 + NumberText.Parse(m, 10) == t
      && NumberText.Parse(m, 10) < 60
  {
    NumberText.NumberTextRoundTrip(t / 60, 10);
    NumberText.NumberTextRoundTrip(t % 60, 10);
  }

  // ----- the status LED -----

  /**
   * `LGT_Printer_Status_Light`'s table: the colour, period and mode shown
   * for each status; none for a value outside the enumeration.
   */
  function StatusLed(s: Status): (l: Option<Event>)
    ensures l.Some? <==> !s.PrinterOther?
    ensures l.Some? ==> l.value.Led? && (l.value.mode == 1 <==> s == PrinterSetup || s == PrinterStandby)
    ensures l.Some? ==> (l.value.color == LedRed <==> s == PrinterHeat || s == PrinterPause)
  {
    match s
    case PrinterSetup => Some(Led(LedGreen, 30000, 1))
    case PrinterStandby => Some(Led(LedGreen, 30000, 1))
    case PrinterHeat => Some(Led(LedRed, 1000, 2))
    case PrinterPrinting => Some(Led(LedBlue, 1000, 2))
    case PrinterPause => Some(Led(LedRed, 1000, 2))
    case PrinterPrintingF => Some(Led(LedGreen, 1000, 2))
    case PrinterOther(_) => None
  }

  /** The heat condition of `LGT_Printer_Light_Update`: the bed or the hotend is still below its target. */
  predicate Heating(th: Thermal, tempRange: int)
  {
    th.bed < th.bedTarget || th.hotend < tempRange + th.hotendTarget
  }

  // ----- reheating a recovered job -----

  function M106(i: nat, f: i16): seq<byte>
    requires i < 256
  {
    Ascii("M106 P") + Recovery.Decimal(i) + Ascii(" S") + Recovery.Decimal(f)
  }

  /** The fans below n whose saved speed is not 0, in fan order. */
  function RunningFans(fans: seq<i16>, n: nat): (ids: seq<nat>)
    requires n <= |fans|
    ensures forall k :: 0 <= k < |ids| ==> ids[k] < n
  {
    if n == 0 then [] else RunningFans(fans, n - 1) + (if fans[n - 1] != 0 then [n - 1] else [])
  }

  /** One `M106 P<i> S<f>` for each running fan below n, in fan order. */
  function FanCommands(fans: seq<i16>, n: nat): (l: seq<seq<byte>>)
    requires n <= |fans| <= 256
    ensures |l| == |RunningFans(fans, n)|
  {
    var ids := RunningFans(fans, n);
    seq(|ids|, k requires 0 <= k < |ids| => M106(ids[k], fans[ids[k]]))
  }

  /** The fan loop's step: fan n adds its `M106` exactly when its speed is not 0. */
  lemma FanCommandsSnoc(fans: seq<i16>, n: nat)
    requires n < |fans| <= 256
    ensures FanCommands(fans, n + 1) == FanCommands(fans, n) + (if fans[n] != 0 then [M106(n, fans[n])] else [])
  {
    var a, b := RunningFans(fans, n), RunningFans(fans, n + 1);
    assert b == a + (if fans[n] != 0 then [n] else []);
  }

  /** The commands `LGT_Power_Loss_Recovery_Resume` enqueues. */
  function ReheatList(st: Recovery.Setup, r: Recovery.Info): seq<seq<byte>>
    requires Recovery.WellFormed(st, r) && st.Ok()
  {
    [Ascii("M190 S") + Recovery.Decimal(r.bedTarget), Ascii("M109 S") + Recovery.Decimal(r.targets[0])]
    + FanCommands(r.fans, |r.fans|)
    + (if st.hotends > 1 then [Ascii("T") + Recovery.Decimal(r.activeHotend)] else [])
  }

  /**
   * The fan commands name exactly the running fans, each once, in fan
   * order: every index listed has a non-zero speed, the indices increase,
   * and every non-zero speed is listed.
   */
  lemma RunningFansExact(fans: seq<i16>, n: nat)
    requires n <= |fans|
    ensures forall k :: 0 <= k < |RunningFans(fans, n)| ==> fans[RunningFans(fans, n)[k]] != 0
    ensures forall k, l :: 0 <= k < l < |RunningFans(fans, n)| ==> RunningFans(fans, n)[k] < RunningFans(fans, n)[l]
    ensures forall i :: 0 <= i < n && fans[i] != 0 ==> i in RunningFans(fans, n)
  {
    RunningFansNonZero(fans, n);
    RunningFansIncreasing(fans, n);
    RunningFansComplete(fans, n);
  }

  /** Every fan listed has a non-zero saved speed. */
  lemma {:induction false} RunningFansNonZero(fans: seq<i16>, n: nat)
    requires n <= |fans|
    ensures forall k :: 0 <= k < |RunningFans(fans, n)| ==> fans[RunningFans(fans, n)[k]] != 0
  {
    if n > 0 {
      RunningFansNonZero(fans, n - 1);
      var p := RunningFans(fans, n - 1);
      var q := RunningFans(fans, n);
      assert q == p + (if fans[n - 1] != 0 then [n - 1] else []);
      assert forall k :: 0 <= k < |p| ==> q[k] == p[k];
    }
  }

  /** The fans are listed in increasing index order. */
  lemma {:induction false} RunningFansIncreasing(fans: seq<i16>, n: nat)
    requires n <= |fans|
    ensures forall k, l :: 0 <= k < l < |RunningFans(fans, n)| ==> RunningFans(fans, n)[k] < RunningFans(fans, n)[l]
  {
    if n > 0 {
      RunningFansIncreasing(fans, n - 1);
      var p := RunningFans(fans, n - 1);
      var q := RunningFans(fans, n);
      assert q == p + (if fans[n - 1] != 0 then [n - 1] else []);
      assert forall k :: 0 <= k < |p| ==> q[k] == p[k] && p[k] < n - 1;
      assert forall k :: |p| <= k < |q| ==> q[k] == n - 1;
    }
  }

  /** Every fan below n with a non-zero saved speed is listed. */
  lemma {:induction false} RunningFansComplete(fans: seq<i16>, n: nat)
    requires n <= |fans|
    ensures forall i :: 0 <= i < n && fans[i] != 0 ==> i in RunningFans(fans, n)
  {
    if n > 0 {
      RunningFansComplete(fans, n - 1);
      var p := RunningFans(fans, n - 1);
      var q := RunningFans(fans, n);
      assert q == p + (if fans[n - 1] != 0 then [n - 1] else []);
      assert forall i :: i in p ==> i in q;
    }
  }

  /** The reheat commands read back as the saved bed and hotend targets. */
  lemma ReheatTargets(st: Recovery.Setup, r: Recovery.Info)
    requires Recovery.WellFormed(st, r) && st.Ok()
    ensures var l := ReheatList(st, r);
      |l| >= 2 && l[0][..6] == Ascii("M190 S") && NumberText.ParseSigned(l[0][6..]) == r.bedTarget
      && l[1][..6] == Ascii("M109 S") && NumberText.ParseSigned(l[1][6..]) == r.targets[0]
  {
    var l := ReheatList(st, r);
    assert l[0][6..] == Recovery.Decimal(r.bedTarget);
    assert l[1][6..] == Recovery.Decimal(r.targets[0]);
    NumberText.DecimalRoundTrip(r.bedTarget);
    NumberText.DecimalRoundTrip(r.targets[0]);
  }

  // ----- corner levelling -----

  /** The bed corner (1 to 4) or centre (5) a `CORNER_POS` button moves to, on each model. */
  function CornerMoves(u20: bool, n: nat): (l: seq<seq<byte>>)
    requires 1 <= n <= 5
    ensures |l| == (if u20 then 1 else 3)
    ensures !u20 ==> l[0] == Ascii("G1 Z10") && l[2] == Ascii("G1 Z0")
  {
    if u20 then
      [if n == 1 then Ascii("G1 X50 Y50")
       else if n == 2 then Ascii("G1 X250 Y50")
       else if n == 3 then Ascii("G1 X250 Y250")
       else if n == 4 then Ascii("G1 X50 Y250")
       else Ascii("G1 X150 Y150")]
    else
      [Ascii("G1 Z10"),
       if n == 1 then Ascii("G1 X30 Y30 F3000")
       else if n == 2 then Ascii("G1 X190 Y30 F3000")
       else if n == 3 then Ascii("G1 X190 Y190 F3000")
       else if n == 4 then Ascii("G1 X30 Y190 F3000")
       else Ascii("G1 X110 Y110 F3000"),
       Ascii("G1 Z0")]
  }

  // ----- lemmas about the file list -----

  /**
   * The scan finds exactly the non-directory entries below n, each once, in
   * strictly decreasing order.
   */
  lemma {:induction false} ScanExact(files: seq<Entry>, n: nat)
    requires n <= |files|
    ensures forall j :: 0 <= j < |Scan(files, n)| ==> 0 <= Scan(files, n)[j] < n && !files[Scan(files, n)[j]].isDir
    ensures forall j, l :: 0 <= j < l < |Scan(files, n)| ==> Scan(files, n)[j] > Scan(files, n)[l]
    ensures forall i :: 0 <= i < n && !files[i].isDir ==> i in Scan(files, n)
    decreases n
  {
    if n > 0 {
      ScanExact(files, n - 1);
      var pre: seq<int> := if files[n - 1].isDir then [] else [n - 1];
      assert Scan(files, n) == pre + Scan(files, n - 1);
    }
  }

  /**
   * The listing shows non-directory entries only, newest index first, each
   * below the entry count and at most `max` of them; when it holds fewer
   * than `max` and the card has at most 32768 entries, it shows every one.
   */
  lemma ListingExact(files: seq<Entry>, max: nat)
    requires |files| < 0x1_0000
    ensures var ids := Listing(files, max);
      (forall j :: 0 <= j < |ids| ==> 0 <= ids[j] < |files| && !files[ids[j]].isDir)
      && (forall j, l :: 0 <= j < l < |ids| ==> ids[j] > ids[l])
      && (|ids| < max && |files| <= 0x8000 ==> forall i :: 0 <= i < |files| && !files[i].isDir ==> i in ids)
  {
    ScanExact(files, Visited(|files|));
  }
}
