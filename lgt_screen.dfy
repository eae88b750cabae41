/**
 * The DWIN display engine of `LGT_SCR.cpp`: the session globals, the frame
 * encoders that fill the shared `data_storage` array and write it out, the
 * read pass that collects a reply from the display, the dispatcher and its
 * button handlers, the file list, and the status light.
 *
 * Calls into other parts of the firmware are appended to `events`; G-code
 * the engine enqueues is appended to `enqueued`; bytes written to the
 * display UART are appended to `out`; bytes the UART has received and not
 * yet handed over wait in `inbox`.
 */
module LgtScreen {
  import opened Bits
  import opened Wrappers
  import opened DwinFrames
  import opened LgtConfig
  import opened LgtSession
  import Recovery

  function IntMin(a: int, b: int): int
  {
    if a < b then a else b
  }

  function IntMax(a: int, b: int): int
  {
    if a < b then b else a
  }

  /**
   * `Rec_Data.data[0]`: the first word of the reply, 0 when the reply
   * carried none, because the record is cleared after every dispatch.
   */
  function Head(c: Command): u16
  {
    if |c.data| > 0 then c.data[0] else 0
  }

  /** Values the dispatcher reads from other parts of the firmware while it handles one command. */
  datatype Readings = Readings(
    th: Thermal,
    /** `print_job_timer.duration()`, seconds. */
    duration: u32,
    /** The total work time stored in EEPROM, minutes. */
    eepromTotal: u32,
    /** `MMS_SCALED(feedrate_mm_s) * 10` after the new percentage is applied. */
    feedScaled: nat)

  /** The globals of `LGT_SCR.cpp` that say which page and dialog the display is in. */
  datatype Ui = Ui(
    /** `menu_type` and `status_type`. */
    menuType: int,
    status: Status,
    /** `menu_move_dis_chk`, `fila_type` and `menu_fila_type_chk`: what the move and filament dialogs return to. */
    moveDisChk: int,
    filaType: int,
    filaTypeChk: int,
    /** `filament_len` and `filament_temp`, as the display sent them. */
    filamentLen: u16,
    filamentTemp: u16,
    /** `led_on`. */
    ledOn: bool)

  /** The globals of `LGT_SCR.cpp` that follow a print job and its recovery. */
  datatype Job = Job(
    /** `LGT_is_printing`, `LGT_stop_printing`, `return_home`. */
    isPrinting: bool,
    stopPrinting: bool,
    returnHome: bool,
    /** `recovery_time` (seconds) and `recovery_percent` of a resumed job. */
    recoveryTime: u32,
    recoveryPercent: byte,
    /** `recovery_z_height` and `recovery_E_len`, tenths of a millimetre. */
    recoveryZ: int,
    recoveryE: int,
    /** `resume_e_position`, set by the pause handlers outside this engine. */
    resumeE: int,
    /** `total_print_time`, minutes. */
    totalPrintTime: u32)

  /** The globals of `LGT_SCR.cpp` that the homing and levelling buttons use. */
  datatype Level = Level(
    /** `xy_home`, `xyz_home`, `z_home`: which axes the levelling and jog code takes as homed. */
    xyHome: bool,
    xyzHome: bool,
    zHome: bool,
    /** `level_z_height`, tenths of a millimetre. */
    levelZ: int,
    /** `menu_measu_dis_chk` and `menu_measu_step`. */
    measuDisChk: int,
    measuStep: int)

  /** The globals of the motion and thermal code that the handlers assign. */
  datatype Machine = Machine(
    pos: Position,
    /** `feedrate_percentage`, `planner.flow_percentage[0]`, `fanSpeeds[0]`. */
    feedrate: int,
    flow: int,
    fan0: int,
    /** `wait_for_heatup`. */
    waitForHeatup: bool)

  /** Everything the dispatcher can change except the receive side. */
  datatype View = View(
    out: seq<byte>, events: seq<Event>, enqueued: seq<seq<byte>>, gcodeNum: int, selFileId: int,
    ui: Ui, job: Job, level: Level, mach: Machine, workTime: seq<byte>)

  /** The homed test of the X and Y minus jogs: `xy_home`, or on U30_Pro also `xyz_home`. */
  predicate XYHomed(cfg: Config, l: Level)
  {
    if cfg.U20() then l.xyHome else l.xyzHome || l.xyHome
  }

  /** The level display follows a Z jog on U20_Pro outside the move menu. */
  predicate LevelTracked(cfg: Config, u: Ui)
  {
    cfg.U20() && u.menuType != cfg.menu(MMove)
  }

  /** What `LGT_Exit_Print_Page` leaves of the job: no recovered time, progress or offsets. */
  function ExitedJob(j: Job): (k: Job)
    ensures k.recoveryTime == 0 && k.recoveryPercent == 0 && k.recoveryZ == 0 && k.recoveryE == 0
    ensures k.(recoveryTime := j.recoveryTime, recoveryPercent := j.recoveryPercent, recoveryZ := j.recoveryZ,
      recoveryE := j.recoveryE) == j
  {
    j.(recoveryTime := 0, recoveryPercent := 0, recoveryZ := 0, recoveryE := 0)
  }

  /** What `LGT_Exit_Print_Page` leaves of the machine: feed rate and flow at 100 percent, E at 0. */
  function ExitedMachine(m: Machine): (n: Machine)
    ensures n.feedrate == 100 && n.flow == 100 && Coord(n.pos, E) == 0
    ensures forall a :: a != E ==> Coord(n.pos, a) == Coord(m.pos, a)
    ensures n.fan0 == m.fan0 && n.waitForHeatup == m.waitForHeatup
  {
    m.(feedrate := 100, flow := 100, pos := Moved(m.pos, E, 0))
  }

  /** The `M109 S%i` of the filament handlers: `filament_temp` printed as a 16-bit `int`. */
  function HeatCommand(filamentTemp: u16): seq<byte>
  {
    Ascii("M109 S") + Recovery.Decimal(Signed16(filamentTemp))
  }

  /** The buttons of the jog, homing, motor and corner screens. */
  predicate MotionGroup(k: Key)
  {
    k.Jog? || k.XYHome? || k.ZHome? || k.MoveNoTempRet? || k.MoveDisable? || k.MoveEnable? || k.MoveP?
    || k.CornerPos? || k.CornerBack?
  }

  /** The buttons of the filament dialogs. */
  predicate FilamentGroup(k: Key)
  {
    k.FilaNoTempRet? || k.FilaPla? || k.FilaAbs? || k.FilaLoad? || k.FilaUnload? || k.FilaHeatNo?
    || k.FilaUnloadOk? || k.FilaLoadOk? || k.FilaChangeYes?
  }

  /** The buttons of the levelling screens. */
  predicate LevelGroup(k: Key)
  {
    k.MeasuStart? || k.MeasuDis0? || k.MeasuDis1? || k.MeasuS1Next? || k.MeasuS2Next? || k.MeasuS1ExitNo?
    || k.MeasuS2ExitNo? || k.MeasuExitOk? || k.MeasuS3ExitNo? || k.MeasuStopMove?
  }

  /** A jog distance with its direction, tenths of a millimetre. */
  function Signed(plus: bool, s: Step): int
  {
    var t: int := Tenths(s);
    if plus then t else -t
  }

  /** The row after row n starts one row length further on. */
  lemma RowNext(base: int, n: int, len: int)
    ensures base + (n + 1) * len == base + n * len + len
  {
  }

  /** How many entries a listing loop at index i has still to visit. */
  function Rest(i: int): nat
  {
    if i < 0 then 0 else i + 1
  }

  /**
   * The listing loop's invariant on values at index i: the ids listed so far
   * and the entries still to scan make up the scan from `start`, the next row
   * follows the listed ones, and their frames and `idle()` calls are logged.
   */
  ghost predicate Listed(k: Link, files: seq<Entry>, ids: seq<int>, i: int, row: int, start: nat,
    out: seq<byte>, events: seq<Event>, out0: seq<byte>, ev0: seq<Event>, addr0: int, len: int)
  {
    (forall j :: 0 <= j < |ids| ==> 0 <= ids[j] < |files| && |files[ids[j]].longName| >= 31)
    && Rest(i) <= start <= |files|
    && ids + Scan(files, Rest(i)) == Scan(files, start)
    && row == addr0 + |ids| * len
    && out == out0 + ListFrames(k, files, ids, addr0, len)
    && events == ev0 + ListIdles(|ids|)
  }

  /** Listing file i appends it, its frame at the next row and any `idle()` call, and moves to i - 1. */
  lemma ListedStep(k: Link, files: seq<Entry>, ids: seq<int>, i: int, row: int, start: nat,
    out: seq<byte>, events: seq<Event>, out0: seq<byte>, ev0: seq<Event>, addr0: int, len: int)
    requires Listed(k, files, ids, i, row, start, out, events, out0, ev0, addr0, len)
    requires 0 <= i && !files[i].isDir && |files[i].longName| >= 31
    ensures Listed(k, files, ids + [i], i - 1, row + len, start,
      out + Text31Frame(k, row, files[i].longName),
      events + (if |ids| + 1 == 10 || |ids| + 1 == 20 then [IdleCall] else []), out0, ev0, addr0, len)
  {
    ScanSnoc(files, ids, i, start);
    ListFramesSnoc(k, files, ids, i, addr0, len);
    ListIdlesSnoc(|ids|);
    RowNext(addr0, |ids|, len);
    var t := Text31Frame(k, row, files[i].longName);
    assert out + t == out0 + (ListFrames(k, files, ids, addr0, len) + t);
  }

  /** A file found at i moves from the entries still to scan to the listed ids. */
  lemma ScanSnoc(files: seq<Entry>, ids: seq<int>, i: nat, start: nat)
    requires i < start <= |files| && !files[i].isDir && ids + Scan(files, i + 1) == Scan(files, start)
    ensures ids + [i] + Scan(files, i) == Scan(files, start)
  {
    assert Scan(files, i + 1) == [i] + Scan(files, i);
    assert ids + [i] + Scan(files, i) == ids + ([i] + Scan(files, i));
  }

  /** The loop stops at the bottom or with `max` ids listed; either way the ids are the listing. */
  lemma ListedDone(k: Link, files: seq<Entry>, ids: seq<int>, i: int, row: int, start: nat,
    out: seq<byte>, events: seq<Event>, out0: seq<byte>, ev0: seq<Event>, addr0: int, len: int, max: nat)
    requires Listed(k, files, ids, i, row, start, out, events, out0, ev0, addr0, len)
    requires |files| < 0x1_0000 && start == Visited(|files|) && |ids| <= max && (i < 0 || |ids| == max)
    ensures ids == Listing(files, max)
  {
    var sc := Scan(files, start);
    if i < 0 {
      assert Scan(files, Rest(i)) == [];
      assert ids == sc;
    } else {
      assert sc[..|ids|] == ids;
    }
  }

  /** Passing over directory i changes nothing but the index. */
  lemma ListedSkip(k: Link, files: seq<Entry>, ids: seq<int>, i: int, row: int, start: nat,
    out: seq<byte>, events: seq<Event>, out0: seq<byte>, ev0: seq<Event>, addr0: int, len: int)
    requires Listed(k, files, ids, i, row, start, out, events, out0, ev0, addr0, len)
    requires 0 <= i && files[i].isDir
    ensures Listed(k, files, ids, i - 1, row, start, out, events, out0, ev0, addr0, len)
  {
    assert Scan(files, i + 1) == Scan(files, i);
  }

  /**
   * The commands of `LGT_Power_Loss_Recovery_Resume` built step by step: the
   * bed and first hotend reheated and awaited, one `M106` per running fan in
   * fan order, and the saved hotend selected on a multi-hotend build.
   */
  method ReheatCommands(st: Recovery.Setup, r: Recovery.Info) returns (l: seq<seq<byte>>)
    requires st.Ok() && Recovery.WellFormed(st, r)
    ensures l == ReheatList(st, r)
  {
    l := [Ascii("M190 S") + Recovery.Decimal(r.bedTarget), Ascii("M109 S") + Recovery.Decimal(r.targets[0])];
    var fans := FanLoop(r.fans, st.fanCount);
    l := l + fans;
    if st.hotends > 1 {
      l := l + [Ascii("T") + Recovery.Decimal(r.activeHotend)];
    }
  }

  /** The fan loop of `LGT_Power_Loss_Recovery_Resume`: one `M106` per fan whose saved speed is not 0. */
  method FanLoop(fans: seq<i16>, count: nat) returns (l: seq<seq<byte>>)
    requires count == |fans| <= 256
    ensures l == FanCommands(fans, count)
  {
    l := [];
    var i := 0;
    while i < count
      invariant 0 <= i <= count
      invariant l == FanCommands(fans, i)
    {
      var f := fans[i];
      FanCommandsSnoc(fans, i);
      if f != 0 {
        l := l + [M106(i, f)];
      }
      i := i + 1;
    }
  }

  class Screen {
    const cfg: Config
    /** `data_storage`, `DATA_SIZE` bytes shared by the encoders and the read pass. */
    const ds: array<byte>
    /** `gcode_id`: the card index of each listed file. */
    const gcodeId: array<int>
    /** `printer_work_time`, 31 bytes. */
    const workTime: array<byte>
    /** `re_count`. */
    var reCount: int
    /** Bytes the display UART holds for `MYSERIAL1.read()`. */
    var inbox: seq<byte>
    /** Bytes written with `MYSERIAL1.print`. */
    var out: seq<byte>
    var events: seq<Event>
    /** G-code passed to `enqueue_and_echo_command(s)`. */
    var enqueued: seq<seq<byte>>
    /** Every command the read pass has dispatched. */
    ghost var dispatched: seq<Command>
    /** The card's directory, in card order. */
    var files: seq<Entry>
    /** `gcode_num` and `sel_fileid`. */
    var gcodeNum: int
    var selFileId: int
    var ui: Ui
    var job: Job
    var level: Level
    var mach: Machine

    /**
     * The buffers have their build sizes, the listed indices name card
     * entries, and a selection is a listed row or -1.
     */
    ghost predicate Valid()
      reads this`files, this`gcodeNum, this`selFileId, gcodeId
    {
      cfg.Valid() && ds.Length == cfg.dataSize && gcodeId.Length == cfg.fileListNum
      && workTime.Length == 31 && ds != workTime
      && |files| < 0x1_0000 && (forall i :: 0 <= i < |files| ==> |files[i].longName| >= 31)
      && 0 <= gcodeNum <= gcodeId.Length && -1 <= selFileId < gcodeNum
      && (forall i :: 0 <= i < gcodeNum ==> 0 <= gcodeId[i] < |files|)
    }

    /** The journal this session resumes from belongs to the same build. */
    ghost predicate Ready(j: Recovery.Journal)
      reads j`info, j`stored
    {
      j.Valid() && j.setup == cfg.rec
    }

    ghost function Snapshot(): View
      reads this`out, this`events, this`enqueued, this`gcodeNum, this`selFileId, this`ui, this`job, this`level,
        this`mach, workTime
    {
      View(out, events, enqueued, gcodeNum, selFileId, ui, job, level, mach, workTime[..])
    }

    /**
     * `LGT_SCR::LGT_SCR()` and the initial values of the globals. Variables
     * owned by other parts of the firmware start at their defaults: the
     * position at 0, feed rate and flow at 100 percent.
     */
    constructor (config: Config, card: seq<Entry>, input: seq<byte>)
      requires config.Valid() && |card| < 0x1_0000
      requires forall i :: 0 <= i < |card| ==> |card[i].longName| >= 31
      ensures Valid() && cfg == config && files == card && inbox == input
      ensures ds[..] == Zeros(config.dataSize) && workTime[..] == Zeros(31)
      ensures reCount == 0 && out == [] && events == [] && enqueued == [] && gcodeNum == 0 && selFileId == -1
      ensures ui == Ui(config.menu(MIdle), PrinterSetup, 0, 0, 0, 10, 200, true)
      ensures job == Job(false, false, false, 0, 0, 0, 0, 0, 0) && level == Level(false, false, false, 0, 1, 0)
      ensures mach == Machine(Position(0, 0, 0, 0), 100, 100, 0, false)
      ensures fresh(ds) && fresh(gcodeId) && fresh(workTime)
    {
      cfg := config;
      ds := new byte[config.dataSize](_ => 0);
      gcodeId := new int[config.fileListNum](_ => 0);
      workTime := new byte[31](_ => 0);
      reCount := 0;
      inbox := input;
      out := [];
      events := [];
      enqueued := [];
      dispatched := [];
      files := card;
      gcodeNum := 0;
      selFileId := -1;
      ui := Ui(config.menu(MIdle), PrinterSetup, 0, 0, 0, 10, 200, true);
      job := Job(false, false, false, 0, 0, 0, 0, 0, 0);
      level := Level(false, false, false, 0, 1, 0);
      mach := Machine(Position(0, 0, 0, 0), 100, 100, 0, false);
      new;
      assert ds[..] == Zeros(config.dataSize);
      assert workTime[..] == Zeros(31);
    }

    // ----- the encoders -----

    /**
     * What every encoder does: clear `data_storage`, place the frame at its
     * start and print its bytes one by one.
     */
    method Send(f: seq<byte>)
      requires |f| <= ds.Length
      modifies ds, this`out
      ensures out == old(out) + f && ds[..] == f + Zeros(ds.Length - |f|)
    {
      forall i | 0 <= i < ds.Length {
        ds[i] := 0;
      }
      forall i | 0 <= i < |f| {
        ds[i] := f[i];
      }
      assert ds[..] == f + Zeros(ds.Length - |f|);
      var i := 0;
      while i < |f|
        invariant 0 <= i <= |f| && out == old(out) + f[..i]
        invariant ds[..] == f + Zeros(ds.Length - |f|)
      {
        assert ds[i] == f[i];
        out := out + [ds[i]];
        i := i + 1;
        assert f[..i] == f[..i - 1] + [f[i - 1]];
      }
      assert f[..i] == f;
    }

    /** `LGT_Change_Page`. */
    method ChangePage(pageid: int)
      requires Valid()
      modifies ds, this`out
      ensures out == old(out) + PageFrame(cfg.link, pageid)
    {
      Send(PageFrame(cfg.link, pageid));
    }

    /** `LGT_Clean_DW_Display_Data`. */
    method CleanData(addr: int)
      requires Valid()
      modifies ds, this`out
      ensures out == old(out) + ClearFrame(cfg.link, addr)
    {
      Send(ClearFrame(cfg.link, addr));
    }

    /** `LGT_Send_Data_To_Screen(uint16_t, int16_t)`. */
    method SendValue(addr: int, num: int)
      requires Valid()
      modifies ds, this`out
      ensures out == old(out) + ValueFrame(cfg.link, addr, num)
    {
      Send(ValueFrame(cfg.link, addr, num));
    }

    /** `LGT_Send_Data_To_Screen(unsigned int, char*)`. */
    method SendText7(addr: int, buf: seq<byte>)
      requires Valid() && |buf| >= 7
      modifies ds, this`out
      ensures out == old(out) + Text7Frame(cfg.link, addr, buf)
    {
      Send(Text7Frame(cfg.link, addr, buf));
    }

    /** `LGT_Send_Data_To_Screen1`. */
    method SendText31(addr: int, buf: seq<byte>)
      requires Valid() && |buf| >= 31
      modifies ds, this`out
      ensures out == old(out) + Text31Frame(cfg.link, addr, buf)
    {
      Send(Text31Frame(cfg.link, addr, buf));
    }

    /** `LGT_MAC_Send_Filename`: the long name of card entry n. */
    method SendFilename(addr: int, n: int)
      requires Valid() && 0 <= n < |files|
      modifies ds, this`out
      ensures out == old(out) + Text31Frame(cfg.link, addr, files[n].longName)
    {
      Send(Text31Frame(cfg.link, addr, files[n].longName));
    }

    /** `LGT_Screen_System_Reset`. */
    method SystemReset()
      requires Valid()
      modifies ds, this`out
      ensures out == old(out) + ResetFrame(cfg.link)
    {
      Send(ResetFrame(cfg.link));
    }

    /** `LGT_Disable_Enable_Screen_Button`. */
    method SetButton(pageid: int, buttonid: int, sta: int)
      requires Valid()
      modifies ds, this`out
      ensures out == old(out) + ButtonFrame(cfg.link, pageid, buttonid, sta)
    {
      Send(ButtonFrame(cfg.link, pageid, buttonid, sta));
    }

    /** `LGT_Save_Recovery_Filename`; `cmd` does not reach the frame. */
    method SaveRecoveryFilename(cmd: byte, sysCmd: byte, addr: int, length: int)
      requires Valid()
      modifies ds, this`out
      ensures out == old(out) + RecoveryNameFrame(cfg.link, sysCmd, addr, length)
    {
      Send(RecoveryNameFrame(cfg.link, sysCmd, addr, length));
    }

    // ----- the read pass -----

    /**
     * The read loop of `LGT_Get_MYSERIAL1_Cmd`: bytes before the first
     * `DW_FH_0` are read and dropped, the rest are stored until
     * `DATA_SIZE` bytes are held or the receiver is empty.
     */
    method ReadPass()
      requires Valid() && reCount == 0
      modifies ds, this`reCount, this`inbox
      ensures reCount == |Stored(cfg.link, old(inbox), cfg.dataSize)|
      ensures inbox == old(inbox)[Consumed(cfg.link, old(inbox), cfg.dataSize)..]
      ensures ds[..] == Received(cfg.link, old(inbox), cfg.dataSize)
      ensures reCount == cfg.dataSize || inbox == []
    {
      ghost var input := inbox;
      Clear();
      PassedStart(cfg.link, input, ds.Length);
      ghost var k := ReadLoop(input);
      PassedExit(cfg.link, input, k, reCount, ds[..]);
    }

    /** The read loop itself: bytes are read until the buffer is full or the receiver is empty. */
    method ReadLoop(ghost input: seq<byte>) returns (ghost k: int)
      requires Passing(input, 0)
      modifies ds, this`reCount, this`inbox
      ensures Passing(input, k) && (reCount < ds.Length ==> k == |input|)
    {
      k := 0;
      while reCount < ds.Length && |inbox| > 0
        invariant Passing(input, k)
        invariant |inbox| == |input| - k
        decreases |input| - k
      {
        ReadByte(input, k);
        k := k + 1;
      }
    }

    /** The read loop's state after k bytes of `input`: the rest waits in the receiver. */
    ghost predicate Passing(input: seq<byte>, k: int)
      reads this`reCount, this`inbox, ds
    {
      0 <= k <= |input| && inbox == input[k..] && Passed(cfg.link, input, k, reCount, ds[..])
    }

    /** One pass of the read loop: the next byte is read into the next slot and kept only from a `DW_FH_0` on. */
    method ReadByte(ghost input: seq<byte>, ghost k: int)
      requires Passing(input, k) && reCount < ds.Length && |inbox| > 0
      modifies ds, this`reCount, this`inbox
      ensures Passing(input, k + 1) && |inbox| == |old(inbox)| - 1
    {
      PassedStep(cfg.link, input, k, reCount, ds[..]);
      ds[reCount] := inbox[0];
      inbox := inbox[1..];
      if ds[0] == cfg.link.fh0 {
        reCount := reCount + 1;
      }
    }

    /** `data_storage[i]`; a position past the end of the buffer reads as 0. */
    method StorageAt(i: nat) returns (b: byte)
      ensures b == At(ds[..], i)
    {
      if i < ds.Length {
        b := ds[i];
      } else {
        b := 0;
      }
    }

    /** The decode loop: the address, then one word per even offset below the length byte. */
    method ReadCommand() returns (c: Command)
      requires ds.Length >= 7
      ensures c == Command(Join(At(ds[..], 4), At(ds[..], 5)), Words(ds[..]))
    {
      var addr := Join(ds[4], ds[5]);
      var len: nat := ds[6];
      var data: seq<u16> := [];
      var i: nat := 0;
      while i < len
        invariant 0 <= i <= len + 1 && i % 2 == 0 && |data| == i / 2
        invariant forall m :: 0 <= m < |data| ==> data[m] == Join(At(ds[..], 7 + 2 * m), At(ds[..], 8 + 2 * m))
      {
        var hi := StorageAt(7 + i);
        var lo := StorageAt(8 + i);
        data := data + [Join(hi, lo)];
        i := i + 2;
      }
      c := Command(addr, data);
      assert data == Words(ds[..]);
    }

    /**
     * `LGT_Get_MYSERIAL1_Cmd`: one read pass, then the stored bytes are
     * either dispatched as a command or dropped. Every return leaves
     * `re_count` at 0; the buffer is cleared unless nothing was stored.
     */
    method GetMyserial1Cmd(rd: Readings, j: Recovery.Journal)
      requires Valid() && Ready(j) && reCount == 0
      modifies ds, workTime, this`reCount, this`inbox, this`dispatched, this`out, this`events, this`enqueued,
        this`ui, this`job, this`level, this`mach, this`selFileId, j`stored, j`phase
      ensures Valid() && Ready(j) && reCount == 0
      ensures inbox == old(inbox)[Consumed(cfg.link, old(inbox), cfg.dataSize)..]
      ensures |Stored(cfg.link, old(inbox), cfg.dataSize)| == cfg.dataSize || inbox == []
      ensures var r := Decode(cfg.link, Stored(cfg.link, old(inbox), cfg.dataSize));
        dispatched == old(dispatched) + (if r.Some? then [r.value] else [])
      ensures Decode(cfg.link, Stored(cfg.link, old(inbox), cfg.dataSize)).None? ==>
        Snapshot() == old(Snapshot()) && j.stored == old(j.stored) && j.phase == old(j.phase)
      ensures ds[..] == if Stored(cfg.link, old(inbox), cfg.dataSize) == [] then Received(cfg.link, old(inbox), cfg.dataSize)
        else Zeros(cfg.dataSize)
    {
      ghost var input := inbox;
      ReadPass();
      AfterPass(rd, j, input);
    }

    /** What `LGT_Get_MYSERIAL1_Cmd` does once the read pass has stored the bytes of `input`. */
    method AfterPass(rd: Readings, j: Recovery.Journal, ghost input: seq<byte>)
      requires Valid() && Ready(j)
      requires reCount == |Stored(cfg.link, input, cfg.dataSize)|
      requires ds[..] == Received(cfg.link, input, cfg.dataSize)
      modifies ds, workTime, this`reCount, this`dispatched, this`out, this`events, this`enqueued,
        this`ui, this`job, this`level, this`mach, this`selFileId, j`stored, j`phase
      ensures Valid() && Ready(j) && reCount == 0
      ensures var r := Decode(cfg.link, Stored(cfg.link, input, cfg.dataSize));
        dispatched == old(dispatched) + (if r.Some? then [r.value] else [])
      ensures Decode(cfg.link, Stored(cfg.link, input, cfg.dataSize)).None? ==>
        Snapshot() == old(Snapshot()) && j.stored == old(j.stored) && j.phase == old(j.phase)
      ensures ds[..] == if Stored(cfg.link, input, cfg.dataSize) == [] then Received(cfg.link, input, cfg.dataSize)
        else Zeros(cfg.dataSize)
    {
      if reCount >= 1 {
        assert ds[..reCount] == Stored(cfg.link, input, cfg.dataSize);
        Dispatch(rd, j);
      }
    }

    /**
     * The test of `LGT_Get_MYSERIAL1_Cmd` on the `re_count` stored bytes,
     * the rest of the buffer reading 0: a command is decoded from the buffer
     * and handed to the address switch, and anything else is dropped; then
     * `re_count` is reset and the buffer cleared.
     */
    method Dispatch(rd: Readings, j: Recovery.Journal)
      requires Valid() && Ready(j) && 1 <= reCount <= ds.Length
      requires forall i :: reCount <= i < ds.Length ==> ds[i] == 0
      modifies ds, workTime, this`reCount, this`dispatched, this`out, this`events, this`enqueued,
        this`ui, this`job, this`level, this`mach, this`selFileId, j`stored, j`phase
      ensures Valid() && Ready(j) && reCount == 0 && ds[..] == Zeros(cfg.dataSize)
      ensures var r := Decode(cfg.link, old(ds[..reCount]));
        dispatched == old(dispatched) + (if r.Some? then [r.value] else [])
      ensures Decode(cfg.link, old(ds[..reCount])).None? ==>
        Snapshot() == old(Snapshot()) && j.stored == old(j.stored) && j.phase == old(j.phase)
    {
      Decide(rd, j);
      reCount := 0;
      Clear();
    }

    /** The decision on the stored bytes, and the switch on the decoded command. */
    method Decide(rd: Readings, j: Recovery.Journal)
      requires Valid() && Ready(j) && 1 <= reCount <= ds.Length
      requires forall i :: reCount <= i < ds.Length ==> ds[i] == 0
      modifies ds, workTime, this`dispatched, this`out, this`events, this`enqueued,
        this`ui, this`job, this`level, this`mach, this`selFileId, j`stored, j`phase
      ensures Valid() && Ready(j)
      ensures var r := Decode(cfg.link, old(ds[..reCount]));
        dispatched == old(dispatched) + (if r.Some? then [r.value] else [])
      ensures Decode(cfg.link, old(ds[..reCount])).None? ==>
        Snapshot() == old(Snapshot()) && j.stored == old(j.stored) && j.phase == old(j.phase)
    {
      PaddedDecode(cfg.link, ds[..], reCount);
      assert ds[..][..reCount] == ds[..reCount];
      if reCount >= 2 && ds[0] == cfg.link.fh0 && ds[1] == cfg.link.fh1 && ds[3] == cfg.link.cmdR {
        var c := ReadCommand();
        Analysis(c, rd, j);
        dispatched := dispatched + [c];
      }
    }

    /** `memset(data_storage, 0, sizeof(data_storage))`. */
    method Clear()
      modifies ds
      ensures ds[..] == Zeros(ds.Length)
    {
      forall i | 0 <= i < ds.Length {
        ds[i] := 0;
      }
    }

    /**
     * `LGT_Analysis_DWIN_Screen_Cmd`: the outer `switch` on the address. An
     * address without a case changes nothing; the value cases store the
     * first word of the reply.
     */
    method Analysis(c: Command, rd: Readings, j: Recovery.Journal)
      requires Valid() && Ready(j)
      modifies ds, workTime, this`out, this`events, this`enqueued, this`ui, this`job, this`level, this`mach, this`selFileId,
        j`stored, j`phase
      ensures Valid() && Ready(j)
      ensures Classify(cfg, c.addr).None? ==> Snapshot() == old(Snapshot()) && j.stored == old(j.stored) && j.phase == old(j.phase)
      ensures Classify(cfg, c.addr).Some? && Classify(cfg, c.addr) != Some(ButtonKey) ==>
        ValueDone(Classify(cfg, c.addr).value, Head(c), rd, old(Snapshot())) && j.stored == old(j.stored) && j.phase == old(j.phase)
      ensures Classify(cfg, c.addr) == Some(ButtonKey) && Head(c) !in cfg.keys ==>
        Snapshot() == old(Snapshot()) && j.stored == old(j.stored) && j.phase == old(j.phase)
    {
      var w := Head(c);
      match Classify(cfg, c.addr)
      case None =>
      case Some(v) =>
        if v == ButtonKey {
          if w in cfg.keys {
            Press(cfg.keys[w], rd, j);
          }
        } else {
          ValueCase(v, w, rd);
        }
    }

    /**
     * The cases of the address switch other than `ADDR_VAL_BUTTON_KEY`,
     * given the received word: the state after each case, as an update of
     * the state before it.
     */
    ghost predicate ValueDone(v: Var, w: u16, rd: Readings, before: View)
      requires Valid()
      reads this`out, this`events, this`enqueued, this`gcodeNum, this`selFileId, this`ui, this`job, this`level,
        this`mach, workTime, this`files, gcodeId
    {
      var now := Snapshot();
      match v
      case FileSelectVal =>
        var chosen := w < before.gcodeNum && w != before.selFileId;
        before.gcodeNum == gcodeNum &&
        now == before.(selFileId := if chosen then w else before.selFileId,
          events := before.events + (if chosen then [Dehighlight, Highlight] else []),
          out := before.out + (if chosen then Text31Frame(cfg.link, cfg.addr(TxtFileSelect), files[gcodeId[w]].longName) else []))
      case TarE => now == before.(events := before.events + [SetHotendTarget(Signed16(w))])
      case TarB => now == before.(events := before.events + [SetBedTarget(Signed16(w))])
      case FilaChangeLen => now == before.(ui := before.ui.(filamentLen := w))
      case FilaChangeTemp => now == before.(ui := before.ui.(filamentTemp := w))
      case AboutMacTime =>
        |before.workTime| == 31 &&
        var b := TimeBuffer(rd.eepromTotal, before.workTime);
        now == before.(job := before.job.(totalPrintTime := rd.eepromTotal), workTime := b,
          out := before.out + Text31Frame(cfg.link, cfg.addr(TxtAboutWorkTime), b))
      case Fan => now == before.(mach := before.mach.(fan0 := Signed16(w)))
      case Feed =>
        now == before.(mach := before.mach.(feedrate := Signed16(w)),
          out := before.out + ValueFrame(cfg.link, cfg.addr(CurFeed), IntMin(rd.feedScaled % 65536, 3000)))
      case Flow => now == before.(mach := before.mach.(flow := Signed16(w)))
      case MenuType =>
        var m := Signed16(w);
        var fila := m == cfg.menu(MUtiliFila) || m == cfg.menu(MHomeFila);
        now == before.(events := before.events + [DataUpdate],
          ui := before.ui.(menuType := m,
            filaTypeChk := if fila then 0 else before.ui.filaTypeChk,
            moveDisChk := if !fila && m == cfg.menu(MMove) then 0 else before.ui.moveDisChk))
      case _ => now == before
    }

    /** The value cases of the address switch, each as `ValueDone` states it. */
    method ValueCase(v: Var, w: u16, rd: Readings)
      requires Valid() && v != ButtonKey
      modifies ds, workTime, this`out, this`events, this`ui, this`job, this`level, this`mach, this`selFileId
      ensures Valid() && ValueDone(v, w, rd, old(Snapshot()))
    {
      if v.FileSelectVal? || v.AboutMacTime? || v.Feed? || v.MenuType? {
        HandlerCase(v, w, rd);
      } else {
        StoreCase(v, w);
      }
    }

    /** The value cases that hand the word to a handler. */
    method HandlerCase(v: Var, w: u16, rd: Readings)
      requires Valid() && (v.FileSelectVal? || v.AboutMacTime? || v.Feed? || v.MenuType?)
      modifies ds, workTime, this`out, this`events, this`ui, this`job, this`mach, this`selFileId
      ensures Valid() && ValueDone(v, w, rd, old(Snapshot()))
    {
      if v.FileSelectVal? || v.MenuType? {
        SelectCase(v, w, rd);
      } else {
        ShowCase(v, w, rd);
      }
    }

    /** `ADDR_VAL_PRINT_FILE_SELECT` and `ADDR_VAL_MENU_TYPE`. */
    method SelectCase(v: Var, w: u16, rd: Readings)
      requires Valid() && (v.FileSelectVal? || v.MenuType?)
      modifies ds, this`out, this`events, this`ui, this`selFileId
      ensures Valid() && ValueDone(v, w, rd, old(Snapshot()))
    {
      if v.FileSelectVal? {
        SelectFile(w);
      } else {
        MenuChange(w);
      }
    }

    /** `ADDR_TXT_ABOUT_MAC_TIME` and `ADDR_VAL_FEED`. */
    method ShowCase(v: Var, w: u16, rd: Readings)
      requires Valid() && (v.AboutMacTime? || v.Feed?)
      modifies ds, workTime, this`out, this`job, this`mach
      ensures Valid() && ValueDone(v, w, rd, old(Snapshot()))
    {
      if v.AboutMacTime? {
        ShowWorkTime(rd.eepromTotal);
      } else {
        FeedChange(w, rd.feedScaled);
      }
    }

    /** The value cases that store the word, or pass it on as a target, in place. */
    method StoreCase(v: Var, w: u16)
      requires Valid() && !(v.FileSelectVal? || v.AboutMacTime? || v.Feed? || v.MenuType? || v.ButtonKey?)
      modifies this`events, this`ui, this`mach
      ensures Valid() && forall rd :: ValueDone(v, w, rd, old(Snapshot()))
    {
      match v
      case TarE => events := events + [SetHotendTarget(Signed16(w))];
      case TarB => events := events + [SetBedTarget(Signed16(w))];
      case FilaChangeLen => ui := ui.(filamentLen := w);
      case FilaChangeTemp => ui := ui.(filamentTemp := w);
      case Fan => mach := mach.(fan0 := Signed16(w));
      case Flow => mach := mach.(flow := Signed16(w));
      case _ =>
    }

    // ----- the value cases -----

    /**
     * `ADDR_VAL_PRINT_FILE_SELECT`: a listed row other than the selected one
     * becomes the selection and its name is shown; any other value is
     * ignored.
     */
    method SelectFile(w: u16)
      requires Valid()
      modifies ds, this`out, this`events, this`selFileId
      ensures Valid()
      ensures selFileId != old(selFileId) <==> w < gcodeNum && w != old(selFileId)
      ensures selFileId == if w < gcodeNum && w != old(selFileId) then w else old(selFileId)
      ensures w < gcodeNum && w != old(selFileId) ==>
        events == old(events) + [Dehighlight, Highlight]
        && out == old(out) + Text31Frame(cfg.link, cfg.addr(TxtFileSelect), files[gcodeId[w]].longName)
      ensures !(w < gcodeNum && w != old(selFileId)) ==> events == old(events) && out == old(out)
    {
      if w < gcodeNum && w != selFileId {
        events := events + [Dehighlight];
        selFileId := w;
        SendFilename(cfg.addr(TxtFileSelect), gcodeId[selFileId]);
        events := events + [Highlight];
      }
    }

    /** `ADDR_TXT_ABOUT_MAC_TIME`: the stored total is shown as "H h M m". */
    method ShowWorkTime(eepromTotal: u32)
      requires Valid()
      modifies ds, workTime, this`out, this`job
      ensures job == old(job).(totalPrintTime := eepromTotal)
      ensures workTime[..] == TimeBuffer(eepromTotal, old(workTime[..]))
      ensures out == old(out) + Text31Frame(cfg.link, cfg.addr(TxtAboutWorkTime), workTime[..])
    {
      job := job.(totalPrintTime := eepromTotal);
      var b := TimeBuffer(eepromTotal, workTime[..]);
      forall i | 0 <= i < 31 {
        workTime[i] := b[i];
      }
      assert workTime[..] == b;
      SendText31(cfg.addr(TxtAboutWorkTime), workTime[..]);
    }

    /**
     * `ADDR_VAL_FEED`: the percentage is stored and the scaled feed rate is
     * shown, cut to 16 bits and capped at 3000.
     */
    method FeedChange(w: u16, feedScaled: nat)
      requires Valid()
      modifies ds, this`out, this`mach
      ensures mach == old(mach).(feedrate := Signed16(w))
      ensures out == old(out) + ValueFrame(cfg.link, cfg.addr(CurFeed), IntMin(feedScaled % 65536, 3000))
    {
      mach := mach.(feedrate := Signed16(w));
      var lf := feedScaled % 65536;
      if lf > 3000 {
        lf := 3000;
      }
      SendValue(cfg.addr(CurFeed), lf);
    }

    /**
     * `ADDR_VAL_MENU_TYPE`: the menu context takes the received value; the
     * filament dialog memory is cleared for the two filament menus and the
     * move distance for the move menu.
     */
    method MenuChange(w: u16)
      modifies this`events, this`ui
      ensures events == old(events) + [DataUpdate]
      ensures var m := Signed16(w);
        ui == old(ui).(menuType := m,
          filaTypeChk := if m == cfg.menu(MUtiliFila) || m == cfg.menu(MHomeFila) then 0 else old(ui.filaTypeChk),
          moveDisChk := if m != cfg.menu(MUtiliFila) && m != cfg.menu(MHomeFila) && m == cfg.menu(MMove)
            then 0 else old(ui.moveDisChk))
    {
      var m := Signed16(w);
      ui := ui.(menuType := m);
      events := events + [DataUpdate];
      if m == cfg.menu(MUtiliFila) || m == cfg.menu(MHomeFila) {
        ui := ui.(filaTypeChk := 0);
      } else if m == cfg.menu(MMove) {
        ui := ui.(moveDisChk := 0);
      }
    }

    // ----- the button cases -----

    /**
     * `ADDR_VAL_BUTTON_KEY`: the inner `switch` on the button code. Its cases
     * are taken here in four groups, each group a method of its own.
     */
    method Press(key: Key, rd: Readings, j: Recovery.Journal)
      requires Valid() && Ready(j)
      requires U20Only(key) ==> cfg.U20()
      requires key.CornerPos? ==> 1 <= key.n <= 5
      modifies ds, this`out, this`events, this`enqueued, this`ui, this`job, this`level, this`mach, this`selFileId, j`stored, j`phase
      ensures Valid() && Ready(j)
    {
      if MotionGroup(key) {
        PressMotion(key, rd);
      } else if FilamentGroup(key) {
        PressFilament(key, rd);
      } else if LevelGroup(key) {
        PressLevel(key);
      } else {
        PressPrint(key, rd, j);
      }
    }

    /** The jog, homing, motor and corner buttons. */
    method PressMotion(key: Key, rd: Readings)
      requires Valid() && MotionGroup(key)
      requires U20Only(key) ==> cfg.U20()
      requires key.CornerPos? ==> 1 <= key.n <= 5
      modifies ds, this`out, this`events, this`enqueued, this`ui, this`level, this`mach
      ensures Valid()
    {
      match key
      case Jog(a, plus, s) =>
        if a == E {
          JogE(plus, s, rd.th.hotend);
        } else if plus {
          JogPlus(a, s);
        } else if a == Z {
          JogZMinus(s);
        } else {
          JogMinus(a, s);
        }
      case XYHome => MotionKey(key);
      case ZHome => HomeZ();
      case MoveNoTempRet => MoveNoTempReturn();
      case MoveDisable => MotionKey(key);
      case MoveEnable => MotionKey(key);
      case MoveP(_) => MotionKey(key);
      case CornerPos(n) => Corner(n);
      case CornerBack => CornerBack();
    }

    /** The filament dialog buttons. */
    method PressFilament(key: Key, rd: Readings)
      requires Valid() && FilamentGroup(key)
      modifies ds, this`out, this`events, this`enqueued, this`ui, this`mach
      ensures Valid()
    {
      match key
      case FilaNoTempRet => FilaNoTempReturn();
      case FilaPla => FilaPreset(false);
      case FilaAbs => FilaPreset(true);
      case FilaLoad => FilaLoadUnload(true, rd.th.hotend);
      case FilaUnload => FilaLoadUnload(false, rd.th.hotend);
      case FilaHeatNo => FilaHeatNo();
      case FilaUnloadOk => FilaOk(false);
      case FilaLoadOk => FilaOk(true);
      case FilaChangeYes => FilaChangeYes();
    }

    /** The bed levelling buttons of U20_Pro. */
    method PressLevel(key: Key)
      requires Valid() && LevelGroup(key)
      requires U20Only(key) ==> cfg.U20()
      modifies ds, this`out, this`events, this`enqueued, this`level, this`mach
      ensures Valid()
    {
      match key
      case MeasuStart => MeasuStart();
      case MeasuDis0 => MeasuKey(key);
      case MeasuDis1 => MeasuKey(key);
      case MeasuS1Next => MeasuKey(key);
      case MeasuS2Next => MeasuKey(key);
      case MeasuS1ExitNo => MeasuKey(key);
      case MeasuS2ExitNo => MeasuKey(key);
      case MeasuExitOk => MeasuKey(key);
      case MeasuS3ExitNo => MeasuKey(key);
      case MeasuStopMove => MeasuStopMove();
    }

    /** The file, print, recovery and light buttons. */
    method PressPrint(key: Key, rd: Readings, j: Recovery.Journal)
      requires Valid() && Ready(j)
      requires !MotionGroup(key) && !FilamentGroup(key) && !LevelGroup(key)
      modifies ds, this`out, this`events, this`enqueued, this`ui, this`job, this`level, this`mach, this`selFileId, j`stored, j`phase
      ensures Valid() && Ready(j)
    {
      match key
      case FileOpen => FileOpen();
      case FileOpenYes => FileOpenYes();
      case Pause => Pause();
      case Resume => Resume();
      case Abort => Abort(rd.duration);
      case Finish => Finish();
      case RecoveryYes => RecoveryYes(j);
      case RecoveryNo => RecoveryNo(j);
      case FileClean => FileClean();
      case SwitchLeds => SwitchLeds();
    }

    /**
     * `eBT_MOVE_XY_HOME`, `eBT_MOVE_DISABLE`, `eBT_MOVE_ENABLE` and
     * `eBT_MOVE_P0`..`P2`: home X and Y, stop and release the motors,
     * enable them, or choose the jog distance.
     */
    method MotionKey(key: Key)
      requires key.XYHome? || key.MoveDisable? || key.MoveEnable? || key.MoveP?
      modifies this`events, this`enqueued, this`ui, this`level
      ensures key.XYHome? ==>
        enqueued == old(enqueued) + [Ascii("G28 X0 Y0")] && level == old(level).(xyHome := true) && events == old(events)
        && ui == old(ui)
      ensures key.MoveDisable? ==>
        events == old(events) + [ClearQueue, QuickStop] && enqueued == old(enqueued) && ui == old(ui) && level == old(level)
      ensures key.MoveEnable? ==> events == old(events) + [EnableSteppers] && enqueued == old(enqueued) && ui == old(ui) && level == old(level)
      ensures key.MoveP? ==>
        ui == old(ui).(moveDisChk := StepClass(key.step)) && events == old(events) && enqueued == old(enqueued)
        && level == old(level)
    {
      match key
      case XYHome =>
        enqueued := enqueued + [Ascii("G28 X0 Y0")];
        level := level.(xyHome := true);
      case MoveDisable => events := events + [ClearQueue, QuickStop];
      case MoveEnable => events := events + [EnableSteppers];
      case MoveP(s) => ui := ui.(moveDisChk := StepClass(s));
    }

    /**
     * The steps of the measured levelling on U20_Pro: choose the distance
     * (0 or 1), go to step 2, or to step 3 with the settings reset and the
     * bed probed; leave a step's dialog for its page; stop the motion and
     * release the motors.
     */
    method MeasuKey(key: Key)
      requires Valid()
      requires key.MeasuDis0? || key.MeasuDis1? || key.MeasuS1Next? || key.MeasuS2Next?
        || key.MeasuS1ExitNo? || key.MeasuS2ExitNo? || key.MeasuExitOk? || key.MeasuS3ExitNo?
      modifies ds, this`out, this`events, this`enqueued, this`level
      ensures key.MeasuDis0? ==> level == old(level).(measuDisChk := 0)
      ensures key.MeasuDis1? ==> level == old(level).(measuDisChk := 1)
      ensures key.MeasuS1Next? ==> level == old(level).(measuStep := 2, measuDisChk := 1)
      ensures key.MeasuS2Next? ==>
        level == old(level).(measuStep := 3, measuDisChk := 1)
        && events == old(events) + [ResetSettings] && enqueued == old(enqueued) + [Ascii("G28"), Ascii("G29")]
      ensures key.MeasuS1ExitNo? ==> out == old(out) + PageFrame(cfg.link, cfg.page(PgMeasuS1) + old(level.measuDisChk))
      ensures key.MeasuS2ExitNo? ==> out == old(out) + PageFrame(cfg.link, cfg.page(PgMeasuS2) + old(level.measuDisChk))
      ensures key.MeasuS3ExitNo? ==> out == old(out) + PageFrame(cfg.link, cfg.page(PgMeasuS3))
      ensures key.MeasuExitOk? ==> events == old(events) + [ClearQueue, QuickStop] && enqueued == old(enqueued) + [Ascii("M18")]
      ensures key.MeasuS1ExitNo? || key.MeasuS2ExitNo? || key.MeasuS3ExitNo? || key.MeasuExitOk? ==> level == old(level)
      ensures !(key.MeasuS2Next? || key.MeasuExitOk?) ==> events == old(events) && enqueued == old(enqueued)
      ensures !(key.MeasuS1ExitNo? || key.MeasuS2ExitNo? || key.MeasuS3ExitNo?) ==> out == old(out)
    {
      match key
      case MeasuDis0 => level := level.(measuDisChk := 0);
      case MeasuDis1 => level := level.(measuDisChk := 1);
      case MeasuS1Next => level := level.(measuStep := 2, measuDisChk := 1);
      case MeasuS2Next =>
        level := level.(measuStep := 3, measuDisChk := 1);
        events := events + [ResetSettings];
        enqueued := enqueued + [Ascii("G28"), Ascii("G29")];
      case MeasuS1ExitNo => ChangePage(cfg.page(PgMeasuS1) + level.measuDisChk);
      case MeasuS2ExitNo => ChangePage(cfg.page(PgMeasuS2) + level.measuDisChk);
      case MeasuExitOk =>
        events := events + [ClearQueue, QuickStop];
        enqueued := enqueued + [Ascii("M18")];
      case MeasuS3ExitNo => ChangePage(cfg.page(PgMeasuS3));
    }

    /**
     * `eBT_MOVE_{X,Y,Z}_PLUS_*`: a jog below the maximum moves by the step
     * and stops at the maximum; at or above the maximum nothing happens.
     */
    method JogPlus(a: Axis, s: Step)
      requires Valid() && a != E
      modifies ds, this`out, this`events, this`level, this`mach
      ensures var p := Coord(old(mach.pos), a);
        var q := Moved(old(mach.pos), a, IntMin(p + Tenths(s), cfg.maxPos(a)));
        if p < cfg.maxPos(a) then
          mach == old(mach).(pos := q) && events == old(events) + [LineTo(a, q)]
        else
          mach == old(mach) && events == old(events)
      ensures old(Coord(mach.pos, a)) < cfg.maxPos(a) ==> Coord(mach.pos, a) <= cfg.maxPos(a)
      ensures var tracked := Coord(old(mach.pos), a) < cfg.maxPos(a) && a == Z && LevelTracked(cfg, old(ui));
        level == old(level).(levelZ := old(level.levelZ) + (if tracked then Tenths(s) else 0))
        && out == old(out) + (if tracked then ValueFrame(cfg.link, cfg.addr(LevelZUpDown), level.levelZ) else [])
    {
      var p := Coord(mach.pos, a);
      if p < cfg.maxPos(a) {
        p := p + Tenths(s);
        if p > cfg.maxPos(a) {
          p := cfg.maxPos(a);
        }
        var q := Moved(mach.pos, a, p);
        mach := mach.(pos := q);
        events := events + [LineTo(a, q)];
        if a == Z && cfg.U20() && ui.menuType != cfg.menu(MMove) {
          level := level.(levelZ := level.levelZ + Tenths(s));
          SendValue(cfg.addr(LevelZUpDown), level.levelZ);
        }
      }
    }

    /** `eBT_MOVE_{X,Y}_MINUS_*`: always moves; stops at the minimum only once the axes are homed. */
    method JogMinus(a: Axis, s: Step)
      requires a == X || a == Y
      modifies this`events, this`mach
      ensures var p := Coord(old(mach.pos), a) - Tenths(s);
        var q := Moved(old(mach.pos), a, if XYHomed(cfg, level) then IntMax(p, cfg.minPos(a)) else p);
        mach == old(mach).(pos := q) && events == old(events) + [LineTo(a, q)]
      ensures XYHomed(cfg, level) ==> Coord(mach.pos, a) >= cfg.minPos(a)
    {
      var p := Coord(mach.pos, a) - Tenths(s);
      if (cfg.U20() && level.xyHome) || (!cfg.U20() && (level.xyzHome || level.xyHome)) {
        if p < cfg.minPos(a) {
          p := cfg.minPos(a);
        }
      }
      var q := Moved(mach.pos, a, p);
      mach := mach.(pos := q);
      events := events + [LineTo(a, q)];
    }

    /**
     * `eBT_MOVE_Z_MINUS_*`: U30_Pro stops at the minimum once Z is homed;
     * U20_Pro never clamps and moves the level display down with the nozzle.
     */
    method JogZMinus(s: Step)
      requires Valid()
      modifies ds, this`out, this`events, this`level, this`mach
      ensures var p := Coord(old(mach.pos), Z) - Tenths(s);
        var clamp := !cfg.U20() && (old(level.xyzHome) || old(level.zHome));
        var q := Moved(old(mach.pos), Z, if clamp then IntMax(p, cfg.minPos(Z)) else p);
        mach == old(mach).(pos := q) && events == old(events) + [LineTo(Z, q)]
      ensures var tracked := LevelTracked(cfg, old(ui));
        level == old(level).(levelZ := old(level.levelZ) - (if tracked then Tenths(s) else 0))
        && out == old(out) + (if tracked then ValueFrame(cfg.link, cfg.addr(LevelZUpDown), level.levelZ) else [])
    {
      var p := Coord(mach.pos, Z) - Tenths(s);
      if !cfg.U20() && (level.xyzHome || level.zHome) {
        if p < cfg.minPos(Z) {
          p := cfg.minPos(Z);
        }
      }
      var q := Moved(mach.pos, Z, p);
      mach := mach.(pos := q);
      events := events + [LineTo(Z, q)];
      if cfg.U20() && ui.menuType != cfg.menu(MMove) {
        level := level.(levelZ := level.levelZ - Tenths(s));
        SendValue(cfg.addr(LevelZUpDown), level.levelZ);
      }
    }

    /**
     * `eBT_MOVE_E_*`: the extruder moves only when the hotend is at least at
     * the extrude temperature; otherwise the step is remembered for the
     * dialog's return and the "no temperature" dialog shows that temperature.
     */
    method JogE(plus: bool, s: Step, hotend: int)
      requires Valid()
      modifies ds, this`out, this`events, this`ui, this`mach
      ensures var t := ExtrudeTemp(cfg, old(ui.filaType));
        var q := Moved(old(mach.pos), E, Coord(old(mach.pos), E) + Signed(plus, s));
        if hotend >= t then
          mach == old(mach).(pos := q) && events == old(events) + [LineTo(E, q)]
          && out == old(out) && ui == old(ui)
        else
          mach == old(mach) && events == old(events) && ui == old(ui).(moveDisChk := StepClass(s))
          && out == old(out) + ValueFrame(cfg.link, cfg.addr(ExtrudeTempVal), t) + PageFrame(cfg.link, cfg.page(PgMoveNoTemp))
    {
      var t := ExtrudeTemp(cfg, ui.filaType);
      if hotend >= t {
        var q := Moved(mach.pos, E, Coord(mach.pos, E) + Signed(plus, s));
        mach := mach.(pos := q);
        events := events + [LineTo(E, q)];
      } else {
        ui := ui.(moveDisChk := StepClass(s));
        SendValue(cfg.addr(ExtrudeTempVal), t);
        ChangePage(cfg.page(PgMoveNoTemp));
      }
    }

    /** `eBT_MOVE_Z_HOME`: U20_Pro homes every axis, U30_Pro only Z. */
    method HomeZ()
      modifies this`enqueued, this`level
      ensures cfg.U20() ==> enqueued == old(enqueued) + [Ascii("G28")] && level == old(level).(xyHome := true)
      ensures !cfg.U20() ==> enqueued == old(enqueued) + [Ascii("G28 Z0")] && level == old(level).(zHome := true)
    {
      if cfg.U20() {
        enqueued := enqueued + [Ascii("G28")];
        level := level.(xyHome := true);
      } else {
        enqueued := enqueued + [Ascii("G28 Z0")];
        level := level.(zHome := true);
      }
    }

    /** `eBT_DIAL_MOVE_NO_TEMP_RET`: back to the move page of the remembered step. */
    method MoveNoTempReturn()
      requires Valid()
      modifies ds, this`out
      ensures out == old(out) + PageFrame(cfg.link,
        if ui.moveDisChk == 0 then cfg.page(PgMove0) else cfg.page(PgMove1) - 1 + ui.moveDisChk)
    {
      if ui.moveDisChk == 0 {
        ChangePage(cfg.page(PgMove0));
      } else {
        ChangePage(cfg.page(PgMove1) - 1 + ui.moveDisChk);
      }
    }

    /** `eBT_DIAL_FILA_NO_TEMP_RET`: back to the filament page of the remembered preset. */
    method FilaNoTempReturn()
      requires Valid()
      modifies ds, this`out
      ensures out == old(out) + PageFrame(cfg.link,
        (if ui.menuType == cfg.menu(MUtiliFila) then cfg.page(PgUtiliFila0) else cfg.page(PgHomeFila0)) + ui.filaTypeChk)
    {
      if ui.menuType == cfg.menu(MUtiliFila) {
        ChangePage(cfg.page(PgUtiliFila0) + ui.filaTypeChk);
      } else {
        ChangePage(cfg.page(PgHomeFila0) + ui.filaTypeChk);
      }
    }

    /**
     * `eBT_PRINT_FILE_OPEN`: with a selection, the start dialog of its page
     * of five rows opens; the page number is a `uint8_t`.
     */
    method FileOpen()
      requires Valid()
      modifies ds, this`out
      ensures selFileId > -1 ==> out == old(out) + PageFrame(cfg.link,
        if Trunc8(selFileId / 5) == 0 then cfg.page(PgPrintStart0) else cfg.page(PgPrintStart1) - 1 + Trunc8(selFileId / 5))
      ensures selFileId <= -1 ==> out == old(out)
    {
      if selFileId > -1 {
        var i := Trunc8(selFileId / 5);
        if i == 0 {
          ChangePage(cfg.page(PgPrintStart0));
        } else {
          ChangePage(cfg.page(PgPrintStart1) - 1 + i);
        }
      }
    }

    /**
     * `eBT_PRINT_FILE_OPEN_YES`: with a selection, its file is opened and
     * printed, the timer started, the home page shown with the file name,
     * and the name saved for recovery; the filament type resets to PLA.
     */
    method FileOpenYes()
      requires Valid()
      modifies ds, this`out, this`events, this`ui, this`job
      ensures selFileId > -1 ==>
        events == old(events) + [OpenFile(gcodeId[selFileId]), StartFilePrint, TimerStart, DataUpdate, IdleCall]
        && out == old(out) + Text31Frame(cfg.link, cfg.addr(TxtHomeFileName), files[gcodeId[selFileId]].longName)
          + ValueFrame(cfg.link, cfg.addr(IconHide), 0) + PageFrame(cfg.link, cfg.page(PgPrintHome))
          + RecoveryNameFrame(cfg.link, cfg.link.fh1, cfg.addr(TxtHomeFileName), 32)
        && ui == old(ui).(menuType := cfg.menu(MPrintHome), status := PrinterPrinting, filaType := 0)
        && job == old(job).(isPrinting := true)
      ensures selFileId <= -1 ==> events == old(events) && out == old(out) && ui == old(ui) && job == old(job)
    {
      if selFileId > -1 {
        var id := gcodeId[selFileId];
        SendFilename(cfg.addr(TxtHomeFileName), id);
        SendValue(cfg.addr(IconHide), 0);
        ChangePage(cfg.page(PgPrintHome));
        SaveRecoveryFilename(cfg.link.cmdW, cfg.link.fh1, cfg.addr(TxtHomeFileName), 32);
        events := events + [OpenFile(id), StartFilePrint, TimerStart, DataUpdate, IdleCall];
        ui := ui.(menuType := cfg.menu(MPrintHome), status := PrinterPrinting, filaType := 0);
        job := job.(isPrinting := true);
      }
    }

    /** `eBT_PRINT_HOME_PAUSE`. */
    method Pause()
      requires Valid()
      modifies ds, this`out, this`events, this`enqueued, this`ui
      ensures out == old(out) + PageFrame(cfg.link, cfg.page(PgPrintWait)) && ui == old(ui).(status := PrinterPause)
      ensures events == old(events) + [PauseFilePrint, TimerPause] && enqueued == old(enqueued) + [Ascii("M2001")]
    {
      ChangePage(cfg.page(PgPrintWait));
      ui := ui.(status := PrinterPause);
      events := events + [PauseFilePrint, TimerPause];
      enqueued := enqueued + [Ascii("M2001")];
    }

    /** `eBT_PRINT_HOME_RESUME`. */
    method Resume()
      requires Valid()
      modifies ds, this`out, this`events, this`ui
      ensures out == old(out) + PageFrame(cfg.link, cfg.page(PgPrintHome))
      ensures events == old(events) + [MoveToResume, StartFilePrint, TimerStart, RunoutReset]
      ensures ui == old(ui).(menuType := cfg.menu(MPrintHome), status := PrinterPrinting)
    {
      ChangePage(cfg.page(PgPrintHome));
      events := events + [MoveToResume, StartFilePrint, TimerStart, RunoutReset];
      ui := ui.(menuType := cfg.menu(MPrintHome), status := PrinterPrinting);
    }

    /**
     * `LGT_Printer_Total_Work_Time`: the minutes of this job (the timer's
     * seconds plus the recovered seconds, a `uint32_t` sum) are added to the
     * total, which is written to EEPROM.
     */
    method TotalWorkTime(duration: u32)
      modifies this`events, this`job
      ensures var total := Trunc32(Trunc32(duration + old(job.recoveryTime)) / 60 + old(job.totalPrintTime));
        job == old(job).(totalPrintTime := total) && events == old(events) + [SaveTotalTime(total)]
    {
      var d := Trunc32(duration + job.recoveryTime);
      job := job.(totalPrintTime := Trunc32(d / 60 + job.totalPrintTime));
      events := events + [SaveTotalTime(job.totalPrintTime)];
    }

    /**
     * `LGT_Exit_Print_Page`: feed rate and flow back to 100 percent, the
     * recovery offsets cleared, the home menu in standby, E at 0.
     */
    method ExitPrintPage()
      requires Valid()
      modifies ds, this`out, this`events, this`ui, this`job, this`mach
      ensures ui == old(ui).(menuType := cfg.menu(MHome), status := PrinterStandby)
      ensures job == ExitedJob(old(job)) && mach == ExitedMachine(old(mach))
      ensures out == old(out) + ClearFrame(cfg.link, cfg.addr(TxtHomeFileName)) + ClearFrame(cfg.link, cfg.addr(Fan))
        + ValueFrame(cfg.link, cfg.addr(HomeProgress), 0)
      ensures events == old(events) + [DataUpdate, IdleCall, SetEPosition(0)]
    {
      mach := mach.(feedrate := 100, flow := 100);
      CleanData(cfg.addr(TxtHomeFileName));
      CleanData(cfg.addr(Fan));
      SendValue(cfg.addr(HomeProgress), 0);
      job := job.(recoveryTime := 0, recoveryPercent := 0, recoveryZ := 0, recoveryE := 0);
      ui := ui.(menuType := cfg.menu(MHome), status := PrinterStandby);
      mach := mach.(pos := Moved(mach.pos, E, 0));
      events := events + [DataUpdate, IdleCall, SetEPosition(0)];
    }

    /**
     * `eBT_PRINT_HOME_ABORT`: the job's minutes are credited to the total,
     * with the recovered time still counted, before the print page is left.
     */
    method Abort(duration: u32)
      requires Valid()
      modifies ds, this`out, this`events, this`ui, this`job, this`mach
      ensures ui == old(ui).(menuType := cfg.menu(MHome), status := PrinterStandby)
      ensures var total := Trunc32(Trunc32(duration + old(job.recoveryTime)) / 60 + old(job.totalPrintTime));
        job == ExitedJob(old(job).(stopPrinting := true, totalPrintTime := total))
        && events == old(events) + [SaveTotalTime(total), DataUpdate, IdleCall, SetEPosition(0)]
      ensures mach == ExitedMachine(old(mach).(waitForHeatup := false))
      ensures out == old(out) + PageFrame(cfg.link, cfg.page(PgPrintWait))
        + ClearFrame(cfg.link, cfg.addr(TxtHomeFileName)) + ClearFrame(cfg.link, cfg.addr(Fan))
        + ValueFrame(cfg.link, cfg.addr(HomeProgress), 0)
    {
      ChangePage(cfg.page(PgPrintWait));
      mach := mach.(waitForHeatup := false);
      job := job.(stopPrinting := true);
      TotalWorkTime(duration);
      ExitPrintPage();
    }

    /** `eBT_PRINT_HOME_FINISH`: the home page, the print page left, printing over. */
    method Finish()
      requires Valid()
      modifies ds, this`out, this`events, this`ui, this`job, this`mach
      ensures job == ExitedJob(old(job)).(isPrinting := false) && mach == ExitedMachine(old(mach))
      ensures ui == old(ui).(menuType := cfg.menu(MHome), status := PrinterStandby)
      ensures out == old(out) + PageFrame(cfg.link, cfg.page(PgHome))
        + ClearFrame(cfg.link, cfg.addr(TxtHomeFileName)) + ClearFrame(cfg.link, cfg.addr(Fan))
        + ValueFrame(cfg.link, cfg.addr(HomeProgress), 0)
      ensures events == old(events) + [RunoutReset, DataUpdate, IdleCall, SetEPosition(0)]
    {
      events := events + [RunoutReset];
      ChangePage(cfg.page(PgHome));
      ExitPrintPage();
      job := job.(isPrinting := false);
    }

    /**
     * `eBT_UTILI_FILA_PLA` and `eBT_UTILI_FILA_ABS`: the preset's hotend and
     * bed targets are set and shown, and the choice remembered.
     */
    method FilaPreset(abs: bool)
      requires Valid()
      modifies ds, this`out, this`events, this`ui
      ensures ui == old(ui).(filaType := if abs then 1 else 0, filaTypeChk := if abs then 2 else 1, status := PrinterHeat)
      ensures var e, b := if abs then cfg.absE else cfg.plaE, if abs then cfg.absB else cfg.plaB;
        events == old(events) + [SetHotendTarget(e), SetBedTarget(b)]
        && out == old(out) + ValueFrame(cfg.link, cfg.addr(TarE), e) + ValueFrame(cfg.link, cfg.addr(TarB), b)
          + ValueFrame(cfg.link, cfg.addr(FilaChangeTemp), e)
      ensures ExtrudeTemp(cfg, ui.filaType) == (if abs then cfg.absE else cfg.plaE) - 5
    {
      var e, b;
      if abs {
        ui := ui.(filaType := 1, filaTypeChk := 2);
        e, b := cfg.absE, cfg.absB;
      } else {
        ui := ui.(filaTypeChk := 1, filaType := 0);
        e, b := cfg.plaE, cfg.plaB;
      }
      ui := ui.(status := PrinterHeat);
      events := events + [SetHotendTarget(e), SetBedTarget(b)];
      SendValue(cfg.addr(TarE), e);
      SendValue(cfg.addr(TarB), b);
      SendValue(cfg.addr(FilaChangeTemp), e);
    }

    /**
     * `eBT_UTILI_FILA_LOAD` and `eBT_UTILI_FILA_UNLOAD`: hot enough (5 degrees
     * below `filament_temp`, an unsigned difference) the load or unload runs
     * at once; otherwise a wait page opens and it runs after an `M109`.
     */
    method FilaLoadUnload(load: bool, hotend: int)
      requires Valid()
      modifies ds, this`out, this`enqueued
      ensures var run := Ascii(if load then "M2004" else "M2005");
        if hotend >= (ui.filamentTemp - 5) % 65536 then
          enqueued == old(enqueued) + [run] && out == old(out)
        else
          enqueued == old(enqueued) + [HeatCommand(ui.filamentTemp), run]
          && out == old(out) + (if !load then PageFrame(cfg.link, cfg.page(PgUtiliFilaWait))
            else if ui.menuType == cfg.menu(MUtiliFila) then PageFrame(cfg.link, cfg.page(PgUtiliFilaWait))
            else if ui.menuType == cfg.menu(MHomeFila) then PageFrame(cfg.link, cfg.page(PgPrintFilaWait))
            else [])
    {
      var run := Ascii(if load then "M2004" else "M2005");
      if hotend >= (ui.filamentTemp - 5) % 65536 {
        enqueued := enqueued + [run];
      } else {
        if !load {
          ChangePage(cfg.page(PgUtiliFilaWait));
        } else if ui.menuType == cfg.menu(MUtiliFila) {
          ChangePage(cfg.page(PgUtiliFilaWait));
        } else if ui.menuType == cfg.menu(MHomeFila) {
          ChangePage(cfg.page(PgPrintFilaWait));
        }
        enqueued := enqueued + [HeatCommand(ui.filamentTemp), run];
      }
    }

    /**
     * `eBT_PRINT_FILA_HEAT_NO`: the wait is cancelled; from the utility menu
     * the heaters go off, from the print menu E returns to 2 mm before the
     * pause position.
     */
    method FilaHeatNo()
      requires Valid()
      modifies ds, this`out, this`events, this`mach
      ensures ui.menuType == cfg.menu(MUtiliFila) ==>
        events == old(events) + [ClearQueue, DisableHeaters] && mach == old(mach).(waitForHeatup := false)
        && out == old(out) + PageFrame(cfg.link, cfg.page(PgUtiliFila0) + ui.filaTypeChk)
      ensures ui.menuType != cfg.menu(MUtiliFila) && ui.menuType == cfg.menu(MHomeFila) ==>
        events == old(events) + [ClearQueue, SetEPosition(job.resumeE - 20)]
        && mach == old(mach).(waitForHeatup := false, pos := Moved(old(mach.pos), E, job.resumeE - 20))
        && out == old(out) + PageFrame(cfg.link, cfg.page(PgHomeFila0))
      ensures ui.menuType != cfg.menu(MUtiliFila) && ui.menuType != cfg.menu(MHomeFila) ==>
        events == old(events) + [ClearQueue] && mach == old(mach).(waitForHeatup := false) && out == old(out)
    {
      mach := mach.(waitForHeatup := false);
      if ui.menuType == cfg.menu(MUtiliFila) {
        events := events + [ClearQueue, DisableHeaters];
        ChangePage(cfg.page(PgUtiliFila0) + ui.filaTypeChk);
      } else if ui.menuType == cfg.menu(MHomeFila) {
        mach := mach.(pos := Moved(mach.pos, E, job.resumeE - 20));
        events := events + [ClearQueue, SetEPosition(job.resumeE - 20)];
        ChangePage(cfg.page(PgHomeFila0));
      } else {
        events := events + [ClearQueue];
      }
    }

    /**
     * `eBT_PRINT_FILA_UNLOAD_OK` and `eBT_PRINT_FILA_LOAD_OK`: the move is
     * stopped and the menu the dialog came from shown again.
     */
    method FilaOk(load: bool)
      requires Valid()
      modifies ds, this`out, this`events
      ensures events == old(events) + [ClearQueue, QuickStop]
      ensures out == old(out) + (
        if ui.menuType == cfg.menu(MUtiliFila) then PageFrame(cfg.link, cfg.page(PgUtiliFila0) + ui.filaTypeChk)
        else if ui.menuType == cfg.menu(MHomeFila) then PageFrame(cfg.link, cfg.page(if load then PgLoadFinish else PgHomeFila0))
        else [])
    {
      events := events + [ClearQueue, QuickStop];
      if ui.menuType == cfg.menu(MUtiliFila) {
        ChangePage(cfg.page(PgUtiliFila0) + ui.filaTypeChk);
      } else if ui.menuType == cfg.menu(MHomeFila) {
        ChangePage(cfg.page(if load then PgLoadFinish else PgHomeFila0));
      }
    }

    /** `eBT_PRINT_FILA_CHANGE_YES`: the print pauses for a filament change. */
    method FilaChangeYes()
      requires Valid()
      modifies ds, this`out, this`events, this`enqueued, this`ui
      ensures ui == old(ui).(status := PrinterPause) && events == old(events) + [PauseFilePrint, TimerPause]
      ensures enqueued == old(enqueued) + [Ascii("M2006")]
      ensures out == old(out) + (
        if old(ui.menuType) == cfg.menu(MPrintHome) then PageFrame(cfg.link, cfg.page(PgPrintWait))
        else if old(ui.menuType) == cfg.menu(MTune) then PageFrame(cfg.link, cfg.page(PgPrintTuneWait))
        else [])
    {
      if ui.menuType == cfg.menu(MPrintHome) {
        ChangePage(cfg.page(PgPrintWait));
      } else if ui.menuType == cfg.menu(MTune) {
        ChangePage(cfg.page(PgPrintTuneWait));
      }
      ui := ui.(status := PrinterPause);
      events := events + [PauseFilePrint, TimerPause];
      enqueued := enqueued + [Ascii("M2006")];
    }

    /**
     * `LGT_Power_Loss_Recovery_Resume`: the saved bed and hotend targets are
     * restored and awaited, each running fan restarted, the saved hotend
     * selected on a multi-hotend build, and the journal starts draining its
     * commands; the recovered time, progress and Z offset take the saved
     * values.
     */
    method PowerLossRecoveryResume(j: Recovery.Journal)
      requires Valid() && Ready(j)
      modifies this`enqueued, this`job, j`phase
      ensures enqueued == old(enqueued) + ReheatList(cfg.rec, j.info) && j.phase == Recovery.PhaseYes
      ensures job == old(job).(recoveryTime := j.info.elapsed, recoveryPercent := j.info.percentDone,
        recoveryZ := j.info.saveZ)
    {
      var l := ReheatCommands(cfg.rec, j.info);
      enqueued := enqueued + l;
      j.phase := Recovery.PhaseYes;
      job := job.(recoveryTime := j.info.elapsed, recoveryPercent := j.info.percentDone, recoveryZ := j.info.saveZ);
    }

    /**
     * `eBT_HOME_RECOVERY_YES`: the saved name is shown, printing restarts
     * from the journal and the print home page opens.
     */
    method RecoveryYes(j: Recovery.Journal)
      requires Valid() && Ready(j)
      modifies ds, this`out, this`events, this`enqueued, this`ui, this`job, j`phase
      ensures ui == old(ui).(menuType := cfg.menu(MPrintHome), status := if cfg.U20() then PrinterPrinting else old(ui.status))
      ensures job == old(job).(returnHome := false, isPrinting := true,
        recoveryTime := j.info.elapsed, recoveryPercent := j.info.percentDone, recoveryZ := j.info.saveZ)
      ensures enqueued == old(enqueued) + ReheatList(cfg.rec, j.info) && j.phase == Recovery.PhaseYes
      ensures events == old(events) + [DataUpdate]
      ensures out == old(out) + ValueFrame(cfg.link, cfg.addr(IconHide), 0)
        + RecoveryNameFrame(cfg.link, cfg.link.fh0, cfg.addr(TxtHomeFileName), 32)
        + PageFrame(cfg.link, cfg.page(PgPrintHome))
    {
      RecoveryShow();
      PowerLossRecoveryResume(j);
      ui := ui.(menuType := cfg.menu(MPrintHome));
      events := events + [DataUpdate];
      ChangePage(cfg.page(PgPrintHome));
    }

    /** The first half of `eBT_HOME_RECOVERY_YES`: the icon is hidden, printing starts and the saved name is shown. */
    method RecoveryShow()
      requires Valid()
      modifies ds, this`out, this`ui, this`job
      ensures ui == old(ui).(status := if cfg.U20() then PrinterPrinting else old(ui.status))
      ensures job == old(job).(returnHome := false, isPrinting := true)
      ensures out == old(out) + ValueFrame(cfg.link, cfg.addr(IconHide), 0)
        + RecoveryNameFrame(cfg.link, cfg.link.fh0, cfg.addr(TxtHomeFileName), 32)
    {
      SendValue(cfg.addr(IconHide), 0);
      job := job.(returnHome := false, isPrinting := true);
      if cfg.U20() {
        ui := ui.(status := PrinterPrinting);
      }
      SaveRecoveryFilename(cfg.link.cmdW, cfg.link.fh0, cfg.addr(TxtHomeFileName), 32);
    }

    /**
     * `eBT_HOME_RECOVERY_NO`: the interrupted job's minutes are credited to
     * the total, the recovery file is removed and the recovery offsets are
     * cleared.
     */
    method RecoveryNo(j: Recovery.Journal)
      requires Valid() && Ready(j)
      modifies ds, this`out, this`events, this`ui, this`job, j`stored
      ensures Ready(j) && j.stored == None
      ensures var total := Trunc32(old(job.totalPrintTime) + j.info.elapsed / 60);
        job == old(job).(totalPrintTime := total, returnHome := false, recoveryTime := 0, recoveryPercent := 0,
          recoveryZ := 0, recoveryE := 0)
        && events == old(events) + [SaveTotalTime(total), DisableZ]
      ensures ui == old(ui).(menuType := cfg.menu(MHome)) && out == old(out) + PageFrame(cfg.link, cfg.page(PgHome))
    {
      var total := Trunc32(job.totalPrintTime + j.info.elapsed / 60);
      events := events + [SaveTotalTime(total), DisableZ];
      j.stored := None;
      ChangePage(cfg.page(PgHome));
      job := job.(totalPrintTime := total, returnHome := false, recoveryTime := 0, recoveryPercent := 0,
        recoveryZ := 0, recoveryE := 0);
      ui := ui.(menuType := cfg.menu(MHome));
    }

    /** `eBT_PRINT_FILE_CLEAN`: any selection is dropped and its texts blanked; the file menu is current. */
    method FileClean()
      requires Valid()
      modifies ds, this`out, this`events, this`selFileId, this`ui
      ensures Valid() && selFileId == -1 && ui == old(ui).(menuType := cfg.menu(MFile))
      ensures old(selFileId) > -1 ==> (events == old(events) + [Dehighlight]
        && out == old(out) + ClearFrame(cfg.link, cfg.addr(TxtFileSelect)) + ClearFrame(cfg.link, cfg.addr(TxtHomeElapTime)))
      ensures old(selFileId) <= -1 ==> events == old(events) && out == old(out)
    {
      if selFileId > -1 {
        events := events + [Dehighlight];
        selFileId := -1;
        CleanData(cfg.addr(TxtFileSelect));
        CleanData(cfg.addr(TxtHomeElapTime));
      }
      ui := ui.(menuType := cfg.menu(MFile));
    }

    /**
     * `eBT_UTILI_LEVEL_CORNER_POS_n`: the first corner move homes (XY on
     * U20_Pro, every axis on U30_Pro) with the heaters off; then the nozzle
     * goes to the corner.
     */
    method Corner(n: nat)
      requires 1 <= n <= 5
      modifies this`events, this`enqueued, this`level
      ensures var homed := if cfg.U20() then old(level.xyHome) else old(level.xyzHome);
        var home := Ascii(if cfg.U20() then "G28 X0 Y0" else "G28");
        events == old(events) + (if homed then [] else [SetHotendTarget(0), SetBedTarget(0)])
        && enqueued == old(enqueued) + (if homed then [] else [home]) + CornerMoves(cfg.U20(), n)
      ensures level == if cfg.U20() then old(level).(xyHome := true) else old(level).(xyzHome := true)
    {
      if cfg.U20() {
        if !level.xyHome {
          events := events + [SetHotendTarget(0), SetBedTarget(0)];
          enqueued := enqueued + [Ascii("G28 X0 Y0")];
          level := level.(xyHome := true);
        }
      } else {
        if !level.xyzHome {
          events := events + [SetHotendTarget(0), SetBedTarget(0)];
          enqueued := enqueued + [Ascii("G28")];
          level := level.(xyzHome := true);
        }
      }
      enqueued := enqueued + CornerMoves(cfg.U20(), n);
    }

    /** `eBT_UTILI_LEVEL_CORNER_BACK`: a homed nozzle lifts 10 mm and the homed flag clears. */
    method CornerBack()
      modifies this`enqueued, this`level
      ensures var homed := if cfg.U20() then old(level.xyHome) else old(level.xyzHome);
        enqueued == old(enqueued) + (if homed then [Ascii("G1 Z10")] else [])
      ensures level == if cfg.U20() then old(level).(xyHome := false) else old(level).(xyzHome := false)
    {
      if cfg.U20() {
        if level.xyHome {
          level := level.(xyHome := false);
          enqueued := enqueued + [Ascii("G1 Z10")];
        }
      } else {
        if level.xyzHome {
          level := level.(xyzHome := false);
          enqueued := enqueued + [Ascii("G1 Z10")];
        }
      }
    }

    /** `eBT_UTILI_LEVEL_MEASU_START` (U20_Pro): step 1 of the measured levelling, from a zeroed offset. */
    method MeasuStart()
      requires Valid()
      modifies ds, this`out, this`events, this`enqueued, this`level
      ensures level == old(level).(levelZ := 0, measuStep := 1, measuDisChk := 1, xyHome := true)
      ensures out == old(out) + PageFrame(cfg.link, cfg.page(PgLevelWait)) + ValueFrame(cfg.link, cfg.addr(LevelZUpDown), 0)
      ensures events == old(events) + [SetHotendTarget(0), SetBedTarget(0)]
      ensures enqueued == old(enqueued) + [Ascii("G28 X0 Y0"), Ascii("G1 X180 Y153 F3000"), Ascii("M2002")]
    {
      ChangePage(cfg.page(PgLevelWait));
      SendValue(cfg.addr(LevelZUpDown), 0);
      level := level.(levelZ := 0, measuStep := 1, measuDisChk := 1, xyHome := true);
      events := events + [SetHotendTarget(0), SetBedTarget(0)];
      enqueued := enqueued + [Ascii("G28 X0 Y0"), Ascii("G1 X180 Y153 F3000"), Ascii("M2002")];
    }

    /** `eBT_UTILI_LEVEL_MEASU_STOP_MOVE` (U20_Pro): the offset is zeroed and the motion stopped. */
    method MeasuStopMove()
      requires Valid()
      modifies ds, this`out, this`events, this`enqueued, this`level
      ensures level == old(level).(levelZ := 0) && out == old(out) + ValueFrame(cfg.link, cfg.addr(LevelZUpDown), 0)
      ensures events == old(events) + [ClearQueue, QuickStop] && enqueued == old(enqueued) + [Ascii("M17")]
    {
      level := level.(levelZ := 0);
      SendValue(cfg.addr(LevelZUpDown), 0);
      events := events + [ClearQueue, QuickStop];
      enqueued := enqueued + [Ascii("M17")];
    }

    /** `eBT_TUNE_SWITCH_LEDS` (U20_Pro): the LEDs toggle; the switch shows 1 when they are off. */
    method SwitchLeds()
      requires Valid()
      modifies ds, this`out, this`events, this`ui
      ensures ui == old(ui).(ledOn := !old(ui.ledOn))
      ensures !ui.ledOn ==> (events == old(events) + [Led(LedBlue, 10, 0)]
        && out == old(out) + ValueFrame(cfg.link, cfg.addr(LedsSwitch), 1))
      ensures ui.ledOn ==> events == old(events) && out == old(out) + ValueFrame(cfg.link, cfg.addr(LedsSwitch), 0)
    {
      ui := ui.(ledOn := !ui.ledOn);
      if !ui.ledOn {
        events := events + [Led(LedBlue, 10, 0)];
        SendValue(cfg.addr(LedsSwitch), 1);
      } else {
        SendValue(cfg.addr(LedsSwitch), 0);
      }
    }

    // ----- session helpers outside the dispatcher -----

    /**
     * `LGT_Stop_Printing`: the job is stopped, heaters and fans off, and the
     * recovery record on the card is overwritten with both sentinels 0, so a
     * later check rejects it; the head then lifts and homes X.
     */
    method StopPrinting(j: Recovery.Journal)
      requires Valid() && Ready(j)
      modifies this`events, this`enqueued, this`mach, j`info, j`stored, j`count
      ensures Ready(j)
      ensures events == old(events) + [StopFilePrint, ClearQueue, QuickStop, TimerStop, DisableHeaters, FansOff]
      ensures mach == old(mach).(fan0 := 0, waitForHeatup := false)
      ensures j.info == old(j.info).(validHead := 0, validFoot := 0) && j.stored == Some(j.info) && j.count == 0
      ensures !Recovery.Accepted(j.stored.value)
      ensures enqueued == old(enqueued) + [Ascii("G91"), Ascii("G1 Z10"), Ascii("G28 X0"), Ascii("M2000")]
    {
      events := events + [StopFilePrint, ClearQueue, QuickStop, TimerStop, DisableHeaters, FansOff];
      mach := mach.(fan0 := 0, waitForHeatup := false);
      j.info := j.info.(validHead := 0, validFoot := 0);
      j.stored := Some(j.info);
      j.count := 0;
      enqueued := enqueued + [Ascii("G91"), Ascii("G1 Z10"), Ascii("G28 X0"), Ascii("M2000")];
    }

    /**
     * `LGT_Printer_Status_Light`: the LED shows the status's colour and
     * pattern; a status outside the enumeration becomes standby, with no
     * LED change.
     */
    method PrinterStatusLight()
      modifies this`events, this`ui
      ensures StatusLed(old(ui.status)).Some? ==> ui == old(ui) && events == old(events) + [StatusLed(old(ui.status)).value]
      ensures StatusLed(old(ui.status)).None? ==> ui == old(ui).(status := PrinterStandby) && events == old(events)
    {
      match StatusLed(ui.status)
      case Some(e) => events := events + [e];
      case None => ui := ui.(status := PrinterStandby);
    }

    /**
     * `LGT_Printer_Light_Update`: when not printing the status becomes heat
     * while the bed or hotend is below target and standby otherwise; while
     * printing it is kept. Then the LED shows it.
     */
    method PrinterLightUpdate(th: Thermal)
      modifies this`events, this`ui
      ensures ui == old(ui).(status := ui.status)
      ensures !job.isPrinting ==> ui.status == (if Heating(th, cfg.tempRange) then PrinterHeat else PrinterStandby)
      ensures job.isPrinting ==> ui.status == (if old(ui.status).PrinterOther? then PrinterStandby else old(ui.status))
      ensures events == old(events) + (if StatusLed(ui.status).Some? && !(job.isPrinting && old(ui.status).PrinterOther?)
        then [StatusLed(ui.status).value] else [])
    {
      if !job.isPrinting && (th.bed < th.bedTarget || th.hotend < cfg.tempRange + th.hotendTarget) {
        ui := ui.(status := PrinterHeat);
      } else if !job.isPrinting && (th.bed >= th.bedTarget || th.hotend > th.hotendTarget) {
        ui := ui.(status := PrinterStandby);
      }
      PrinterStatusLight();
    }

    /** One listed row of `LGT_Display_Filename`: the index is stored, its name sent, and `idle()` runs after the 10th and 20th. */
    method ListEntry(i: int, addr: int)
      requires Valid() && 0 <= i < |files| && gcodeNum < cfg.fileListNum
      modifies gcodeId, ds, this`gcodeNum, this`out, this`events
      ensures Valid() && gcodeNum == old(gcodeNum) + 1
      ensures gcodeId[..gcodeNum] == old(gcodeId[..gcodeNum]) + [i]
      ensures out == old(out) + Text31Frame(cfg.link, addr, files[i].longName)
      ensures events == old(events) + (if gcodeNum == 10 || gcodeNum == 20 then [IdleCall] else [])
    {
      gcodeId[gcodeNum] := i;
      gcodeNum := gcodeNum + 1;
      assert gcodeId[..gcodeNum] == old(gcodeId[..gcodeNum]) + [i];
      SendFilename(addr, i);
      if gcodeNum == 10 || gcodeNum == 20 {
        events := events + [IdleCall];
      }
    }

    /**
     * The listing loop's invariant at index i: entries above i have been
     * scanned, the files among them listed in scan order, their frames sent
     * at consecutive rows and the `idle()` calls made.
     */
    ghost predicate Scanned(i: int, varAddr: int, start: nat, out0: seq<byte>, ev0: seq<Event>)
      reads this, gcodeId
    {
      Valid() && selFileId == -1
      && Listed(cfg.link, files, gcodeId[..gcodeNum], i, varAddr, start, out, events, out0, ev0,
        cfg.addr(TxtFileItem0), cfg.lenFileName)
    }

    /** One pass of the listing loop: entry i is listed unless it is a directory. */
    method ScanOne(i: int, varAddr: int, ghost start: nat, ghost out0: seq<byte>, ghost ev0: seq<Event>)
      returns (next: int)
      requires Scanned(i, varAddr, start, out0, ev0) && i >= 0 && gcodeNum < cfg.fileListNum
      modifies gcodeId, ds, this`gcodeNum, this`out, this`events
      ensures Scanned(i - 1, next, start, out0, ev0)
      ensures gcodeNum == old(gcodeNum) + (if files[i].isDir then 0 else 1)
    {
      next := varAddr;
      if !files[i].isDir {
        next := ListStep(i, varAddr, start, out0, ev0);
      } else {
        ListedSkip(cfg.link, files, gcodeId[..gcodeNum], i, varAddr, start, out, events, out0, ev0,
          cfg.addr(TxtFileItem0), cfg.lenFileName);
      }
    }

    /** The listing loop on a file: its index and frame are appended and the row address advances. */
    method ListStep(i: int, varAddr: int, ghost start: nat, ghost out0: seq<byte>, ghost ev0: seq<Event>)
      returns (next: int)
      requires Scanned(i, varAddr, start, out0, ev0) && 0 <= i && !files[i].isDir && gcodeNum < cfg.fileListNum
      modifies gcodeId, ds, this`gcodeNum, this`out, this`events
      ensures Scanned(i - 1, next, start, out0, ev0) && gcodeNum == old(gcodeNum) + 1
    {
      ListedStep(cfg.link, files, gcodeId[..gcodeNum], i, varAddr, start, out, events, out0, ev0,
        cfg.addr(TxtFileItem0), cfg.lenFileName);
      ListEntry(i, varAddr);
      next := varAddr + cfg.lenFileName;
    }

    /**
     * `LGT_Display_Filename`: the card is scanned from the last entry down,
     * every file (not directory) is listed and its name sent to the next
     * row, `idle()` runs after the 10th and 20th, and the scan stops when
     * `FILE_LIST_NUM` files are listed. Row addresses are `uint16_t` and
     * wrap, as the frames' 16-bit address fields do.
     */
    method DisplayFilename()
      requires Valid() && selFileId == -1
      modifies gcodeId, ds, this`gcodeNum, this`out, this`events
      ensures Valid() && gcodeNum <= cfg.fileListNum
      ensures gcodeId[..gcodeNum] == Listing(files, cfg.fileListNum)
      ensures out == old(out) + ListFrames(cfg.link, files, gcodeId[..gcodeNum], cfg.addr(TxtFileItem0), cfg.lenFileName)
      ensures events == old(events) + ListIdles(gcodeNum)
    {
      gcodeNum := 0;
      var varAddr: int := cfg.addr(TxtFileItem0);
      var fileCnt := |files|;
      var i := Signed16((fileCnt - 1) % 65536);
      ghost var start := Rest(i);
      assert start == Visited(fileCnt);
      while i >= 0 && gcodeNum < cfg.fileListNum
        invariant Scanned(i, varAddr, start, old(out), old(events))
        decreases Rest(i)
      {
        varAddr := ScanOne(i, varAddr, start, old(out), old(events));
        i := i - 1;
      }
      ListedDone(cfg.link, files, gcodeId[..gcodeNum], i, varAddr, start, out, events, old(out), old(events),
        cfg.addr(TxtFileItem0), cfg.lenFileName, cfg.fileListNum);
    }
  }
}
