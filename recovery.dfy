/**
 * The power-loss recovery journal: the record the firmware keeps on the SD
 * card while printing, the test that decides whether a record left on the
 * card is trustworthy, and the list of G-code commands it synthesises to
 * resume the job.
 *
 * A record is trusted when its two sentinel bytes agree and are non-zero.
 * Every save bumps the head sentinel (skipping 0) and copies it to the foot;
 * aborting a print writes both as 0.
 */
module Recovery {
  import opened Bits
  import opened Wrappers
  import NumberText

  /** The contents of a NUL-terminated C string, without the terminator. */
  type Text = seq<byte>

  predicate NoNul(t: Text)
  {
    forall i :: 0 <= i < |t| ==> t[i] != 0
  }

  /**
   * Build options: `U20_Pro` (otherwise `U30_Pro`), `BUFSIZE`,
   * `APPEND_CMD_COUNT`, `FAN_COUNT`, `HOTENDS`, and the `dtostrf(x, 1, 3, s)`
   * text of a length given in tenths of a millimetre.
   */
  datatype Setup = Setup(u20: bool, bufSize: nat, appendCount: nat, fanCount: nat, hotends: nat, floatText: int -> Text)
  {
    /**
     * The command table holds the fixed commands plus a whole queue, and its
     * `uint8_t` index (`ind`) cannot wrap; the `uint8_t` fan loop of the
     * resume code terminates.
     */
    predicate Ok()
    {
      0 < bufSize && Fixed(u20) <= appendCount && bufSize + appendCount <= 255 && 1 <= hotends && fanCount <= 255
    }
  }

  /** The number of synthesised commands that are not taken from the saved queue. */
  function Fixed(u20: bool): nat
  {
    if u20 then 7 else 4
  }

  /** `job_recovery_info_t`. Lengths are in tenths of a millimetre. */
  datatype Info = Info(
    validHead: byte,
    saveZ: int,
    saveE: int,
    feedrate: int,
    percentDone: byte,
    targets: seq<i16>,
    bedTarget: i16,
    fans: seq<i16>,
    activeHotend: byte,
    queueR: byte,
    queueCount: byte,
    queue: seq<Text>,
    elapsed: u32,
    filename: Text,
    sdpos: u32,
    validFoot: byte)

  /** The record after `memset(&job_recovery_info, 0, ...)`. */
  function Zero(st: Setup): (r: Info)
    requires st.Ok()
    ensures WellFormed(st, r) && !Accepted(r)
  {
    Info(0, 0, 0, 0, 0, seq(st.hotends, _ => 0), 0, seq(st.fanCount, _ => 0), 0,
         0, 0, seq(st.bufSize, _ => []), 0, [], 0, 0)
  }

  /**
   * The shape every record the firmware writes has: a full command queue with
   * its read index and count in range, one target per hotend and one speed
   * per fan, and C strings, so that `strcpy` copies each queued command
   * whole. The resume code indexes the queue without checking this.
   */
  predicate WellFormed(st: Setup, r: Info)
  {
    |r.queue| == st.bufSize && r.queueR < st.bufSize && r.queueCount <= st.bufSize
    && |r.targets| == st.hotends && |r.fans| == st.fanCount && NoNul(r.filename)
    && forall e | e in r.queue :: NoNul(e)
  }

  /** The sentinel test of `check_print_job_recovery`. */
  predicate Accepted(r: Info)
  {
    r.validHead != 0 && r.validHead == r.validFoot
  }

  // ----- the resume command list -----

  /** The saved queue from the read index on, `c` entries, the index wrapping at the queue end. */
  function QueueTail(q: seq<Text>, r: nat, c: nat): seq<Text>
    requires r < |q|
  {
    seq(c, k => q[(r + k) % |q|])
  }

  /** A leading '/' of the file name becomes a space; nothing else changes. */
  function FixSlash(name: Text): (f: Text)
    ensures |f| == |name|
    ensures name != [] ==> f[0] == (if name[0] == Ch('/') then Ch(' ') else name[0])
    ensures name != [] ==> f[1..] == name[1..]
    ensures NoNul(name) ==> NoNul(f)
  {
    if name != [] && name[0] == Ch('/') then name[0 := Ch(' ')] else name
  }

  /** `%i` or `%ld` of a 32-bit value. */
  function Decimal(n: int): Text
    requires -0x8000_0000 <= n < 0x8000_0000
  {
    NumberText.LongText(n, 10)
  }

  function G28R(): Text { Ascii("G28 R0 X0 Y0") }

  function G92(st: Setup, r: Info): Text
  {
    Ascii("G92 Z") + st.floatText(r.saveZ) + Ascii(" E") + st.floatText(r.saveE)
  }

  function M23(r: Info): Text
  {
    Ascii("M23 ") + FixSlash(r.filename)
  }

  function M24(r: Info): Text
  {
    Ascii("M24 S") + Decimal(Signed32(r.sdpos))
  }

  /** The commands before the saved queue: the U20 re-homing preamble, the position reset and an X/Y home. */
  function Preamble(st: Setup, r: Info): (p: seq<Text>)
    ensures |p| == Fixed(st.u20) - 2
  {
    (if st.u20 then [G28R(), Ascii("M420 S0"), Ascii("M2007 E4")] else []) + [G92(st, r), G28R()]
  }

  /** The synthesised `job_recovery_commands` of an accepted record. */
  function ResumeList(st: Setup, r: Info): (l: seq<Text>)
    requires WellFormed(st, r)
    ensures |l| == Fixed(st.u20) + r.queueCount
    ensures l[..Fixed(st.u20) - 2] == Preamble(st, r)
    ensures l[Fixed(st.u20) - 2..|l| - 2] == QueueTail(r.queue, r.queueR, r.queueCount)
    ensures l[|l| - 2] == M23(r) && l[|l| - 1] == M24(r)
  {
    var l := Preamble(st, r) + QueueTail(r.queue, r.queueR, r.queueCount) + [M23(r), M24(r)];
    assert l[..Fixed(st.u20) - 2] == Preamble(st, r);
    assert l[Fixed(st.u20) - 2..|l| - 2] == QueueTail(r.queue, r.queueR, r.queueCount);
    l
  }

  /** The command table holds `l` at its start and empty strings after it. */
  predicate Holds(table: seq<Text>, l: seq<Text>)
  {
    |l| <= |table| && table[..|l|] == l && forall i :: |l| <= i < |table| ==> table[i] == []
  }

  // ----- saving -----

  /** The live machine state a save copies. */
  datatype Live = Live(
    z: int,
    e: int,
    feedrate: int,
    percentDone: byte,
    targets: seq<i16>,
    bedTarget: i16,
    fans: seq<i16>,
    queueR: byte,
    queueCount: byte,
    queue: seq<Text>,
    duration: u32,
    filename: Text,
    sdpos: u32)

  predicate LiveOk(st: Setup, s: Live)
  {
    |s.queue| == st.bufSize && s.queueR < st.bufSize && s.queueCount <= st.bufSize
    && |s.targets| == st.hotends && |s.fans| == st.fanCount && NoNul(s.filename)
    && forall e | e in s.queue :: NoNul(e)
  }

  function Abs(x: int): nat
  {
    if x < 0 then -x else x
  }

  /**
   * The save gate: Z is above 0 and the shifted Z differs from the saved one
   * by at least 0.1 mm (one tenth). No timer takes part.
   */
  predicate SaveDue(z: int, recoveryZ: int, savedZ: int)
  {
    z > 0 && Abs(z + recoveryZ - savedZ) >= 1
  }

  /**
   * The record after a save: both sentinels the bumped head, every captured
   * field from the live state, the elapsed time `recovery_time + duration`
   * as a 32-bit sum. The active hotend is not captured and keeps its value.
   */
  function Captured(r: Info, s: Live, recoveryZ: int, recoveryTime: u32): (c: Info)
    ensures Accepted(c) && c.validHead == IncSkipZero(r.validHead)
    ensures c.saveZ == s.z + recoveryZ && c.queueR == s.queueR && c.queueCount == s.queueCount
    ensures c.queue == s.queue && c.elapsed == (recoveryTime + s.duration) % 0x1_0000_0000
  {
    IncSkipZeroValues(r.validHead);
    var h := IncSkipZero(r.validHead);
    Info(h, s.z + recoveryZ, s.e, s.feedrate, s.percentDone, s.targets, s.bedTarget, s.fans,
         r.activeHotend, s.queueR, s.queueCount, s.queue, Trunc32(recoveryTime + s.duration),
         s.filename, s.sdpos, h)
  }

  datatype Phase = PhaseIdle | PhaseMaybe | PhaseYes | PhaseDone

  /** The alert raised for a record whose sentinels disagree. */
  function InvalidData(): Text { Ascii("INVALID DATA") }

  /** The journal state of `power_loss_recovery.cpp`. */
  class Journal {
    const setup: Setup
    /** `job_recovery_commands`, `BUFSIZE + APPEND_CMD_COUNT` entries. */
    const commands: array<Text>
    /** `job_recovery_info`. */
    var info: Info
    /** The recovery file on the card, if there is one. */
    var stored: Option<Info>
    /** `job_recovery_commands_count`. */
    var count: byte
    /** `job_recovery_phase`. */
    var phase: Phase
    /** `check_recovery`, read by the display code. */
    var checkRecovery: bool
    /** `feedrate_mm_s`, restored from an accepted record. */
    var feedrate: int
    /** Alert messages shown on the display. */
    var alerts: seq<Text>

    ghost predicate Valid()
      reads this`info, this`stored
    {
      setup.Ok() && commands.Length == setup.bufSize + setup.appendCount
      && WellFormed(setup, info) && (stored.Some? ==> WellFormed(setup, stored.value))
    }

    constructor (st: Setup, card: Option<Info>, feedrate0: int)
      requires st.Ok() && (card.Some? ==> WellFormed(st, card.value))
      ensures Valid() && setup == st && stored == card && info == Zero(st)
      ensures count == 0 && phase == PhaseIdle && !checkRecovery && feedrate == feedrate0 && alerts == []
      ensures fresh(commands) && forall i :: 0 <= i < commands.Length ==> commands[i] == []
    {
      setup := st;
      commands := new Text[st.bufSize + st.appendCount](_ => []);
      info := Zero(st);
      stored := card;
      count := 0;
      phase := PhaseIdle;
      checkRecovery := false;
      feedrate := feedrate0;
      alerts := [];
    }

    /** The record `check_print_job_recovery` loads: none without a working card or a recovery file. */
    function Loaded(cardOK: bool): Option<Info>
      reads this`stored
    {
      if cardOK then stored else None
    }

    /**
     * `check_print_job_recovery`. An accepted record sets `check_recovery`,
     * restores the feed rate and fills the command table with the resume
     * list; the in-memory record keeps the loaded one with its file name
     * fixed. Any other outcome leaves the table empty and the record zero,
     * and raises "INVALID DATA" exactly when a record was loaded whose
     * sentinels differ. The command count is only set on acceptance.
     */
    method CheckPrintJobRecovery(cardOK: bool)
      requires Valid()
      modifies commands, this`info, this`count, this`checkRecovery, this`feedrate, this`alerts
      ensures Valid() && stored == old(stored)
      ensures var rec := Loaded(cardOK);
        if rec.Some? && Accepted(rec.value) then
          Holds(commands[..], ResumeList(setup, rec.value)) && count == |ResumeList(setup, rec.value)|
          && info == rec.value.(filename := FixSlash(rec.value.filename))
          && checkRecovery && feedrate == rec.value.feedrate && alerts == old(alerts)
        else
          Holds(commands[..], []) && count == old(count) && info == Zero(setup)
          && checkRecovery == old(checkRecovery) && feedrate == old(feedrate)
          && alerts == old(alerts) + (if rec.Some? && rec.value.validHead != rec.value.validFoot then [InvalidData()] else [])
    {
      forall i | 0 <= i < commands.Length {
        commands[i] := [];
      }
      info := Zero(setup);
      if cardOK && stored.Some? {
        info := stored.value;
        if info.validHead != 0 && info.validHead == info.validFoot {
          checkRecovery := true;
          feedrate := info.feedrate;
          FillResumeList();
        } else {
          if info.validHead != info.validFoot {
            alerts := alerts + [InvalidData()];
          }
          info := Zero(setup);
        }
      }
    }

    /** The accepted branch: the table is filled with `ind++` and the file name fixed on the way. */
    method FillResumeList()
      requires Valid() && Holds(commands[..], [])
      modifies commands, this`info, this`count
      ensures Valid()
      ensures Holds(commands[..], ResumeList(setup, old(info))) && count == |ResumeList(setup, old(info))|
      ensures info == old(info).(filename := FixSlash(old(info).filename))
    {
      ghost var rec := info;
      var ind := WritePreamble();
      ind := CopyQueueTail(commands, ind, info.queue, info.queueR, info.queueCount);
      ghost var body := commands[..ind];
      ind := WriteStart(ind);
      count := ind;
      assert body + [M23(rec), M24(rec)] == ResumeList(setup, rec);
    }

    /**
     * After the queue tail: a leading '/' of the file name becomes a space,
     * then the file is reopened with `M23` and restarted at the saved
     * position with `M24`.
     */
    method WriteStart(ind: nat) returns (next: nat)
      requires Valid() && ind + 2 <= commands.Length && Holds(commands[..], commands[..ind])
      modifies commands, this`info
      ensures Valid()
      ensures next == ind + 2
      ensures info == old(info).(filename := FixSlash(old(info).filename))
      ensures Holds(commands[..], old(commands[..ind]) + [M23(old(info)), M24(old(info))])
    {
      if info.filename != [] && info.filename[0] == Ch('/') {
        info := info.(filename := info.filename[0 := Ch(' ')]);
      }
      next := Put(commands, ind, Ascii("M23 ") + info.filename);
      next := Put(commands, next, Ascii("M24 S") + Decimal(Signed32(info.sdpos)));
    }

    /** The commands before the queue tail, written from index 0. */
    method WritePreamble() returns (ind: nat)
      requires Valid() && Holds(commands[..], [])
      modifies commands
      ensures ind == Fixed(setup.u20) - 2 && Holds(commands[..], Preamble(setup, info))
    {
      ind := 0;
      if setup.u20 {
        commands[0] := G28R();
        commands[1] := Ascii("M420 S0");
        commands[2] := Ascii("M2007 E4");
        ind := 3;
      }
      commands[ind] := G92(setup, info);
      commands[ind + 1] := G28R();
      ind := ind + 2;
      assert commands[..ind] == Preamble(setup, info);
    }

    /**
     * `save_job_recovery_info`. When the gate holds the record becomes the
     * captured one and is written to the card; otherwise nothing changes.
     */
    method SaveJobRecoveryInfo(s: Live, recoveryZ: int, recoveryTime: u32)
      requires Valid() && LiveOk(setup, s)
      modifies this`info, this`stored
      ensures Valid()
      ensures SaveDue(s.z, recoveryZ, old(info.saveZ)) ==>
        info == Captured(old(info), s, recoveryZ, recoveryTime) && stored == Some(info)
      ensures !SaveDue(s.z, recoveryZ, old(info.saveZ)) ==> info == old(info) && stored == old(stored)
    {
      if s.z > 0 && Abs(s.z + recoveryZ - info.saveZ) >= 1 {
        var h := IncSkipZero(info.validHead);
        info := info.(validHead := h);
        info := info.(validFoot := info.validHead);
        info := info.(saveZ := s.z + recoveryZ, saveE := s.e, feedrate := s.feedrate, percentDone := s.percentDone);
        info := info.(targets := s.targets, bedTarget := s.bedTarget, fans := s.fans);
        info := info.(queueR := s.queueR, queueCount := s.queueCount, queue := s.queue);
        info := info.(elapsed := Trunc32(recoveryTime + s.duration));
        info := info.(filename := s.filename, sdpos := s.sdpos);
        stored := Some(info);
      }
    }
  }

  /**
   * The `while (c--)` loop of `check_print_job_recovery`: the saved queue
   * tail is copied into the table from index ind on, the read index
   * advancing with `(r + 1) % BUFSIZE`.
   */
  method CopyQueueTail(table: array<Text>, ind: nat, q: seq<Text>, r0: nat, count: nat) returns (next: nat)
    requires r0 < |q| && count <= |q| && ind + count <= table.Length
    requires Holds(table[..], table[..ind])
    modifies table
    ensures next == ind + count
    ensures Holds(table[..], old(table[..ind]) + QueueTail(q, r0, count))
  {
    ghost var pre := table[..ind];
    var n := |q|;
    var r, c := r0, count;
    ghost var k: nat := 0;
    next := ind;
    while c > 0
      invariant k + c == count && next == ind + k
      invariant r == (r0 + k) % n
      invariant Holds(table[..], pre + QueueTail(q, r0, k))
    {
      ghost var before := table[..];
      table[next] := q[r];
      assert table[..] == before[next := q[r]];
      CopyStep(before, pre, q, r0, k, r);
      next := next + 1;
      r := (r + 1) % n;
      c := c - 1;
      k := k + 1;
    }
  }

  /** Writes one command after the ones the table holds. */
  method Put(table: array<Text>, ind: nat, x: Text) returns (next: nat)
    requires ind < table.Length && Holds(table[..], table[..ind])
    modifies table
    ensures next == ind + 1
    ensures Holds(table[..], old(table[..ind]) + [x])
  {
    HoldsSnoc(table[..], table[..ind], x);
    table[ind] := x;
    next := ind + 1;
  }

  // ----- lemmas -----

  /** Writing the next free slot of the table extends what it holds by that entry. */
  lemma HoldsSnoc(table: seq<Text>, l: seq<Text>, x: Text)
    requires Holds(table, l) && |l| < |table|
    ensures Holds(table[|l| := x], l + [x])
  {
    assert table[|l| := x][..|l| + 1] == l + [x];
  }

  /** One turn of the copy loop: the entry at the read index extends the table's contents. */
  lemma CopyStep(table: seq<Text>, pre: seq<Text>, q: seq<Text>, r0: nat, k: nat, r: nat)
    requires r0 < |q| && r == (r0 + k) % |q|
    requires Holds(table, pre + QueueTail(q, r0, k)) && |pre| + k < |table|
    ensures Holds(table[|pre| + k := q[r]], pre + QueueTail(q, r0, k + 1))
    ensures (r + 1) % |q| == (r0 + k + 1) % |q|
  {
    HoldsSnoc(table, pre + QueueTail(q, r0, k), q[r]);
    QueueTailSnoc(q, r0, k);
    assert pre + QueueTail(q, r0, k) + [q[r]] == pre + QueueTail(q, r0, k + 1);
    NextIndex(r0, k, |q|);
  }

  lemma QueueTailSnoc(q: seq<Text>, r: nat, c: nat)
    requires r < |q|
    ensures QueueTail(q, r, c + 1) == QueueTail(q, r, c) + [q[(r + c) % |q|]]
  {
  }

  /** Advancing the read index with `(r + 1) % BUFSIZE` keeps it `(r0 + k) % BUFSIZE`. */
  lemma NextIndex(r0: nat, k: nat, n: nat)
    requires n > 0
    ensures ((r0 + k) % n + 1) % n == (r0 + k + 1) % n
  {
    var x := r0 + k;
    DivModUnique(x + 1, n, x / n + (x % n + 1) / n, (x % n + 1) % n);
  }

  /**
   * The replayed tail is the saved queue rotated to start at the read index,
   * cut to the saved count: the commands still waiting when power was lost,
   * oldest first.
   */
  lemma {:induction false} QueueTailRotation(q: seq<Text>, r: nat, c: nat)
    requires r < |q| && c <= |q|
    ensures QueueTail(q, r, c) == (q[r..] + q[..r])[..c]
  {
    var rot := q[r..] + q[..r];
    forall k | 0 <= k < c
      ensures QueueTail(q, r, c)[k] == rot[k]
    {
      if r + k < |q| {
        DivModUnique(r + k, |q|, 0, r + k);
      } else {
        DivModUnique(r + k, |q|, 1, r + k - |q|);
      }
    }
  }

  /** The resume list ends by reopening the file and restarting at the saved position, which reads back from its text. */
  lemma ResumePosition(st: Setup, r: Info)
    requires WellFormed(st, r)
    ensures var l := ResumeList(st, r);
      l[|l| - 1][..5] == Ascii("M24 S") && NumberText.ParseSigned(l[|l| - 1][5..]) == Signed32(r.sdpos)
  {
    var l := ResumeList(st, r);
    assert l[|l| - 1][5..] == Decimal(Signed32(r.sdpos));
    NumberText.DecimalRoundTrip(Signed32(r.sdpos));
  }

  /** A record written by a save passes the sentinel test, so a later check resumes from it. */
  lemma SaveThenCheck(st: Setup, r: Info, s: Live, recoveryZ: int, recoveryTime: u32)
    requires WellFormed(st, r) && LiveOk(st, s)
    ensures var c := Captured(r, s, recoveryZ, recoveryTime);
      WellFormed(st, c) && Accepted(c)
      && |ResumeList(st, c)| == Fixed(st.u20) + s.queueCount
      && ResumeList(st, c)[Fixed(st.u20) - 2..|ResumeList(st, c)| - 2] == QueueTail(s.queue, s.queueR, s.queueCount)
  {
  }
}
