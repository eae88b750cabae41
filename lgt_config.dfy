/**
 * The build-time constants of the display engine and the symbolic names the
 * firmware's `switch` statements compare against: variable addresses
 * (`ADDR_*`), button codes (`eBT_*`), page ids (`ID_*`), menu codes
 * (`eMENU_*`), temperatures and axis limits. Their numeric values live in
 * headers that are not part of this model, so `Config` carries them and
 * `Config.Valid` states what the code relies on.
 */
module LgtConfig {
  import opened Bits
  import opened Wrappers
  import opened DwinFrames
  import Recovery

  /** `X_AXIS` .. `E_AXIS`. */
  datatype Axis = X | Y | Z | E

  /** The three jog distances: 10 mm, 1 mm and 0.1 mm. */
  datatype Step = Step0 | Step1 | Step2

  /** A jog distance in tenths of a millimetre. */
  function Tenths(s: Step): nat
  {
    match s
    case Step0 => 100
    case Step1 => 10
    case Step2 => 1
  }

  /** The value `menu_move_dis_chk` takes for a distance. */
  function StepClass(s: Step): nat
  {
    match s
    case Step0 => 0
    case Step1 => 1
    case Step2 => 2
  }

  /** Display variables (`ADDR_VAL_*`, `ADDR_TXT_*`). */
  datatype Var =
    | FileSelectVal | TarE | TarB | FilaChangeLen | FilaChangeTemp | AboutMacTime
    | ButtonKey | Fan | Feed | Flow | MenuType
    | TxtFileSelect | TxtHomeFileName | HomeProgress | ExtrudeTempVal | IconHide | LevelZUpDown
    | TxtAboutWorkTime | CurFeed | TxtFileItem0 | TxtHomeElapTime | LedsSwitch

  /** The addresses the dispatcher's outer `switch` has a case for. */
  predicate Inbound(v: Var)
  {
    v.FileSelectVal? || v.TarE? || v.TarB? || v.FilaChangeLen? || v.FilaChangeTemp? || v.AboutMacTime?
    || v.ButtonKey? || v.Fan? || v.Feed? || v.Flow? || v.MenuType?
  }

  /** The inbound cases, in the order of the `switch`. */
  const InboundCases: seq<Var> := [FileSelectVal, TarE, TarB, FilaChangeLen, FilaChangeTemp, AboutMacTime,
                                   ButtonKey, Fan, Feed, Flow, MenuType]

  /** The position of an inbound case in that order. */
  function CaseIndex(v: Var): (i: nat)
    requires Inbound(v)
    ensures i < |InboundCases| && InboundCases[i] == v
  {
    match v
    case FileSelectVal => 0
    case TarE => 1
    case TarB => 2
    case FilaChangeLen => 3
    case FilaChangeTemp => 4
    case AboutMacTime => 5
    case ButtonKey => 6
    case Fan => 7
    case Feed => 8
    case Flow => 9
    case MenuType => 10
  }

  /** Button codes (`eBT_*`). */
  datatype Key =
    | Jog(axis: Axis, plus: bool, step: Step)
    | XYHome | ZHome | MoveNoTempRet | FilaNoTempRet
    | FileOpen | FileOpenYes | MoveDisable | MoveEnable
    | Pause | Resume | Abort | Finish
    | FilaPla | FilaAbs | FilaLoad | FilaUnload
    | FilaHeatNo | FilaUnloadOk | FilaLoadOk | FilaChangeYes
    | RecoveryYes | RecoveryNo | FileClean
    | CornerPos(n: nat) | CornerBack
    | MeasuStart | MeasuDis0 | MeasuDis1 | MeasuS1Next | MeasuS2Next
    | MeasuS1ExitNo | MeasuS2ExitNo | MeasuExitOk | MeasuS3ExitNo | MeasuStopMove
    | MoveP(step: Step)
    | SwitchLeds

  /** The cases that exist only in the U20_Pro build. */
  predicate U20Only(k: Key)
  {
    k.MeasuStart? || k.MeasuDis0? || k.MeasuDis1? || k.MeasuS1Next? || k.MeasuS2Next?
    || k.MeasuS1ExitNo? || k.MeasuS2ExitNo? || k.MeasuExitOk? || k.MeasuS3ExitNo?
    || k.MeasuStopMove? || k.SwitchLeds?
  }

  /** Display pages (`ID_MENU_*`, `ID_DIALOG_*`). */
  datatype Page =
    | PgHome | PgPrintHome | PgPrintWait | PgPrintTuneWait | PgMoveNoTemp | PgMove0 | PgMove1
    | PgUtiliFila0 | PgHomeFila0 | PgPrintStart0 | PgPrintStart1 | PgUtiliFilaWait
    | PgPrintFilaWait | PgLoadFinish | PgLevelWait | PgMeasuS1 | PgMeasuS2 | PgMeasuS3

  /** Menu contexts (`eMENU_*`). */
  datatype Menu = MIdle | MHome | MMove | MUtiliFila | MHomeFila | MPrintHome | MTune | MFile

  datatype Config = Config(
    link: Link,
    dataSize: nat,
    fileListNum: nat,
    lenFileName: nat,
    addr: Var -> u16,
    keys: map<u16, Key>,
    page: Page -> int,
    menu: Menu -> int,
    plaE: int,
    absE: int,
    plaB: int,
    absB: int,
    tempRange: int,
    minPos: Axis -> int,
    maxPos: Axis -> int,
    rec: Recovery.Setup)
  {
    /** `U20_Pro` rather than `U30_Pro`. */
    predicate U20()
    {
      rec.u20
    }

    /**
     * What the code relies on: the receive buffer holds the longest frame,
     * corner keys name corners 1 to 5, and the U20-only cases exist only in
     * that build.
     */
    predicate Valid()
    {
      37 <= dataSize && 0 < fileListNum < 0x8000 && rec.Ok()
      && (forall c :: c in keys && keys[c].CornerPos? ==> 1 <= keys[c].n <= 5)
      && (forall c :: c in keys && U20Only(keys[c]) ==> rec.u20)
    }

    /** The case labels of the address switch are distinct, as a C `switch` demands of its labels. */
    predicate Distinct()
    {
      forall i, j :: 0 <= i < j < |InboundCases| ==> addr(InboundCases[i]) != addr(InboundCases[j])
    }
  }

  /** The outer `switch (Rec_Data.addr)` of the dispatcher: which case a received address selects. */
  function Classify(cfg: Config, a: u16): (r: Option<Var>)
    ensures r.Some? ==> Inbound(r.value) && cfg.addr(r.value) == a
  {
    if a == cfg.addr(FileSelectVal) then Some(FileSelectVal)
    else if a == cfg.addr(TarE) then Some(TarE)
    else if a == cfg.addr(TarB) then Some(TarB)
    else if a == cfg.addr(FilaChangeLen) then Some(FilaChangeLen)
    else if a == cfg.addr(FilaChangeTemp) then Some(FilaChangeTemp)
    else if a == cfg.addr(AboutMacTime) then Some(AboutMacTime)
    else if a == cfg.addr(ButtonKey) then Some(ButtonKey)
    else if a == cfg.addr(Fan) then Some(Fan)
    else if a == cfg.addr(Feed) then Some(Feed)
    else if a == cfg.addr(Flow) then Some(Flow)
    else if a == cfg.addr(MenuType) then Some(MenuType)
    else None
  }

  /** With distinct case labels, an address selects exactly the case whose label it is, and no other. */
  lemma ClassifyIff(cfg: Config, a: u16, v: Var)
    requires cfg.Distinct() && Inbound(v)
    ensures Classify(cfg, a) == Some(v) <==> cfg.addr(v) == a
  {
    if cfg.addr(v) == a {
      var r := Classify(cfg, a);
      assert r.Some? by {
        match v
        case FileSelectVal => case TarE => case TarB => case FilaChangeLen =>
        case FilaChangeTemp => case AboutMacTime => case ButtonKey => case Fan =>
        case Feed => case Flow => case MenuType =>
      }
      var iu, iv := CaseIndex(r.value), CaseIndex(v);
      assert cfg.addr(InboundCases[iu]) == cfg.addr(InboundCases[iv]);
      if iu < iv {
        assert false;
      } else if iv < iu {
        assert false;
      }
    }
  }

  /** `LGT_Get_Extrude_Temp`: 5 degrees below the filament's printing temperature. */
  function ExtrudeTemp(cfg: Config, filaType: int): int
  {
    if filaType == 0 then cfg.plaE - 5 else cfg.absE - 5
  }
}
