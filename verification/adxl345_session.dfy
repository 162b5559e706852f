/** A caller's use of an ADXL345 object: any sequence of its public
    operations, cut short by the first exception. The register mix-ups of
    set_active_inactive_ctrl and set_axes_tap_ctrl and the Z trim of
    offset_calibration run as written in the AsWritten build and corrected
    in the Corrected one; only the two setters affect the mirror. */
module Adxl345Session {
  import opened Integers
  import opened Transport
  import opened Adxl345Registers
  import opened Adxl345
  import opened Adxl345Procedures

  /** The driver's public operations that touch the bus. */
  datatype Command =
    | ThresholdTap(milliGs: uint16)
    | OffsetX(offset: int8)
    | OffsetY(offset: int8)
    | OffsetZ(offset: int8)
    | TapDuration(durationMs: uint8)
    | TapLatency(ms: uint16)
    | TapWindow(ms: uint16)
    | ActiveThreshold(milliGs: uint16)
    | InactiveThreshold(milliGs: uint16)
    | TimeInactive(seconds: uint8)
    | ActiveInactiveCtrl(value: uint8)
    | FreeFallThreshold(milliGs: uint16)
    | FreeFallTime(ms: uint16)
    | AxesTapCtrl(value: uint8)
    | DataRatePowerCtrl(value: uint8)
    | PowerCtrl(value: uint8)
    | InterruptEnableCtrl(value: uint8)
    | InterruptMapPinCtrl(value: uint8)
    | FifoCtrl(value: uint8)
    | DataFormat(value: uint8)
    | RawData
    | TapSource
    | InterruptSource
    | FifoStatus
    | Calibrate
    | CheckSelf

  /** The free-fall writes have no image, so they keep the mirror. */
  lemma FreeFallKeepsMirror(s: Shadow, l: Link, cmd: Command)
    requires cmd.FreeFallThreshold? || cmd.FreeFallTime?
    ensures var r := if cmd.FreeFallThreshold? then SetFreeFallThreshold(s, l, cmd.milliGs)
                     else SetFreeFallTime(s, l, cmd.ms);
      Mirrors(s, l.trace) ==> Mirrors(r.state, r.link.trace)
  {
    if cmd.FreeFallThreshold? {
      var e := ThresholdEncoding(cmd.milliGs);
      var u := s.(freeFallThreshold := ToUint8(e.stored));
      AppendKeepsMirror(s, l.trace, Wrote(s.id, THRESH_FF, e.code, Accepts(l)), if Accepts(l) then u else s);
    } else {
      var e := FreeFallTimeEncoding(cmd.ms);
      var u := s.(freeFallTime := ToUint8(e.stored));
      AppendKeepsMirror(s, l.trace, Wrote(s.id, TIME_FF, e.code, Accepts(l)), if Accepts(l) then u else s);
    }
  }

  /** The operations whose setter, as written, writes a register other
      than the one its shadow describes. */
  predicate Misdirected(cmd: Command)
  {
    cmd.ActiveInactiveCtrl? || cmd.AxesTapCtrl?
  }

  /** One operation. In either build each keeps the address, keeps the
      scale factor in step with the data format and issues its transfers
      to the object's address; each keeps the shadow a mirror of the
      device unless it is a misdirected setter as written. */
  function Apply(s: Shadow, l: Link, cmd: Command, build: Build): (r: Step<Shadow, ()>)
    ensures Conducted(l, r.link, r.Done?, s.id)
    ensures r.state.id == s.id
    ensures ScaleConsistent(s) ==> ScaleConsistent(r.state)
    ensures (build.Corrected? || !Misdirected(cmd)) && Mirrors(s, l.trace) ==> Mirrors(r.state, r.link.trace)
  {
    match cmd
    case ThresholdTap(milliGs) => SetThresholdTap(s, l, milliGs)
    case OffsetX(offset) => SetOffsetX(s, l, offset)
    case OffsetY(offset) => SetOffsetY(s, l, offset)
    case OffsetZ(offset) => SetOffsetZ(s, l, offset)
    case TapDuration(durationMs) => SetTapDuration(s, l, durationMs)
    case TapLatency(ms) => SetTapLatency(s, l, ms)
    case TapWindow(ms) => SetTapWindow(s, l, ms)
    case ActiveThreshold(milliGs) => SetActiveThreshold(s, l, milliGs)
    case InactiveThreshold(milliGs) => SetInactiveThreshold(s, l, milliGs)
    case TimeInactive(seconds) => SetTimeInactive(s, l, seconds)
    case ActiveInactiveCtrl(value) =>
      if build.Corrected? then SetActiveInactiveCtrlIntended(s, l, value) else SetActiveInactiveCtrl(s, l, value)
    case FreeFallThreshold(milliGs) =>
      FreeFallKeepsMirror(s, l, cmd);
      SetFreeFallThreshold(s, l, milliGs)
    case FreeFallTime(ms) =>
      FreeFallKeepsMirror(s, l, cmd);
      SetFreeFallTime(s, l, ms)
    case AxesTapCtrl(value) =>
      if build.Corrected? then SetAxesTapCtrlIntended(s, l, value) else SetAxesTapCtrl(s, l, value)
    case DataRatePowerCtrl(value) => SetDataRatePowerCtrl(s, l, value)
    case PowerCtrl(value) => SetPowerCtrl(s, l, value)
    case InterruptEnableCtrl(value) => SetInterruptEnableCtrl(s, l, value)
    case InterruptMapPinCtrl(value) => SetInterruptMapPinCtrl(s, l, value)
    case FifoCtrl(value) => SetFifoCtrl(s, l, value)
    case DataFormat(value) => SetDataFormat(s, l, value)
    case RawData => GetRawData(s, l)
    case TapSource => Discard(GetTapSource(s, l))
    case InterruptSource => Discard(GetInterruptSource(s, l))
    case FifoStatus => Discard(GetFifoStatus(s, l))
    case Calibrate => Discard(OffsetCalibration(s, l, if build.Corrected? then PlusOneG else MinusOneG))
    case CheckSelf => Discard(SelfTest(s, l))
  }

  /** The same outcome without its value. */
  function Discard<T>(r: Step<Shadow, T>): (d: Step<Shadow, ()>)
    ensures d.Done? == r.Done? && d.state == r.state && d.link == r.link
  {
    if r.Done? then Done(r.state, r.link, ()) else Abort(r.state, r.link)
  }

  /** A sequence of operations, stopping at the first that throws. */
  function Run(s: Shadow, l: Link, cmds: seq<Command>, build: Build): (r: Step<Shadow, ()>)
    decreases |cmds|
    ensures Conducted(l, r.link, r.Done?, s.id)
    ensures r.state.id == s.id
    ensures ScaleConsistent(s) ==> ScaleConsistent(r.state)
    ensures (build.Corrected? || forall i | 0 <= i < |cmds| :: !Misdirected(cmds[i])) && Mirrors(s, l.trace) ==>
              Mirrors(r.state, r.link.trace)
  {
    if |cmds| == 0 then
      assert l.trace[|l.trace|..] == [];
      Done(s, l, ())
    else
      var first := Apply(s, l, cmds[0], build);
      if first.Abort? then first
      else
        var rest := Run(first.state, first.link, cmds[1..], build);
        ConductedChain(l, first.link, rest.link, rest.Done?, s.id);
        assert forall i | 0 <= i < |cmds| - 1 :: cmds[1..][i] == cmds[i + 1];
        rest
  }

  /** From construction, whatever the caller does and however the bus
      answers, as written or corrected: the object talks only to 0x53 and
      its scale factor matches its data format. Every register it has
      written holds what its getters report when the build is corrected
      or the misdirected setters were not called. */
  lemma SessionFromConstruction(l: Link, cmds: seq<Command>, build: Build)
    requires l.trace == []
    ensures var r := Run(New(), l, cmds, build);
      && r.state.id == DEFAULT_ADDRESS
      && ScaleConsistent(r.state)
      && (forall i | 0 <= i < |r.link.trace| :: r.link.trace[i].dev == DEFAULT_ADDRESS)
      && ((build.Corrected? || forall i | 0 <= i < |cmds| :: !Misdirected(cmds[i])) ==> Mirrors(r.state, r.link.trace))
  {
    var r := Run(New(), l, cmds, build);
    MirrorsAtStart(New());
    ConductedAddresses(l, r.link, r.Done?, DEFAULT_ADDRESS);
  }
}
