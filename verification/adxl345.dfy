/** The ADXL345 driver's register shadow and its single-transfer
    operations (src/ADXL345.cpp). Every setter converts its argument to a
    register code, issues exactly one register write, and assigns its own
    shadow field only when the write returned; a failed write throws, so
    the shadow is left as it was. Getters of shadowed registers are the
    field selectors of Shadow and never touch the bus. */
module Adxl345 {
  import opened Integers
  import opened Transport
  import opened Adxl345Registers

  /** One burst of raw axis data, with the scale code in force when it was
      read (the source multiplies each axis by that scale factor). */
  datatype Reading = Reading(raw: Axes, scale: ScaleCode)

  /** The driver object's fields. The constructor never assigns
      _threshold_tap, _active_inactive_ctrl, _fifo_ctrl or the sample
      values, so those start as None. The free-fall and inactivity-time
      fields are uint8_t, the thresholds, latency, window and tap duration
      uint16_t. */
  datatype Shadow = Shadow(
    id: uint8,
    offsetX: int8, offsetY: int8, offsetZ: int8,
    thresholdTap: Option<uint16>,
    tapDuration: uint16, tapLatency: uint16, tapWindow: uint16,
    activeThreshold: uint16, inactiveThreshold: uint16,
    timeInactive: uint8,
    activeInactiveCtrl: Option<uint8>,
    axesTapCtrl: uint8,
    freeFallThreshold: uint8, freeFallTime: uint8,
    dataRatePowerCtrl: uint8, powerCtrl: uint8,
    interruptEnableCtrl: uint8, interruptMapPinCtrl: uint8,
    dataFormat: uint8,
    fifoCtrl: Option<uint8>,
    scale: ScaleCode,
    sample: Option<Reading>)

  /** The scale factor agrees with the data-format shadow. */
  predicate ScaleConsistent(s: Shadow)
  {
    s.scale == ScaleFor(s.dataFormat)
  }

  /** The constructor: datasheet defaults, no bus traffic. */
  function New(): (s: Shadow)
    ensures s.id == DEFAULT_ADDRESS
    ensures ScaleConsistent(s) && ScaleMicroG(s.scale) == 3900
    ensures s.dataRatePowerCtrl == 0x0A && s.dataFormat == 0 && s.powerCtrl == 0
    ensures s.offsetX == 0 && s.offsetY == 0 && s.offsetZ == 0
    ensures s.thresholdTap.None? && s.activeInactiveCtrl.None? && s.fifoCtrl.None? && s.sample.None?
  {
    Shadow(
      DEFAULT_ADDRESS,
      0, 0, 0,
      None,
      0, 0, 0,
      0, 0,
      0,
      None,
      0,
      0, 0,
      0x0A, 0,
      0, 0,
      0,
      None,
      0,
      None)
  }

  /** `r` is the outcome of one write of `code` to `reg` at the shadow's
      address: it completes exactly when the write is acknowledged, and on
      failure the shadow is unchanged. */
  predicate SingleWrite(s: Shadow, l: Link, r: Step<Shadow, ()>, reg: uint8, code: uint8)
  {
    && r.link == Write(l, s.id, reg, code)
    && (r.Done? <==> Accepts(l))
    && (r.Abort? ==> r.state == s)
    && Conducted(l, r.link, r.Done?, s.id)
  }

  /** The code the shadow says register `reg` holds: a shadowed value
      re-encoded the way its setter encodes it, or the byte itself. The
      free-fall threshold and time have no getter (and their uint8_t
      shadows cannot hold the milli-g or millisecond value), so, like the
      status and data registers, they have no image; neither has a tap
      duration of 159 ms, which is both the exact 159 ms (code 254) and
      the clamp of anything longer (code 0xFF). */
  function RegisterImage(s: Shadow, reg: uint8): Option<uint8>
  {
    if reg == THRESH_TAP then
      if s.thresholdTap.Some? then Some(ThresholdEncoding(s.thresholdTap.value).code) else None
    else if reg == OFSX then Some(ToUint8(s.offsetX))
    else if reg == OFSY then Some(ToUint8(s.offsetY))
    else if reg == OFSZ then Some(ToUint8(s.offsetZ))
    else if reg == DUR then
      if s.tapDuration < 159 then Some(TapDurationEncoding(s.tapDuration as uint8).code) else None
    else if reg == LATENT then Some(TapTimingEncoding(s.tapLatency).code)
    else if reg == WINDOW then Some(TapTimingEncoding(s.tapWindow).code)
    else if reg == THRESH_ACT then Some(ThresholdEncoding(s.activeThreshold).code)
    else if reg == THRESH_INACT then Some(ThresholdEncoding(s.inactiveThreshold).code)
    else if reg == TIME_INACT then Some(s.timeInactive)
    else if reg == ACT_INACT_CTL then s.activeInactiveCtrl
    else if reg == TAP_AXES then Some(s.axesTapCtrl)
    else if reg == BW_RATE then Some(s.dataRatePowerCtrl)
    else if reg == POWER_CTL then Some(s.powerCtrl)
    else if reg == INT_ENABLE then Some(s.interruptEnableCtrl)
    else if reg == INT_MAP then Some(s.interruptMapPinCtrl)
    else if reg == DATA_FORMAT then Some(s.dataFormat)
    else if reg == FIFO_CTL then s.fifoCtrl
    else None
  }

  /** The shadow agrees with the device: every register with an image
      that the driver has written (acknowledged) at its address holds the
      image. Registers never written keep their power-on values, which the
      constructor's defaults stand for. */
  predicate Mirrors(s: Shadow, trace: seq<Event>)
  {
    Agrees(trace, s.id, reg => RegisterImage(s, reg))
  }

  /** Before any transfer every shadow is a mirror. */
  lemma MirrorsAtStart(s: Shadow)
    ensures Mirrors(s, [])
  {
    forall reg: uint8
      ensures LastWritten([], s.id, reg) == None
    {
    }
  }

  /** One register that was written with something other than its image
      is enough to break the mirror. */
  lemma MirrorBroken(s: Shadow, trace: seq<Event>, reg: uint8)
    requires RegisterImage(s, reg).Some? && LastWritten(trace, s.id, reg).Some?
    requires RegisterImage(s, reg) != LastWritten(trace, s.id, reg)
    ensures !Mirrors(s, trace)
  {
    var image := (r: uint8) => RegisterImage(s, r);
    assert image(reg) == RegisterImage(s, reg);
  }

  /** One more transfer keeps the shadow a mirror when the new shadow's
      image changes only in the register an acknowledged write set, and
      there to the value written or to none. */
  lemma AppendKeepsMirror(s: Shadow, trace: seq<Event>, e: Event, u: Shadow)
    requires u.id == s.id
    requires e.Wrote? && e.ok && e.dev == s.id && RegisterImage(u, e.reg).Some? ==> RegisterImage(u, e.reg) == Some(e.value)
    requires forall reg: uint8 | !(e.Wrote? && e.ok && e.dev == s.id && e.reg == reg) ::
               RegisterImage(u, reg) == RegisterImage(s, reg)
    ensures Mirrors(s, trace) ==> Mirrors(u, trace + [e])
  {
    AgreesAppend(trace, s.id, e, reg => RegisterImage(s, reg), reg => RegisterImage(u, reg));
  }

  /** A setter's write keeps the mirror when its shadow update changes
      only the image of the register written, to the code written or to
      none. */
  lemma WriteKeepsMirror(s: Shadow, l: Link, reg: uint8, code: uint8, u: Shadow)
    requires u.id == s.id && (RegisterImage(u, reg).Some? ==> RegisterImage(u, reg) == Some(code))
    requires forall other: uint8 | other != reg :: RegisterImage(u, other) == RegisterImage(s, other)
    ensures var r := WriteStep(s, l, s.id, reg, code, u);
      Mirrors(s, l.trace) ==> Mirrors(r.state, r.link.trace)
  {
    WriteKeepsAgreement(s, l, s.id, reg, code, u, reg => RegisterImage(s, reg), reg => RegisterImage(u, reg));
  }

  function SetThresholdTap(s: Shadow, l: Link, milliGs: uint16): (r: Step<Shadow, ()>)
    ensures SingleWrite(s, l, r, THRESH_TAP, ThresholdEncoding(milliGs).code)
    ensures r.Done? ==> r.state == s.(thresholdTap := Some(if milliGs <= 15937 then milliGs else 16000))
    ensures Mirrors(s, l.trace) ==> Mirrors(r.state, r.link.trace)
  {
    var e := ThresholdEncoding(milliGs);
    var u := s.(thresholdTap := Some(e.stored));
    WriteKeepsMirror(s, l, THRESH_TAP, e.code, u);
    WriteStep(s, l, s.id, THRESH_TAP, e.code, u)
  }

  function SetOffsetX(s: Shadow, l: Link, value: int8): (r: Step<Shadow, ()>)
    ensures SingleWrite(s, l, r, OFSX, ToUint8(value))
    ensures r.Done? ==> r.state == s.(offsetX := value)
    ensures Mirrors(s, l.trace) ==> Mirrors(r.state, r.link.trace)
  {
    var u := s.(offsetX := value);
    WriteKeepsMirror(s, l, OFSX, ToUint8(value), u);
    WriteStep(s, l, s.id, OFSX, ToUint8(value), u)
  }

  function SetOffsetY(s: Shadow, l: Link, value: int8): (r: Step<Shadow, ()>)
    ensures SingleWrite(s, l, r, OFSY, ToUint8(value))
    ensures r.Done? ==> r.state == s.(offsetY := value)
    ensures Mirrors(s, l.trace) ==> Mirrors(r.state, r.link.trace)
  {
    var u := s.(offsetY := value);
    WriteKeepsMirror(s, l, OFSY, ToUint8(value), u);
    WriteStep(s, l, s.id, OFSY, ToUint8(value), u)
  }

  function SetOffsetZ(s: Shadow, l: Link, value: int8): (r: Step<Shadow, ()>)
    ensures SingleWrite(s, l, r, OFSZ, ToUint8(value))
    ensures r.Done? ==> r.state == s.(offsetZ := value)
    ensures Mirrors(s, l.trace) ==> Mirrors(r.state, r.link.trace)
  {
    var u := s.(offsetZ := value);
    WriteKeepsMirror(s, l, OFSZ, ToUint8(value), u);
    WriteStep(s, l, s.id, OFSZ, ToUint8(value), u)
  }

  function SetTapDuration(s: Shadow, l: Link, milliseconds: uint8): (r: Step<Shadow, ()>)
    ensures SingleWrite(s, l, r, DUR, TapDurationEncoding(milliseconds).code)
    ensures r.Done? ==> r.state == s.(tapDuration := if milliseconds <= 159 then milliseconds else 159)
    ensures Mirrors(s, l.trace) ==> Mirrors(r.state, r.link.trace)
  {
    var e := TapDurationEncoding(milliseconds);
    var u := s.(tapDuration := e.stored);
    WriteKeepsMirror(s, l, DUR, e.code, u);
    WriteStep(s, l, s.id, DUR, e.code, u)
  }

  function SetTapLatency(s: Shadow, l: Link, milliseconds: uint16): (r: Step<Shadow, ()>)
    ensures SingleWrite(s, l, r, LATENT, TapTimingEncoding(milliseconds).code)
    ensures r.Done? ==> r.state == s.(tapLatency := if milliseconds <= 318 then milliseconds else 319)
    ensures Mirrors(s, l.trace) ==> Mirrors(r.state, r.link.trace)
  {
    var e := TapTimingEncoding(milliseconds);
    var u := s.(tapLatency := e.stored);
    WriteKeepsMirror(s, l, LATENT, e.code, u);
    WriteStep(s, l, s.id, LATENT, e.code, u)
  }

  function SetTapWindow(s: Shadow, l: Link, milliseconds: uint16): (r: Step<Shadow, ()>)
    ensures SingleWrite(s, l, r, WINDOW, TapTimingEncoding(milliseconds).code)
    ensures r.Done? ==> r.state == s.(tapWindow := if milliseconds <= 318 then milliseconds else 319)
    ensures Mirrors(s, l.trace) ==> Mirrors(r.state, r.link.trace)
  {
    var e := TapTimingEncoding(milliseconds);
    var u := s.(tapWindow := e.stored);
    WriteKeepsMirror(s, l, WINDOW, e.code, u);
    WriteStep(s, l, s.id, WINDOW, e.code, u)
  }

  function SetActiveThreshold(s: Shadow, l: Link, milliGs: uint16): (r: Step<Shadow, ()>)
    ensures SingleWrite(s, l, r, THRESH_ACT, ThresholdEncoding(milliGs).code)
    ensures r.Done? ==> r.state == s.(activeThreshold := if milliGs <= 15937 then milliGs else 16000)
    ensures Mirrors(s, l.trace) ==> Mirrors(r.state, r.link.trace)
  {
    var e := ThresholdEncoding(milliGs);
    var u := s.(activeThreshold := e.stored);
    WriteKeepsMirror(s, l, THRESH_ACT, e.code, u);
    WriteStep(s, l, s.id, THRESH_ACT, e.code, u)
  }

  function SetInactiveThreshold(s: Shadow, l: Link, milliGs: uint16): (r: Step<Shadow, ()>)
    ensures SingleWrite(s, l, r, THRESH_INACT, ThresholdEncoding(milliGs).code)
    ensures r.Done? ==> r.state == s.(inactiveThreshold := if milliGs <= 15937 then milliGs else 16000)
    ensures Mirrors(s, l.trace) ==> Mirrors(r.state, r.link.trace)
  {
    var e := ThresholdEncoding(milliGs);
    var u := s.(inactiveThreshold := e.stored);
    WriteKeepsMirror(s, l, THRESH_INACT, e.code, u);
    WriteStep(s, l, s.id, THRESH_INACT, e.code, u)
  }

  function SetTimeInactive(s: Shadow, l: Link, seconds: uint8): (r: Step<Shadow, ()>)
    ensures SingleWrite(s, l, r, TIME_INACT, seconds)
    ensures r.Done? ==> r.state == s.(timeInactive := seconds)
    ensures Mirrors(s, l.trace) ==> Mirrors(r.state, r.link.trace)
  {
    var u := s.(timeInactive := seconds);
    WriteKeepsMirror(s, l, TIME_INACT, seconds, u);
    WriteStep(s, l, s.id, TIME_INACT, seconds, u)
  }

  /** As written, this writes the inactivity-time register 0x26, not the
      activity/inactivity axis control 0x27 whose shadow it updates. */
  function SetActiveInactiveCtrl(s: Shadow, l: Link, value: uint8): (r: Step<Shadow, ()>)
    ensures SingleWrite(s, l, r, TIME_INACT, value)
    ensures r.Done? ==> r.state == s.(activeInactiveCtrl := Some(value))
  {
    WriteStep(s, l, s.id, TIME_INACT, value, s.(activeInactiveCtrl := Some(value)))
  }

  /** The free-fall threshold shadow is a uint8_t, so it keeps the stored
      milli-g value modulo 256. */
  function SetFreeFallThreshold(s: Shadow, l: Link, milliGs: uint16): (r: Step<Shadow, ()>)
    ensures SingleWrite(s, l, r, THRESH_FF, ThresholdEncoding(milliGs).code)
    ensures r.Done? ==> r.state == s.(freeFallThreshold := (if milliGs <= 15937 then milliGs else 16000) % 0x100)
  {
    var e := ThresholdEncoding(milliGs);
    WriteStep(s, l, s.id, THRESH_FF, e.code, s.(freeFallThreshold := ToUint8(e.stored)))
  }

  /** The free-fall time shadow is a uint8_t as well. */
  function SetFreeFallTime(s: Shadow, l: Link, milliseconds: uint16): (r: Step<Shadow, ()>)
    ensures SingleWrite(s, l, r, TIME_FF, FreeFallTimeEncoding(milliseconds).code)
    ensures r.Done? ==> r.state == s.(freeFallTime := (if milliseconds <= 1275 then milliseconds else 1275) % 0x100)
  {
    var e := FreeFallTimeEncoding(milliseconds);
    WriteStep(s, l, s.id, TIME_FF, e.code, s.(freeFallTime := ToUint8(e.stored)))
  }

  /** As written, this writes the activity/inactivity axis control 0x27,
      not the tap axes register 0x2A. */
  function SetAxesTapCtrl(s: Shadow, l: Link, value: uint8): (r: Step<Shadow, ()>)
    ensures SingleWrite(s, l, r, ACT_INACT_CTL, value)
    ensures r.Done? ==> r.state == s.(axesTapCtrl := value)
  {
    WriteStep(s, l, s.id, ACT_INACT_CTL, value, s.(axesTapCtrl := value))
  }

  /** set_active_inactive_ctrl as evidently intended: the byte goes to
      the activity/inactivity axis control 0x27, whose shadow it updates. */
  function SetActiveInactiveCtrlIntended(s: Shadow, l: Link, value: uint8): (r: Step<Shadow, ()>)
    ensures SingleWrite(s, l, r, ACT_INACT_CTL, value)
    ensures r.Done? ==> r.state == s.(activeInactiveCtrl := Some(value))
    ensures Mirrors(s, l.trace) ==> Mirrors(r.state, r.link.trace)
  {
    var u := s.(activeInactiveCtrl := Some(value));
    WriteKeepsMirror(s, l, ACT_INACT_CTL, value, u);
    WriteStep(s, l, s.id, ACT_INACT_CTL, value, u)
  }

  /** set_axes_tap_ctrl as evidently intended: the byte goes to the tap
      axes register 0x2A. */
  function SetAxesTapCtrlIntended(s: Shadow, l: Link, value: uint8): (r: Step<Shadow, ()>)
    ensures SingleWrite(s, l, r, TAP_AXES, value)
    ensures r.Done? ==> r.state == s.(axesTapCtrl := value)
    ensures Mirrors(s, l.trace) ==> Mirrors(r.state, r.link.trace)
  {
    var u := s.(axesTapCtrl := value);
    WriteKeepsMirror(s, l, TAP_AXES, value, u);
    WriteStep(s, l, s.id, TAP_AXES, value, u)
  }

  /** set_active_inactive_ctrl as written, whenever it succeeds with a
      value other than the shadowed inactivity time: the register 0x27
      it claims to set keeps whatever it held, 0x26 takes the value, and
      the shadow stops mirroring the device (get_time_inactive is stale). */
  lemma ActiveInactiveCtrlMisdirected(s: Shadow, l: Link, value: uint8)
    requires Accepts(l) && s.timeInactive != value
    ensures var r := SetActiveInactiveCtrl(s, l, value);
      && r.Done?
      && r.state.activeInactiveCtrl == Some(value)
      && LastWritten(r.link.trace, s.id, ACT_INACT_CTL) == LastWritten(l.trace, s.id, ACT_INACT_CTL)
      && LastWritten(r.link.trace, s.id, TIME_INACT) == Some(value)
      && !Mirrors(r.state, r.link.trace)
  {
    var r := SetActiveInactiveCtrl(s, l, value);
    var e := Wrote(s.id, TIME_INACT, value, true);
    LastWrittenAppend(l.trace, e, s.id, ACT_INACT_CTL);
    LastWrittenAppend(l.trace, e, s.id, TIME_INACT);
    MirrorBroken(r.state, r.link.trace, TIME_INACT);
  }

  /** set_axes_tap_ctrl as written, whenever it succeeds once the
      activity/inactivity control has been set to something else: the tap
      axes register 0x2A keeps whatever it held, 0x27 is overwritten, and
      get_active_inactive_ctrl becomes stale. */
  lemma AxesTapCtrlMisdirected(s: Shadow, l: Link, value: uint8)
    requires Accepts(l) && s.activeInactiveCtrl.Some? && s.activeInactiveCtrl != Some(value)
    ensures var r := SetAxesTapCtrl(s, l, value);
      && r.Done?
      && r.state.axesTapCtrl == value
      && LastWritten(r.link.trace, s.id, TAP_AXES) == LastWritten(l.trace, s.id, TAP_AXES)
      && LastWritten(r.link.trace, s.id, ACT_INACT_CTL) == Some(value)
      && !Mirrors(r.state, r.link.trace)
  {
    var r := SetAxesTapCtrl(s, l, value);
    var e := Wrote(s.id, ACT_INACT_CTL, value, true);
    LastWrittenAppend(l.trace, e, s.id, TAP_AXES);
    LastWrittenAppend(l.trace, e, s.id, ACT_INACT_CTL);
    MirrorBroken(r.state, r.link.trace, ACT_INACT_CTL);
  }

  /** Both mix-ups are reachable from a freshly constructed driver whose
      first writes are acknowledged. */
  lemma MisdirectedFromStart()
    ensures Mirrors(New(), [])
    ensures New().timeInactive != 0x70
    ensures var first := SetActiveInactiveCtrlIntended(New(), Link([true, true], [], []), 0x70);
      first.Done? && Accepts(first.link) && first.state.activeInactiveCtrl == Some(0x70)
  {
    MirrorsAtStart(New());
  }

  function SetDataRatePowerCtrl(s: Shadow, l: Link, value: uint8): (r: Step<Shadow, ()>)
    ensures SingleWrite(s, l, r, BW_RATE, value)
    ensures r.Done? ==> r.state == s.(dataRatePowerCtrl := value)
    ensures Mirrors(s, l.trace) ==> Mirrors(r.state, r.link.trace)
  {
    var u := s.(dataRatePowerCtrl := value);
    WriteKeepsMirror(s, l, BW_RATE, value, u);
    WriteStep(s, l, s.id, BW_RATE, value, u)
  }

  function SetPowerCtrl(s: Shadow, l: Link, value: uint8): (r: Step<Shadow, ()>)
    ensures SingleWrite(s, l, r, POWER_CTL, value)
    ensures r.Done? ==> r.state == s.(powerCtrl := value)
    ensures Mirrors(s, l.trace) ==> Mirrors(r.state, r.link.trace)
  {
    var u := s.(powerCtrl := value);
    WriteKeepsMirror(s, l, POWER_CTL, value, u);
    WriteStep(s, l, s.id, POWER_CTL, value, u)
  }

  function SetInterruptEnableCtrl(s: Shadow, l: Link, value: uint8): (r: Step<Shadow, ()>)
    ensures SingleWrite(s, l, r, INT_ENABLE, value)
    ensures r.Done? ==> r.state == s.(interruptEnableCtrl := value)
    ensures Mirrors(s, l.trace) ==> Mirrors(r.state, r.link.trace)
  {
    var u := s.(interruptEnableCtrl := value);
    WriteKeepsMirror(s, l, INT_ENABLE, value, u);
    WriteStep(s, l, s.id, INT_ENABLE, value, u)
  }

  function SetInterruptMapPinCtrl(s: Shadow, l: Link, value: uint8): (r: Step<Shadow, ()>)
    ensures SingleWrite(s, l, r, INT_MAP, value)
    ensures r.Done? ==> r.state == s.(interruptMapPinCtrl := value)
    ensures Mirrors(s, l.trace) ==> Mirrors(r.state, r.link.trace)
  {
    var u := s.(interruptMapPinCtrl := value);
    WriteKeepsMirror(s, l, INT_MAP, value, u);
    WriteStep(s, l, s.id, INT_MAP, value, u)
  }

  function SetFifoCtrl(s: Shadow, l: Link, value: uint8): (r: Step<Shadow, ()>)
    ensures SingleWrite(s, l, r, FIFO_CTL, value)
    ensures r.Done? ==> r.state == s.(fifoCtrl := Some(value))
    ensures Mirrors(s, l.trace) ==> Mirrors(r.state, r.link.trace)
  {
    var u := s.(fifoCtrl := Some(value));
    WriteKeepsMirror(s, l, FIFO_CTL, value, u);
    WriteStep(s, l, s.id, FIFO_CTL, value, u)
  }

  /** set_data_format: the shadow takes the value and the scale factor is
      recomputed from it. The recomputation follows the write, so a failed
      (throwing) write leaves the scale alone too. */
  function SetDataFormat(s: Shadow, l: Link, value: uint8): (r: Step<Shadow, ()>)
    ensures SingleWrite(s, l, r, DATA_FORMAT, value)
    ensures r.Done? ==> r.state == s.(dataFormat := value, scale := r.state.scale)
    ensures r.Done? ==> ScaleConsistent(r.state)
    ensures Mirrors(s, l.trace) ==> Mirrors(r.state, r.link.trace)
  {
    var u := s.(dataFormat := value, scale := ScaleFor(value));
    WriteKeepsMirror(s, l, DATA_FORMAT, value, u);
    WriteStep(s, l, s.id, DATA_FORMAT, value, u)
  }

  /** Three little-endian two's-complement values from six bytes. */
  function AxesFromBytes(bytes: seq<uint8>): (a: Axes)
    requires |bytes| == 6
    ensures -0x8000 <= a.x < 0x8000 && -0x8000 <= a.y < 0x8000 && -0x8000 <= a.z < 0x8000
  {
    Axes(Int16FromBytes(bytes[0], bytes[1]),
         Int16FromBytes(bytes[2], bytes[3]),
         Int16FromBytes(bytes[4], bytes[5]))
  }

  /** The six bytes a device holding these axis values returns. */
  function AxesToBytes(x: int16, y: int16, z: int16): (bytes: seq<uint8>)
    ensures |bytes| == 6
  {
    [LowByte(x), HighByte(x), LowByte(y), HighByte(y), LowByte(z), HighByte(z)]
  }

  lemma AxesBytesRoundTrip(x: int16, y: int16, z: int16, bytes: seq<uint8>)
    requires |bytes| == 6
    ensures AxesFromBytes(AxesToBytes(x, y, z)) == Axes(x, y, z)
    ensures AxesToBytes(AxesFromBytes(bytes).x, AxesFromBytes(bytes).y, AxesFromBytes(bytes).z) == bytes
  {
    BytesRoundTrip(x);
    BytesRoundTrip(y);
    BytesRoundTrip(z);
    ValueRoundTrip(bytes[0], bytes[1]);
    ValueRoundTrip(bytes[2], bytes[3]);
    ValueRoundTrip(bytes[4], bytes[5]);
  }

  /** A burst of six bytes from DATAX0 returns the output registers in
      address order: byte i is the register at DATAX0 + i, so the layout
      AxesToBytes assumes is the register map's. */
  lemma AxisRegistersContiguous(x: int16, y: int16, z: int16)
    ensures forall i | 0 <= i < 6 ::
              OutputRegister(x, y, z, (DATAX0 as int + i) as uint8) == Some(AxesToBytes(x, y, z)[i])
  {
  }

  /** get_raw_data: one six-byte burst from DATAX0; only the sample
      changes, and only when the read returned. */
  function GetRawData(s: Shadow, l: Link): (r: Step<Shadow, ()>)
    ensures r.link == Read(l, s.id, DATAX0, 6)
    ensures r.Done? <==> Delivers(l, 6)
    ensures r.Done? ==> r.state == s.(sample := Some(Reading(AxesFromBytes(l.replies[0]), s.scale)))
    ensures r.Abort? ==> r.state == s
    ensures Conducted(l, r.link, r.Done?, s.id)
    ensures Mirrors(s, l.trace) ==> Mirrors(r.state, r.link.trace)
  {
    var read := ReadStep(s, l, s.id, DATAX0, 6);
    var e := Fetched(s.id, DATAX0, 6, read.Done?);
    if read.Abort? then
      AppendKeepsMirror(s, l.trace, e, s);
      Abort(s, read.link)
    else
      var u := s.(sample := Some(Reading(AxesFromBytes(read.value), s.scale)));
      AppendKeepsMirror(s, l.trace, e, u);
      Done(u, read.link, ())
  }

  /** A single-byte status read (get_tap_source, get_interrupt_source,
      get_fifo_status): the value comes from the bus, the shadow never
      changes. */
  function ReadStatus(s: Shadow, l: Link, reg: uint8): (r: Step<Shadow, uint8>)
    ensures r.link == Read(l, s.id, reg, 1)
    ensures r.Done? <==> Delivers(l, 1)
    ensures r.Done? ==> r.value == l.replies[0][0]
    ensures r.state == s
    ensures Conducted(l, r.link, r.Done?, s.id)
    ensures Mirrors(s, l.trace) ==> Mirrors(r.state, r.link.trace)
  {
    var read := ReadStep(s, l, s.id, reg, 1);
    AppendKeepsMirror(s, l.trace, Fetched(s.id, reg, 1, read.Done?), s);
    if read.Abort? then Abort(s, read.link) else Done(s, read.link, read.value[0])
  }

  function GetTapSource(s: Shadow, l: Link): (r: Step<Shadow, uint8>)
    ensures r.link == Read(l, s.id, ACT_TAP_STATUS, 1)
    ensures r.Done? <==> Delivers(l, 1)
    ensures r.Done? ==> r.value == l.replies[0][0]
    ensures r.state == s
    ensures Conducted(l, r.link, r.Done?, s.id)
    ensures Mirrors(s, l.trace) ==> Mirrors(r.state, r.link.trace)
  {
    ReadStatus(s, l, ACT_TAP_STATUS)
  }

  function GetInterruptSource(s: Shadow, l: Link): (r: Step<Shadow, uint8>)
    ensures r.link == Read(l, s.id, INT_SOURCE, 1)
    ensures r.Done? <==> Delivers(l, 1)
    ensures r.Done? ==> r.value == l.replies[0][0]
    ensures r.state == s
    ensures Conducted(l, r.link, r.Done?, s.id)
    ensures Mirrors(s, l.trace) ==> Mirrors(r.state, r.link.trace)
  {
    ReadStatus(s, l, INT_SOURCE)
  }

  function GetFifoStatus(s: Shadow, l: Link): (r: Step<Shadow, uint8>)
    ensures r.link == Read(l, s.id, FIFO_STATUS, 1)
    ensures r.Done? <==> Delivers(l, 1)
    ensures r.Done? ==> r.value == l.replies[0][0]
    ensures r.state == s
    ensures Conducted(l, r.link, r.Done?, s.id)
    ensures Mirrors(s, l.trace) ==> Mirrors(r.state, r.link.trace)
  {
    ReadStatus(s, l, FIFO_STATUS)
  }
}
