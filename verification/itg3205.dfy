/** The ITG-3205 gyroscope driver (src/ITG_3205.cpp). Unlike the other two
    drivers its bus address is a shadow field that set_id can change, and
    every transfer goes to the address in force when it is issued. The
    constructor itself writes three registers, so it can throw. */
module Itg3205 {
  import opened Integers
  import opened Transport

  const DEFAULT_ADDRESS: uint8 := 0x68

  const WHO_AM_I: uint8 := 0x00
  const SMPLRT_DIV: uint8 := 0x15
  const DLPF_FS: uint8 := 0x16
  const INT_CFG: uint8 := 0x17
  const INT_STATUS: uint8 := 0x1A
  const TEMP_OUT_H: uint8 := 0x1B
  const PWR_MGM: uint8 := 0x3E

  /** FS_SEL_1 + FS_SEL_0: the +/-2000 deg/s full scale, bits 4..3. */
  const FS_SEL: uint8 := 0x10 + 0x08

  /** One eight-byte burst: the temperature in whole degrees Celsius and
      the raw angular rates (the source divides them by 14.375). */
  datatype GyroReading = GyroReading(temperature: int, rate: Axes)

  /** The driver object's fields; those the constructor does not assign
      are None until their setter succeeds. */
  datatype Gyro = Gyro(
    id: uint8,
    divider: Option<uint8>,
    dlpf: Option<uint8>,
    interruptConfig: Option<uint8>,
    power: Option<uint8>,
    reading: Option<GyroReading>)

  /** `r` is the outcome of one write of `code` to `reg` at the address in
      the shadow when it was issued. */
  predicate SingleWrite(g: Gyro, l: Link, r: Step<Gyro, ()>, reg: uint8, code: uint8)
  {
    && r.link == Write(l, g.id, reg, code)
    && (r.Done? <==> Accepts(l))
    && (r.Abort? ==> r.state == g)
    && Conducted(l, r.link, r.Done?, g.id)
  }

  /** The code the shadow says register `reg` holds: the divider, power
      and interrupt configuration bytes themselves, the filter
      configuration as DlpfCode writes it; None for registers the driver
      has no shadow of, or has not set. */
  function RegisterImage(g: Gyro, reg: uint8): Option<uint8>
  {
    if reg == SMPLRT_DIV then g.divider
    else if reg == DLPF_FS then (if g.dlpf.Some? then Some(DlpfCode(g.dlpf.value)) else None)
    else if reg == INT_CFG then g.interruptConfig
    else if reg == PWR_MGM then g.power
    else None
  }

  /** The shadow agrees with the device at its current address. */
  predicate Mirrors(g: Gyro, trace: seq<Event>)
  {
    Agrees(trace, g.id, reg => RegisterImage(g, reg))
  }

  /** A shadow that has set nothing mirrors any device. */
  lemma BlankMirrors(id: uint8, trace: seq<Event>)
    ensures Mirrors(Gyro(id, None, None, None, None, None), trace)
  {
  }

  /** A setter's write keeps the mirror when its shadow update changes
      only the image of the register written, to the code written. */
  lemma WriteKeepsMirror(g: Gyro, l: Link, reg: uint8, code: uint8, u: Gyro)
    requires u.id == g.id && RegisterImage(u, reg) == Some(code)
    requires forall other: uint8 | other != reg :: RegisterImage(u, other) == RegisterImage(g, other)
    ensures var r := WriteStep(g, l, g.id, reg, code, u);
      Mirrors(g, l.trace) ==> Mirrors(r.state, r.link.trace)
  {
    WriteKeepsAgreement(g, l, g.id, reg, code, u, reg => RegisterImage(g, reg), reg => RegisterImage(u, reg));
  }

  /** set_id: the new address is written to WHO_AM_I at the old one. */
  function SetId(g: Gyro, l: Link, id: uint8): (r: Step<Gyro, ()>)
    ensures SingleWrite(g, l, r, WHO_AM_I, id)
    ensures r.Done? ==> r.state == g.(id := id)
  {
    WriteStep(g, l, g.id, WHO_AM_I, id, g.(id := id))
  }

  function SetSampleRateDivider(g: Gyro, l: Link, rate: uint8): (r: Step<Gyro, ()>)
    ensures SingleWrite(g, l, r, SMPLRT_DIV, rate)
    ensures r.Done? ==> r.state == g.(divider := Some(rate))
    ensures Mirrors(g, l.trace) ==> Mirrors(r.state, r.link.trace)
  {
    var u := g.(divider := Some(rate));
    WriteKeepsMirror(g, l, SMPLRT_DIV, rate, u);
    WriteStep(g, l, g.id, SMPLRT_DIV, rate, u)
  }

  /** The DLPF_FS byte for a filter configuration: the full-scale bits plus
      the configuration, narrowed to uint8_t. */
  function DlpfCode(config: uint8): (code: uint8)
    ensures config < 8 ==> code / 8 == 3 && code % 8 == config
    ensures config + FS_SEL < 0x100 ==> code == config + FS_SEL
    ensures config + FS_SEL >= 0x100 ==> code == config + FS_SEL - 0x100
  {
    ToUint8(FS_SEL + config)
  }

  /** The addition is not a bit-wise or: a configuration with bit 3 set
      carries into the full-scale bits and clears them. */
  lemma DlpfCodeCarries()
    ensures DlpfCode(8) == 0x20 && (DlpfCode(8) / 8) % 4 == 0
  {
  }

  /** set_digital_low_pass_filter_config: the register gets DlpfCode, the
      shadow the configuration itself. */
  function SetDlpf(g: Gyro, l: Link, config: uint8): (r: Step<Gyro, ()>)
    ensures SingleWrite(g, l, r, DLPF_FS, DlpfCode(config))
    ensures r.Done? ==> r.state == g.(dlpf := Some(config))
    ensures Mirrors(g, l.trace) ==> Mirrors(r.state, r.link.trace)
  {
    var u := g.(dlpf := Some(config));
    WriteKeepsMirror(g, l, DLPF_FS, DlpfCode(config), u);
    WriteStep(g, l, g.id, DLPF_FS, DlpfCode(config), u)
  }

  /** set_interrupt_configuration, as written: the byte goes to DLPF_FS,
      not to the interrupt configuration register. */
  function SetInterruptConfig(g: Gyro, l: Link, config: uint8): (r: Step<Gyro, ()>)
    ensures SingleWrite(g, l, r, DLPF_FS, config)
    ensures r.Done? ==> r.state == g.(interruptConfig := Some(config))
  {
    WriteStep(g, l, g.id, DLPF_FS, config, g.(interruptConfig := Some(config)))
  }

  /** set_interrupt_configuration writing INT_CFG, as its shadow implies. */
  function SetInterruptConfigIntended(g: Gyro, l: Link, config: uint8): (r: Step<Gyro, ()>)
    ensures SingleWrite(g, l, r, INT_CFG, config)
    ensures r.Done? ==> r.state == g.(interruptConfig := Some(config))
    ensures Mirrors(g, l.trace) ==> Mirrors(r.state, r.link.trace)
  {
    var u := g.(interruptConfig := Some(config));
    WriteKeepsMirror(g, l, INT_CFG, config, u);
    WriteStep(g, l, g.id, INT_CFG, config, u)
  }

  /** set_interrupt_configuration as written, whenever it succeeds once a
      filter configuration with another code is in place: INT_CFG keeps
      whatever it held, the filter register takes the byte, and the
      shadow's filter configuration no longer describes the device. */
  lemma InterruptConfigMisdirected(g: Gyro, l: Link, config: uint8)
    requires Accepts(l) && g.dlpf.Some? && DlpfCode(g.dlpf.value) != config
    ensures var r := SetInterruptConfig(g, l, config);
      && r.Done?
      && r.state.interruptConfig == Some(config) && r.state.dlpf == g.dlpf
      && LastWritten(r.link.trace, g.id, INT_CFG) == LastWritten(l.trace, g.id, INT_CFG)
      && LastWritten(r.link.trace, g.id, DLPF_FS) == Some(config)
      && !Mirrors(r.state, r.link.trace)
  {
    var r := SetInterruptConfig(g, l, config);
    var e := Wrote(g.id, DLPF_FS, config, true);
    LastWrittenAppend(l.trace, e, g.id, INT_CFG);
    LastWrittenAppend(l.trace, e, g.id, DLPF_FS);
    var image := (reg: uint8) => RegisterImage(r.state, reg);
    assert image(DLPF_FS) == Some(DlpfCode(g.dlpf.value));
  }

  function SetPower(g: Gyro, l: Link, config: uint8): (r: Step<Gyro, ()>)
    ensures SingleWrite(g, l, r, PWR_MGM, config)
    ensures r.Done? ==> r.state == g.(power := Some(config))
    ensures Mirrors(g, l.trace) ==> Mirrors(r.state, r.link.trace)
  {
    var u := g.(power := Some(config));
    WriteKeepsMirror(g, l, PWR_MGM, config, u);
    WriteStep(g, l, g.id, PWR_MGM, config, u)
  }

  /** The constructor: address 0x68, then divider 7, filter 0 and power 0,
      in that order. A failed write throws out of the constructor, leaving
      no object; Abort carries the fields assigned up to that point. */
  function New(l: Link): (r: Step<Gyro, ()>)
    ensures Conducted(l, r.link, r.Done?, DEFAULT_ADDRESS)
    ensures r.Done? <==> AcceptsAll(l.acks, 3)
    ensures r.Done? ==> r.state == Gyro(DEFAULT_ADDRESS, Some(7), Some(0), None, Some(0), None)
    ensures r.Done? ==> r.link.trace == l.trace + [Wrote(DEFAULT_ADDRESS, SMPLRT_DIV, 7, true),
                                                   Wrote(DEFAULT_ADDRESS, DLPF_FS, 0x18, true),
                                                   Wrote(DEFAULT_ADDRESS, PWR_MGM, 0, true)]
    ensures Mirrors(r.state, r.link.trace)
  {
    var g := Gyro(DEFAULT_ADDRESS, None, None, None, None, None);
    BlankMirrors(DEFAULT_ADDRESS, l.trace);
    var d := SetSampleRateDivider(g, l, 7);
    AcceptsAllEach(l.acks, 3);
    if d.Abort? then d
    else
      var f := SetDlpf(d.state, d.link, 0);
      ConductedChain(l, d.link, f.link, f.Done?, DEFAULT_ADDRESS);
      if f.Abort? then f
      else
        var p := SetPower(f.state, f.link, 0);
        ConductedChain(l, f.link, p.link, p.Done?, DEFAULT_ADDRESS);
        p
  }

  /** Temperature in degrees Celsius from the raw reading:
      35 + (raw + 13200) / 280 with C++'s truncating division. */
  function Temperature(raw: int16): (t: int)
    ensures -34 <= t <= 199
  {
    35 + TruncatingDivision(raw + 13200, 280)
  }

  /** The conversion is monotone, moves by at most one degree for every
      280 counts (one degree per 280 LSB) on either side of the
      datasheet's offset of -13200 counts, where it reads 35 degrees. */
  lemma TemperatureShape(a: int16, b: int16)
    ensures a <= b ==> Temperature(a) <= Temperature(b)
    ensures a + 280 <= b && (a + 13200 >= 0 || b + 13200 < 0) ==> Temperature(a) + 1 <= Temperature(b)
    ensures Temperature(-13200) == 35
  {
    var qa, qb := TruncatingDivision(a + 13200, 280), TruncatingDivision(b + 13200, 280);
    assert Temperature(a) == 35 + qa && Temperature(b) == 35 + qb;
  }

  /** Because the division truncates toward zero, the step that reads 35
      degrees spans 559 counts, from -13479 to -12921, where every other
      whole degree spans 280. */
  lemma TemperatureStepAtOffset()
    ensures Temperature(-13480) == 34 && Temperature(-13479) == 35
    ensures Temperature(-12921) == 35 && Temperature(-12920) == 36
  {
  }

  /** get_raw_data's decode of the eight-byte burst from TEMP_OUT_H: four
      big-endian int16 values, temperature then X, Y, Z. */
  function ReadingFromBytes(bytes: seq<uint8>): (r: GyroReading)
    requires |bytes| == 8
    ensures -34 <= r.temperature <= 199
    ensures -0x8000 <= r.rate.x < 0x8000 && -0x8000 <= r.rate.y < 0x8000 && -0x8000 <= r.rate.z < 0x8000
  {
    GyroReading(Temperature(Int16FromBytes(bytes[1], bytes[0])),
                Axes(Int16FromBytes(bytes[3], bytes[2]), Int16FromBytes(bytes[5], bytes[4]),
                     Int16FromBytes(bytes[7], bytes[6])))
  }

  /** The bytes a device returns for a burst from TEMP_OUT_H: TEMP_OUT,
      then GYRO_XOUT, GYRO_YOUT, GYRO_ZOUT, each high byte first. */
  function Burst(temp: int16, x: int16, y: int16, z: int16): (bytes: seq<uint8>)
    ensures |bytes| == 8
  {
    [HighByte(temp), LowByte(temp), HighByte(x), LowByte(x), HighByte(y), LowByte(y), HighByte(z), LowByte(z)]
  }

  /** The decode reads back exactly the rates the device holds and the
      temperature of its raw temperature value. */
  lemma ReadingRoundTrip(temp: int16, x: int16, y: int16, z: int16)
    ensures ReadingFromBytes(Burst(temp, x, y, z)) == GyroReading(Temperature(temp), Axes(x, y, z))
  {
    BytesRoundTrip(temp);
    BytesRoundTrip(x);
    BytesRoundTrip(y);
    BytesRoundTrip(z);
  }

  /** get_raw_data: one eight-byte burst; the reading changes only when
      the read returned. */
  function GetRawData(g: Gyro, l: Link): (r: Step<Gyro, ()>)
    ensures r.link == Read(l, g.id, TEMP_OUT_H, 8)
    ensures r.Done? <==> Delivers(l, 8)
    ensures r.Done? ==> r.state == g.(reading := Some(ReadingFromBytes(l.replies[0])))
    ensures r.Abort? ==> r.state == g
    ensures Conducted(l, r.link, r.Done?, g.id)
    ensures Mirrors(g, l.trace) ==> Mirrors(r.state, r.link.trace)
  {
    var read := ReadStep(g, l, g.id, TEMP_OUT_H, 8);
    var e := Fetched(g.id, TEMP_OUT_H, 8, read.Done?);
    if read.Abort? then
      AgreesAppend(l.trace, g.id, e, reg => RegisterImage(g, reg), reg => RegisterImage(g, reg));
      Abort(g, read.link)
    else
      var u := g.(reading := Some(ReadingFromBytes(read.value)));
      AgreesAppend(l.trace, g.id, e, reg => RegisterImage(g, reg), reg => RegisterImage(u, reg));
      Done(u, read.link, ())
  }

  /** get_interrupt_status: one byte from INT_STATUS. */
  function GetInterruptStatus(g: Gyro, l: Link): (r: Step<Gyro, uint8>)
    ensures r.link == Read(l, g.id, INT_STATUS, 1)
    ensures r.Done? <==> Delivers(l, 1)
    ensures r.Done? ==> r.value == l.replies[0][0]
    ensures r.state == g
    ensures Conducted(l, r.link, r.Done?, g.id)
    ensures Mirrors(g, l.trace) ==> Mirrors(r.state, r.link.trace)
  {
    var read := ReadStep(g, l, g.id, INT_STATUS, 1);
    AgreesAppend(l.trace, g.id, Fetched(g.id, INT_STATUS, 1, read.Done?), reg => RegisterImage(g, reg), reg => RegisterImage(g, reg));
    if read.Abort? then Abort(g, read.link) else Done(g, read.link, read.value[0])
  }

  /** The driver's public operations. */
  datatype Command =
    | Id(id: uint8)
    | Divider(rate: uint8)
    | Filter(config: uint8)
    | Interrupts(config: uint8)
    | Power(config: uint8)
    | RawData
    | InterruptStatus

  /** One operation; set_interrupt_configuration writes DLPF_FS in the
      AsWritten build and INT_CFG in the Corrected one. Only set_id
      changes the address, and only by completing. Every other operation
      keeps the mirror, except set_interrupt_configuration as written. */
  function Apply(g: Gyro, l: Link, cmd: Command, build: Build): (r: Step<Gyro, ()>)
    ensures Conducted(l, r.link, r.Done?, g.id)
    ensures !cmd.Id? ==> r.state.id == g.id
    ensures cmd.Id? && r.Done? ==> r.state.id == cmd.id
    ensures r.Abort? ==> r.state.id == g.id
    ensures !cmd.Id? && (build.Corrected? || !cmd.Interrupts?) && Mirrors(g, l.trace) ==> Mirrors(r.state, r.link.trace)
  {
    match cmd
    case Id(id) => SetId(g, l, id)
    case Divider(rate) => SetSampleRateDivider(g, l, rate)
    case Filter(config) => SetDlpf(g, l, config)
    case Interrupts(config) =>
      if build.Corrected? then SetInterruptConfigIntended(g, l, config) else SetInterruptConfig(g, l, config)
    case Power(config) => SetPower(g, l, config)
    case RawData => GetRawData(g, l)
    case InterruptStatus =>
      var r := GetInterruptStatus(g, l);
      if r.Done? then Done(r.state, r.link, ()) else Abort(r.state, r.link)
  }

  /** The address the object has after a run of operations that all
      completed: the last set_id's, or the starting one. */
  function AddressAfter(id: uint8, cmds: seq<Command>): uint8
    decreases |cmds|
  {
    if |cmds| == 0 then id
    else AddressAfter(if cmds[0].Id? then cmds[0].id else id, cmds[1..])
  }

  /** A caller's sequence of operations, cut short by the first exception. */
  function Run(g: Gyro, l: Link, cmds: seq<Command>, build: Build): (r: Step<Gyro, ()>)
    decreases |cmds|
    ensures |l.trace| <= |r.link.trace| && r.link.trace[..|l.trace|] == l.trace
    ensures r.Done? ==> r.state.id == AddressAfter(g.id, cmds)
    ensures (forall i | 0 <= i < |cmds| :: !cmds[i].Id?) ==> Conducted(l, r.link, r.Done?, g.id) && r.state.id == g.id
    ensures && (forall i | 0 <= i < |cmds| :: !cmds[i].Id?)
            && (build.Corrected? || forall i | 0 <= i < |cmds| :: !cmds[i].Interrupts?)
            && Mirrors(g, l.trace)
            ==> Mirrors(r.state, r.link.trace)
  {
    if |cmds| == 0 then
      assert l.trace[|l.trace|..] == [];
      Done(g, l, ())
    else
      var first := Apply(g, l, cmds[0], build);
      if first.Abort? then first
      else
        var rest := Run(first.state, first.link, cmds[1..], build);
        assert forall i | 0 <= i < |cmds| - 1 :: cmds[1..][i] == cmds[i + 1];
        if !cmds[0].Id? && first.state.id == g.id && Conducted(first.link, rest.link, rest.Done?, g.id) then
          ConductedChain(l, first.link, rest.link, rest.Done?, g.id);
          rest
        else
          rest
  }

  /** After a completed set_id, every transfer of the operations that
      follow goes to the new address, as long as none changes it again. */
  lemma SetIdRedirects(g: Gyro, l: Link, id: uint8, cmds: seq<Command>, build: Build)
    requires forall i | 0 <= i < |cmds| :: !cmds[i].Id?
    ensures var first := SetId(g, l, id);
      first.Done? ==>
        var rest := Run(first.state, first.link, cmds, build);
        && first.link.trace == l.trace + [Wrote(g.id, WHO_AM_I, id, true)]
        && |first.link.trace| <= |rest.link.trace|
        && (forall i | |first.link.trace| <= i < |rest.link.trace| :: rest.link.trace[i].dev == id)
  {
    var first := SetId(g, l, id);
    if first.Done? {
      ConductedAddresses(first.link, Run(first.state, first.link, cmds, build).link, Run(first.state, first.link, cmds, build).Done?, id);
    }
  }
}
