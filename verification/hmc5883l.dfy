/** The HMC5883L compass driver (src/HMC5883L.cpp): three configuration
    registers shadowed in the object, a gain-dependent digital resolution
    and a six-byte big-endian burst of the field. Every transfer goes to
    the fixed bus address 0x1E; writeRegister and readRegister throw on a
    transport failure, as in the accelerometer driver. */
module Hmc5883l {
  import opened Integers
  import opened Transport

  const ADDRESS: uint8 := 0x1E

  const CONFIG_A: uint8 := 0x00
  const CONFIG_B: uint8 := 0x01
  const MODE: uint8 := 0x02
  const DATA_X_MSB: uint8 := 0x03
  const DATA_X_LSB: uint8 := 0x04
  const DATA_Z_MSB: uint8 := 0x05
  const DATA_Z_LSB: uint8 := 0x06
  const DATA_Y_MSB: uint8 := 0x07
  const DATA_Y_LSB: uint8 := 0x08
  const STATUS: uint8 := 0x09

  /** A stored field reading: the raw int16 counts and the digital
      resolution get_raw_data multiplied them by, None where that
      resolution was never assigned. */
  datatype FieldReading = FieldReading(raw: Axes, resolution: Option<nat>)

  /** The driver object's fields. The digital resolution (mG per LSB, here
      in hundredths) is a float member that the constructor never assigns,
      so it starts as None. */
  datatype Compass = Compass(
    configA: uint8, configB: uint8, mode: uint8,
    resolution: Option<nat>,
    field: Option<FieldReading>)

  /** Every stored reading was scaled by an assigned resolution. */
  predicate ReadingScaled(c: Compass)
  {
    c.field.Some? ==> c.field.value.resolution.Some?
  }

  /** The constructor, as written: datasheet defaults for the three
      registers, no bus traffic, no resolution. */
  function New(): (c: Compass)
    ensures c.configA == 0x10 && c.configB == 0x20 && c.mode == 0x01
    ensures Gain(c.configB) == 1
    ensures c.resolution.None? && c.field.None?
  {
    Compass(0x10, 0x20, 0x01, None, None)
  }

  /** The gain code, bits 7..5 of configuration register B:
      (config & (GN_2 | GN_1 | GN_0)) >> 5. */
  function Gain(config: uint8): (g: nat)
    ensures g < 8
    ensures 0 <= config - 32 * g < 32
  {
    config / 32
  }

  /** The digital resolution the driver assigns for each gain code, in
      hundredths of a milligauss per LSB (0.73 ... 4.35). */
  function Resolution(g: nat): (r: nat)
    requires g < 8
    ensures 73 <= r <= 435
  {
    match g
    case 0 => 73
    case 1 => 92
    case 2 => 122
    case 3 => 152
    case 4 => 227
    case 5 => 256
    case 6 => 303
    case _ => 435
  }

  /** The sensitivity column of the gain table in inc/HMC5883L.hpp, in
      LSB per gauss. */
  function LsbPerGauss(g: nat): (n: nat)
    requires g < 8
  {
    match g
    case 0 => 1370
    case 1 => 1090
    case 2 => 820
    case 3 => 660
    case 4 => 440
    case 5 => 390
    case 6 => 330
    case _ => 230
  }

  /** Each resolution is 1000 / sensitivity milligauss per LSB rounded to
      the nearest hundredth, and a higher gain code always means a coarser
      resolution. */
  lemma ResolutionTable(g: nat, h: nat)
    requires g < 8 && h < 8
    ensures 2 * Dist(Resolution(g) * LsbPerGauss(g), 100000) <= LsbPerGauss(g)
    ensures g < h ==> Resolution(g) < Resolution(h)
  {
  }

  function Dist(a: int, b: int): nat
  {
    if a < b then b - a else a - b
  }

  /** The shadow agrees with the device about the resolution. */
  predicate ResolutionConsistent(c: Compass)
  {
    c.resolution == Some(Resolution(Gain(c.configB)))
  }

  /** `r` is the outcome of one write of `code` to `reg`. */
  predicate SingleWrite(c: Compass, l: Link, r: Step<Compass, ()>, reg: uint8, code: uint8)
  {
    && r.link == Write(l, ADDRESS, reg, code)
    && (r.Done? <==> Accepts(l))
    && (r.Abort? ==> r.state == c)
    && Conducted(l, r.link, r.Done?, ADDRESS)
  }

  function SetConfigA(c: Compass, l: Link, config: uint8): (r: Step<Compass, ()>)
    ensures SingleWrite(c, l, r, CONFIG_A, config)
    ensures r.Done? ==> r.state == c.(configA := config)
  {
    WriteStep(c, l, ADDRESS, CONFIG_A, config, c.(configA := config))
  }

  /** set_register_b_configuration. The resolution switch follows the
      write, so a failed (throwing) write leaves both fields alone; a
      successful one leaves them consistent. */
  function SetConfigB(c: Compass, l: Link, config: uint8): (r: Step<Compass, ()>)
    ensures SingleWrite(c, l, r, CONFIG_B, config)
    ensures r.Done? ==> r.state == c.(configB := config, resolution := r.state.resolution)
    ensures r.Done? ==> ResolutionConsistent(r.state)
  {
    WriteStep(c, l, ADDRESS, CONFIG_B, config, c.(configB := config, resolution := Some(Resolution(Gain(config)))))
  }

  function SetMode(c: Compass, l: Link, mode: uint8): (r: Step<Compass, ()>)
    ensures SingleWrite(c, l, r, MODE, mode)
    ensures r.Done? ==> r.state == c.(mode := mode)
  {
    WriteStep(c, l, ADDRESS, MODE, mode, c.(mode := mode))
  }

  /** A 16-bit two's-complement value sent most significant byte first,
      as (int16_t)htobe16 of the two bytes yields on any host. */
  function BigEndian(high: uint8, low: uint8): (v: int16)
    ensures high < 0x80 ==> v == 0x100 * high + low
    ensures high >= 0x80 ==> v == 0x100 * high + low - 0x1_0000
  {
    Int16FromBytes(low, high)
  }

  /** The bytes a device holding field (x, y, z) returns for a six-byte
      burst from DATA_X_MSB: the output registers run X, Z, Y, each most
      significant byte first. */
  function Burst(x: int16, y: int16, z: int16): (bytes: seq<uint8>)
    ensures |bytes| == 6
  {
    [HighByte(x), LowByte(x), HighByte(z), LowByte(z), HighByte(y), LowByte(y)]
  }

  /** The byte the device presents at an output register while it holds
      field (x, y, z): the MSB register the high byte, the LSB register
      the low byte; None for every other register. */
  function OutputRegister(x: int16, y: int16, z: int16, reg: uint8): (b: Option<uint8>)
    ensures b.Some? <==> DATA_X_MSB <= reg <= DATA_Y_LSB
    ensures reg == DATA_Y_MSB ==> b == Some(HighByte(y))
    ensures reg == DATA_Z_LSB ==> b == Some(LowByte(z))
  {
    if reg == DATA_X_MSB then Some(HighByte(x))
    else if reg == DATA_X_LSB then Some(LowByte(x))
    else if reg == DATA_Z_MSB then Some(HighByte(z))
    else if reg == DATA_Z_LSB then Some(LowByte(z))
    else if reg == DATA_Y_MSB then Some(HighByte(y))
    else if reg == DATA_Y_LSB then Some(LowByte(y))
    else None
  }

  /** A burst of six bytes from DATA_X_MSB returns the output registers in
      address order: byte i is the register at DATA_X_MSB + i, which is
      the layout Burst gives. */
  lemma OutputRegistersContiguous(x: int16, y: int16, z: int16)
    ensures forall i | 0 <= i < 6 ::
              OutputRegister(x, y, z, (DATA_X_MSB as int + i) as uint8) == Some(Burst(x, y, z)[i])
  {
  }

  /** get_raw_data's decode, as written: the second pair of bytes goes to
      y and the third to z. */
  function FieldFromBytes(bytes: seq<uint8>): (a: Axes)
    requires |bytes| == 6
    ensures -0x8000 <= a.x < 0x8000 && -0x8000 <= a.y < 0x8000 && -0x8000 <= a.z < 0x8000
  {
    Axes(BigEndian(bytes[0], bytes[1]), BigEndian(bytes[2], bytes[3]), BigEndian(bytes[4], bytes[5]))
  }

  /** As written, the decode hands the Z output registers to y and the Y
      registers to z. */
  lemma FieldFromBytesSwapsYZ(x: int16, y: int16, z: int16)
    ensures FieldFromBytes(Burst(x, y, z)) == Axes(x, z, y)
  {
    BytesRoundTrip(x);
    BytesRoundTrip(y);
    BytesRoundTrip(z);
  }

  /** A device whose Y and Z fields differ is read back with them
      exchanged. */
  lemma FieldFromBytesCounterexample()
    ensures FieldFromBytes(Burst(0, 1, 2)) == Axes(0, 2, 1)
  {
    FieldFromBytesSwapsYZ(0, 1, 2);
  }

  /** The decode the register map calls for: y from DATA_Y_MSB/LSB (the
      third pair) and z from DATA_Z_MSB/LSB (the second). */
  function FieldFromBytesIntended(bytes: seq<uint8>): (a: Axes)
    requires |bytes| == 6
    ensures -0x8000 <= a.x < 0x8000 && -0x8000 <= a.y < 0x8000 && -0x8000 <= a.z < 0x8000
  {
    Axes(BigEndian(bytes[0], bytes[1]), BigEndian(bytes[4], bytes[5]), BigEndian(bytes[2], bytes[3]))
  }

  /** The intended decode reads every device field back unchanged, and
      every burst is the image of the field it decodes to. */
  lemma FieldRoundTrip(x: int16, y: int16, z: int16, bytes: seq<uint8>)
    requires |bytes| == 6
    ensures FieldFromBytesIntended(Burst(x, y, z)) == Axes(x, y, z)
    ensures var a := FieldFromBytesIntended(bytes); Burst(a.x, a.y, a.z) == bytes
  {
    BytesRoundTrip(x);
    BytesRoundTrip(y);
    BytesRoundTrip(z);
    ValueRoundTrip(bytes[1], bytes[0]);
    ValueRoundTrip(bytes[3], bytes[2]);
    ValueRoundTrip(bytes[5], bytes[4]);
  }

  /** get_raw_data, as written: one six-byte burst from DATA_X_MSB; the
      field changes only when the read returned, and is scaled by the
      resolution in effect. */
  function GetRawData(c: Compass, l: Link): (r: Step<Compass, ()>)
    ensures r.link == Read(l, ADDRESS, DATA_X_MSB, 6)
    ensures r.Done? <==> Delivers(l, 6)
    ensures r.Done? ==> r.state == c.(field := Some(FieldReading(FieldFromBytes(l.replies[0]), c.resolution)))
    ensures r.Abort? ==> r.state == c
    ensures Conducted(l, r.link, r.Done?, ADDRESS)
  {
    var read := ReadStep(c, l, ADDRESS, DATA_X_MSB, 6);
    if read.Abort? then Abort(c, read.link)
    else Done(c.(field := Some(FieldReading(FieldFromBytes(read.value), c.resolution))), read.link, ())
  }

  /** get_raw_data with the intended decode. */
  function GetRawDataIntended(c: Compass, l: Link): (r: Step<Compass, ()>)
    ensures r.link == Read(l, ADDRESS, DATA_X_MSB, 6)
    ensures r.Done? <==> Delivers(l, 6)
    ensures r.Done? ==> r.state == c.(field := Some(FieldReading(FieldFromBytesIntended(l.replies[0]), c.resolution)))
    ensures r.Abort? ==> r.state == c
    ensures Conducted(l, r.link, r.Done?, ADDRESS)
  {
    var read := ReadStep(c, l, ADDRESS, DATA_X_MSB, 6);
    if read.Abort? then Abort(c, read.link)
    else Done(c.(field := Some(FieldReading(FieldFromBytesIntended(read.value), c.resolution))), read.link, ())
  }

  /** read_status_register: one byte from the status register. */
  function ReadStatus(c: Compass, l: Link): (r: Step<Compass, uint8>)
    ensures r.link == Read(l, ADDRESS, STATUS, 1)
    ensures r.Done? <==> Delivers(l, 1)
    ensures r.Done? ==> r.value == l.replies[0][0]
    ensures r.state == c
    ensures Conducted(l, r.link, r.Done?, ADDRESS)
  {
    var read := ReadStep(c, l, ADDRESS, STATUS, 1);
    if read.Abort? then Abort(c, read.link) else Done(c, read.link, read.value[0])
  }

  /** As written, the constructor leaves the resolution unset although
      register B holds its default, so a get_raw_data that completes
      before any set_register_b_configuration stores a reading scaled by
      an indeterminate value. */
  lemma NewInconsistent(l: Link)
    requires Delivers(l, 6)
    ensures !ResolutionConsistent(New())
    ensures var r := GetRawData(New(), l);
      r.Done? && r.state.field.Some? && r.state.field.value.resolution.None? && !ReadingScaled(r.state)
  {
  }

  /** The constructor with the resolution of the default gain. */
  function NewIntended(): (c: Compass)
    ensures ResolutionConsistent(c) && ReadingScaled(c)
    ensures c == New().(resolution := c.resolution)
  {
    Compass(0x10, 0x20, 0x01, Some(92), None)
  }

  /** From the intended constructor, the first reading is scaled by the
      resolution of the gain register B selects, 0.92 mG/LSB. */
  lemma NewIntendedScales(l: Link)
    requires Delivers(l, 6)
    ensures var r := GetRawDataIntended(NewIntended(), l);
      && r.Done? && r.state.field.Some?
      && r.state.field.value.resolution == Some(Resolution(Gain(NewIntended().configB)))
      && r.state.field.value.resolution == Some(92)
  {
  }

  /** The driver's public operations. */
  datatype Command =
    | ConfigA(config: uint8)
    | ConfigB(config: uint8)
    | SetModeTo(mode: uint8)
    | RawData
    | Status

  /** One operation; get_raw_data decodes as written in the AsWritten
      build and with the register map's order in the Corrected one. */
  function Apply(c: Compass, l: Link, cmd: Command, build: Build): (r: Step<Compass, ()>)
    ensures Conducted(l, r.link, r.Done?, ADDRESS)
    ensures ResolutionConsistent(c) ==> ResolutionConsistent(r.state)
    ensures ResolutionConsistent(c) && ReadingScaled(c) ==> ReadingScaled(r.state)
  {
    match cmd
    case ConfigA(config) => SetConfigA(c, l, config)
    case ConfigB(config) => SetConfigB(c, l, config)
    case SetModeTo(mode) => SetMode(c, l, mode)
    case RawData => if build.AsWritten? then GetRawData(c, l) else GetRawDataIntended(c, l)
    case Status =>
      var r := ReadStatus(c, l);
      if r.Done? then Done(r.state, r.link, ()) else Abort(r.state, r.link)
  }

  /** A caller's sequence of operations, cut short by the first exception. */
  function Run(c: Compass, l: Link, cmds: seq<Command>, build: Build): (r: Step<Compass, ()>)
    decreases |cmds|
    ensures Conducted(l, r.link, r.Done?, ADDRESS)
    ensures ResolutionConsistent(c) ==> ResolutionConsistent(r.state)
    ensures ResolutionConsistent(c) && ReadingScaled(c) ==> ReadingScaled(r.state)
  {
    if |cmds| == 0 then
      assert l.trace[|l.trace|..] == [];
      Done(c, l, ())
    else
      var first := Apply(c, l, cmds[0], build);
      if first.Abort? then first
      else
        var rest := Run(first.state, first.link, cmds[1..], build);
        ConductedChain(l, first.link, rest.link, rest.Done?, ADDRESS);
        rest
  }

  /** Every transfer of a session goes to 0x1E, whatever the commands. */
  lemma RunAddresses(c: Compass, l: Link, cmds: seq<Command>, build: Build)
    ensures var r := Run(c, l, cmds, build);
      && |l.trace| <= |r.link.trace|
      && forall i | |l.trace| <= i < |r.link.trace| :: r.link.trace[i].dev == ADDRESS
  {
    ConductedAddresses(l, Run(c, l, cmds, build).link, Run(c, l, cmds, build).Done?, ADDRESS);
  }

  /** Starting from the intended constructor the resolution always matches
      register B, and every stored reading was scaled by an assigned
      resolution. */
  lemma SessionKeepsResolution(l: Link, cmds: seq<Command>, build: Build)
    ensures ResolutionConsistent(Run(NewIntended(), l, cmds, build).state)
    ensures ReadingScaled(Run(NewIntended(), l, cmds, build).state)
  {
  }
}
