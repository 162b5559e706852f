# GY-85 sensor drivers: ADXL345, HMC5883L and ITG-3205

This project models the three I2C sensor drivers of a 3D-scanner's
GY-85 board in Dafny and proves properties of the model.

- **ADXL345 accelerometer.** The driver keeps a shadow of every register
  it configures. Its setters convert physical units to register codes,
  saturating at the register's maximum. It has two composite procedures,
  `offset_calibration` and `self_test`.
- **HMC5883L compass.** Three configuration registers and a big-endian
  burst read of the field.
- **ITG-3205 gyroscope.** The bus address can be changed at run time, and
  the constructor writes three registers.

The drivers' `writeRegister` and `readRegister` throw on a transport
failure. So every operation is a function from a shadow and a scripted
link to a `Step`: either `Done` with the new shadow, the link and a
value, or `Abort` at the failing transfer. The link holds:

- the acknowledgements the next writes get;
- the replies the next reads get;
- the trace of every transfer issued.

The central invariant is `Mirrors`. Every register the driver has written
(acknowledged) holds what its shadow says, re-encoded the way its setter
encodes it. Three setters write a register other than the one their
shadow describes; those are among the findings below. Their corrected
versions, and every other operation, preserve the mirror. Each driver's
session is stated for two builds: `AsWritten` runs the source's
operations, and `Corrected` runs them with the findings fixed. The
calibration's Z trim, as written, leaves a board lying Z-up reading −1 g;
the corrected trim leaves it at +1 g.

Files:

| file | module | contents |
|---|---|---|
| `integers.dfy` | `Integers` | C++ integer widths, narrowing conversions, `>>`, truncating division, byte assembly |
| `transport.dfy` | `Transport` | scripted link, write and read steps, the `Conducted` shape of an operation's transfers, `LastWritten` |
| `adxl345_registers.dfy` | `Adxl345Registers` | ADXL345 register map, DATA_FORMAT bits, unit encodings |
| `adxl345.dfy` | `Adxl345` | shadow, mirror invariant, setters and getters |
| `adxl345_procedures.dfy` | `Adxl345Procedures` | `offset_calibration` and `self_test` |
| `adxl345_session.dfy` | `Adxl345Session` | any sequence of ADXL345 operations from construction |
| `hmc5883l.dfy` | `Hmc5883l` | the compass driver |
| `itg3205.dfy` | `Itg3205` | the gyroscope driver |

Floating-point quantities are kept exactly:

- the ADXL345 scale factor as a code `c` for 3.9 mg × 2^c per LSB;
- the HMC5883L resolution in hundredths of a milligauss per LSB;
- raw counts instead of the products and quotients the source computes
  from them.

C++'s narrowing conversions, arithmetic shift and truncating division are
spelled out in `Integers`.

## Model

| member | source | states |
|---|---|---|
| Integers.ToInt16OfSum | src/ADXL345.cpp:605-611 | narrowing the running int16 accumulator after every addition gives the same value as narrowing the exact sum once |
| Integers.ShiftRight | src/ADXL345.cpp:616-618 | `x >> k` on a signed value rounds toward minus infinity: 2^k·r ≤ x < 2^k·(r+1) |
| Integers.TruncatingDivision | src/ITG_3205.cpp:164 | C++ division truncates toward zero: the quotient brackets the dividend from the side of zero, for negative and for non-negative dividends |
| Integers.Int16FromBytes | src/ADXL345.cpp:533-541 | two bytes read as a two's-complement int16: below 0x80 the high byte gives low + 256·high, otherwise that minus 2^16 |
| Integers.BytesRoundTrip | src/ADXL345.cpp:533-541 | splitting any int16 into its bytes and reassembling them gives it back |
| Integers.ValueRoundTrip | src/ADXL345.cpp:533-541 | assembling any two bytes and splitting the value gives the bytes back |
| Transport.WriteStep | src/ADXL345.cpp:734-740 | writeRegister then the guarded shadow update: completes iff acknowledged, the new state only on completion, the old state on the throw |
| Transport.ReadStep | src/ADXL345.cpp:749-758 | readRegister: completes iff the reply has the requested length, returns exactly that reply, never changes the state |
| Transport.ConductedAddresses | src/ADXL345.cpp:734-758 | every transfer of an operation goes to the driver's address |
| Transport.LastWrittenAppend | src/ADXL345.cpp:734-740 | after one more transfer a register's last written value changes only if that transfer is an acknowledged write of it, and then to the value written |
| Transport.AgreesAppend | src/ADXL345.cpp:734-740 | an image of the registers stays in agreement with the trace when it changes only where an acknowledged write set that value |
| Transport.WriteKeepsAgreement | src/ADXL345.cpp:734-740 | a driver's write keeps the agreement when the new view differs only at the register written, there holding the code or nothing; a refused write keeps the old view; both drivers' setters use it |
| Adxl345Registers.RangeG | inc/ADXL345.hpp:511-515 | the range bits 1..0 of DATA_FORMAT select ±2, ±4, ±8 and ±16 g for codes 0, 1, 2 and 3 |
| Adxl345Registers.ScaleFor | src/ADXL345.cpp:483-502 | with FULL_RES the scale is 3.9 mg/LSB; otherwise twice the scale is 3.9 mg times the selected range in g |
| Adxl345Registers.ProcedureFormatLayout | src/ADXL345.cpp:581-582 | the procedures' forced format is 0x0B (full resolution, ±16 g, no self-test) and with SELF_TEST 0x8B; both keep 3.9 mg/LSB |
| Adxl345Registers.OutputRegister | inc/ADXL345.hpp:30-35 | exactly DATAX0..DATAZ1 are output registers, each axis' low byte at DATAx0 and high byte at DATAx1 |
| Adxl345Registers.ThresholdEncoding | src/ADXL345.cpp:57-70 | up to 15937 mg the code is the truncated milli-g/62.5 and the shadow keeps the argument; above it the code is 0xFF and the shadow 16000 |
| Adxl345Registers.TapDurationEncoding | src/ADXL345.cpp:144-157 | up to 159 ms the code is the truncated ms/0.625 and the shadow keeps the argument; above it 0xFF and 159 |
| Adxl345Registers.TapTimingEncoding | src/ADXL345.cpp:172-185 | up to 318 ms the code is the truncated ms/1.25 and the shadow keeps the argument; above it 0xFF and 319 |
| Adxl345Registers.FreeFallTimeEncoding | src/ADXL345.cpp:332-345 | up to 1275 ms the code is the truncated ms/5 and the shadow keeps the argument; above it 0xFF and 1275 |
| Adxl345Registers.EncodingsMonotone | inc/ADXL345.hpp:121-133 | a larger physical value never gets a smaller register code, in each of the four encodings |
| Adxl345Registers.ProductTruncation | src/ADXL345.cpp:57-70 | if a computed product lies within 1/den of p/den, and not below it when p/den is a whole number, it truncates to the integer quotient p / den |
| Adxl345Registers.ThresholdFromDouble | src/ADXL345.cpp:58 | for every input up to 15937 mg, any round-to-nearest value of `milli_gs * 0.016` (with the double nearest 0.016) truncates to the threshold code |
| Adxl345Registers.TapDurationFromDouble | src/ADXL345.cpp:145 | for every input up to 159 ms, any round-to-nearest value of `milliseconds * 1.6` truncates to the duration code |
| Adxl345Registers.TapTimingFromDouble | src/ADXL345.cpp:173 | for every input up to 318 ms, any round-to-nearest value of `milliseconds * 0.8` truncates to the latency and window code |
| Adxl345Registers.FreeFallTimeFromDouble | src/ADXL345.cpp:333 | for every input up to 1275 ms, any round-to-nearest value of `milliseconds * 0.2` truncates to the free-fall time code |
| Adxl345.New | src/ADXL345.cpp:11-32 | the constructor sets address 0x53, data rate 0x0A, zero offsets, power and format, and the 3.9 mg scale consistent with the format; the unassigned fields are None |
| Adxl345.MirrorsAtStart | src/ADXL345.cpp:11-32 | before any transfer every shadow mirrors the device |
| Adxl345.MirrorBroken | src/ADXL345.cpp:734-740 | one register last written with something other than its image breaks the mirror |
| Adxl345.AppendKeepsMirror | src/ADXL345.cpp:734-758 | a transfer keeps the mirror when the shadow's image changes only at the register an acknowledged write set, to the value written |
| Adxl345.WriteKeepsMirror | src/ADXL345.cpp:734-740 | a setter keeps the mirror when its update changes only the written register's image, to the code written |
| Adxl345.SetThresholdTap | src/ADXL345.cpp:57-70 | one write of the threshold code to THRESH_TAP; on success the shadow holds the milli-g value, saturated at 16000; on failure it is unchanged; the mirror is kept |
| Adxl345.SetOffsetX | src/ADXL345.cpp:100-106 | one write of the int8 offset's two's-complement byte to OFSX; the shadow changes only on success; the mirror is kept |
| Adxl345.SetOffsetY | src/ADXL345.cpp:112-118 | the same for OFSY |
| Adxl345.SetOffsetZ | src/ADXL345.cpp:124-130 | the same for OFSZ |
| Adxl345.SetTapDuration | src/ADXL345.cpp:144-157 | one write of the duration code to DUR; the shadow holds the ms value saturated at 159; the mirror is kept |
| Adxl345.SetTapLatency | src/ADXL345.cpp:172-185 | one write to LATENT; the shadow holds the ms value saturated at 319; the mirror is kept |
| Adxl345.SetTapWindow | src/ADXL345.cpp:200-213 | one write to WINDOW; the shadow holds the ms value saturated at 319; the mirror is kept |
| Adxl345.SetActiveThreshold | src/ADXL345.cpp:227-240 | one write to THRESH_ACT; the shadow holds the milli-g value saturated at 16000; the mirror is kept |
| Adxl345.SetInactiveThreshold | src/ADXL345.cpp:254-267 | one write to THRESH_INACT; the shadow holds the milli-g value saturated at 16000; the mirror is kept |
| Adxl345.SetTimeInactive | src/ADXL345.cpp:281-287 | one write of the seconds to TIME_INACT; the shadow changes only on success; the mirror is kept |
| Adxl345.SetActiveInactiveCtrl | src/ADXL345.cpp:301-307 | as written: the byte goes to TIME_INACT (0x26) while the activity/inactivity-control shadow takes it |
| Adxl345.SetActiveInactiveCtrlIntended | src/ADXL345.cpp:301-307 | the byte goes to ACT_INACT_CTL (0x27), the shadow takes it on success, and the mirror is kept |
| Adxl345.ActiveInactiveCtrlMisdirected | src/ADXL345.cpp:301-307 | as written, a successful call with a value other than the inactivity time leaves 0x27 as it was, puts the value in 0x26, and breaks the mirror |
| Adxl345.SetFreeFallThreshold | src/ADXL345.cpp:313-326 | one write of the threshold code to THRESH_FF; the uint8_t shadow keeps the saturated milli-g value modulo 256 |
| Adxl345.SetFreeFallTime | src/ADXL345.cpp:332-345 | one write of the 5 ms code to TIME_FF; the uint8_t shadow keeps the saturated ms value modulo 256 |
| Adxl345.SetAxesTapCtrl | src/ADXL345.cpp:359-365 | as written: the byte goes to ACT_INACT_CTL (0x27) while the tap-axes shadow takes it |
| Adxl345.SetAxesTapCtrlIntended | src/ADXL345.cpp:359-365 | the byte goes to TAP_AXES (0x2A), the shadow takes it on success, and the mirror is kept |
| Adxl345.AxesTapCtrlMisdirected | src/ADXL345.cpp:359-365 | as written, a successful call after a different activity/inactivity control was set leaves 0x2A as it was, overwrites 0x27, and breaks the mirror |
| Adxl345.MisdirectedFromStart | src/ADXL345.cpp:11-32 | from construction the shadow mirrors the device, its inactivity time differs from 0x70, and an intended control write of 0x70 reaches the state AxesTapCtrlMisdirected requires |
| Adxl345.SetDataRatePowerCtrl | src/ADXL345.cpp:391-397 | one write to BW_RATE; the shadow changes only on success; the mirror is kept |
| Adxl345.SetPowerCtrl | src/ADXL345.cpp:411-417 | one write to POWER_CTL; the shadow changes only on success; the mirror is kept |
| Adxl345.SetInterruptEnableCtrl | src/ADXL345.cpp:431-437 | one write to INT_ENABLE; the shadow changes only on success; the mirror is kept |
| Adxl345.SetInterruptMapPinCtrl | src/ADXL345.cpp:451-457 | one write to INT_MAP; the shadow changes only on success; the mirror is kept |
| Adxl345.SetFifoCtrl | src/ADXL345.cpp:555-561 | one write to FIFO_CTL; the shadow changes only on success; the mirror is kept |
| Adxl345.SetDataFormat | src/ADXL345.cpp:483-502 | one write to DATA_FORMAT; on success the format and a scale consistent with it are stored; on failure neither changes; the mirror is kept |
| Adxl345.AxesFromBytes | src/ADXL345.cpp:533-541 | three little-endian int16 values, each within the int16 range |
| Adxl345.AxisRegistersContiguous | inc/ADXL345.hpp:30-35 | byte i of a six-byte burst from DATAX0 is the output register at DATAX0 + i, which is the layout the decode assumes |
| Adxl345.AxesBytesRoundTrip | src/ADXL345.cpp:533-541 | decoding the six bytes of any three int16 values gives them back, and every six-byte reply is the encoding of its decode |
| Adxl345.GetRawData | src/ADXL345.cpp:533-541 | one six-byte read from DATAX0; on success only the sample changes, to the decoded reply with the current scale; the mirror is kept |
| Adxl345.ReadStatus | src/ADXL345.cpp:749-758 | a one-byte read returns the reply byte and never changes the shadow |
| Adxl345.GetTapSource | src/ADXL345.cpp:371-377 | one byte from ACT_TAP_STATUS; the shadow is unchanged |
| Adxl345.GetInterruptSource | src/ADXL345.cpp:463-469 | one byte from INT_SOURCE; the shadow is unchanged |
| Adxl345.GetFifoStatus | src/ADXL345.cpp:567-573 | one byte from FIFO_STATUS; the shadow is unchanged |
| Adxl345Procedures.Configure | src/ADXL345.cpp:583-600 | data format, power control and data rate written in that order; completes iff all three are acknowledged; the mirror and scale consistency are kept |
| Adxl345Procedures.ConfigureAbortState | src/ADXL345.cpp:583-600 | an aborted configuration has issued 1 to 3 writes, and exactly the writes before the failing one are in effect |
| Adxl345Procedures.Accumulate | src/ADXL345.cpp:605-611 | n six-byte reads into wrapping int16 accumulators: the result is the exact sum wrapped once; completes iff all n replies are good; the shadow and mirror are untouched |
| Adxl345Procedures.AccumulateStep | src/ADXL345.cpp:605-611 | adding the first sample into the wrapped accumulator and then the rest equals wrapping the whole sum once |
| Adxl345Procedures.WrapAbsorbs | src/ADXL345.cpp:605-611 | intermediate narrowing of the accumulator does not change the wrapped final sum |
| Adxl345Procedures.CalibrationOffsets | src/ADXL345.cpp:614-618 | the offsets are minus a quarter (>> 2) of the 64-sample mean, on Z after adding 256, narrowed to int8_t |
| Adxl345Procedures.CalibrationOffsetsIntended | src/ADXL345.cpp:618 | corrected: X and Y as written; Z is minus a quarter of the mean after subtracting 256, narrowed to int8_t |
| Adxl345Procedures.TrimResidual | src/ADXL345.cpp:614-618 | a value trimmed by four times the int8_t narrowing of −(v >> 2) ends in 0..3 exactly when −(v >> 2) fits the offset register |
| Adxl345Procedures.CalibratedResidualXY | src/ADXL345.cpp:616-617 | for int16 sums, the calibrated X and Y read 0..3 LSB (0 g) exactly when the mean is at least −508 |
| Adxl345Procedures.CalibratedResidualZ | src/ADXL345.cpp:618 | as written, the calibrated Z reads −256..−253 LSB (−1 g) exactly when the mean is at most 259 |
| Adxl345Procedures.CalibrationInvertsRestingZ | src/ADXL345.cpp:618 | as written, a device resting Z-up at +1 g (mean 256) is trimmed to read −256, that is −1 g |
| Adxl345Procedures.CalibratedResidualZIntended | src/ADXL345.cpp:618 | corrected, the calibrated Z reads 256..259 LSB (+1 g) exactly when the mean is at least −252 |
| Adxl345Procedures.ShiftsCompose | src/ADXL345.cpp:614-618 | `>> 8` equals averaging by `>> 6` then `>> 2` |
| Adxl345Procedures.WriteOffsets | src/ADXL345.cpp:620 | OFSX, OFSY and OFSZ written in order; completes iff all three are acknowledged; on success only the offsets change; the mirror is kept |
| Adxl345Procedures.WriteOffsetsAndRestore | src/ADXL345.cpp:620-632 | the offsets, then the given configuration; six acknowledged writes in that order; the mirror is kept |
| Adxl345Procedures.RestoreUndoesForce | src/ADXL345.cpp:627-628 | restoring the caller's format, power and rate after the forced ones gives the caller's shadow with only the offsets changed |
| Adxl345Procedures.CalibrateForced | src/ADXL345.cpp:602-632 | sample 64 times, write the offsets derived from the wrapped sums, restore the configuration; the exact trace and resulting shadow; target MinusOneG is the Z trim as written, PlusOneG the corrected one |
| Adxl345Procedures.OffsetCalibration | src/ADXL345.cpp:579-633 | completes iff 9 writes are acknowledged and 64 six-byte replies arrive, and then returns true; the trace and the shadow are exact, only the offsets change, and the mirror is kept; target MinusOneG is the Z trim as written, PlusOneG the corrected one |
| Adxl345Procedures.TimesIsProduct | src/ADXL345.cpp:605-611 | n repeated additions of a sample are n times the sample |
| Adxl345Procedures.ConstantTotal | src/ADXL345.cpp:605-611 | n identical replies sum to n copies of their sample |
| Adxl345Procedures.TotalBounds | src/ADXL345.cpp:605-611 | a sum of samples whose X lies in lo..hi lies between n·lo and n·hi |
| Adxl345Procedures.NoWrapInBand | src/ADXL345.cpp:603-611 | with every X sample in the ±2 g band (−512..511 LSB) the int16 accumulator never wraps |
| Adxl345Procedures.MeanOfConstantRun | src/ADXL345.cpp:614-618 | 64 copies of a sample in the band average back to that sample |
| Adxl345Procedures.MeanOfCopies | src/ADXL345.cpp:614-618 | 64·v fits int16 and shifts back to v, for v in the band |
| Adxl345Procedures.ConstantRunMean | src/ADXL345.cpp:605-618 | 64 identical replies in the band have the reply's sample as their mean |
| Adxl345Procedures.OffsetsOfMean | src/ADXL345.cpp:614-618 | the offsets depend on the sums only through their means |
| Adxl345Procedures.ConstantSampleOffsets | src/ADXL345.cpp:605-618 | a device that reads the same in-band sample 64 times gets offsets −(a>>2) on X and Y and −((a.z+256)>>2) on Z |
| Adxl345Procedures.RestingZOffsets | src/ADXL345.cpp:618 | a device flat with +1 g on Z gets Z offset −128, with −1 g gets 0, and slightly above +1 g the int8_t narrowing wraps to +127 |
| Adxl345Procedures.ZOffsetOf | src/ADXL345.cpp:618 | the Z offset for 64 copies of m is −((m+256)>>2) narrowed |
| Adxl345Procedures.CalibrationFailsAtPowerWrite | src/ADXL345.cpp:584-593 | a refused power-control write aborts after exactly two writes; the forced data format stays in effect and nothing is restored |
| Adxl345Procedures.SelfTestDeltas | src/ADXL345.cpp:677-707 | the response is the forced mean minus the unforced mean per axis, exact whenever the sums are int16 values |
| Adxl345Procedures.PassesIsIntegerBox | src/ADXL345.cpp:713-714 | the pass test's real-valued limits accept exactly 11..118 on X, −118..−11 on Y and 15..161 on Z |
| Adxl345Procedures.SettleAndSample | src/ADXL345.cpp:686-703 | 10 settling reads whose values are dropped, then 64 summed reads; completes iff 74 good replies; the exact trace |
| Adxl345Procedures.SelfTestSampling | src/ADXL345.cpp:662-707 | 64 reads, the self-test format write, 10 + 64 reads; the result is the response of the 138 replies; the exact trace |
| Adxl345Procedures.SelfTestForced | src/ADXL345.cpp:662-723 | the measurement, then the given configuration restored; completes iff 4 writes and 138 replies succeed |
| Adxl345Procedures.SelfTest | src/ADXL345.cpp:640-726 | completes iff 7 writes are acknowledged and 138 six-byte replies arrive; the verdict is the pass test of the response; the shadow is the caller's again; the trace is exact; the mirror is kept |
| Adxl345Session.FreeFallKeepsMirror | src/ADXL345.cpp:313-345 | the free-fall writes keep the mirror |
| Adxl345Session.Apply | src/ADXL345.cpp:57-726 | in either build (AsWritten: the source's control setters and Z trim; Corrected: the fixed ones) each public operation keeps the address and scale consistency and its transfers have the Conducted shape; every operation but the two misdirected setters as written keeps the mirror |
| Adxl345Session.Run | src/ADXL345.cpp:57-726 | in either build, any sequence of operations, stopping at the first throw, keeps the address and scale consistency and has the Conducted shape; the mirror is kept in the corrected build, and as written by every sequence that calls neither misdirected setter |
| Adxl345Session.SessionFromConstruction | inc/ADXL345.hpp:116-119 | from construction, as written or corrected, whatever the caller does and the bus answers, the object talks only to 0x53 and its scale matches its format; the mirror holds in the corrected build, and as written when neither misdirected setter is called |
| Hmc5883l.New | src/HMC5883L.cpp:10-15 | as written: datasheet defaults 0x10, 0x20, 0x01 (gain 1); no resolution and no field |
| Hmc5883l.Gain | src/HMC5883L.cpp:50 | the gain code is bits 7..5 of register B |
| Hmc5883l.Resolution | src/HMC5883L.cpp:51-76 | each gain's digital resolution, 0.73..4.35 mG/LSB |
| Hmc5883l.ResolutionTable | inc/HMC5883L.hpp:103-111 | each resolution is 1000/sensitivity rounded to the nearest hundredth, and a higher gain means a coarser resolution |
| Hmc5883l.SetConfigA | src/HMC5883L.cpp:22-28 | one write to register A; the shadow changes only on success |
| Hmc5883l.SetConfigB | src/HMC5883L.cpp:44-79 | one write to register B; on success the shadow and a resolution consistent with its gain; on failure neither changes |
| Hmc5883l.SetMode | src/HMC5883L.cpp:95-101 | one write to the mode register; the shadow changes only on success |
| Hmc5883l.BigEndian | src/HMC5883L.cpp:147-149 | a big-endian two's-complement int16 from its two bytes |
| Hmc5883l.OutputRegister | inc/HMC5883L.hpp:8-13 | exactly 0x03..0x08 are output registers, running X, Z, Y, each high byte first |
| Hmc5883l.OutputRegistersContiguous | inc/HMC5883L.hpp:8-13 | byte i of a six-byte burst from 0x03 is the output register at 0x03 + i, which is the layout Burst gives |
| Hmc5883l.FieldFromBytes | src/HMC5883L.cpp:144-151 | as written: the three byte pairs decode to x, y, z in register order, each in the int16 range |
| Hmc5883l.FieldFromBytesSwapsYZ | src/HMC5883L.cpp:144-151 | as written, the decode of a device holding (x, y, z) is (x, z, y) |
| Hmc5883l.FieldFromBytesCounterexample | src/HMC5883L.cpp:144-151 | a device holding (0, 1, 2) reads back as (0, 2, 1) |
| Hmc5883l.FieldFromBytesIntended | inc/HMC5883L.hpp:8-13 | y from the Y registers (third pair), z from the Z registers (second pair) |
| Hmc5883l.FieldRoundTrip | src/HMC5883L.cpp:144-151 | the intended decode reads every device field back unchanged, and every burst is the image of its decode |
| Hmc5883l.GetRawData | src/HMC5883L.cpp:144-151 | one six-byte read from 0x03; on success the field is the as-written decode, stored with the resolution in effect; on failure nothing changes |
| Hmc5883l.GetRawDataIntended | src/HMC5883L.cpp:144-151 | the same read with the intended decode |
| Hmc5883l.ReadStatus | src/HMC5883L.cpp:158-164 | one byte from the status register; the shadow is unchanged |
| Hmc5883l.NewInconsistent | src/HMC5883L.cpp:10-15 | as written, the constructed object's resolution does not match register B, and a get_raw_data that completes right after construction stores a reading scaled by no assigned resolution |
| Hmc5883l.NewIntended | src/HMC5883L.cpp:10-15 | the same defaults with the resolution of gain 1, consistent |
| Hmc5883l.NewIntendedScales | src/HMC5883L.cpp:147-149 | from the intended constructor, the first completed reading is scaled by the resolution of register B's gain, 0.92 mG/LSB |
| Hmc5883l.Apply | src/HMC5883L.cpp:22-164 | in either build (get_raw_data with the source's decode or the corrected one) every operation addresses 0x1E, keeps the resolution consistent with register B, and stores readings only with an assigned resolution |
| Hmc5883l.Run | src/HMC5883L.cpp:22-164 | in either build, any sequence of operations, stopping at the first throw, addresses 0x1E, keeps the resolution consistent and every stored reading scaled |
| Hmc5883l.RunAddresses | src/HMC5883L.cpp:172-196 | in either build, every transfer of a session goes to 0x1E |
| Hmc5883l.SessionKeepsResolution | src/HMC5883L.cpp:44-79 | from the intended constructor, in either build, the resolution always matches register B, and every stored reading was scaled by an assigned resolution |
| Itg3205.BlankMirrors | src/ITG_3205.cpp:10-17 | a shadow that has set nothing mirrors any device |
| Itg3205.WriteKeepsMirror | src/ITG_3205.cpp:218-224 | a setter keeps the mirror when its update changes only the written register's image, to the code written |
| Itg3205.SetId | src/ITG_3205.cpp:33-39 | the new address is written to WHO_AM_I at the old address, and becomes the object's address only on success |
| Itg3205.SetSampleRateDivider | src/ITG_3205.cpp:55-61 | one write to SMPLRT_DIV; the shadow changes only on success; the mirror is kept |
| Itg3205.DlpfCode | src/ITG_3205.cpp:77-83 | the register byte is FS_SEL plus the configuration, narrowed; for configurations below 8 the full-scale bits are 3 and the low bits the configuration |
| Itg3205.DlpfCodeCarries | src/ITG_3205.cpp:77-83 | the addition is not an or: configuration 8 carries into and clears the full-scale bits |
| Itg3205.SetDlpf | src/ITG_3205.cpp:77-83 | one write of DlpfCode to DLPF_FS; the shadow keeps the configuration; the mirror is kept |
| Itg3205.SetInterruptConfig | src/ITG_3205.cpp:99-105 | as written: the byte goes to DLPF_FS (0x16) while the interrupt-configuration shadow takes it |
| Itg3205.SetInterruptConfigIntended | src/ITG_3205.cpp:99-105 | the byte goes to INT_CFG (0x17), the shadow takes it on success, and the mirror is kept |
| Itg3205.InterruptConfigMisdirected | src/ITG_3205.cpp:99-105 | as written, a successful call with a byte other than the filter code leaves INT_CFG as it was, overwrites DLPF_FS, and breaks the mirror |
| Itg3205.SetPower | src/ITG_3205.cpp:185-191 | one write to PWR_MGM; the shadow changes only on success; the mirror is kept |
| Itg3205.New | src/ITG_3205.cpp:10-17 | the constructor writes divider 7, DLPF_FS 0x18 and power 0 at 0x68 in order; completes iff all three are acknowledged; the result mirrors the device |
| Itg3205.Temperature | src/ITG_3205.cpp:164 | 35 + (raw + 13200) / 280 with truncating division, always within −34..199 °C |
| Itg3205.TemperatureShape | src/ITG_3205.cpp:164 | the conversion is monotone, rises at least one degree per 280 counts on either side of −13200, and reads 35 there |
| Itg3205.TemperatureStepAtOffset | src/ITG_3205.cpp:164 | because the division truncates toward zero, the 35 °C step spans 559 counts, where every other degree spans 280 |
| Itg3205.ReadingFromBytes | src/ITG_3205.cpp:161-169 | four big-endian int16 values: temperature, then X, Y, Z |
| Itg3205.ReadingRoundTrip | src/ITG_3205.cpp:161-169 | decoding a device's burst gives back its rates and the temperature of its raw value |
| Itg3205.GetRawData | src/ITG_3205.cpp:161-169 | one eight-byte read from TEMP_OUT_H; on success only the reading changes; the mirror is kept |
| Itg3205.GetInterruptStatus | src/ITG_3205.cpp:112-118 | one byte from INT_STATUS; the shadow is unchanged |
| Itg3205.Apply | src/ITG_3205.cpp:33-191 | in either build (set_interrupt_configuration writing DLPF_FS as written, INT_CFG corrected) only a completed set_id changes the address; every other operation addresses the current one, and keeps the mirror unless it is set_interrupt_configuration as written |
| Itg3205.Run | src/ITG_3205.cpp:33-191 | in either build, a completed run ends at the last set_id's address; without set_id it addresses only the starting one, and it keeps the mirror when corrected or when set_interrupt_configuration is not called |
| Itg3205.SetIdRedirects | src/ITG_3205.cpp:33-39 | in either build, after a completed set_id every later transfer goes to the new address |

## Left out

- The I2C class (src/I2C.cpp, inc/I2C.hpp). Opening the device file, ioctl, read and write are replaced by the scripted link. A transfer fails when its acknowledgement is missing or refused, or its reply has the wrong length.
- The outcome of the register-select write inside each driver's readRegister. The source ignores it, so it is neither scripted nor traced.
- src/main.cpp and inc/GY_85.hpp, the application that drives the board. They are not part of the driver core.
- Floating-point arithmetic: scale × raw, rate / 14.375, resolution × raw, and the self-test limits. The model keeps raw counts plus the exact scale or resolution code. The encodings' float multipliers are related to the integer codes by `ThresholdFromDouble` and its three siblings, and the pass test by `PassesIsIntegerBox`.
- ProductTruncation and the four `…FromDouble` lemmas: the double product is characterised by `RoundedProduct` (within a relative 2^-53 of the exact product and never below a whole number it reaches), which is what IEEE-754 round-to-nearest guarantees; there is no bit-level model of binary64 multiplication. The conversion of an out-of-range product to uint8_t before the clamp overwrites it is not modelled.
- `sleep(0.1)` in the sampling loops and the `std::cout` of the self-test deltas. Time and output are not modelled.
- The text of the exceptions. An exception is `Abort` at the failing transfer.
- The getters of shadowed registers. They are field selectors of the shadow datatypes and never touch the bus.
- `htole16` and `htobe16` on the `uint16_t` buffers the bursts are read into. The model assembles each value from its two bytes directly, which is what the conversion yields on any host.
- The `return false` branches of offset_calibration and self_test, which are unreachable. The setters they test only return false after writeRegister has already thrown.
- Adxl345.RegisterImage: the free-fall threshold and time have no image, because their uint8_t shadows cannot hold the value and have no getter. A tap duration of 159 ms has none either, because both the exact 159 ms and the clamp are stored as 159.
- Adxl345Procedures.Sample: a reply of a length other than 6 counts as zero. Such a reply aborts the procedures before it is summed, so the zero never reaches a result.
- Adxl345Session.Apply: in the AsWritten build, set_active_inactive_ctrl and set_axes_tap_ctrl are not promised to keep the mirror, because they break it (ActiveInactiveCtrlMisdirected, AxesTapCtrlMisdirected). Address, scale and the Conducted shape are promised in both builds.
- Adxl345Session.Run: in the AsWritten build the mirror is promised only for sessions that call neither misdirected setter, for the same reason.
- Adxl345Session.SessionFromConstruction: likewise, the mirror is promised as written only when neither misdirected setter is called; the 0x53 address and the scale are promised for every session.
- Itg3205.Apply: in the AsWritten build, set_interrupt_configuration is not promised to keep the mirror, because it breaks it (InterruptConfigMisdirected).
- Hmc5883l.SessionKeepsResolution: stated from the intended constructor. From the constructor as written the resolution is unset until the first set_register_b_configuration (NewInconsistent).
- Itg3205.Run: in the AsWritten build the mirror is stated only for runs that do not call set_interrupt_configuration. In both builds it is stated only for runs without set_id. After a set_id the shadow talks to a different device whose registers the model does not track.
- The header's declared signatures where they differ from the definitions. The definitions in the .cpp files are modelled.

## Findings

| source | as written | input that shows it | evidently intended | confidence | as-written member | corrected member |
|---|---|---|---|---|---|---|
| src/ADXL345.cpp:301-307 | set_active_inactive_ctrl writes register 0x26 (inactivity time) | a successful call with 0x70 when the shadowed inactivity time is 0 sets 0x26 to 0x70 and leaves 0x27 untouched | write 0x27, the activity/inactivity axis control its shadow describes | high; not executed | Adxl345.ActiveInactiveCtrlMisdirected | Adxl345.SetActiveInactiveCtrlIntended |
| src/ADXL345.cpp:359-365 | set_axes_tap_ctrl writes register 0x27 (activity/inactivity control) | after the activity/inactivity control is set to 0x70, a successful call with 0x07 overwrites 0x27 and leaves 0x2A untouched | write 0x2A, the tap axes register its shadow describes | high; not executed | Adxl345.AxesTapCtrlMisdirected | Adxl345.SetAxesTapCtrlIntended |
| src/ITG_3205.cpp:99-105 | set_interrupt_configuration writes register 0x16 (DLPF_FS) | after construction (filter code 0x18), a successful call with 0x31 overwrites the filter and full-scale register and leaves INT_CFG untouched | write 0x17, INT_CFG | high; not executed | Itg3205.InterruptConfigMisdirected | Itg3205.SetInterruptConfigIntended |
| src/HMC5883L.cpp:144-151 | the second byte pair goes to y and the third to z, but the device's registers run X, Z, Y | a device holding (x, y, z) = (0, 1, 2) is read as (0, 2, 1) | y from DATA_Y_MSB/LSB and z from DATA_Z_MSB/LSB | high; not executed | Hmc5883l.FieldFromBytesCounterexample | Hmc5883l.FieldFromBytesIntended |
| src/HMC5883L.cpp:10-15 | the constructor never sets the digital resolution, so a get_raw_data before set_register_b_configuration scales by an indeterminate float | construction then a completed get_raw_data stores a reading with no assigned resolution | the resolution of the default gain, 0.92 mG/LSB | high; not executed | Hmc5883l.NewInconsistent | Hmc5883l.NewIntendedScales |
| src/ADXL345.cpp:618 | the Z offset is −(((z >> 6) + 256) >> 2), which trims a resting device to −1 g on Z | a board lying flat Z-up reads +1 g (a mean of 256 LSB) and is trimmed to read −256 LSB, −1 g | −(((z >> 6) − 256) >> 2), trimming Z to the +1 g a Z-up board at rest should read; the source is right only for a board mounted Z-down | medium; not executed | Adxl345Procedures.CalibrationInvertsRestingZ | Adxl345Procedures.CalibratedResidualZIntended |
