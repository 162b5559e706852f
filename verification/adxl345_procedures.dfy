/** The two composite procedures of the ADXL345 driver,
    offset_calibration and self_test (src/ADXL345.cpp), built from the
    single-transfer operations. Both force full resolution at +/-16 g in
    measurement mode, sample the axes 64 at a time into int16 accumulators
    that wrap, and restore the three configuration registers they changed.
    Because every transfer throws on failure, neither procedure can reach
    its `return false` branches: a failure anywhere aborts at once. */
module Adxl345Procedures {
  import opened Integers
  import opened Transport
  import opened Adxl345Registers
  import opened Adxl345

  /** The acknowledged writes of set_data_format, set_power_ctrl and
      set_data_rt_power_ctrl, in that order. */
  function ConfigureEvents(dev: uint8, format: uint8, power: uint8, rate: uint8): seq<Event>
  {
    [Wrote(dev, DATA_FORMAT, format, true), Wrote(dev, POWER_CTL, power, true), Wrote(dev, BW_RATE, rate, true)]
  }

  /** n successful six-byte bursts from DATAX0. */
  function Fetches(dev: uint8, n: nat): (es: seq<Event>)
    ensures |es| == n
  {
    seq(n, i => Fetched(dev, DATAX0, 6, true))
  }

  /** The shadow after the first k of the three configuration writes. */
  function Configured(s: Shadow, format: uint8, power: uint8, rate: uint8, k: nat): Shadow
  {
    var s1 := s.(dataFormat := format, scale := ScaleFor(format));
    var s2 := s1.(powerCtrl := power);
    if k == 0 then s else if k == 1 then s1 else if k == 2 then s2 else s2.(dataRatePowerCtrl := rate)
  }

  /** Write data format, power control and data rate, in that order, as
      both procedures do to force their configuration and to restore the
      caller's. */
  function Configure(s: Shadow, l: Link, format: uint8, power: uint8, rate: uint8): (r: Step<Shadow, ()>)
    ensures Conducted(l, r.link, r.Done?, s.id)
    ensures r.Done? <==> AcceptsAll(l.acks, 3)
    ensures r.Done? ==> r.state == Configured(s, format, power, rate, 3)
    ensures r.Done? ==> r.link == Link(l.acks[3..], l.replies, l.trace + ConfigureEvents(s.id, format, power, rate))
    ensures r.link.replies == l.replies
    ensures r.state.id == s.id
    ensures ScaleConsistent(s) ==> ScaleConsistent(r.state)
    ensures Mirrors(s, l.trace) ==> Mirrors(r.state, r.link.trace)
  {
    var f := SetDataFormat(s, l, format);
    AcceptsThree(l.acks);
    if f.Abort? then f
    else
      var p := SetPowerCtrl(f.state, f.link, power);
      ConductedChain(l, f.link, p.link, p.Done?, s.id);
      if p.Abort? then p
      else
        var b := SetDataRatePowerCtrl(p.state, p.link, rate);
        ConductedChain(l, p.link, b.link, b.Done?, s.id);
        assert b.Done? ==> l.acks[1..][1..][1..] == l.acks[3..];
        b
  }

  /** Three acknowledgements, one by one. */
  lemma AcceptsThree(acks: seq<bool>)
    ensures AcceptsAll(acks, 3) <==> 3 <= |acks| && acks[0] && acks[1] && acks[2]
  {
    AcceptsAllEach(acks, 3);
  }

  /** An aborted configuration leaves exactly the writes before the
      failing one in effect. */
  lemma ConfigureAbortState(s: Shadow, l: Link, format: uint8, power: uint8, rate: uint8)
    ensures var r := Configure(s, l, format, power, rate);
      r.Abort? ==> 0 < |r.link.trace| - |l.trace| <= 3
                   && r.state == Configured(s, format, power, rate, |r.link.trace| - |l.trace| - 1)
  {
  }

  /** Componentwise conversion to int16_t. */
  function Wrap(a: Axes): (w: Axes)
    ensures w.x == ToInt16(a.x) && w.y == ToInt16(a.y) && w.z == ToInt16(a.z)
  {
    Axes(ToInt16(a.x), ToInt16(a.y), ToInt16(a.z))
  }

  /** The axis values in a reply. Only six-byte replies are ever summed
      (a shorter one aborts the procedure first), so the zero for other
      lengths never enters a result. */
  function Sample(reply: seq<uint8>): Axes
  {
    if |reply| == 6 then AxesFromBytes(reply) else Axes(0, 0, 0)
  }

  /** Exact (unbounded) sum of the axis values of a run of replies. */
  function Total(replies: seq<seq<uint8>>): Axes
  {
    if |replies| == 0 then Axes(0, 0, 0)
    else Sample(replies[0]).Plus(Total(replies[1..]))
  }

  /** Exact sum of the first n replies. */
  function SampleSum(replies: seq<seq<uint8>>, n: nat): Axes
    requires n <= |replies|
  {
    Total(replies[..n])
  }

  /** The sampling loop: n bursts from DATAX0, each axis added into an
      int16 accumulator as `sample + acc`, which wraps. The result is the
      exact sum wrapped once, and the shadow is never touched. */
  function Accumulate(s: Shadow, l: Link, n: nat, acc: Axes): (r: Step<Shadow, Axes>)
    decreases |l.replies|
    ensures Conducted(l, r.link, r.Done?, s.id)
    ensures r.state == s
    ensures r.Done? <==> DeliversAll(l.replies, n, 6)
    ensures r.Done? ==> r.value == Wrap(acc.Plus(SampleSum(l.replies, n)))
    ensures r.Done? ==> r.link == Link(l.acks, l.replies[n..], l.trace + Fetches(s.id, n))
    ensures r.link.acks == l.acks
    ensures Mirrors(s, l.trace) ==> Mirrors(r.state, r.link.trace)
  {
    if n == 0 then
      assert l.trace + Fetches(s.id, 0) == l.trace;
      Done(s, l, Wrap(acc))
    else
      var read := ReadStep(s, l, s.id, DATAX0, 6);
      DeliversAllStep(l.replies, n, 6);
      AppendKeepsMirror(s, l.trace, Fetched(s.id, DATAX0, 6, read.Done?), s);
      if read.Abort? then Abort(s, read.link)
      else
        var sample := AxesFromBytes(read.value);
        var r := Accumulate(s, read.link, n - 1, Wrap(sample.Plus(acc)));
        ConductedChain(l, read.link, r.link, r.Done?, s.id);
        if r.Done? then
          AccumulateStep(l.replies, n, acc);
          FetchesStep(l.trace, s.id, n);
          assert l.replies[1..][n - 1..] == l.replies[n..];
          r
        else
          r
  }

  lemma PlusZero(a: Axes)
    ensures Axes(0, 0, 0).Plus(a) == a
  {
  }

  /** One step of the sampling loop: the first sample added into the
      wrapped accumulator, then the rest, is the whole sum wrapped once. */
  lemma AccumulateStep(replies: seq<seq<uint8>>, n: nat, acc: Axes)
    requires 0 < n && DeliversAll(replies, n, 6)
    ensures DeliversAll(replies[1..], n - 1, 6)
    ensures Wrap(Wrap(Sample(replies[0]).Plus(acc)).Plus(SampleSum(replies[1..], n - 1)))
         == Wrap(acc.Plus(SampleSum(replies, n)))
  {
    DeliversAllStep(replies, n, 6);
    TotalStep(replies, n);
    WrapAbsorbs(acc, Sample(replies[0]), Total(replies[1..][..n - 1]));
  }

  lemma TotalStep(replies: seq<seq<uint8>>, n: nat)
    requires 0 < n <= |replies|
    ensures Total(replies[..n]) == Sample(replies[0]).Plus(Total(replies[1..][..n - 1]))
  {
    assert replies[..n][1..] == replies[1..][..n - 1];
    assert replies[..n][0] == replies[0];
  }

  /** Wrapping the accumulator after a step changes nothing once the
      final sum is wrapped. */
  lemma WrapAbsorbs(acc: Axes, sample: Axes, rest: Axes)
    ensures Wrap(Wrap(sample.Plus(acc)).Plus(rest)) == Wrap(acc.Plus(sample.Plus(rest)))
  {
    ToInt16OfSum(rest.x, sample.x + acc.x);
    ToInt16OfSum(rest.y, sample.y + acc.y);
    ToInt16OfSum(rest.z, sample.z + acc.z);
    assert rest.x + (sample.x + acc.x) == acc.x + (sample.x + rest.x);
    assert rest.y + (sample.y + acc.y) == acc.y + (sample.y + rest.y);
    assert rest.z + (sample.z + acc.z) == acc.z + (sample.z + rest.z);
  }

  lemma FetchesStep(trace: seq<Event>, dev: uint8, n: nat)
    requires n > 0
    ensures trace + [Fetched(dev, DATAX0, 6, true)] + Fetches(dev, n - 1) == trace + Fetches(dev, n)
  {
    assert [Fetched(dev, DATAX0, 6, true)] + Fetches(dev, n - 1) == Fetches(dev, n);
  }

  /** Average of 64 samples by arithmetic shift (>> 6). */
  function Mean(sum: Axes): Axes
  {
    Axes(ShiftRight(sum.x, 6), ShiftRight(sum.y, 6), ShiftRight(sum.z, 6))
  }

  /** offset_calibration's derivation, as written: -(x >> 8), -(y >> 8)
      and -(((z >> 6) + 256) >> 2), each narrowed to int8_t. Shifting by 8
      is averaging over 64 samples and then converting 3.9 mg per LSB to
      the offset registers' 15.6 mg per LSB. */
  function CalibrationOffsets(sum: Axes): (o: Axes)
    ensures o.x == ToInt8(-ShiftRight(Mean(sum).x, 2))
    ensures o.y == ToInt8(-ShiftRight(Mean(sum).y, 2))
    ensures o.z == ToInt8(-ShiftRight(Mean(sum).z + 256, 2))
    ensures -0x80 <= o.x < 0x80 && -0x80 <= o.y < 0x80 && -0x80 <= o.z < 0x80
  {
    ShiftsCompose(sum.x);
    ShiftsCompose(sum.y);
    Axes(ToInt8(-ShiftRight(sum.x, 8)),
         ToInt8(-ShiftRight(sum.y, 8)),
         ToInt8(-ShiftRight(ShiftRight(sum.z, 6) + 256, 2)))
  }

  lemma ShiftsCompose(x: int)
    ensures ShiftRight(x, 8) == ShiftRight(ShiftRight(x, 6), 2)
  {
    assert Pow2(8) == 256 && Pow2(6) == 64 && Pow2(2) == 4;
  }

  /** The Z trim that offset_calibration's stated goal, a resting reading
      of +1 g on Z, calls for: -(((z >> 6) - 256) >> 2); X and Y as
      written. */
  function CalibrationOffsetsIntended(sum: Axes): (o: Axes)
    ensures o.x == CalibrationOffsets(sum).x && o.y == CalibrationOffsets(sum).y
    ensures o.z == ToInt8(-ShiftRight(Mean(sum).z - 256, 2))
    ensures -0x80 <= o.x < 0x80 && -0x80 <= o.y < 0x80 && -0x80 <= o.z < 0x80
  {
    var written := CalibrationOffsets(sum);
    Axes(written.x, written.y, ToInt8(-ShiftRight(ShiftRight(sum.z, 6) - 256, 2)))
  }

  /** The resting Z reading a calibration aims at: -1 g is what the
      source's trim gives, +1 g what its stated goal asks for. */
  datatype ZTarget = MinusOneG | PlusOneG

  function Offsets(sum: Axes, target: ZTarget): (o: Axes)
    ensures -0x80 <= o.x < 0x80 && -0x80 <= o.y < 0x80 && -0x80 <= o.z < 0x80
  {
    if target.MinusOneG? then CalibrationOffsets(sum) else CalibrationOffsetsIntended(sum)
  }

  /** A 64-sample mean of int16 sums lies in -512..511. */
  lemma MeanBounds(sum: Axes)
    requires -0x8000 <= sum.x < 0x8000 && -0x8000 <= sum.y < 0x8000 && -0x8000 <= sum.z < 0x8000
    ensures -512 <= Mean(sum).x < 512 && -512 <= Mean(sum).y < 512 && -512 <= Mean(sum).z < 512
  {
    assert Pow2(6) == 64;
  }

  /** The device adds four times an offset register (15.6 mg per LSB) to
      its 3.9 mg-per-LSB samples. Trimming a value v by the int8_t
      narrowing of -(v >> 2) leaves 0..3 LSB exactly when -(v >> 2) fits
      the register; otherwise the narrowing wraps and the trim is off by
      1024 LSB. */
  lemma TrimResidual(v: int)
    requires -1024 <= v < 1024
    ensures 0 <= v + 4 * ToInt8(-ShiftRight(v, 2)) <= 3 <==> -508 <= v < 516
  {
    var q := ShiftRight(v, 2);
    assert Pow2(2) == 4;
    assert 4 * q <= v < 4 * q + 4;
    if v < -508 {
      assert 128 <= -q <= 256;
      assert ToInt8(-q) == -q - 256 || ToInt8(-q) == 0;
    } else if v >= 516 {
      assert -255 <= -q <= -129;
      assert ToInt8(-q) == -q + 256;
    }
  }

  /** As written, calibration trims X and Y of an int16-ranged sum to 0..3
      LSB above 0 g exactly when the mean is not within 4 LSB of the
      bottom of the range. */
  lemma CalibratedResidualXY(sum: Axes)
    requires -0x8000 <= sum.x < 0x8000 && -0x8000 <= sum.y < 0x8000 && -0x8000 <= sum.z < 0x8000
    ensures 0 <= Mean(sum).x + 4 * CalibrationOffsets(sum).x <= 3 <==> Mean(sum).x >= -508
    ensures 0 <= Mean(sum).y + 4 * CalibrationOffsets(sum).y <= 3 <==> Mean(sum).y >= -508
  {
    MeanBounds(sum);
    TrimResidual(Mean(sum).x);
    TrimResidual(Mean(sum).y);
  }

  /** As written, calibration trims Z to -256..-253 LSB, that is -1 g at
      full resolution, for every mean up to 259 LSB: the correct rest
      reading only for a board lying Z-down. */
  lemma CalibratedResidualZ(sum: Axes)
    requires -0x8000 <= sum.x < 0x8000 && -0x8000 <= sum.y < 0x8000 && -0x8000 <= sum.z < 0x8000
    ensures -256 <= Mean(sum).z + 4 * CalibrationOffsets(sum).z <= -253 <==> Mean(sum).z <= 259
  {
    MeanBounds(sum);
    TrimResidual(Mean(sum).z + 256);
  }

  /** A device resting Z-up at +1 g (a mean of 256 LSB) is trimmed to read
      -1 g. */
  lemma CalibrationInvertsRestingZ()
    ensures Mean(Axes(0, 0, 64 * 256)).z == 256
    ensures Mean(Axes(0, 0, 64 * 256)).z + 4 * CalibrationOffsets(Axes(0, 0, 64 * 256)).z == -256
  {
    RestingZOffsets();
    assert Pow2(6) == 64;
  }

  /** The intended trim brings Z to 256..259 LSB, +1 g, for every mean
      from -252 LSB up. */
  lemma CalibratedResidualZIntended(sum: Axes)
    requires -0x8000 <= sum.x < 0x8000 && -0x8000 <= sum.y < 0x8000 && -0x8000 <= sum.z < 0x8000
    ensures 256 <= Mean(sum).z + 4 * CalibrationOffsetsIntended(sum).z <= 259 <==> Mean(sum).z >= -252
  {
    MeanBounds(sum);
    TrimResidual(Mean(sum).z - 256);
  }

  /** The acknowledged writes of the three offset registers. */
  function OffsetEvents(dev: uint8, o: Axes): seq<Event>
    requires -0x80 <= o.x < 0x80 && -0x80 <= o.y < 0x80 && -0x80 <= o.z < 0x80
  {
    [Wrote(dev, OFSX, ToUint8(o.x), true), Wrote(dev, OFSY, ToUint8(o.y), true), Wrote(dev, OFSZ, ToUint8(o.z), true)]
  }

  /** set_offset_x, set_offset_y, set_offset_z in that order. */
  function WriteOffsets(s: Shadow, l: Link, o: Axes): (r: Step<Shadow, ()>)
    requires -0x80 <= o.x < 0x80 && -0x80 <= o.y < 0x80 && -0x80 <= o.z < 0x80
    ensures r.Done? <==> AcceptsAll(l.acks, 3)
    ensures r.Done? ==> r.state == s.(offsetX := o.x, offsetY := o.y, offsetZ := o.z)
    ensures r.Done? ==> r.link == Link(l.acks[3..], l.replies, l.trace + OffsetEvents(s.id, o))
    ensures r.link.replies == l.replies
    ensures r.state.id == s.id
    ensures Conducted(l, r.link, r.Done?, s.id)
    ensures ScaleConsistent(s) ==> ScaleConsistent(r.state)
    ensures Mirrors(s, l.trace) ==> Mirrors(r.state, r.link.trace)
  {
    var x := SetOffsetX(s, l, o.x);
    AcceptsThree(l.acks);
    if x.Abort? then x
    else
      var y := SetOffsetY(x.state, x.link, o.y);
      ConductedChain(l, x.link, y.link, y.Done?, s.id);
      if y.Abort? then y
      else
        var z := SetOffsetZ(y.state, y.link, o.z);
        ConductedChain(l, y.link, z.link, z.Done?, s.id);
        assert z.Done? ==> l.acks[1..][1..][1..] == l.acks[3..];
        z
  }

  /** The second half of offset_calibration: the three offsets, then the
      caller's configuration put back. */
  function WriteOffsetsAndRestore(s: Shadow, l: Link, o: Axes, format: uint8, power: uint8, rate: uint8): (r: Step<Shadow, ()>)
    requires -0x80 <= o.x < 0x80 && -0x80 <= o.y < 0x80 && -0x80 <= o.z < 0x80
    ensures Conducted(l, r.link, r.Done?, s.id)
    ensures r.Done? <==> AcceptsAll(l.acks, 6)
    ensures r.Done? ==> r.state == Configured(s.(offsetX := o.x, offsetY := o.y, offsetZ := o.z), format, power, rate, 3)
    ensures r.Done? ==> r.link.trace == l.trace + OffsetEvents(s.id, o) + ConfigureEvents(s.id, format, power, rate)
    ensures r.state.id == s.id
    ensures ScaleConsistent(s) ==> ScaleConsistent(r.state)
    ensures Mirrors(s, l.trace) ==> Mirrors(r.state, r.link.trace)
  {
    var written := WriteOffsets(s, l, o);
    AcceptsAllSplit(l.acks, 3, 3);
    if written.Abort? then written
    else
      var restored := Configure(written.state, written.link, format, power, rate);
      ConductedChain(l, written.link, restored.link, restored.Done?, s.id);
      restored
  }

  /** Restoring the caller's three registers undoes the forced ones,
      whatever else was written in between. */
  lemma RestoreUndoesForce(s: Shadow, o: Axes)
    requires -0x80 <= o.x < 0x80 && -0x80 <= o.y < 0x80 && -0x80 <= o.z < 0x80
    ensures Configured(Configured(s, PROCEDURE_FORMAT, MEASURE, 0x0A, 3).(offsetX := o.x, offsetY := o.y, offsetZ := o.z),
                       s.dataFormat, s.powerCtrl, s.dataRatePowerCtrl, 3)
         == s.(offsetX := o.x, offsetY := o.y, offsetZ := o.z, scale := ScaleFor(s.dataFormat))
  {
  }

  /** A data format written before a full configuration is forgotten. */
  lemma ConfigureOverwritesFormat(s: Shadow, earlier: uint8, format: uint8, power: uint8, rate: uint8)
    ensures Configured(s.(dataFormat := earlier, scale := ScaleFor(earlier)), format, power, rate, 3)
         == Configured(s, format, power, rate, 3)
  {
  }

  /** offset_calibration once the forced configuration is in place:
      sample, write the offsets, put back the given configuration. */
  function CalibrateForced(s: Shadow, l: Link, target: ZTarget, format: uint8, power: uint8, rate: uint8): (r: Step<Shadow, bool>)
    ensures Conducted(l, r.link, r.Done?, s.id)
    ensures r.Done? <==> AcceptsAll(l.acks, 6) && DeliversAll(l.replies, 64, 6)
    ensures r.Done? ==> r.value
    ensures r.Done? ==>
      var o := Offsets(Wrap(SampleSum(l.replies, 64)), target);
      && r.state == Configured(s.(offsetX := o.x, offsetY := o.y, offsetZ := o.z), format, power, rate, 3)
      && r.link.trace == l.trace + Fetches(s.id, 64) + OffsetEvents(s.id, o) + ConfigureEvents(s.id, format, power, rate)
    ensures r.state.id == s.id
    ensures ScaleConsistent(s) ==> ScaleConsistent(r.state)
    ensures Mirrors(s, l.trace) ==> Mirrors(r.state, r.link.trace)
  {
    var sampled := Accumulate(s, l, 64, Axes(0, 0, 0));
    if sampled.Abort? then Abort(sampled.state, sampled.link)
    else
      var o := Offsets(sampled.value, target);
      var rest := WriteOffsetsAndRestore(sampled.state, sampled.link, o, format, power, rate);
      ConductedChain(l, sampled.link, rest.link, rest.Done?, s.id);
      PlusZero(SampleSum(l.replies, 64));
      if rest.Abort? then Abort(rest.state, rest.link)
      else Done(rest.state, rest.link, true)
  }

  /** offset_calibration. On completion it has written, in order, the
      forced configuration, read 64 samples, written the three offsets
      derived from their wrapped sums and restored the caller's
      configuration, and the shadow differs from the caller's only in the
      offsets (and in the scale factor, re-derived from the restored data
      format). It never returns false. The Z trim is the source's with
      target MinusOneG and the corrected one with PlusOneG. */
  function OffsetCalibration(s: Shadow, l: Link, target: ZTarget): (r: Step<Shadow, bool>)
    ensures Conducted(l, r.link, r.Done?, s.id)
    ensures r.Done? <==> AcceptsAll(l.acks, 9) && DeliversAll(l.replies, 64, 6)
    ensures r.Done? ==> r.value
    ensures r.Done? ==>
      var o := Offsets(Wrap(SampleSum(l.replies, 64)), target);
      && r.state == s.(offsetX := o.x, offsetY := o.y, offsetZ := o.z, scale := ScaleFor(s.dataFormat))
      && r.link.trace == l.trace + ConfigureEvents(s.id, PROCEDURE_FORMAT, MEASURE, 0x0A) + Fetches(s.id, 64)
                          + OffsetEvents(s.id, o) + ConfigureEvents(s.id, s.dataFormat, s.powerCtrl, s.dataRatePowerCtrl)
    ensures r.state.id == s.id
    ensures ScaleConsistent(s) ==> ScaleConsistent(r.state)
    ensures Mirrors(s, l.trace) ==> Mirrors(r.state, r.link.trace)
  {
    var forced := Configure(s, l, PROCEDURE_FORMAT, MEASURE, 0x0A);
    AcceptsAllSplit(l.acks, 3, 6);
    if forced.Abort? then Abort(forced.state, forced.link)
    else
      var rest := CalibrateForced(forced.state, forced.link, target, s.dataFormat, s.powerCtrl, s.dataRatePowerCtrl);
      ConductedChain(l, forced.link, rest.link, rest.Done?, s.id);
      if rest.Abort? then Abort(rest.state, rest.link)
      else
        var o := Offsets(Wrap(SampleSum(l.replies, 64)), target);
        RestoreUndoesForce(s, o);
        Done(rest.state, rest.link, true)
  }

  /** n copies of a, added up. */
  function Times(n: nat, a: Axes): Axes
  {
    if n == 0 then Axes(0, 0, 0) else a.Plus(Times(n - 1, a))
  }

  lemma {:induction false} TimesIsProduct(n: nat, a: Axes)
    ensures Times(n, a) == Axes(n * a.x, n * a.y, n * a.z)
  {
    if n > 0 {
      TimesIsProduct(n - 1, a);
      assert a.x + (n - 1) * a.x == n * a.x;
      assert a.y + (n - 1) * a.y == n * a.y;
      assert a.z + (n - 1) * a.z == n * a.z;
    }
  }

  /** A run of n identical replies sums to n times their sample. */
  lemma {:induction false} ConstantTotal(reply: seq<uint8>, n: nat)
    ensures Total(seq(n, i => reply)) == Times(n, Sample(reply))
  {
    if n > 0 {
      var run := seq(n, i => reply);
      ConstantTotal(reply, n - 1);
      assert run[0] == reply;
      assert run[1..] == seq(n - 1, i => reply);
    }
  }

  /** A sum of samples whose X each lie in lo..hi lies between n copies
      of lo and n copies of hi. */
  lemma {:induction false} TotalBounds(replies: seq<seq<uint8>>, lo: int, hi: int)
    requires forall i | 0 <= i < |replies| :: lo <= Sample(replies[i]).x <= hi
    ensures Times(|replies|, Axes(lo, lo, lo)).x <= Total(replies).x <= Times(|replies|, Axes(hi, hi, hi)).x
  {
    if |replies| > 0 {
      assert forall i | 0 <= i < |replies| - 1 :: replies[1..][i] == replies[i + 1];
      TotalBounds(replies[1..], lo, hi);
      assert lo <= Sample(replies[0]).x <= hi;
    }
  }

  /** The int16 accumulators cannot wrap while every X sample lies in
      -512..511, the full-resolution +/-2 g band (64 * 512 = 2^15). */
  lemma NoWrapInBand(replies: seq<seq<uint8>>)
    requires 64 <= |replies|
    requires forall i | 0 <= i < 64 :: -512 <= Sample(replies[i]).x <= 511
    ensures Wrap(SampleSum(replies, 64)).x == SampleSum(replies, 64).x
  {
    TotalBounds(replies[..64], -512, 511);
    TimesIsProduct(64, Axes(-512, -512, -512));
    TimesIsProduct(64, Axes(511, 511, 511));
  }

  /** 64 copies of a sample in the -512..511 band fit the int16
      accumulators, and their mean is the sample. */
  lemma MeanOfConstantRun(a: Axes)
    requires -512 <= a.x <= 511 && -512 <= a.y <= 511 && -512 <= a.z <= 511
    ensures Mean(Wrap(Times(64, a))) == a
  {
    TimesIsProduct(64, a);
    MeanOfCopies(a.x);
    MeanOfCopies(a.y);
    MeanOfCopies(a.z);
  }

  lemma MeanOfCopies(v: int)
    requires -512 <= v <= 511
    ensures ShiftRight(ToInt16(64 * v), 6) == v
  {
    assert ToInt16(64 * v) == 64 * v;
    assert Pow2(6) == 64;
  }

  /** A device that reads the same sample a in all 64 bursts, with every
      axis in -512..511, gets the offsets -(a >> 2) on X and Y and
      -((a.z + 256) >> 2) on Z: the mean is exactly a. */
  lemma ConstantSampleOffsets(reply: seq<uint8>, replies: seq<seq<uint8>>)
    requires |reply| == 6
    requires var a := Sample(reply);
      -512 <= a.x <= 511 && -512 <= a.y <= 511 && -512 <= a.z <= 511
    requires 64 <= |replies| && forall i | 0 <= i < 64 :: replies[i] == reply
    ensures var a := Sample(reply);
      CalibrationOffsets(Wrap(SampleSum(replies, 64)))
        == Axes(ToInt8(-ShiftRight(a.x, 2)), ToInt8(-ShiftRight(a.y, 2)), ToInt8(-ShiftRight(a.z + 256, 2)))
  {
    ConstantRunMean(reply, replies);
    OffsetsOfMean(Wrap(SampleSum(replies, 64)), Sample(reply));
  }

  /** 64 equal samples in the band average to that sample. */
  lemma ConstantRunMean(reply: seq<uint8>, replies: seq<seq<uint8>>)
    requires var a := Sample(reply);
      -512 <= a.x <= 511 && -512 <= a.y <= 511 && -512 <= a.z <= 511
    requires 64 <= |replies| && forall i | 0 <= i < 64 :: replies[i] == reply
    ensures Mean(Wrap(SampleSum(replies, 64))) == Sample(reply)
  {
    assert replies[..64] == seq(64, i => reply);
    ConstantTotal(reply, 64);
    MeanOfConstantRun(Sample(reply));
  }

  /** The offsets depend on the sums only through their means. */
  lemma OffsetsOfMean(sum: Axes, mean: Axes)
    requires Mean(sum) == mean
    ensures CalibrationOffsets(sum)
         == Axes(ToInt8(-ShiftRight(mean.x, 2)), ToInt8(-ShiftRight(mean.y, 2)), ToInt8(-ShiftRight(mean.z + 256, 2)))
  {
  }

  /** The Z offset as written, for a device lying flat: with +1 g on Z
      (256 LSB at full resolution) it saturates the offset register at
      -128, with -1 g it is 0, and a reading slightly above +1 g makes
      the int8_t narrowing wrap to +127. */
  lemma RestingZOffsets()
    ensures CalibrationOffsets(Axes(0, 0, 64 * 256)) == Axes(0, 0, -128)
    ensures CalibrationOffsets(Axes(0, 0, 64 * -256)) == Axes(0, 0, 0)
    ensures CalibrationOffsets(Axes(0, 0, 64 * 260)) == Axes(0, 0, 127)
  {
    ZOffsetOf(256, 128);
    ZOffsetOf(-256, 0);
    ZOffsetOf(260, 129);
    assert ToInt8(-128) == -128 && ToInt8(0) == 0 && ToInt8(-129) == 127;
  }

  /** The Z offset for a sum of 64 copies of m, where (m + 256) >> 2 is q. */
  lemma ZOffsetOf(m: int, q: int)
    requires 4 * q <= m + 256 < 4 * q + 4
    ensures CalibrationOffsets(Axes(0, 0, 64 * m)) == Axes(ToInt8(0), ToInt8(0), ToInt8(-q))
  {
    assert Pow2(6) == 64 && Pow2(2) == 4 && Pow2(8) == 256;
    assert ShiftRight(0, 8) == 0;
    assert ShiftRight(64 * m, 6) == m;
    assert ShiftRight(m + 256, 2) == q;
  }

  /** A failure of the second configuration write (power control) aborts
      offset_calibration after exactly two writes: the forced data format
      stays in effect, and nothing restores the caller's configuration. */
  lemma CalibrationFailsAtPowerWrite(s: Shadow, l: Link, target: ZTarget)
    requires |l.acks| >= 2 && l.acks[0] && !l.acks[1]
    ensures var r := OffsetCalibration(s, l, target);
      && r.Abort?
      && r.state == s.(dataFormat := PROCEDURE_FORMAT, scale := ScaleFor(PROCEDURE_FORMAT))
      && r.link.trace == l.trace + [Wrote(s.id, DATA_FORMAT, PROCEDURE_FORMAT, true), Wrote(s.id, POWER_CTL, MEASURE, false)]
  {
    AcceptsThree(l.acks);
    AcceptsAllSplit(l.acks, 3, 6);
    assert l.acks[1..][0] == l.acks[1];
  }

  /** The self-test response: each axis' 64-sample mean with the
      self-test force, minus its mean without, narrowed to int16_t. The
      accumulators are int16 values, so their means lie in -512..511 and
      the narrowing never changes the difference. */
  function SelfTestDeltas(off: Axes, on: Axes): (d: Axes)
    ensures -0x8000 <= off.x < 0x8000 && -0x8000 <= on.x < 0x8000 ==> d.x == Mean(on).x - Mean(off).x
    ensures -0x8000 <= off.y < 0x8000 && -0x8000 <= on.y < 0x8000 ==> d.y == Mean(on).y - Mean(off).y
    ensures -0x8000 <= off.z < 0x8000 && -0x8000 <= on.z < 0x8000 ==> d.z == Mean(on).z - Mean(off).z
  {
    assert Pow2(6) == 64;
    var a, b := Mean(on), Mean(off);
    Wrap(Axes(a.x - b.x, a.y - b.y, a.z - b.z))
  }

  /** The self-test response computed from the replies of the 64 samples
      without the force, the 10 settling samples and the 64 with it. */
  function Response(replies: seq<seq<uint8>>): Axes
    requires 138 <= |replies|
  {
    SelfTestDeltas(Wrap(SampleSum(replies, 64)), Wrap(SampleSum(replies[74..], 64)))
  }

  /** The pass test of self_test, as written: the datasheet's limits for
      a 2.5 V supply (6..67, -67..-6 and 10..110 LSB) scaled by 1.77 for
      X and Y and by 1.47 for Z, for the 3.3 V supply of the board. */
  predicate Passes(d: Axes)
  {
    !((d.x as real) < 6.0 * 1.77 || (d.x as real) > 67.0 * 1.77
      || (d.y as real) < -67.0 * 1.77 || (d.y as real) > -6.0 * 1.77
      || (d.z as real) < 10.0 * 1.47 || (d.z as real) > 110.0 * 1.47)
  }

  /** The pass test as a box of whole LSB counts. */
  lemma PassesIsIntegerBox(d: Axes)
    ensures Passes(d) <==> 11 <= d.x <= 118 && -118 <= d.y <= -11 && 15 <= d.z <= 161
  {
  }

  /** The settling samples, whose values are dropped, then the 64
      samples with the self-test force on. */
  function SettleAndSample(s: Shadow, l: Link): (r: Step<Shadow, Axes>)
    ensures Conducted(l, r.link, r.Done?, s.id)
    ensures r.state == s
    ensures r.link.acks == l.acks
    ensures r.Done? <==> DeliversAll(l.replies, 74, 6)
    ensures r.Done? ==> r.value == Wrap(SampleSum(l.replies[10..], 64))
    ensures r.Done? ==> r.link.trace == l.trace + Fetches(s.id, 10) + Fetches(s.id, 64)
    ensures r.Done? ==> r.link.replies == l.replies[74..]
    ensures Mirrors(s, l.trace) ==> Mirrors(r.state, r.link.trace)
  {
    var settled := Accumulate(s, l, 10, Axes(0, 0, 0));
    DeliversAllSplit(l.replies, 10, 64, 6);
    if settled.Abort? then settled
    else
      var on := Accumulate(s, settled.link, 64, Axes(0, 0, 0));
      ConductedChain(l, settled.link, on.link, on.Done?, s.id);
      if on.Abort? then on
      else
        assert l.replies[10..][64..] == l.replies[74..];
        PlusZero(SampleSum(l.replies[10..], 64));
        on
  }

  /** The measuring part of self_test: 64 samples, the self-test force,
      then the settling and forced samples; the verdict compares the two
      means. */
  function SelfTestSampling(s: Shadow, l: Link): (r: Step<Shadow, Axes>)
    ensures Conducted(l, r.link, r.Done?, s.id)
    ensures r.Done? <==> Accepts(l) && DeliversAll(l.replies, 138, 6)
    ensures r.Done? ==> r.value == Response(l.replies)
    ensures r.Done? ==> r.state == s.(dataFormat := SELF_TEST_FORMAT, scale := ScaleFor(SELF_TEST_FORMAT))
    ensures r.Done? ==> r.link.acks == l.acks[1..]
    ensures r.Done? ==> r.link.trace == l.trace + Fetches(s.id, 64) + [Wrote(s.id, DATA_FORMAT, SELF_TEST_FORMAT, true)]
                          + Fetches(s.id, 10) + Fetches(s.id, 64)
    ensures r.state.id == s.id
    ensures ScaleConsistent(s) ==> ScaleConsistent(r.state)
    ensures Mirrors(s, l.trace) ==> Mirrors(r.state, r.link.trace)
  {
    var off := Accumulate(s, l, 64, Axes(0, 0, 0));
    DeliversAllSplit(l.replies, 64, 74, 6);
    if off.Abort? then Abort(off.state, off.link)
    else
      var forced := SetDataFormat(off.state, off.link, SELF_TEST_FORMAT);
      ConductedChain(l, off.link, forced.link, forced.Done?, s.id);
      if forced.Abort? then Abort(forced.state, forced.link)
      else
        var on := SettleAndSample(forced.state, forced.link);
        ConductedChain(l, forced.link, on.link, on.Done?, s.id);
        PlusZero(SampleSum(l.replies, 64));
        if on.Abort? then Abort(on.state, on.link)
        else
          assert l.replies[64..][10..] == l.replies[74..];
          Done(on.state, on.link, SelfTestDeltas(off.value, on.value))
  }

  /** self_test once its configuration is in place: the measurement, then
      the given configuration put back whatever the verdict. */
  function SelfTestForced(s: Shadow, l: Link, format: uint8, power: uint8, rate: uint8): (r: Step<Shadow, Axes>)
    ensures Conducted(l, r.link, r.Done?, s.id)
    ensures r.Done? <==> AcceptsAll(l.acks, 4) && DeliversAll(l.replies, 138, 6)
    ensures r.Done? ==> r.value == Response(l.replies)
    ensures r.Done? ==> r.state == Configured(s, format, power, rate, 3)
    ensures r.Done? ==> r.link.trace == l.trace + Fetches(s.id, 64) + [Wrote(s.id, DATA_FORMAT, SELF_TEST_FORMAT, true)]
                          + Fetches(s.id, 10) + Fetches(s.id, 64) + ConfigureEvents(s.id, format, power, rate)
    ensures r.state.id == s.id
    ensures ScaleConsistent(s) ==> ScaleConsistent(r.state)
    ensures Mirrors(s, l.trace) ==> Mirrors(r.state, r.link.trace)
  {
    var measured := SelfTestSampling(s, l);
    AcceptsAllStep(l.acks, 4);
    if measured.Abort? then measured
    else
      var restored := Configure(measured.state, measured.link, format, power, rate);
      ConductedChain(l, measured.link, restored.link, restored.Done?, s.id);
      if restored.Abort? then Abort(restored.state, restored.link)
      else
        ConfigureOverwritesFormat(s, SELF_TEST_FORMAT, format, power, rate);
        Done(restored.state, restored.link, measured.value)
  }

  /** self_test. On completion it has forced full resolution at +/-16 g,
      measurement mode and 100 Hz, read 64 samples, set the self-test
      bit, read 10 settling samples and 64 more, and restored the caller's
      three registers; the verdict is the pass test applied to the
      difference of the two means, and the shadow is the caller's again
      (with the scale factor re-derived from the restored data format). */
  function SelfTest(s: Shadow, l: Link): (r: Step<Shadow, bool>)
    ensures Conducted(l, r.link, r.Done?, s.id)
    ensures r.Done? <==> AcceptsAll(l.acks, 7) && DeliversAll(l.replies, 138, 6)
    ensures r.Done? ==> r.value == Passes(Response(l.replies))
    ensures r.Done? ==> r.state == s.(scale := ScaleFor(s.dataFormat))
    ensures r.Done? && ScaleConsistent(s) ==> r.state == s
    ensures r.Done? ==> r.link.trace == l.trace + ConfigureEvents(s.id, PROCEDURE_FORMAT, MEASURE, 0x0C) + Fetches(s.id, 64)
                          + [Wrote(s.id, DATA_FORMAT, SELF_TEST_FORMAT, true)] + Fetches(s.id, 10) + Fetches(s.id, 64)
                          + ConfigureEvents(s.id, s.dataFormat, s.powerCtrl, s.dataRatePowerCtrl)
    ensures r.state.id == s.id
    ensures ScaleConsistent(s) ==> ScaleConsistent(r.state)
    ensures Mirrors(s, l.trace) ==> Mirrors(r.state, r.link.trace)
  {
    var forced := Configure(s, l, PROCEDURE_FORMAT, MEASURE, 0x0C);
    AcceptsAllSplit(l.acks, 3, 4);
    if forced.Abort? then Abort(forced.state, forced.link)
    else
      var rest := SelfTestForced(forced.state, forced.link, s.dataFormat, s.powerCtrl, s.dataRatePowerCtrl);
      ConductedChain(l, forced.link, rest.link, rest.Done?, s.id);
      if rest.Abort? then Abort(rest.state, rest.link)
      else Done(rest.state, rest.link, Passes(rest.value))
  }
}
