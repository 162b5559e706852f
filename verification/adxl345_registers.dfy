/** Register map, bit layout and unit conversions of the ADXL345
    accelerometer driver (inc/ADXL345.hpp, src/ADXL345.cpp). */
module Adxl345Registers {
  import opened Integers

  /** Bus address with the ALT ADDRESS pin low; the driver has no way to
      change it. */
  const DEFAULT_ADDRESS: uint8 := 0x53

  const THRESH_TAP: uint8 := 0x1D
  const OFSX: uint8 := 0x1E
  const OFSY: uint8 := 0x1F
  const OFSZ: uint8 := 0x20
  const DUR: uint8 := 0x21
  const LATENT: uint8 := 0x22
  const WINDOW: uint8 := 0x23
  const THRESH_ACT: uint8 := 0x24
  const THRESH_INACT: uint8 := 0x25
  const TIME_INACT: uint8 := 0x26
  const ACT_INACT_CTL: uint8 := 0x27
  const THRESH_FF: uint8 := 0x28
  const TIME_FF: uint8 := 0x29
  const TAP_AXES: uint8 := 0x2A
  const ACT_TAP_STATUS: uint8 := 0x2B
  const BW_RATE: uint8 := 0x2C
  const POWER_CTL: uint8 := 0x2D
  const INT_ENABLE: uint8 := 0x2E
  const INT_MAP: uint8 := 0x2F
  const INT_SOURCE: uint8 := 0x30
  const DATA_FORMAT: uint8 := 0x31
  const DATAX0: uint8 := 0x32
  const DATAX1: uint8 := 0x33
  const DATAY0: uint8 := 0x34
  const DATAY1: uint8 := 0x35
  const DATAZ0: uint8 := 0x36
  const DATAZ1: uint8 := 0x37
  const FIFO_CTL: uint8 := 0x38
  const FIFO_STATUS: uint8 := 0x39

  /** DATA_FORMAT bits, as bit positions. */
  const SELF_TEST_BIT: nat := 7
  const FULL_RES_BIT: nat := 3

  /** POWER_CTL measure bit. */
  const MEASURE: uint8 := 0x08

  /** Bit k of a register byte, read arithmetically: (v & (1 << k)) != 0. */
  predicate Bit(v: uint8, k: nat)
  {
    (v / Pow2(k)) % 2 == 1
  }

  /** The configuration both procedures force: FULL_RES | RANGE_1 | RANGE_0,
      and the same with SELF_TEST added. */
  const PROCEDURE_FORMAT: uint8 := 0x08 + 0x02 + 0x01
  const SELF_TEST_FORMAT: uint8 := 0x08 + 0x02 + 0x01 + 0x80

  /** The range bits 1..0 of DATA_FORMAT (data_format & (RANGE_1 | RANGE_0))
      select +/-2, 4, 8 or 16 g. */
  function RangeG(format: uint8): (g: nat)
    ensures format % 4 == 0 ==> g == 2
    ensures format % 4 == 1 ==> g == 4
    ensures format % 4 == 2 ==> g == 8
    ensures format % 4 == 3 ==> g == 16
  {
    2 * Pow2(format % 4)
  }

  /** Scale factor of a raw sample, 3.9 mg * 2^code per LSB: 0.0039,
      0.0078, 0.0156 or 0.0312 g. */
  type ScaleCode = c: int | 0 <= c < 4

  function ScaleMicroG(c: ScaleCode): nat
  {
    3900 * Pow2(c)
  }

  /** The scale rule of set_data_format: with FULL_RES set the sample keeps
      3.9 mg/LSB at every range; otherwise the 10-bit sample spans the
      selected range, so one LSB is the datasheet's 3.9 mg per 2 g of
      range. */
  function ScaleFor(format: uint8): (c: ScaleCode)
    ensures Bit(format, FULL_RES_BIT) ==> ScaleMicroG(c) == 3900
    ensures !Bit(format, FULL_RES_BIT) ==> 2 * ScaleMicroG(c) == 3900 * RangeG(format)
  {
    if Bit(format, FULL_RES_BIT) then 0
    else match format % 4
      case 0 => 0
      case 1 => 1
      case 2 => 2
      case _ => 3
  }

  /** The two configurations the procedures force: full resolution at
      +/-16 g, without and with the self-test force. */
  lemma ProcedureFormatLayout()
    ensures PROCEDURE_FORMAT == 0x0B && SELF_TEST_FORMAT == 0x8B
    ensures Bit(PROCEDURE_FORMAT, FULL_RES_BIT) && RangeG(PROCEDURE_FORMAT) == 16 && !Bit(PROCEDURE_FORMAT, SELF_TEST_BIT)
    ensures Bit(SELF_TEST_FORMAT, FULL_RES_BIT) && RangeG(SELF_TEST_FORMAT) == 16 && Bit(SELF_TEST_FORMAT, SELF_TEST_BIT)
    ensures ScaleFor(PROCEDURE_FORMAT) == 0 && ScaleFor(SELF_TEST_FORMAT) == 0
  {
    assert Pow2(3) == 8 && Pow2(7) == 128;
  }

  /** The byte the device presents at an axis output register while it
      holds the sample (x, y, z): DATAx0 the low byte, DATAx1 the high
      byte; None for every other register. */
  function OutputRegister(x: int16, y: int16, z: int16, reg: uint8): (b: Option<uint8>)
    ensures b.Some? <==> DATAX0 <= reg <= DATAZ1
    ensures reg == DATAY0 ==> b == Some(LowByte(y))
    ensures reg == DATAZ1 ==> b == Some(HighByte(z))
  {
    if reg == DATAX0 then Some(LowByte(x))
    else if reg == DATAX1 then Some(HighByte(x))
    else if reg == DATAY0 then Some(LowByte(y))
    else if reg == DATAY1 then Some(HighByte(y))
    else if reg == DATAZ0 then Some(LowByte(z))
    else if reg == DATAZ1 then Some(HighByte(z))
    else None
  }

  /** A register code together with the logical value the driver keeps
      in its shadow. */
  datatype Encoding = Encoding(code: uint8, stored: nat)

  /** Thresholds (tap, activity, inactivity, free fall): 62.5 mg per LSB,
      truncating; at most 16 g. */
  function ThresholdEncoding(milliGs: uint16): (e: Encoding)
    ensures milliGs <= 15937 ==> e.stored == milliGs && 125 * e.code <= 2 * milliGs < 125 * (e.code + 1)
    ensures milliGs > 15937 ==> e.code == 0xFF && e.stored == 16000
    ensures e.stored <= 16000
  {
    if milliGs > 15937 then Encoding(0xFF, 16000) else Encoding((2 * milliGs) / 125, milliGs)
  }

  /** Tap duration: 0.625 ms per LSB; at most 159 ms. */
  function TapDurationEncoding(milliseconds: uint8): (e: Encoding)
    ensures milliseconds <= 159 ==> e.stored == milliseconds && 5 * e.code <= 8 * milliseconds < 5 * (e.code + 1)
    ensures milliseconds > 159 ==> e.code == 0xFF && e.stored == 159
    ensures e.stored <= 159
  {
    if milliseconds > 159 then Encoding(0xFF, 159) else Encoding((8 * milliseconds) / 5, milliseconds)
  }

  /** Tap latency and tap window: 1.25 ms per LSB; at most 319 ms. */
  function TapTimingEncoding(milliseconds: uint16): (e: Encoding)
    ensures milliseconds <= 318 ==> e.stored == milliseconds && 5 * e.code <= 4 * milliseconds < 5 * (e.code + 1)
    ensures milliseconds > 318 ==> e.code == 0xFF && e.stored == 319
    ensures e.stored <= 319
  {
    if milliseconds > 318 then Encoding(0xFF, 319) else Encoding((4 * milliseconds) / 5, milliseconds)
  }

  /** Free-fall time: 5 ms per LSB; at most 1275 ms. */
  function FreeFallTimeEncoding(milliseconds: uint16): (e: Encoding)
    ensures milliseconds <= 1275 ==> e.stored == milliseconds && 5 * e.code <= milliseconds < 5 * (e.code + 1)
    ensures milliseconds > 1275 ==> e.code == 0xFF && e.stored == 1275
    ensures e.stored <= 1275
  {
    if milliseconds > 1275 then Encoding(0xFF, 1275) else Encoding(milliseconds / 5, milliseconds)
  }

  /** A larger logical value never gets a smaller register code. */
  lemma {:induction false} EncodingsMonotone(a: uint16, b: uint16)
    requires a <= b
    ensures ThresholdEncoding(a).code <= ThresholdEncoding(b).code
    ensures a < 0x100 && b < 0x100 ==> TapDurationEncoding(a).code <= TapDurationEncoding(b).code
    ensures TapTimingEncoding(a).code <= TapTimingEncoding(b).code
    ensures FreeFallTimeEncoding(a).code <= FreeFallTimeEncoding(b).code
  {
    var ea, eb := ThresholdEncoding(a), ThresholdEncoding(b);
    if b <= 15937 {
      assert 125 * ea.code <= 2 * a <= 2 * b < 125 * (eb.code + 1);
    }
    var ta, tb := TapTimingEncoding(a), TapTimingEncoding(b);
    if b <= 318 {
      assert 5 * ta.code <= 4 * a <= 4 * b < 5 * (tb.code + 1);
    }
    var fa, fb := FreeFallTimeEncoding(a), FreeFallTimeEncoding(b);
    if b <= 1275 {
      assert 5 * fa.code <= a <= b < 5 * (fb.code + 1);
    }
    if a < 0x100 && b < 0x100 {
      var da, db := TapDurationEncoding(a), TapDurationEncoding(b);
      if b <= 159 {
        assert 5 * da.code <= 8 * a <= 8 * b < 5 * (db.code + 1);
      }
    }
  }

  /** The doubles nearest to the source's multipliers 0.016, 1.6, 0.8
      and 0.2, written out exactly; each lies slightly above the decimal
      it stands for. */
  const DOUBLE_0_016: real := 0.01600000000000000033306690738754696212708950042724609375
  const DOUBLE_1_6: real := 1.600000000000000088817841970012523233890533447265625
  const DOUBLE_0_8: real := 0.8000000000000000444089209850062616169452667236328125
  const DOUBLE_0_2: real := 0.200000000000000011102230246251565404236316680908203125

  /** `y` is what IEEE-754 binary64 round-to-nearest may give for the
      non-negative exact value `exact`, below 2^53: within half a unit in
      the last place, hence within a relative 2^-53, and never below a
      whole number `exact` reaches, since whole numbers are representable. */
  ghost predicate RoundedProduct(exact: real, y: real)
  {
    0.0 <= exact < 9007199254740992.0 &&
    exact.Floor as real <= y &&
    y - exact <= exact / 9007199254740992.0 &&
    exact - y <= exact / 9007199254740992.0
  }

  /** Why the source's floating-point multipliers 0.016, 1.6, 0.8 and 0.2
      (2/125, 8/5, 4/5 and 1/5) give exactly the integer quotients above:
      a computed product that lies within 1/den of the exact product p/den,
      and not below it when that is a whole number, truncates to p / den. */
  lemma ProductTruncation(p: nat, den: nat, x: real)
    requires den == 5 || den == 125
    requires ((p as real) - 1.0) / (den as real) < x < ((p as real) + 1.0) / (den as real)
    requires p % den == 0 ==> (p / den) as real <= x
    ensures x.Floor == p / den
  {
    var q, r := p / den, p % den;
    if den == 5 {
      assert p == 5 * q + r && 0 <= r < 5;
      TruncationBounds(p, 5, q, r, x);
    } else {
      assert p == 125 * q + r && 0 <= r < 125;
      TruncationBounds(p, 125, q, r, x);
    }
    FloorOf(q, x);
  }

  /** The whole number q with q <= x < q + 1 is x's floor. */
  lemma FloorOf(q: int, x: real)
    requires q as real <= x < (q + 1) as real
    ensures x.Floor == q
  {
    var f := x.Floor;
    assert (f as real) <= x < (f as real) + 1.0;
    assert ((q - f) as real) < 1.0 && ((f - q) as real) < 1.0;
  }

  /** The two bounds of ProductTruncation for one fixed denominator. */
  lemma TruncationBounds(p: nat, den: nat, q: int, r: int, x: real)
    requires den == 5 || den == 125
    requires p == den * q + r && 0 <= r < den
    requires ((p as real) - 1.0) / (den as real) < x < ((p as real) + 1.0) / (den as real)
    requires r == 0 ==> q as real <= x
    ensures q as real <= x < (q + 1) as real
  {
    if den == 5 {
      assert (p as real) == 5.0 * (q as real) + (r as real);
      assert x < ((p as real) + 1.0) / 5.0;
      assert r > 0 ==> ((p as real) - 1.0) / 5.0 < x;
    } else {
      assert (p as real) == 125.0 * (q as real) + (r as real);
      assert x < ((p as real) + 1.0) / 125.0;
      assert r > 0 ==> ((p as real) - 1.0) / 125.0 < x;
    }
  }

  /** A whole number the exact product reaches is not above its rounding. */
  lemma WholeBelowRounding(q: int, exact: real, y: real)
    requires RoundedProduct(exact, y)
    requires q as real <= exact
    ensures q as real <= y
  {
    var f := exact.Floor;
    assert (q as real) < (f as real) + 1.0;
    assert ((q - f) as real) < 1.0;
    assert q <= f;
  }

  /** `milli_gs * 0.016` truncated to uint8 is the threshold code, for
      every in-range input and every correctly rounded product. */
  lemma ThresholdFromDouble(milliGs: uint16, y: real)
    requires milliGs <= 15937
    requires RoundedProduct(milliGs as real * DOUBLE_0_016, y)
    ensures y.Floor == ThresholdEncoding(milliGs).code as int
  {
    var p := 2 * milliGs;
    var exact := milliGs as real * DOUBLE_0_016;
    assert (p as real) / 125.0 <= exact <= (p as real) / 125.0 + 0.00000000001;
    if p % 125 == 0 {
      WholeBelowRounding(p / 125, exact, y);
    }
    ProductTruncation(p, 125, y);
  }

  /** `milliseconds * 1.6` truncated to uint8 is the tap duration code. */
  lemma TapDurationFromDouble(milliseconds: uint8, y: real)
    requires milliseconds <= 159
    requires RoundedProduct(milliseconds as real * DOUBLE_1_6, y)
    ensures y.Floor == TapDurationEncoding(milliseconds).code as int
  {
    var p := 8 * milliseconds;
    var exact := milliseconds as real * DOUBLE_1_6;
    assert (p as real) / 5.0 <= exact <= (p as real) / 5.0 + 0.00000000001;
    if p % 5 == 0 {
      WholeBelowRounding(p / 5, exact, y);
    }
    ProductTruncation(p, 5, y);
  }

  /** `milliseconds * 0.8` truncated to uint8 is the latency and window
      code. */
  lemma TapTimingFromDouble(milliseconds: uint16, y: real)
    requires milliseconds <= 318
    requires RoundedProduct(milliseconds as real * DOUBLE_0_8, y)
    ensures y.Floor == TapTimingEncoding(milliseconds).code as int
  {
    var p := 4 * milliseconds;
    var exact := milliseconds as real * DOUBLE_0_8;
    assert (p as real) / 5.0 <= exact <= (p as real) / 5.0 + 0.00000000001;
    if p % 5 == 0 {
      WholeBelowRounding(p / 5, exact, y);
    }
    ProductTruncation(p, 5, y);
  }

  /** `milliseconds * 0.2` truncated to uint8 is the free-fall time code. */
  lemma FreeFallTimeFromDouble(milliseconds: uint16, y: real)
    requires milliseconds <= 1275
    requires RoundedProduct(milliseconds as real * DOUBLE_0_2, y)
    ensures y.Floor == FreeFallTimeEncoding(milliseconds).code as int
  {
    var p := milliseconds as nat;
    var exact := milliseconds as real * DOUBLE_0_2;
    assert (p as real) / 5.0 <= exact <= (p as real) / 5.0 + 0.00000000001;
    if p % 5 == 0 {
      WholeBelowRounding(p / 5, exact, y);
    }
    ProductTruncation(p, 5, y);
  }
}
