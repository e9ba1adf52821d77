/**
 * Integer arithmetic of the controller: C's truncating division, the
 * Arduino `map` used to turn a fan command into an RPM figure, the
 * wrapping 32-bit millisecond clock and the sample-interval guard, and the
 * "tenths" digit used when a voltage is rendered as text.
 */
module CArith {

  /** 2^32: the modulus of `uint32_t` arithmetic. */
  const Two32: int := 0x1_0000_0000

  /** Values of C's `uint32_t`. */
  type U32 = x: int | 0 <= x < 0x1_0000_0000

  /** Values of the ESP32's 32-bit `int` / `long`. */
  predicate IsInt32(x: int) {
    -0x8000_0000 <= x < 0x8000_0000
  }

  function Abs(x: int): (r: nat)
    ensures r == x || r == -x
  {
    if x < 0 then -x else x
  }

  // ---------------------------------------------------------------------
  // C division

  /**
   * C's `/` on integers: the quotient truncated toward zero (Dafny's own
   * `/` is Euclidean).  The magnitude of the quotient is the floor of
   * |a| / |b| and its sign is the product of the operands' signs.
   */
  function TruncDiv(a: int, b: int): (q: int)
    requires b != 0
    ensures Abs(q) * Abs(b) <= Abs(a) < Abs(q) * Abs(b) + Abs(b)
    ensures q > 0 ==> (a < 0) == (b < 0)
    ensures q < 0 ==> (a < 0) != (b < 0)
  {
    var m := Abs(a) / Abs(b);
    DivisionBounds(Abs(a), Abs(b));
    if (a < 0) == (b < 0) then m else -m
  }

  /** The Euclidean quotient of naturals is the floor of their ratio. */
  lemma DivisionBounds(x: nat, y: nat)
    requires y > 0
    ensures (x / y) * y <= x < (x / y) * y + y
  {
    assert x == (x / y) * y + x % y;
  }

  /**
   * Arduino's `map(x, inMin, inMax, outMin, outMax)`, taken to be the
   * linear interpolation (x - inMin) * (outMax - outMin) / (inMax - inMin) + outMin
   * evaluated with C's truncating division.
   */
  function ArduinoMap(x: int, inMin: int, inMax: int, outMin: int, outMax: int): (r: int)
    requires inMin != inMax
    ensures x == inMin ==> r == outMin
    ensures x == inMax ==> r == outMax
  {
    TruncDivExact(outMax - outMin, inMax - inMin);
    TruncDiv((x - inMin) * (outMax - outMin), inMax - inMin) + outMin
  }

  /** Dividing an exact multiple of a positive number gives the factor back. */
  lemma {:induction false} DivMulExact(x: nat, y: nat)
    requires y > 0
    ensures (y * x) / y == x
  {
    if x > 0 {
      DivMulExact(x - 1, y);
      assert y * x == y * (x - 1) + y;
      DivisionBounds(y * x, y);
      DivisionBounds(y * (x - 1), y);
    }
  }

  /** Dividing an exact multiple gives the factor back. */
  lemma TruncDivExact(k: int, b: int)
    requires b != 0
    ensures TruncDiv(b * k, b) == k
  {
    var ak, ab := Abs(k), Abs(b);
    assert Abs(b * k) == ab * ak;
    DivMulExact(ak, ab);
  }

  /** The full-scale fan command and the RPM it stands for. */
  const FanCommandMax: int := 255
  const FanRpmMax: int := 2400

  /**
   * The RPM figure `map(FanSpeed, 0, 255, 0, 2400)` reports for a fan
   * command: for a non-negative command it is the largest integer not above
   * speed * 2400 / 255, for a negative one the smallest integer not below it.
   */
  function FanRpm(speed: int): (rpm: int)
    ensures speed >= 0 ==> 0 <= rpm && rpm * 255 <= speed * 2400 < rpm * 255 + 255
    ensures speed < 0 ==> rpm <= 0 && rpm * 255 - 255 < speed * 2400 <= rpm * 255
  {
    ArduinoMap(speed, 0, FanCommandMax, 0, FanRpmMax)
  }

  /** A command in the slider's range 0..255 gives an RPM in 0..2400. */
  lemma FanRpmInRange(speed: int)
    requires 0 <= speed <= FanCommandMax
    ensures 0 <= FanRpm(speed) <= FanRpmMax
  {
  }

  /** The two ends of the slider map to the two ends of the RPM scale. */
  lemma FanRpmEndpoints()
    ensures FanRpm(0) == 0
    ensures FanRpm(FanCommandMax) == FanRpmMax
  {
  }

  /** A larger command never reports a smaller RPM, over all integers. */
  lemma FanRpmMonotone(v: int, w: int)
    requires v <= w
    ensures FanRpm(v) <= FanRpm(w)
  {
  }

  /** Truncation is symmetric: negating the command negates the RPM. */
  lemma FanRpmOdd(v: int)
    ensures FanRpm(-v) == -FanRpm(v)
  {
  }

  /** A 32-bit command reports an RPM of magnitude below 10^11 (at most 12 characters of text). */
  lemma FanRpmInt32Bound(speed: int)
    requires IsInt32(speed)
    ensures Abs(FanRpm(speed)) < 100000000000
  {
    var rpm := FanRpm(speed);
    assert Abs(rpm) * 255 <= Abs(speed) * 2400;
  }

  /** There is no clamping: 300 is above the slider range and gives 2823. */
  lemma FanRpmAboveRange()
    ensures FanRpm(300) == 2823
    ensures FanRpm(-1) == -9
  {
  }

  // ---------------------------------------------------------------------
  // The millisecond clock and the sampling guard

  /** The minimum time, in milliseconds, between two analog samples. */
  const SampleIntervalMs: int := 50

  /** `millis()` at true time `t` ms since boot: a `uint32_t` that wraps. */
  function Clock(t: nat): U32 {
    t % Two32
  }

  /** `now - last` on `uint32_t` operands: the difference modulo 2^32. */
  function Elapsed(now: U32, last: U32): (d: U32)
    ensures now >= last ==> d == now - last
    ensures now < last ==> d == now - last + Two32
  {
    (now - last) % Two32
  }

  /** The guard of the sampling task: `(millis() - SensorUpdate) >= 50`. */
  predicate ShouldSample(now: U32, last: U32)
    ensures last <= now ==> (ShouldSample(now, last) <==> now - last >= SampleIntervalMs)
    ensures now < last ==> (ShouldSample(now, last) <==> last - now <= Two32 - SampleIntervalMs)
  {
    Elapsed(now, last) >= SampleIntervalMs
  }

  /**
   * The wrapped difference of two clock readings is the true time between
   * them, whenever less than 2^32 ms (about 49.7 days) separate them, even
   * if the clock wrapped in between.
   */
  lemma ElapsedIsTrueTime(tLast: nat, tNow: nat)
    requires tLast <= tNow < tLast + Two32
    ensures Elapsed(Clock(tNow), Clock(tLast)) == tNow - tLast
  {
    var d := tNow - tLast;
    var q := tLast / Two32;
    var a := tLast % Two32;
    assert tLast == q * Two32 + a;
    if a + d < Two32 {
      assert tNow == q * Two32 + (a + d);
      assert Clock(tNow) == a + d;
    } else {
      assert tNow == (q + 1) * Two32 + (a + d - Two32);
      assert Clock(tNow) == a + d - Two32;
    }
  }

  /** Hence the guard fires exactly when 50 ms or more of true time have passed. */
  lemma ShouldSampleIffIntervalPassed(tLast: nat, tNow: nat)
    requires tLast <= tNow < tLast + Two32
    ensures ShouldSample(Clock(tNow), Clock(tLast)) <==> tNow - tLast >= SampleIntervalMs
  {
    ElapsedIsTrueTime(tLast, tNow);
  }

  /** A concrete wrap: last sample 10 ms before the wrap, now 45 ms after it. */
  lemma ShouldSampleAcrossWrap()
    ensures Clock(Two32 + 45) < Clock(Two32 - 10)
    ensures ShouldSample(Clock(Two32 + 45), Clock(Two32 - 10))
    ensures !ShouldSample(Clock(Two32 + 30), Clock(Two32 - 10))
  {
    ShouldSampleIffIntervalPassed(Two32 - 10, Two32 + 45);
    ShouldSampleIffIntervalPassed(Two32 - 10, Two32 + 30);
  }

  // ---------------------------------------------------------------------
  // Voltage rendering

  /** C's `(int)` cast of a value: truncation toward zero. */
  function TruncReal(x: real): (r: int)
    ensures x >= 0.0 ==> 0 <= r && r as real <= x < r as real + 1.0
    ensures x < 0.0 ==> r <= 0 && r as real - 1.0 < x <= r as real
  {
    if x >= 0.0 then x.Floor else -((-x).Floor)
  }

  /**
   * The digit printed after the point of a voltage, from `whole = (int)V`
   * and `scaled = (int)(V * 10)`: `abs(scaled - whole * 10)`.
   */
  function TenthsDigit(whole: int, scaled: int): (d: nat)
    ensures scaled == 10 * whole + d || scaled == 10 * whole - d
    ensures d == 0 <==> scaled == 10 * whole
  {
    Abs(scaled - 10 * whole)
  }

  /** floor(10x) lies between 10 floor(x) and 10 floor(x) + 9. */
  lemma FloorTimesTen(x: real)
    requires x >= 0.0
    ensures 10 * x.Floor <= (10.0 * x).Floor <= 10 * x.Floor + 9
  {
    var n := x.Floor;
    var m := (10.0 * x).Floor;
    assert n as real <= x < n as real + 1.0;
    assert m as real <= 10.0 * x < m as real + 1.0;
    assert (10 * n) as real <= 10.0 * x;
    assert 10.0 * x < (10 * n + 10) as real;
  }

  /**
   * For a voltage v >= 0 the text `whole.digit` is v truncated (not
   * rounded) to one decimal place: 10*whole + digit <= 10v < 10*whole + digit + 1,
   * and the digit is a single decimal digit.
   */
  lemma VoltageTextTruncates(v: real)
    requires v >= 0.0
    ensures var whole := TruncReal(v);
            var digit := TenthsDigit(whole, TruncReal(10.0 * v));
            digit <= 9 &&
            (10 * whole + digit) as real <= 10.0 * v < (10 * whole + digit + 1) as real
  {
    FloorTimesTen(v);
  }

  /**
   * For any voltage, positive or negative, the printed digit is the first
   * decimal digit of its magnitude; in particular it is always 0..9.
   */
  lemma TenthsDigitOfMagnitude(v: real)
    ensures var digit := TenthsDigit(TruncReal(v), TruncReal(10.0 * v));
            digit <= 9 &&
            digit == (10.0 * (if v < 0.0 then -v else v)).Floor - 10 * (if v < 0.0 then -v else v).Floor
  {
    if v >= 0.0 {
      FloorTimesTen(v);
    } else {
      FloorTimesTen(-v);
      assert -(10.0 * v) == 10.0 * (-v);
    }
  }
}
