/**
 * The controller's global state and the code that changes it: the two
 * button handlers, the slider handler, one iteration of the sampling task
 * and the status serialiser.  The request routing, the serial log and the
 * hardware calls are left outside; the values written to the LED pin, the
 * output pin and the fan's PWM channel are kept as ghost fields.
 */
module Control {
  import opened Wrappers
  import opened CArith
  import opened CText
  import opened StatusXml
  import opened CBuffer

  /** The integer and boolean globals, as one value. */
  datatype Snapshot = Snapshot(BitsA0: int, BitsA1: int, FanSpeed: int, FanRPM: int,
                               LED0: bool, SomeOutput: bool, SensorUpdate: U32)

  /** The globals' initial values (and what `setup` leaves them at). */
  const Initial: Snapshot := Snapshot(0, 0, 0, 0, false, false, 0)

  /** `/BUTTON_0`: LED0 toggles. */
  function PressButton0(s: Snapshot): (r: Snapshot)
    ensures r.LED0 != s.LED0
    ensures r.BitsA0 == s.BitsA0 && r.BitsA1 == s.BitsA1 && r.FanSpeed == s.FanSpeed && r.FanRPM == s.FanRPM
    ensures r.SomeOutput == s.SomeOutput && r.SensorUpdate == s.SensorUpdate
  {
    s.(LED0 := !s.LED0)
  }

  /** `/BUTTON_1`: SomeOutput toggles. */
  function PressButton1(s: Snapshot): (r: Snapshot)
    ensures r.SomeOutput != s.SomeOutput
    ensures r.BitsA0 == s.BitsA0 && r.BitsA1 == s.BitsA1 && r.FanSpeed == s.FanSpeed && r.FanRPM == s.FanRPM
    ensures r.LED0 == s.LED0 && r.SensorUpdate == s.SensorUpdate
  {
    s.(SomeOutput := !s.SomeOutput)
  }

  /** `/UPDATE_SLIDER?VALUE=v`: the command is stored as given and its RPM recomputed. */
  function SetSlider(s: Snapshot, value: int): (r: Snapshot)
    ensures r.FanSpeed == value
    ensures value >= 0 ==> r.FanRPM * 255 <= value * 2400 < r.FanRPM * 255 + 255
    ensures value < 0 ==> r.FanRPM * 255 - 255 < value * 2400 <= r.FanRPM * 255
    ensures r.BitsA0 == s.BitsA0 && r.BitsA1 == s.BitsA1 && r.SensorUpdate == s.SensorUpdate
    ensures r.LED0 == s.LED0 && r.SomeOutput == s.SomeOutput
  {
    s.(FanSpeed := value, FanRPM := FanRpm(value))
  }

  /** One pass of the sampling task's loop body. */
  function SampleStep(s: Snapshot, now: U32, stamp: U32, a0: int, a1: int): (r: Snapshot)
    ensures Elapsed(now, s.SensorUpdate) >= SampleIntervalMs ==>
              r.SensorUpdate == stamp && r.BitsA0 == a0 && r.BitsA1 == a1
    ensures Elapsed(now, s.SensorUpdate) < SampleIntervalMs ==> r == s
    ensures r.FanSpeed == s.FanSpeed && r.FanRPM == s.FanRPM && r.LED0 == s.LED0 && r.SomeOutput == s.SomeOutput
  {
    if ShouldSample(now, s.SensorUpdate) then s.(SensorUpdate := stamp, BitsA0 := a0, BitsA1 := a1)
    else s
  }

  /** Pressing a button twice restores the whole state. */
  lemma ButtonsAreInvolutions(s: Snapshot)
    ensures PressButton0(PressButton0(s)) == s
    ensures PressButton1(PressButton1(s)) == s
  {
  }

  /** Each button touches only its own flag, so the two commute. */
  lemma ButtonsCommute(s: Snapshot)
    ensures PressButton0(PressButton1(s)) == PressButton1(PressButton0(s))
    ensures PressButton0(s).SomeOutput == s.SomeOutput && PressButton1(s).LED0 == s.LED0
  {
  }

  /** The slider keeps no history: the last command alone decides the fan fields. */
  lemma SliderLastWriteWins(s: Snapshot, v: int, w: int)
    ensures SetSlider(SetSlider(s, v), w) == SetSlider(s, w)
  {
  }

  /** A command inside the slider's range keeps the RPM figure within 0..2400. */
  lemma SliderRpmInRange(s: Snapshot, v: int)
    requires 0 <= v <= FanCommandMax
    ensures SetSlider(s, v).FanSpeed == v
    ensures 0 <= SetSlider(s, v).FanRPM <= FanRpmMax
  {
    FanRpmInRange(v);
  }

  /**
   * If the last sample was taken at true time tLast, a pass at true time
   * tNow (less than 2^32 ms later) samples exactly when 50 ms have passed,
   * whether or not the 32-bit clock wrapped in between; otherwise nothing
   * changes.
   */
  lemma SampleStepAtTrueTime(s: Snapshot, tLast: nat, tNow: nat, stamp: U32, a0: int, a1: int)
    requires s.SensorUpdate == Clock(tLast)
    requires tLast <= tNow < tLast + Two32
    ensures tNow - tLast >= SampleIntervalMs ==>
              SampleStep(s, Clock(tNow), stamp, a0, a1) == s.(SensorUpdate := stamp, BitsA0 := a0, BitsA1 := a1)
    ensures tNow - tLast < SampleIntervalMs ==> SampleStep(s, Clock(tNow), stamp, a0, a1) == s
  {
    ShouldSampleIffIntervalPassed(tLast, tNow);
  }

  /** The sampler writes only its own fields; the handlers never write them. */
  lemma FieldOwnership(s: Snapshot, now: U32, stamp: U32, a0: int, a1: int, v: int)
    ensures var t := SampleStep(s, now, stamp, a0, a1);
            t.FanSpeed == s.FanSpeed && t.FanRPM == s.FanRPM && t.LED0 == s.LED0 && t.SomeOutput == s.SomeOutput
    ensures var t := SetSlider(s, v);
            t.BitsA0 == s.BitsA0 && t.BitsA1 == s.BitsA1 && t.SensorUpdate == s.SensorUpdate
  {
  }

  class ControlState {
    var BitsA0: int
    var BitsA1: int
    var FanSpeed: int
    var LED0: bool
    var SomeOutput: bool
    var SensorUpdate: U32
    var FanRPM: int

    /** The global `char XML[2048]`. */
    const XML: CharBuffer
    /** The global `char buf[32]`. */
    const buf: CharBuffer

    /** Last level written to the LED pin. */
    ghost var ledPin: bool
    /** Last level written to the switched output pin (low out of reset). */
    ghost var outputPin: bool
    /** Last duty written to the fan's PWM channel (a `uint32_t` parameter). */
    ghost var fanDuty: U32

    /**
     * The two buffers are distinct C strings of their declared sizes, the
     * integer globals hold 32-bit values, and every output pin shows the
     * field that drives it.
     */
    ghost predicate Valid()
      reads this, XML, XML.data, buf, buf.data
    {
      XML != buf && XML.data != buf.data &&
      XML.data.Length == 2048 && buf.data.Length == 32 &&
      XML.Valid() && buf.Valid() &&
      IsInt32(BitsA0) && IsInt32(BitsA1) && IsInt32(FanSpeed) &&
      ledPin == LED0 && outputPin == SomeOutput && fanDuty == FanSpeed % Two32
    }

    function State(): Snapshot
      reads this
    {
      Snapshot(BitsA0, BitsA1, FanSpeed, FanRPM, LED0, SomeOutput, SensorUpdate)
    }

    /** The globals' initialisers followed by the state part of `setup`. */
    constructor ()
      ensures Valid() && State() == Initial
      ensures fresh(XML) && fresh(XML.data) && fresh(buf) && fresh(buf.data)
      ensures XML.Contents() == [] && buf.Contents() == []
    {
      BitsA0, BitsA1 := 0, 0;
      FanSpeed := 0;
      LED0, SomeOutput := false, false;
      SensorUpdate := 0;
      FanRPM := 0;
      XML := new CharBuffer(2048);
      buf := new CharBuffer(32);
      ledPin := LED0;       // digitalWrite(PIN_LED, LED0)
      outputPin := false;
      fanDuty := FanSpeed;  // ledcWrite(0, FanSpeed)
    }

    /** `/BUTTON_0`: toggles LED0, drives the LED pin to it and replies with an empty body. */
    method ProcessButton_0() returns (reply: string)
      requires Valid()
      modifies this
      ensures Valid() && reply == ""
      ensures State() == PressButton0(old(State()))
      ensures ledPin == !old(ledPin) && outputPin == old(outputPin) && fanDuty == old(fanDuty)
    {
      LED0 := !LED0;
      ledPin := LED0;
      reply := "";
    }

    /** `/BUTTON_1`: toggles SomeOutput, drives the output pin to it and replies with an empty body. */
    method ProcessButton_1() returns (reply: string)
      requires Valid()
      modifies this
      ensures Valid() && reply == ""
      ensures State() == PressButton1(old(State()))
      ensures outputPin == !old(outputPin) && ledPin == old(ledPin) && fanDuty == old(fanDuty)
    {
      SomeOutput := !SomeOutput;
      outputPin := SomeOutput;
      reply := "";
    }

    /**
     * `/UPDATE_SLIDER` with the already parsed VALUE: stores the command
     * unclamped, drives the PWM channel with it, and replies with the `%d`
     * text of the RPM figure, which is left in `buf`.
     */
    method UpdateSlider(value: int) returns (reply: string)
      requires Valid() && IsInt32(value)
      modifies this, buf, buf.data
      ensures Valid()
      ensures State() == SetSlider(old(State()), value)
      ensures fanDuty == value % Two32 && ledPin == old(ledPin) && outputPin == old(outputPin)
      ensures reply == buf.Contents() == Decimal(FanRPM)
      ensures ParseDecimal(reply) == Some(FanRPM)
      ensures unchanged(XML, XML.data)
    {
      FanSpeed := value;
      fanDuty := FanSpeed % Two32;
      FanRPM := FanRpm(FanSpeed);
      FanRpmInt32Bound(FanSpeed);
      reply := PrintRpm(FanRPM);
    }

    /**
     * The reply of `/UPDATE_SLIDER`: `buf` is cleared, the RPM figure is
     * printed into it with `%d`, and the result is printed again with
     * itself as the format.
     */
    method PrintRpm(rpm: int) returns (reply: string)
      requires Valid() && Abs(rpm) < 100000000000
      modifies buf, buf.data
      ensures Valid() && unchanged(this)
      ensures reply == buf.Contents() == Decimal(rpm)
      ensures ParseDecimal(reply) == Some(rpm)
    {
      buf.Copy("");
      var text := Decimal(rpm);
      DecimalLengthBelow10To11(rpm);
      DecimalExcludes(rpm, '\0');
      buf.Copy(text);
      DecimalReformat(rpm);
      var again := FormatNoArgs(buf.Contents());
      buf.Copy(again.value);
      reply := buf.Contents();
      DecimalRoundTrip(rpm);
    }

    /**
     * One iteration of the sampling task's loop: `now` is the `millis()`
     * read by the guard, `stamp` the one read when the sample is taken,
     * `a0` and `a1` the two `analogRead` results.
     */
    method SampleTick(now: U32, stamp: U32, a0: int, a1: int) returns (sampled: bool)
      requires Valid()
      requires 0 <= a0 < 0x1_0000 && 0 <= a1 < 0x1_0000
      modifies this
      ensures Valid()
      ensures sampled == ShouldSample(now, old(SensorUpdate))
      ensures State() == SampleStep(old(State()), now, stamp, a0, a1)
      ensures ledPin == old(ledPin) && outputPin == old(outputPin) && fanDuty == old(fanDuty)
    {
      sampled := Elapsed(now, SensorUpdate) >= SampleIntervalMs;
      if sampled {
        SensorUpdate := stamp;
        BitsA0 := a0;
        BitsA1 := a1;
      }
    }

    /** `sprintf(buf, ...)` of one line followed by `strcat(XML, buf)`. */
    method PrintLine(line: string)
      requires Valid() && '\0' !in line && |line| < 32
      requires |XML.Contents()| + |line| < 2048
      modifies XML, XML.data, buf, buf.data
      ensures Valid() && unchanged(this)
      ensures XML.Contents() == old(XML.Contents()) + line
      ensures buf.Contents() == line
    {
      buf.Copy(line);
      XML.Append(buf.Contents());
    }

    /** `strcat(XML, text)` of a literal. */
    method AppendText(text: string)
      requires Valid() && '\0' !in text
      requires |XML.Contents()| + |text| < 2048
      modifies XML, XML.data
      ensures Valid() && unchanged(this)
      ensures XML.Contents() == old(XML.Contents()) + text
      ensures unchanged(buf, buf.data)
    {
      XML.Append(text);
    }

    /** The four `sprintf`/`strcat` pairs that append the analog readings. */
    method AppendReadings(v0: VoltReading, v1: VoltReading)
      requires Valid() && |XML.Contents()| <= 31
      requires IsInt32(v0.whole) && IsInt32(v1.whole)
      requires TenthsDigit(v0.whole, v0.scaled) <= 9 && TenthsDigit(v1.whole, v1.scaled) <= 9
      modifies XML, XML.data, buf, buf.data
      ensures Valid() && unchanged(this)
      ensures XML.Contents()
           == old(XML.Contents()) + IntLine("B0", BitsA0) + VoltLine("V0", v0) + IntLine("B1", BitsA1) + VoltLine("V1", v1)
      ensures buf.Contents() == VoltLine("V1", v1)
    {
      IntLineFits("B0", BitsA0);
      VoltLineFits("V0", v0);
      IntLineFits("B1", BitsA1);
      VoltLineFits("V1", v1);
      PrintLine(IntLine("B0", BitsA0));
      PrintLine(VoltLine("V0", v0));
      PrintLine(IntLine("B1", BitsA1));
      PrintLine(VoltLine("V1", v1));
    }

    /** The `<LED>` and `<SWITCH>` elements, each one of two literals. */
    method AppendFlags()
      requires Valid() && |XML.Contents()| <= 119
      modifies XML, XML.data
      ensures Valid() && unchanged(this)
      ensures XML.Contents() == old(XML.Contents()) + FlagLine("LED", LED0) + FlagLine("SWITCH", SomeOutput)
      ensures unchanged(buf, buf.data)
    {
      LedLineLiterals();
      SwitchLineLiterals();
      if LED0 {
        AppendText("<LED>1</LED>\n");
      } else {
        AppendText("<LED>0</LED>\n");
      }
      if SomeOutput {
        AppendText("<SWITCH>1</SWITCH>\n");
      } else {
        AppendText("<SWITCH>0</SWITCH>\n");
      }
    }

    /**
     * `/xml`: builds the status document in `XML`, one `sprintf` into `buf`
     * and one `strcat` at a time, and returns what is sent.  `v0` and `v1`
     * are the truncated voltages; it changes none of the integer and boolean
     * globals, only the two buffers.
     */
    method SendXML(v0: VoltReading, v1: VoltReading) returns (xml: string)
      requires Valid()
      requires IsInt32(v0.whole) && IsInt32(v1.whole)
      requires TenthsDigit(v0.whole, v0.scaled) <= 9 && TenthsDigit(v1.whole, v1.scaled) <= 9
      modifies XML, XML.data, buf, buf.data
      ensures Valid() && unchanged(this)
      ensures xml == XML.Contents() == Status(BitsA0, v0, BitsA1, v1, LED0, SomeOutput)
      ensures buf.Contents() == VoltLine("V1", v1)
    {
      IntLineFits("B0", BitsA0);
      VoltLineFits("V0", v0);
      IntLineFits("B1", BitsA1);
      VoltLineFits("V1", v1);
      FlagLineFits("LED", LED0);
      FlagLineFits("SWITCH", SomeOutput);
      HeaderFooterFit();
      XML.Copy(Header);
      AppendReadings(v0, v1);
      AppendFlags();
      AppendText(Footer);
      xml := XML.Contents();
      StatusInAppendOrder(BitsA0, v0, BitsA1, v1, LED0, SomeOutput);
    }
  }
}
