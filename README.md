# ESP32 FreeRTOS web-server controller: a Dafny model

The firmware in `FreeRTOS/src/main.cpp` runs a small web server on an ESP32
access point. It also runs a FreeRTOS task that samples two analog inputs.
Under the Wi-Fi, HTTP and GPIO plumbing sits a small state machine over a few
globals:

- `BitsA0` and `BitsA1` are the latest ADC counts.
- `SensorUpdate` is the `millis()` time of the last sample.
- `FanSpeed` and `FanRPM` are the fan command and the RPM figure derived from it.
- `LED0` and `SomeOutput` are two switched outputs.

Three request handlers change these globals: `ProcessButton_0`,
`ProcessButton_1` and `UpdateSlider`. The sampling task changes them too.
`SendXML` renders them as a status document, built with `strcpy`/`strcat` into
the fixed buffer `char XML[2048]` through the scratch buffer `char buf[32]`.

The model has these modules:

- `CArith` (arith.dfy) covers the integer arithmetic. It has C's truncating
  division, the Arduino `map` that turns the fan command into RPM, the wrapping
  `uint32_t` millisecond clock with the 50 ms sampling guard, and the "tenths"
  digit of a voltage. The lemmas about the digit are stated over exact reals.
- `CText` (text.dfy) is `sprintf("%d")`. It has a parser that reads the text
  back, and `sprintf` called with a format and no arguments (`sprintf(buf, buf)`).
- `CBuffer` (cbuffer.dfy) is a `class CharBuffer` over an `array<char>` that
  holds a NUL-terminated C string. `Copy` models `strcpy` and `sprintf` into
  the buffer. `Append` models `strcat`.
- `StatusXml` (status.dfy) is the status document as a function of the fields
  it reports. It has a parser that recovers every field, and length bounds
  for both buffers.
- `Control` (control.dfy) is `class ControlState`, which holds the globals and
  the two buffers. Its methods are the handlers, one pass of the sampling loop
  and `SendXML`. The three handlers and the sampling pass are each tied to a
  pure step function over a `Snapshot` of the integer and boolean globals.
  `SendXML` is tied to the document function `StatusXml.Status`, and its
  helpers `PrintLine`, `AppendText`, `AppendReadings` and `AppendFlags`, like
  `PrintRpm`, are tied to the contents of the buffers. Ghost fields record the
  last value written to the LED pin, to the output pin and to the fan's PWM
  channel. `Valid()` keeps the LED and output pins equal to `LED0` and
  `SomeOutput`, and the PWM duty equal to `FanSpeed` converted to
  `uint32_t`.

Some behaviours of `main.cpp` are easy to misread:

- `UpdateSlider` stores the slider value without clamping (main.cpp:96). A
  value of 300 stays 300.
- The reply to the slider request is the RPM figure `FanRPM`
  (main.cpp:101-105), not the command.
- The XML header is written as `<?xml version = '1.0'?>`, with spaces around
  `=` (main.cpp:130).
- The status document has exactly the elements `B0`, `V0`, `B1`, `V1`, `LED`
  and `SWITCH`, in that order (main.cpp:130-152).

The Arduino library's `map` is modelled as
`(x - inMin) * (outMax - outMin) / (inMax - inMin) + outMin`, with C's
truncating division. Its own source is not part of this model.

## Model

| member | source | states |
|---|---|---|
| CArith.TruncDiv | FreeRTOS/src/main.cpp:101 | C integer division: the magnitude of the quotient is the floor of abs(a)/abs(b), and its sign is the product of the operands' signs (truncation toward zero) |
| CArith.FanRpm | FreeRTOS/src/main.cpp:101 | `map(FanSpeed,0,255,0,2400)`: a non-negative command gives the largest RPM with rpm*255 <= speed*2400; a negative one gives the smallest rpm with speed*2400 <= rpm*255; the sign follows the command |
| CArith.FanRpmInRange | FreeRTOS/src/main.cpp:101 | a command in 0..255 gives an RPM in 0..2400 |
| CArith.FanRpmEndpoints | FreeRTOS/src/main.cpp:101 | 0 maps to 0 and 255 maps to 2400 |
| CArith.FanRpmMonotone | FreeRTOS/src/main.cpp:101 | RPM is non-decreasing in the command, over all integers |
| CArith.FanRpmOdd | FreeRTOS/src/main.cpp:101 | truncation is symmetric: FanRpm(-v) == -FanRpm(v) |
| CArith.FanRpmAboveRange | FreeRTOS/src/main.cpp:96-101 | nothing is clamped: 300 gives 2823, and -1 gives -9 |
| CArith.FanRpmInt32Bound | FreeRTOS/src/main.cpp:101 | for any 32-bit command the RPM's magnitude is below 10^11 |
| CArith.ArduinoMap | FreeRTOS/src/main.cpp:101 | `map(x, inMin, inMax, outMin, outMax)` sends inMin to outMin and inMax to outMax exactly |
| CArith.ShouldSample | FreeRTOS/src/main.cpp:83 | the guard `millis() - SensorUpdate >= 50`: without a wrap it fires iff now - last >= 50; after a wrap below last it fires iff last - now <= 2^32 - 50 |
| CArith.TruncReal | FreeRTOS/src/main.cpp:133-137 | the `(int)` cast of a real truncates toward zero: a non-negative x gives the largest integer not above it, a negative x the smallest integer not below it |
| CArith.TenthsDigit | FreeRTOS/src/main.cpp:133-137 | `abs(scaled - whole*10)` is the non-negative d with scaled == 10*whole + d or scaled == 10*whole - d, and it is 0 iff scaled == 10*whole |
| CArith.Elapsed | FreeRTOS/src/main.cpp:83 | `millis() - SensorUpdate` on uint32_t is now - last, plus 2^32 when the clock has wrapped below last |
| CArith.ElapsedIsTrueTime | FreeRTOS/src/main.cpp:83 | when two readings of the wrapping clock are less than 2^32 ms apart, the wrapped difference equals the true elapsed time |
| CArith.ShouldSampleIffIntervalPassed | FreeRTOS/src/main.cpp:83 | the guard fires exactly when 50 ms or more of true time have passed since the last sample, across a wrap as well |
| CArith.ShouldSampleAcrossWrap | FreeRTOS/src/main.cpp:83 | concrete wrap: last sample 10 ms before the wrap; the guard fires 45 ms after the wrap but not 30 ms after it |
| CArith.VoltageTextTruncates | FreeRTOS/src/main.cpp:133 | for a voltage v >= 0, `(int)v` and `abs((int)(v*10) - (int)v*10)` give v truncated (not rounded) to one decimal, with a single digit after the point |
| CArith.TenthsDigitOfMagnitude | FreeRTOS/src/main.cpp:133-137 | for any voltage the printed digit is the first decimal digit of its magnitude: non-negative and at most 9 |
| CText.NatText | FreeRTOS/src/main.cpp:103 | the digits of a natural number: non-empty, all decimal digits, no leading zero |
| CText.Decimal | FreeRTOS/src/main.cpp:103 | `%d` text is non-empty and uses only digits and '-' |
| CText.ParseNatText | FreeRTOS/src/main.cpp:103 | the digit string of n reads back as n |
| CText.DecimalRoundTrip | FreeRTOS/src/main.cpp:103 | reading back the `%d` text of any integer gives that integer |
| CText.DecimalInjective | FreeRTOS/src/main.cpp:103 | distinct integers have distinct `%d` texts |
| CText.DecimalExcludes | FreeRTOS/src/main.cpp:131-138 | `%d` text contains no '<', no '.' and no NUL, so each element's value is delimited unambiguously and `strcat` copies it whole |
| CText.NatTextLength | FreeRTOS/src/main.cpp:103 | a natural number below 10^k has at most k digits |
| CText.DecimalLengthInt32 | FreeRTOS/src/main.cpp:131 | a 32-bit value prints in at most 11 characters |
| CText.DecimalLengthBelow10To11 | FreeRTOS/src/main.cpp:103 | a value of magnitude below 10^11 prints in at most 12 characters, so it fits `buf[32]` |
| CText.FormatNoArgs | FreeRTOS/src/main.cpp:104 | `sprintf` with a format and no arguments: when it is defined, the output is never longer than the format, so reprinting buf as its own format cannot overrun buf |
| CText.FormatNoArgsPlain | FreeRTOS/src/main.cpp:104 | `sprintf` with a format containing no '%' and no arguments prints the format unchanged |
| CText.DecimalReformat | FreeRTOS/src/main.cpp:103-104 | `%d` text has no '%', so `sprintf(buf, buf)` leaves the reply as it is |
| StatusXml.IntLine | FreeRTOS/src/main.cpp:131-135 | `<tag>%d</tag>\n` has length 2*len(tag)+6 plus the `%d` text, starts with `<tag>` and holds the `%d` text right after it |
| StatusXml.VoltLine | FreeRTOS/src/main.cpp:133-137 | `<tag>%d.%d</tag>\n` starts with `<tag>`, then holds the whole part's text, a '.', and the tenths digit's text; its length is 2*len(tag)+7 plus both texts |
| StatusXml.FlagLine | FreeRTOS/src/main.cpp:140-150 | `<tag>1</tag>\n` or `<tag>0</tag>\n` has length 2*len(tag)+7, starts with `<tag>`, and the character after it is '1' iff the flag is set |
| StatusXml.Status | FreeRTOS/src/main.cpp:130-152 | the document starts with the header `<?xml version = '1.0'?>\n<Data>\n` and ends with the trailer `</Data>\n` |
| StatusXml.StatusRoundTrip | FreeRTOS/src/main.cpp:129-152 | parsing the document recovers, in order, B0, the whole part and digit of V0, B1, V1, LED and SWITCH; `<LED>` reads 1 iff LED0 and `<SWITCH>` reads 1 iff SomeOutput |
| StatusXml.StatusDeterminesFields | FreeRTOS/src/main.cpp:129-152 | two states with the same document agree on both ADC counts, both voltage whole parts, both tenths digits and both flags |
| StatusXml.IntLineRoundTrip | FreeRTOS/src/main.cpp:131-132 | a `<tag>%d</tag>` line followed by anything reads back as its value and that remainder |
| StatusXml.VoltLineRoundTrip | FreeRTOS/src/main.cpp:133-134 | a `<tag>%d.%d</tag>` line reads back as its whole part and tenths digit |
| StatusXml.FlagLineRoundTrip | FreeRTOS/src/main.cpp:140-150 | a `<tag>0/1</tag>` line reads back as its flag |
| StatusXml.LedLineLiterals | FreeRTOS/src/main.cpp:140-144 | the two `<LED>` literals are the flag line for true and for false |
| StatusXml.SwitchLineLiterals | FreeRTOS/src/main.cpp:146-150 | the two `<SWITCH>` literals are the flag line for true and for false |
| StatusXml.HeaderFooterFit | FreeRTOS/src/main.cpp:130 | the header `<?xml version = '1.0'?>\n<Data>\n` has 31 characters and `</Data>\n` has 8; neither contains NUL |
| StatusXml.IntLineFits | FreeRTOS/src/main.cpp:131 | a count line for a 32-bit value has at most 21 characters, so it fits `buf[32]` with its NUL |
| StatusXml.VoltLineFits | FreeRTOS/src/main.cpp:133 | a voltage line has at most 23 characters when the digit is a single digit |
| StatusXml.FlagLineFits | FreeRTOS/src/main.cpp:140-150 | a flag line has 2*len(tag)+7 characters and no NUL |
| StatusXml.StatusFits | FreeRTOS/src/main.cpp:129-152 | the whole document has at most 159 characters and no NUL, well inside `XML[2048]` |
| CBuffer.CharBuffer.Contents | FreeRTOS/src/main.cpp:24-25 | the stored C string is shorter than the array and contains no NUL |
| CBuffer.CharBuffer.constructor | FreeRTOS/src/main.cpp:24-25 | a zero-initialised global array holds the empty string |
| CBuffer.CharBuffer.Append | FreeRTOS/src/main.cpp:132 | `strcat` appends the text exactly and keeps the string terminated inside the array |
| CBuffer.CharBuffer.Copy | FreeRTOS/src/main.cpp:130 | `strcpy` / `sprintf` into the buffer makes its contents exactly the text |
| Control.PressButton0 | FreeRTOS/src/main.cpp:108 | `/BUTTON_0` flips LED0 and leaves every other global as it was |
| Control.PressButton1 | FreeRTOS/src/main.cpp:116 | `/BUTTON_1` flips SomeOutput and leaves every other global as it was |
| Control.SetSlider | FreeRTOS/src/main.cpp:94-101 | FanSpeed becomes the value as given; FanRPM is value*2400/255 truncated toward zero; the counts, SensorUpdate, LED0 and SomeOutput are unchanged |
| Control.SampleStep | FreeRTOS/src/main.cpp:83-86 | when the wrapped elapsed time is at least 50 ms, SensorUpdate and both counts take the new readings; otherwise the state is unchanged; the fan and output fields never change |
| Control.ButtonsAreInvolutions | FreeRTOS/src/main.cpp:108-118 | pressing either button twice restores the whole state |
| Control.ButtonsCommute | FreeRTOS/src/main.cpp:108-118 | each button leaves the other's flag alone, so the two commute |
| Control.SliderLastWriteWins | FreeRTOS/src/main.cpp:94-101 | only the last slider command decides FanSpeed and FanRPM |
| Control.SliderRpmInRange | FreeRTOS/src/main.cpp:96-101 | a command in 0..255 is stored as given, and its RPM lies in 0..2400 |
| Control.SampleStepAtTrueTime | FreeRTOS/src/main.cpp:83-86 | if the last sample was at true time tLast, a pass at tNow (less than 2^32 ms later) takes a new sample iff tNow - tLast >= 50, across a clock wrap as well; otherwise the state is unchanged |
| Control.FieldOwnership | FreeRTOS/src/main.cpp:83-101 | the sampler writes only SensorUpdate and the counts; the slider never writes those |
| Control.ControlState.constructor | FreeRTOS/src/main.cpp:17-53 | all globals start at zero/false, both buffers are empty, and the LED pin and fan PWM show their globals |
| Control.ControlState.ProcessButton_0 | FreeRTOS/src/main.cpp:108-114 | LED0 is negated, nothing else changes, the LED pin follows LED0, and the reply body is empty |
| Control.ControlState.ProcessButton_1 | FreeRTOS/src/main.cpp:116-122 | SomeOutput is negated, LED0 and all other fields are unchanged, the output pin follows SomeOutput, and the reply body is empty |
| Control.ControlState.UpdateSlider | FreeRTOS/src/main.cpp:94-106 | FanSpeed becomes the value unclamped and FanRPM its map(); the PWM duty is the value as uint32_t; the reply is the `%d` text of FanRPM and reads back as FanRPM; XML is untouched |
| Control.ControlState.PrintRpm | FreeRTOS/src/main.cpp:102-105 | clearing buf, printing `%d` into it and reprinting it with itself as format leaves the `%d` text of the RPM in buf and in the reply; no global other than buf changes |
| Control.ControlState.SampleTick | FreeRTOS/src/main.cpp:81-92 | one loop pass samples exactly when the wrapped elapsed time is at least 50 ms; then SensorUpdate and both counts are replaced, and otherwise nothing changes |
| Control.ControlState.PrintLine | FreeRTOS/src/main.cpp:131-132 | a `sprintf` into buf followed by `strcat(XML, buf)` appends the line to XML and leaves buf holding that line; no global other than XML and buf changes |
| Control.ControlState.AppendText | FreeRTOS/src/main.cpp:141 | `strcat(XML, literal)` appends the literal to XML; buf and every other global are unchanged |
| Control.ControlState.AppendReadings | FreeRTOS/src/main.cpp:131-138 | appends the B0, V0, B1 and V1 lines to XML in this order and leaves buf holding the V1 line; no global other than XML and buf changes |
| Control.ControlState.AppendFlags | FreeRTOS/src/main.cpp:140-150 | appends `<LED>1` iff LED0, then `<SWITCH>1` iff SomeOutput; buf is unchanged |
| Control.ControlState.SendXML | FreeRTOS/src/main.cpp:129-155 | the text sent is the status document of the current state (header, B0, V0, B1, V1, LED, SWITCH, trailer), left in XML; buf is left holding the V1 line; no global other than XML and buf changes |

## Left out

- Wi-Fi access-point setup, `WebServer` routing, `server.send` and `server.arg` are network I/O. Each handler returns the body it sends instead: the empty body of the two buttons, the RPM text of the slider and the status document of `SendXML`; the status code and content type are not modelled.
- `String::toInt` is library code that is not part of this model. `UpdateSlider` takes the parsed integer.
- `Serial` output is left out. For example, `ProcessButton_1` logs `LED0` where `SomeOutput` was evidently meant; this touches only the serial log.
- `pinMode`, `ledcSetup`, `ledcAttachPin` and `disableCore0WDT` are hardware setup. `digitalWrite` and `ledcWrite` are kept only as ghost fields that hold the last value passed to them. `setup` never calls `pinMode` for `PIN_OUTPUT` and never writes it, so the ghost `outputPin` records the value passed to `digitalWrite`, not a level the pin is known to drive; it starts as false, the initial value of `SomeOutput`.
- `analogRead` results are inputs to `SampleTick`, in the range of its `uint16_t` result.
- The floats `VoltsA0`, `VoltsA1` and `Bits*3.3/4096`, and the casts `(int)V` and `(int)(V*10)`, are not modelled. `SendXML` takes the two truncated integers as a `VoltReading`. The lemmas on the tenths digit use exact reals, so float rounding of `V*10` is not modelled.
- Control.ControlState.SendXML: requires each tenths digit to be at most 9. `TenthsDigitOfMagnitude` proves this for any pair that comes from one value. Other pairs could overrun `buf[32]`, and that overrun is not modelled.
- Control.ControlState.PrintRpm: `sprintf(buf, buf)` (main.cpp:104) passes the same array as format and destination, which is undefined behaviour in C. The model treats it as printing the buffer's text as a format with no arguments into the buffer.
- CArith.FanRpm: computed over unbounded integers. For commands with magnitude above 894784, the 32-bit product inside `map` would overflow; that overflow is not modelled.
- `xTaskCreatePinnedToCore`, `vTaskDelay` and the infinite loops are scheduling. Any interleaving between the sampling task and the request handlers is concurrency. Neither is modelled: one pass of the loop body is one `SampleTick` call.
- `SendWebsite` and `PAGE_MAIN` serve a static page; `SuperMon.h` is not part of this model.
