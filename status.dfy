/**
 * The status document `SendXML` produces, as a function of the fields it
 * reads, with a parser that recovers every field from it (so the document
 * determines the state it reports) and the length bounds that keep each
 * `sprintf` inside the 32-byte scratch buffer and the whole document inside
 * the 2048-byte XML buffer.
 */
module StatusXml {
  import opened Wrappers
  import opened CArith
  import opened CText

  const Header: string := "<?xml version = '1.0'?>\n<Data>\n"
  const Footer: string := "</Data>\n"

  /** A voltage as the serialiser receives it: `(int)V` and `(int)(V * 10)`. */
  datatype VoltReading = VoltReading(whole: int, scaled: int)

  function Open(tag: string): string {
    "<" + tag + ">"
  }

  function Close(tag: string): string {
    "</" + tag + ">\n"
  }

  /** `<tag>%d</tag>\n` */
  function IntLine(tag: string, n: int): (r: string)
    ensures |r| == 2 * |tag| + 6 + |Decimal(n)|
    ensures Open(tag) <= r && r[|tag| + 2..|tag| + 2 + |Decimal(n)|] == Decimal(n)
  {
    Open(tag) + (Decimal(n) + Close(tag))
  }

  /** `<tag>%d.%d</tag>\n` with the whole part and the tenths digit. */
  function VoltLine(tag: string, v: VoltReading): (r: string)
    ensures var w, t := Decimal(v.whole), Decimal(TenthsDigit(v.whole, v.scaled));
            |r| == 2 * |tag| + 7 + |w| + |t| &&
            Open(tag) <= r && r[|tag| + 2..|tag| + 2 + |w|] == w && r[|tag| + 2 + |w|] == '.' &&
            r[|tag| + 3 + |w|..|tag| + 3 + |w| + |t|] == t
  {
    Open(tag) + (Decimal(v.whole) + ("." + (Decimal(TenthsDigit(v.whole, v.scaled)) + Close(tag))))
  }

  /** `<tag>1</tag>\n` when the flag is set, `<tag>0</tag>\n` otherwise. */
  function FlagLine(tag: string, b: bool): (r: string)
    ensures |r| == 2 * |tag| + 7 && Open(tag) <= r
    ensures r[|tag| + 2] == '1' <==> b
  {
    Open(tag) + ((if b then "1" else "0") + Close(tag))
  }

  /** The document `SendXML` sends, in the order the elements are appended. */
  function Status(bits0: int, v0: VoltReading, bits1: int, v1: VoltReading, led: bool, sw: bool): (r: string)
    ensures |r| >= |Header| + |Footer|
    ensures Header <= r && r[|r| - |Footer|..] == Footer
  {
    Framed(Header, IntLine("B0", bits0), VoltLine("V0", v0), IntLine("B1", bits1), VoltLine("V1", v1),
           FlagLine("LED", led), FlagLine("SWITCH", sw), Footer)
  }

  /** Eight parts joined from the right: the result starts with the first and ends with the last. */
  function Framed(a: string, b: string, c: string, d: string, e: string, f: string, g: string, h: string): (r: string)
    ensures |r| >= |a| + |h| && a <= r && r[|r| - |h|..] == h
  {
    var m := b + (c + (d + (e + (f + g))));
    assert a + (b + (c + (d + (e + (f + (g + h)))))) == (a + m) + h;
    a + (b + (c + (d + (e + (f + (g + h))))))
  }

  // ---------------------------------------------------------------------
  // Reading a document back

  /** What a status document reports; a voltage as its whole part and tenths digit. */
  datatype Report = Report(bits0: int, whole0: int, tenths0: int,
                           bits1: int, whole1: int, tenths1: int,
                           led: bool, sw: bool)

  /** What a document built from these fields must report. */
  function Expected(bits0: int, v0: VoltReading, bits1: int, v1: VoltReading, led: bool, sw: bool): Report {
    Report(bits0, v0.whole, TenthsDigit(v0.whole, v0.scaled),
           bits1, v1.whole, TenthsDigit(v1.whole, v1.scaled), led, sw)
  }

  /** Strips a literal prefix. */
  function Expect(lit: string, s: string): (r: Option<string>)
    ensures r.Some? ==> s == lit + r.value
  {
    if lit <= s then Some(s[|lit|..]) else None
  }

  /** Splits s before the first occurrence of c (or at its end). */
  function TakeUntil(s: string, c: char): (r: (string, string))
    ensures r.0 + r.1 == s && c !in r.0
    ensures r.1 == [] || r.1[0] == c
  {
    if s == [] || s[0] == c then ([], s)
    else
      var (p, q) := TakeUntil(s[1..], c);
      ([s[0]] + p, q)
  }

  function ParseFlag(s: string): Option<bool> {
    if s == "1" then Some(true) else if s == "0" then Some(false) else None
  }

  function ParseIntLine(tag: string, s: string): Option<(int, string)> {
    var s1 :- Expect(Open(tag), s);
    var (text, s2) := TakeUntil(s1, '<');
    var n :- ParseDecimal(text);
    var s3 :- Expect(Close(tag), s2);
    Some((n, s3))
  }

  function ParseVoltLine(tag: string, s: string): Option<(int, int, string)> {
    var s1 :- Expect(Open(tag), s);
    var (wholeText, s2) := TakeUntil(s1, '.');
    var whole :- ParseDecimal(wholeText);
    var s3 :- Expect(".", s2);
    var (tenthsText, s4) := TakeUntil(s3, '<');
    var tenths :- ParseDecimal(tenthsText);
    var s5 :- Expect(Close(tag), s4);
    Some((whole, tenths, s5))
  }

  function ParseFlagLine(tag: string, s: string): Option<(bool, string)> {
    var s1 :- Expect(Open(tag), s);
    var (text, s2) := TakeUntil(s1, '<');
    var b :- ParseFlag(text);
    var s3 :- Expect(Close(tag), s2);
    Some((b, s3))
  }

  /** Reads a complete status document; None if it is not one. */
  function ParseStatus(x: string): Option<Report> {
    var s0 :- Expect(Header, x);
    var b0 :- ParseIntLine("B0", s0);
    var v0 :- ParseVoltLine("V0", b0.1);
    var b1 :- ParseIntLine("B1", v0.2);
    var v1 :- ParseVoltLine("V1", b1.1);
    var led :- ParseFlagLine("LED", v1.2);
    var sw :- ParseFlagLine("SWITCH", led.1);
    var rest :- Expect(Footer, sw.1);
    if rest == [] then Some(Report(b0.0, v0.0, v0.1, b1.0, v1.0, v1.1, led.0, sw.0)) else None
  }

  lemma ExpectPrefix(lit: string, rest: string)
    ensures Expect(lit, lit + rest) == Some(rest)
  {
    assert lit <= lit + rest;
    assert (lit + rest)[|lit|..] == rest;
  }

  lemma {:induction false} TakeUntilConcat(p: string, q: string, c: char)
    requires c !in p
    requires q == [] || q[0] == c
    ensures TakeUntil(p + q, c) == (p, q)
  {
    if p != [] {
      var s := p + q;
      assert p[0] in p;
      assert s != [] && s[0] == p[0] && s[0] != c;
      assert s[1..] == p[1..] + q;
      TakeUntilConcat(p[1..], q, c);
      assert TakeUntil(s, c) == ([s[0]] + p[1..], q);
      assert [p[0]] + p[1..] == p;
    } else {
      assert p + q == q;
    }
  }

  lemma IntLineRoundTrip(tag: string, n: int, rest: string)
    ensures ParseIntLine(tag, IntLine(tag, n) + rest) == Some((n, rest))
  {
    var d := Decimal(n);
    assert IntLine(tag, n) + rest == Open(tag) + (d + (Close(tag) + rest));
    ExpectPrefix(Open(tag), d + (Close(tag) + rest));
    DecimalExcludes(n, '<');
    TakeUntilConcat(d, Close(tag) + rest, '<');
    DecimalRoundTrip(n);
    ExpectPrefix(Close(tag), rest);
  }

  lemma VoltLineRoundTrip(tag: string, v: VoltReading, rest: string)
    ensures ParseVoltLine(tag, VoltLine(tag, v) + rest)
         == Some((v.whole, TenthsDigit(v.whole, v.scaled), rest))
  {
    var w := Decimal(v.whole);
    var t := Decimal(TenthsDigit(v.whole, v.scaled));
    var tail := "." + (t + (Close(tag) + rest));
    assert VoltLine(tag, v) + rest == Open(tag) + (w + tail);
    ExpectPrefix(Open(tag), w + tail);
    DecimalExcludes(v.whole, '.');
    TakeUntilConcat(w, tail, '.');
    DecimalRoundTrip(v.whole);
    ExpectPrefix(".", t + (Close(tag) + rest));
    DecimalExcludes(TenthsDigit(v.whole, v.scaled), '<');
    TakeUntilConcat(t, Close(tag) + rest, '<');
    DecimalRoundTrip(TenthsDigit(v.whole, v.scaled));
    ExpectPrefix(Close(tag), rest);
  }

  lemma FlagLineRoundTrip(tag: string, b: bool, rest: string)
    ensures ParseFlagLine(tag, FlagLine(tag, b) + rest) == Some((b, rest))
  {
    var d := if b then "1" else "0";
    assert FlagLine(tag, b) + rest == Open(tag) + (d + (Close(tag) + rest));
    ExpectPrefix(Open(tag), d + (Close(tag) + rest));
    TakeUntilConcat(d, Close(tag) + rest, '<');
    ExpectPrefix(Close(tag), rest);
  }

  /**
   * Every field `SendXML` serialises can be read back from the document, in
   * the order the elements were appended: in particular `<LED>` reads 1
   * exactly when LED0 is set and `<SWITCH>` reads 1 exactly when SomeOutput is.
   */
  lemma StatusRoundTrip(bits0: int, v0: VoltReading, bits1: int, v1: VoltReading, led: bool, sw: bool)
    ensures ParseStatus(Status(bits0, v0, bits1, v1, led, sw)) == Some(Expected(bits0, v0, bits1, v1, led, sw))
  {
    var t6 := FlagLine("SWITCH", sw) + Footer;
    var t5 := FlagLine("LED", led) + t6;
    var t4 := VoltLine("V1", v1) + t5;
    var t3 := IntLine("B1", bits1) + t4;
    var t2 := VoltLine("V0", v0) + t3;
    var t1 := IntLine("B0", bits0) + t2;
    assert Status(bits0, v0, bits1, v1, led, sw) == Header + t1;
    ExpectPrefix(Header, t1);
    IntLineRoundTrip("B0", bits0, t2);
    VoltLineRoundTrip("V0", v0, t3);
    IntLineRoundTrip("B1", bits1, t4);
    VoltLineRoundTrip("V1", v1, t5);
    FlagLineRoundTrip("LED", led, t6);
    FlagLineRoundTrip("SWITCH", sw, Footer);
    ExpectPrefix(Footer, []);
    assert Footer + [] == Footer;
  }

  /** Two states that differ in a reported field give different documents. */
  lemma StatusDeterminesFields(bits0: int, v0: VoltReading, bits1: int, v1: VoltReading, led: bool, sw: bool,
                               bits0': int, v0': VoltReading, bits1': int, v1': VoltReading, led': bool, sw': bool)
    requires Status(bits0, v0, bits1, v1, led, sw) == Status(bits0', v0', bits1', v1', led', sw')
    ensures bits0 == bits0' && bits1 == bits1' && led == led' && sw == sw'
    ensures v0.whole == v0'.whole && v1.whole == v1'.whole
    ensures TenthsDigit(v0.whole, v0.scaled) == TenthsDigit(v0'.whole, v0'.scaled)
    ensures TenthsDigit(v1.whole, v1.scaled) == TenthsDigit(v1'.whole, v1'.scaled)
  {
    StatusRoundTrip(bits0, v0, bits1, v1, led, sw);
    StatusRoundTrip(bits0', v0', bits1', v1', led', sw');
  }

  /** The document is the header and the lines appended one after another. */
  lemma StatusInAppendOrder(bits0: int, v0: VoltReading, bits1: int, v1: VoltReading, led: bool, sw: bool)
    ensures Status(bits0, v0, bits1, v1, led, sw)
         == Header + IntLine("B0", bits0) + VoltLine("V0", v0) + IntLine("B1", bits1) + VoltLine("V1", v1)
            + FlagLine("LED", led) + FlagLine("SWITCH", sw) + Footer
  {
    RightToLeft(Header, IntLine("B0", bits0), VoltLine("V0", v0), IntLine("B1", bits1), VoltLine("V1", v1),
                FlagLine("LED", led), FlagLine("SWITCH", sw), Footer);
  }

  /** The `<LED>` lines are the two literals the serialiser appends. */
  lemma LedLineLiterals()
    ensures FlagLine("LED", true) == "<LED>1</LED>\n" && FlagLine("LED", false) == "<LED>0</LED>\n"
  {
  }

  /** The `<SWITCH>` lines are the two literals the serialiser appends. */
  lemma SwitchLineLiterals()
    ensures FlagLine("SWITCH", true) == "<SWITCH>1</SWITCH>\n" && FlagLine("SWITCH", false) == "<SWITCH>0</SWITCH>\n"
  {
  }

  lemma RightToLeft(a: string, b: string, c: string, d: string, e: string, f: string, g: string, h: string)
    ensures a + (b + (c + (d + (e + (f + (g + h)))))) == a + b + c + d + e + f + g + h
  {
  }

  // ---------------------------------------------------------------------
  // Buffer bounds

  /** A `<tag>%d</tag>\n` line for a 32-bit value and a two-letter tag fits `buf[32]` with its NUL. */
  lemma IntLineFits(tag: string, n: int)
    requires IsInt32(n) && |tag| == 2 && '\0' !in tag
    ensures |IntLine(tag, n)| <= 21 && '\0' !in IntLine(tag, n)
  {
    DecimalLengthInt32(n);
    DecimalExcludes(n, '\0');
  }

  /** So does a voltage line, when the tenths digit is a single digit. */
  lemma VoltLineFits(tag: string, v: VoltReading)
    requires IsInt32(v.whole) && TenthsDigit(v.whole, v.scaled) <= 9 && |tag| == 2 && '\0' !in tag
    ensures |VoltLine(tag, v)| <= 23 && '\0' !in VoltLine(tag, v)
  {
    DecimalLengthInt32(v.whole);
    DecimalExcludes(v.whole, '\0');
    DecimalExcludes(TenthsDigit(v.whole, v.scaled), '\0');
  }

  /** Sizes of the fixed header and trailer; neither contains NUL. */
  lemma HeaderFooterFit()
    ensures |Header| == 31 && '\0' !in Header
    ensures |Footer| == 8 && '\0' !in Footer
  {
  }

  lemma FlagLineFits(tag: string, b: bool)
    requires '\0' !in tag
    ensures |FlagLine(tag, b)| == 2 * |tag| + 7 && '\0' !in FlagLine(tag, b)
  {
  }

  /** Lengths add up and NUL-freeness is kept under concatenation. */
  lemma Join(a: string, b: string)
    requires '\0' !in a && '\0' !in b
    ensures |a + b| == |a| + |b| && '\0' !in a + b
  {
  }

  /** The whole document fits `XML[2048]` with room to spare. */
  lemma StatusFits(bits0: int, v0: VoltReading, bits1: int, v1: VoltReading, led: bool, sw: bool)
    requires IsInt32(bits0) && IsInt32(bits1) && IsInt32(v0.whole) && IsInt32(v1.whole)
    requires TenthsDigit(v0.whole, v0.scaled) <= 9 && TenthsDigit(v1.whole, v1.scaled) <= 9
    ensures |Status(bits0, v0, bits1, v1, led, sw)| <= 159
    ensures '\0' !in Status(bits0, v0, bits1, v1, led, sw)
  {
    var l1, l2, l3, l4 := IntLine("B0", bits0), VoltLine("V0", v0), IntLine("B1", bits1), VoltLine("V1", v1);
    var l5, l6 := FlagLine("LED", led), FlagLine("SWITCH", sw);
    IntLineFits("B0", bits0);
    VoltLineFits("V0", v0);
    IntLineFits("B1", bits1);
    VoltLineFits("V1", v1);
    FlagLineFits("LED", led);
    FlagLineFits("SWITCH", sw);
    HeaderFooterFit();
    Join(l6, Footer);
    var t6 := l6 + Footer;
    Join(l5, t6);
    var t5 := l5 + t6;
    Join(l4, t5);
    var t4 := l4 + t5;
    Join(l3, t4);
    var t3 := l3 + t4;
    Join(l2, t3);
    var t2 := l2 + t3;
    Join(l1, t2);
    var t1 := l1 + t2;
    Join(Header, t1);
    assert Status(bits0, v0, bits1, v1, led, sw) == Header + t1;
  }
}
