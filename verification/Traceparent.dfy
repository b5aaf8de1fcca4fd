/** Printing and parsing a W3C `traceparent` header (section 3.2 of W3C Trace Context). */
module Traceparent {
  import opened Prelude
  import opened SpanIdentity
  import opened Texts

  datatype Context = Context(trace: nat, span: nat, flags: nat)

  // ---------------------------------------------------------------- hexadecimal

  function HexDigit(d: nat): char
    requires d < 16
  {
    "0123456789abcdef"[d]
  }

  predicate IsHex(c: char) {
    '0' <= c <= '9' || 'a' <= c <= 'f'
  }

  function HexValue(c: char): (d: nat)
    requires IsHex(c)
    ensures d < 16 && HexDigit(d) == c
  {
    if c <= '9' then c as int - '0' as int else c as int - 'a' as int + 10
  }

  /** The decimal digits, and then `a` to `f`, in order. */
  lemma HexDigitIs(d: nat)
    requires d < 16
    ensures HexDigit(d) as int == d + if d < 10 then 48 else 87
  {
  }

  lemma DigitValue(d: nat)
    requires d < 16
    ensures IsHex(HexDigit(d)) && HexValue(HexDigit(d)) == d
  {
  }

  /** `f"{n:0{width}x}"`: at least `width` digits. */
  function Hex(n: nat, width: nat): (text: string)
    ensures text != "" && width <= |text|
    decreases n + width
  {
    if n < 16 && width <= 1 then [HexDigit(n)]
    else Hex(n / 16, if width == 0 then 0 else width - 1) + [HexDigit(n % 16)]
  }

  predicate AllHex(text: string) {
    forall k | 0 <= k < |text| :: IsHex(text[k])
  }

  /** `int(text, 16)`. */
  function Value(text: string): nat
    requires AllHex(text)
  {
    if text == "" then 0 else 16 * Value(text[..|text| - 1]) + HexValue(text[|text| - 1])
  }

  /** `_hex_field`. */
  function HexField(text: string, width: nat): Option<nat> {
    if |text| != width || !AllHex(text) then None else Some(Value(text))
  }

  /** Sixteen to the `width`: two to the fourfold of it. */
  function Limit(width: nat): nat {
    if width == 0 then 1 else 16 * Limit(width - 1)
  }

  /** One digit more, of text and of number. */
  lemma ValueMore(text: string, c: char)
    requires AllHex(text) && IsHex(c)
    ensures AllHex(text + [c]) && Value(text + [c]) == 16 * Value(text) + HexValue(c)
  {
    assert (text + [c])[..|text|] == text;
  }

  /** The leading digits weigh the most. */
  lemma {:induction false} ValueBoth(a: string, b: string)
    requires AllHex(a) && AllHex(b)
    ensures AllHex(a + b) && Value(a + b) == Value(a) * Limit(|b|) + Value(b)
  {
    hide IsHex, HexValue;
    if b == "" {
      assert a + b == a;
      ValueNone();
    } else {
      var n := |b| - 1;
      assert (a + b)[..|a| + n] == a + b[..n] && b == b[..n] + [b[n]];
      ValueBoth(a, b[..n]);
      ValueMore(b[..n], b[n]);
      ValueMore(a + b[..n], b[n]);
      assert a + b == a + b[..n] + [b[n]];
      Scaled(Value(a), Limit(n));
    }
  }

  lemma Scaled(v: nat, l: nat)
    ensures 16 * (v * l) == v * (16 * l)
  {
  }

  lemma HexMore(v: nat, d: nat, width: nat)
    requires d < 16 && 0 < width
    ensures Hex(16 * v + d, width + 1) == Hex(v, width) + [HexDigit(d)]
  {
    assert (16 * v + d) / 16 == v && (16 * v + d) % 16 == d;
  }

  lemma {:induction false} HexReads(n: nat, width: nat)
    requires 0 < width && n < Limit(width)
    ensures HexField(Hex(n, width), width) == Some(n)
  {
    hide Value, HexDigit, HexValue, IsHex;
    DigitValue(n % 16);
    if width == 1 {
      assert [HexDigit(n)] == "" + [HexDigit(n)];
      ValueNone();
      ValueMore("", HexDigit(n));
    } else {
      hide Hex, Limit;
      LimitMore(width - 1);
      HexReads(n / 16, width - 1);
      HexMore(n / 16, n % 16, width - 1);
      ValueMore(Hex(n / 16, width - 1), HexDigit(n % 16));
    }
  }

  lemma ValueNone()
    ensures AllHex("") && Value("") == 0
  {
  }

  lemma LimitMore(width: nat)
    ensures Limit(width + 1) == 16 * Limit(width)
  {
  }

  lemma {:induction false} HexPrints(text: string)
    requires text != "" && AllHex(text)
    ensures Value(text) < Limit(|text|) && Hex(Value(text), |text|) == text
  {
    hide HexDigit, HexValue, IsHex, Value;
    var before, c := text[..|text| - 1], text[|text| - 1];
    assert text == before + [c];
    ValueMore(before, c);
    if before == "" {
      ValueNone();
    } else {
      hide Hex, Limit;
      HexPrints(before);
      LimitMore(|before|);
      HexMore(Value(before), HexValue(c), |before|);
    }
  }

  // ---------------------------------------------------------------- the header

  /** The characters `str.strip` takes off. */
  predicate Space(c: char) {
    var u := c as int;
    || 0x9 <= u <= 0xd || 0x1c <= u <= 0x20 || u == 0x85 || u == 0xa0 || u == 0x1680 || 0x2000 <= u <= 0x200a
    || u == 0x2028 || u == 0x2029 || u == 0x202f || u == 0x205f || u == 0x3000
  }

  function Strip(text: string): string
    decreases |text|
  {
    if text == "" then ""
    else if Space(text[0]) then Strip(text[1..])
    else if Space(text[|text| - 1]) then Strip(text[..|text| - 1])
    else text
  }

  function Format(c: Context): string {
    Joined(["00", Hex(c.trace, 32), Hex(c.span, 16), Hex(c.flags, 2)], '-')
  }

  function Parse(value: string): Option<Context> {
    var parts := Split(Strip(value), '-');
    if |parts| < 4 then None
    else
      var version := HexField(parts[0], 2);
      if version.None? || version.value == 0xff || (version.value == 0 && |parts| != 4) then None
      else
        var trace, span, flags := HexField(parts[1], 32), HexField(parts[2], 16), HexField(parts[3], 2);
        if trace.None? || trace.value == 0 || span.None? || span.value == 0 || flags.None? then None
        else Some(Context(trace.value, span.value, flags.value))
  }

  /** What a header can carry: 128, 64 and 8 bits, the ids not zero. */
  predicate Carried(c: Context) {
    0 < c.trace < Limit(32) && 0 < c.span < Limit(16) && c.flags < Limit(2)
  }

  lemma HexPlain(text: string)
    requires AllHex(text)
    ensures '-' !in text && forall c <- text :: !Space(c)
  {
  }

  /** Text with no space at either end is left as it is. */
  lemma StripsNothing(text: string)
    requires text != "" && !Space(text[0]) && !Space(text[|text| - 1])
    ensures Strip(text) == text
  {
  }

  lemma {:induction false} StripOnce(text: string)
    ensures Strip(text) != "" ==> !Space(Strip(text)[0]) && !Space(Strip(text)[|Strip(text)| - 1])
    decreases |text|
  {
    if text != "" {
      if Space(text[0]) {
        StripOnce(text[1..]);
      } else if Space(text[|text| - 1]) {
        StripOnce(text[..|text| - 1]);
      }
    }
  }

  /** A header is 55 characters: version, trace id, span id and flags, two, 32, 16 and two digits, dashes between. */
  lemma FormatIs(c: Context)
    requires Carried(c)
    ensures Format(c) == "00-" + Hex(c.trace, 32) + "-" + Hex(c.span, 16) + "-" + Hex(c.flags, 2)
    ensures |Hex(c.trace, 32)| == 32 && |Hex(c.span, 16)| == 16 && |Hex(c.flags, 2)| == 2 && |Format(c)| == 55
  {
    hide Hex, Limit, Value, AllHex, Carried;
    var a, b, d := Hex(c.trace, 32), Hex(c.span, 16), Hex(c.flags, 2);
    CarriedReads(c);
    JoinedFour("00", a, b, d);
    Dashed(a, b, d);
  }

  lemma Dashed(a: string, b: string, d: string)
    ensures "00" + "-" + (a + "-" + (b + "-" + d)) == "00-" + a + "-" + b + "-" + d
  {
    assert "00" + "-" == "00-";
  }

  lemma CarriedReads(c: Context)
    requires Carried(c)
    ensures HexField(Hex(c.trace, 32), 32) == Some(c.trace) && HexField(Hex(c.span, 16), 16) == Some(c.span)
    ensures HexField(Hex(c.flags, 2), 2) == Some(c.flags)
  {
    hide Hex, Limit, HexField;
    HexReads(c.trace, 32);
    HexReads(c.span, 16);
    HexReads(c.flags, 2);
  }

  /** Stripping takes all the space there is off either end, and nothing else: what is left begins and ends in none. */
  lemma {:induction false} StripExactly(text: string) returns (before: string, after: string)
    ensures text == before + Strip(text) + after && AllSpace(before) && AllSpace(after)
    ensures Strip(text) != "" ==> !Space(Strip(text)[0]) && !Space(Strip(text)[|Strip(text)| - 1])
    decreases |text|
  {
    hide Strip, Space;
    StripOnce(text);
    StripStep(text);
    before, after := "", "";
    if text != "" && Space(text[0]) {
      var more;
      more, after := StripExactly(text[1..]);
      before := [text[0]] + more;
      Regrouped([text[0]], more, Strip(text), after);
    } else if text != "" && Space(text[|text| - 1]) {
      var more;
      before, more := StripExactly(text[..|text| - 1]);
      after := more + [text[|text| - 1]];
      assert text == before + Strip(text) + more + [text[|text| - 1]];
    }
  }

  lemma StripStep(text: string)
    ensures text == "" || !(Space(text[0]) || Space(text[|text| - 1])) ==> Strip(text) == text
    ensures text != "" && Space(text[0]) ==> Strip(text) == Strip(text[1..]) && text == [text[0]] + text[1..]
    ensures text != "" && !Space(text[0]) && Space(text[|text| - 1]) ==>
              Strip(text) == Strip(text[..|text| - 1]) && text == text[..|text| - 1] + [text[|text| - 1]]
  {
    hide Space;
  }

  lemma Regrouped(a: string, b: string, c: string, d: string)
    ensures a + (b + c + d) == a + b + c + d
  {
  }

  predicate AllSpace(text: string) {
    forall k | 0 <= k < |text| :: Space(text[k])
  }

  /** In ASCII, tab to carriage return, the four separators, and space. */
  lemma SpacesAre(c: char)
    ensures c < '\U{80}' ==> (Space(c) <==> c in "\t\n\U{0B}\U{0C}\r\U{1C}\U{1D}\U{1E}\U{1F} ")
  {
    var spaces := "\t\n\U{0B}\U{0C}\r\U{1C}\U{1D}\U{1E}\U{1F} ";
    assert spaces[0] as int == 9 && spaces[1] as int == 10 && spaces[2] as int == 11 && spaces[3] as int == 12;
    assert spaces[4] as int == 13 && spaces[5] as int == 28 && spaces[6] as int == 29 && spaces[7] as int == 30;
    assert spaces[8] as int == 31 && spaces[9] as int == 32;
    if c < '\U{80}' && Space(c) {
      var i := if c as int <= 13 then c as int - 9 else c as int - 23;
      assert spaces[i] == c;
    }
  }

  /** What is printed reads back. */
  lemma FormatReads(c: Context)
    requires Carried(c)
    ensures Parse(Format(c)) == Some(c)
  {
    hide Hex, Value, Split, Strip, AllHex, Limit;
    var parts := ["00", Hex(c.trace, 32), Hex(c.span, 16), Hex(c.flags, 2)];
    HexReads(c.trace, 32);
    HexReads(c.span, 16);
    HexReads(c.flags, 2);
    VersionZero();
    HexPlain(parts[0]);
    HexPlain(parts[1]);
    HexPlain(parts[2]);
    HexPlain(parts[3]);
    SplitJoined(parts, '-');
    FormatEnds(c);
    StripsNothing(Format(c));
  }

  lemma VersionZero()
    ensures AllHex("00") && HexField("00", 2) == Some(0)
  {
    assert "00"[..1] == "0" && "0"[..0] == "";
  }

  lemma JoinedFour(a: string, b: string, c: string, d: string)
    ensures Joined([a, b, c, d], '-') == a + "-" + (b + "-" + (c + "-" + d))
  {
    assert "-" == ['-'];
    assert [c, d][1..] == [d];
    assert Joined([c, d], '-') == c + "-" + d;
    assert [b, c, d][1..] == [c, d];
    assert Joined([b, c, d], '-') == b + "-" + (c + "-" + d);
    assert [a, b, c, d][1..] == [b, c, d];
  }

  lemma FormatEnds(c: Context)
    requires AllHex(Hex(c.flags, 2))
    ensures Format(c) != "" && Format(c)[0] == '0' && Format(c)[|Format(c)| - 1] == Hex(c.flags, 2)[|Hex(c.flags, 2)| - 1]
    ensures !Space(Format(c)[0]) && !Space(Format(c)[|Format(c)| - 1])
  {
    hide Hex;
    assert Hex(c.flags, 2)[|Hex(c.flags, 2)| - 1] in Hex(c.flags, 2);
    JoinedFour("00", Hex(c.trace, 32), Hex(c.span, 16), Hex(c.flags, 2));
  }

  /** The version a header names, where it names one. */
  function Version(value: string): Option<nat> {
    HexField(Split(Strip(value), '-')[0], 2)
  }

  /** What is read from a version-00 header prints as that header, its surrounding space stripped. */
  lemma ReadFormats(value: string)
    requires Parse(value).Some? && Version(value) == Some(0)
    ensures Carried(Parse(value).value) && Format(Parse(value).value) == Strip(value)
  {
    hide Hex, Value, Split, Strip, Limit;
    var parts := Split(Strip(value), '-');
    HexPrints(parts[0]);
    HexPrints(parts[1]);
    HexPrints(parts[2]);
    HexPrints(parts[3]);
    HexZero();
    assert parts == [parts[0], parts[1], parts[2], parts[3]];
    JoinedSplit(Strip(value), '-');
  }

  lemma HexZero()
    ensures Hex(0, 2) == "00"
  {
    assert Hex(0, 1) == "0";
  }

  /** So the version-00 headers it accepts are exactly the printed contexts, with any space around them. */
  lemma AcceptsExactly(value: string, c: Context)
    ensures Parse(value) == Some(c) && Version(value) == Some(0) <==> Carried(c) && Strip(value) == Format(c)
  {
    hide Hex, Value, Split, Limit, Strip, Joined, HexField;
    if Parse(value) == Some(c) && Version(value) == Some(0) {
      ReadFormats(value);
    }
    if Carried(c) && Strip(value) == Format(c) {
      FormatReads(c);
      StripAgain(value);
      assert Parse(value) == Parse(Format(c));
      FormatVersion(c);
    }
  }

  lemma StripAgain(value: string)
    ensures Strip(Strip(value)) == Strip(value)
  {
    StripOnce(value);
    if Strip(value) != "" {
      StripsNothing(Strip(value));
    }
  }

  lemma FormatVersion(c: Context)
    requires Strip(Format(c)) == Format(c)
    ensures Version(Format(c)) == Some(0)
  {
    hide Hex, Strip, Value;
    VersionZero();
    HexPlain("00");
    JoinedFour("00", Hex(c.trace, 32), Hex(c.span, 16), Hex(c.flags, 2));
    SplitFirst("00", Hex(c.trace, 32) + "-" + (Hex(c.span, 16) + "-" + Hex(c.flags, 2)), '-');
  }

  /** Of a later version, but `ff`, it reads the same three fields and ignores what follows them. */
  lemma LaterVersionsRead(value: string, c: Context)
    requires Version(value).Some? && Version(value).value != 0
    ensures var parts := Split(Strip(value), '-');
      Parse(value) == Some(c)
      <==> && Version(value).value != 0xff && 4 <= |parts| && Carried(c)
           && parts[1] == Hex(c.trace, 32) && parts[2] == Hex(c.span, 16) && parts[3] == Hex(c.flags, 2)
  {
    hide Hex, Value, Split, Limit, Strip;
    var parts := Split(Strip(value), '-');
    if Parse(value) == Some(c) {
      HexPrints(parts[1]);
      HexPrints(parts[2]);
      HexPrints(parts[3]);
    }
    if Carried(c) {
      HexReads(c.trace, 32);
      HexReads(c.span, 16);
      HexReads(c.flags, 2);
    }
  }

  /** The derived, sampled context of a step's root span. */
  function StepContext(digest: (nat, string) -> nat, chunk: string, epoch: int): Context {
    Context(IdOf(digest, OfTrace(chunk)), IdOf(digest, OfSpan(StepKey(chunk, epoch, None), Step, "")), 1)
  }

  /** A step's header always reads back: derived ids are never zero. */
  lemma StepTraceparentReads(digest: (nat, string) -> nat, chunk: string, epoch: int)
    requires forall text :: digest(16, text) < Limit(32) && digest(8, text) < Limit(16)
    ensures var c := StepContext(digest, chunk, epoch); Parse(Format(c)) == Some(c)
  {
    hide Limit;
    LimitMore(0);
    LimitMore(1);
    LimitMore(15);
    LimitMore(31);
    LimitPositive(31);
    LimitPositive(15);
    LimitPositive(0);
    FormatReads(StepContext(digest, chunk, epoch));
  }

  lemma {:induction false} LimitPositive(width: nat)
    ensures 1 <= Limit(width)
  {
    if width > 0 {
      LimitPositive(width - 1);
    }
  }
}
