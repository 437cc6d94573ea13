/**
 * The tag=value wire format: how a message is printed, how the reader decides that it has a
 * whole message and what it parses out of it.
 */
module Fix {
  import opened Words

  const SOH: byte := 1
  const EQUALS: byte := 61
  const ZERO: byte := 48

  const TRAILER_START: bytes := [49, 48, 61]             // 10=
  const BEGIN_STRING: bytes := [70, 73, 88, 46, 52, 46, 50] // FIX.4.2

  datatype Field = Field(tag: bytes, value: bytes)
  type Message = seq<Field>

  datatype Read = EndOfStream | Got(message: Message, rest: bytes)

  // ----- Printing -----

  function Text(f: Field): bytes {
    f.tag + [EQUALS] + f.value
  }

  function PrintAll(fs: Message): bytes {
    if fs == [] then [] else Text(fs[0]) + [SOH] + PrintAll(fs[1..])
  }

  function Decimal(n: nat): (d: bytes)
    ensures |d| >= 1 && forall i :: 0 <= i < |d| ==> ZERO <= d[i] < ZERO + 10
  {
    if n < 10 then [ZERO + n] else Decimal(n / 10) + [ZERO + n % 10]
  }

  function DecimalValue(d: bytes): int
    decreases |d|
  {
    if d == [] then 0 else 10 * DecimalValue(d[..|d| - 1]) + (d[|d| - 1] as int - 48)
  }

  // Decimal text is ASCII digits without a leading zero.
  lemma {:induction false} DecimalReadsBack(n: nat)
    ensures DecimalValue(Decimal(n)) == n
    ensures forall i :: 0 <= i < |Decimal(n)| ==> 48 <= Decimal(n)[i] <= 57
    ensures |Decimal(n)| > 1 ==> Decimal(n)[0] != 48
  {
    if n >= 10 {
      DecimalReadsBack(n / 10);
      assert Decimal(n)[..|Decimal(n)| - 1] == Decimal(n / 10);
    } else {
      assert DecimalValue([]) == 0;
      assert Decimal(n)[..0] == [];
    }
  }

  function Sum(b: bytes): nat
    decreases |b|
  {
    if b == [] then 0 else Sum(b[..|b| - 1]) + b[|b| - 1]
  }

  lemma {:induction false} SumAdds(a: bytes, b: bytes)
    ensures Sum(a + b) == Sum(a) + Sum(b)
    decreases |b|
  {
    if b == [] {
      assert a + b == a;
    } else {
      assert (a + b)[..|a + b| - 1] == a + b[..|b| - 1];
      SumAdds(a, b[..|b| - 1]);
    }
  }

  lemma SumOfOne(b: byte)
    ensures Sum([b]) == b
  {
    assert [b][..0] == [];
  }

  function ThreeDigits(n: nat): bytes
    requires n < 1000
  {
    [ZERO + n / 100, ZERO + n / 10 % 10, ZERO + n % 10]
  }

  lemma ThreeDigitsReadBack(n: nat)
    requires n < 1000
    ensures DecimalValue(ThreeDigits(n)) == n
  {
    var d := ThreeDigits(n);
    assert d[..2][..1] == d[..1] && d[..1][..0] == [];
    assert DecimalValue(d[..1]) == n / 100;
    assert DecimalValue(d[..2]) == 10 * (n / 100) + n / 10 % 10;
  }

  function Opening(m: Message): Message {
    [Field([56], BEGIN_STRING), Field([57], Decimal(|PrintAll(m)|))]
  }

  function Trailer(raw: bytes): Field {
    Field([49, 48], ThreeDigits(Sum(raw) % 256))
  }

  // The message with its begin string, body length and checksum.
  function Framed(m: Message): Message {
    Opening(m) + m + [Trailer(PrintAll(Opening(m) + m))]
  }

  function Wire(m: Message): bytes {
    PrintAll(Framed(m))
  }

  lemma {:induction false} PrintConcat(a: Message, b: Message)
    ensures PrintAll(a + b) == PrintAll(a) + PrintAll(b)
    decreases |a|
  {
    if a == [] {
      assert a + b == b;
    } else {
      assert (a + b)[1..] == a[1..] + b;
      PrintConcat(a[1..], b);
      hide Text;
    }
  }

  lemma WireParts(m: Message)
    ensures Wire(m) == PrintAll(Opening(m)) + PrintAll(m) + PrintAll([Trailer(PrintAll(Opening(m) + m))])
    ensures PrintAll(Opening(m) + m) == PrintAll(Opening(m)) + PrintAll(m)
  {
    hide PrintAll, Opening, Trailer;
    PrintConcat(Opening(m), m);
    PrintConcat(Opening(m) + m, [Trailer(PrintAll(Opening(m) + m))]);
  }

  // The length field gives the size of what stands between it and the checksum field, and the
  // checksum field the sum modulo 256 of all bytes before it.
  lemma WireDescribesItself(m: Message)
    ensures var head, last := PrintAll(Opening(m)), Trailer(PrintAll(Opening(m) + m));
      && Wire(m) == head + PrintAll(m) + PrintAll([last])
      && Opening(m)[1].tag == [57] && DecimalValue(Opening(m)[1].value) == |PrintAll(m)|
      && last.tag == [49, 48] && DecimalValue(last.value) == Sum(head + PrintAll(m)) % 256
  {
    hide PrintAll, Sum, Decimal, ThreeDigits, DecimalValue, Wire;
    WireParts(m);
    DecimalReadsBack(|PrintAll(m)|);
    ThreeDigitsReadBack(Sum(PrintAll(Opening(m) + m)) % 256);
  }

  lemma PrintOne(f: Field)
    ensures PrintAll([f]) == f.tag + [61] + f.value + [1]
  {
    assert [f][1..] == [];
    assert PrintAll([]) == [];
    assert PrintAll([f]) == Text(f) + [SOH] + [];
  }

  lemma OpeningIsLiteral(m: Message)
    ensures PrintAll(Opening(m)) ==
      [56, 61, 70, 73, 88, 46, 52, 46, 50, 1] + ([57, 61] + Decimal(|PrintAll(m)|) + [1])
  {
    hide PrintAll, Decimal;
    var first, length := Opening(m)[0], Opening(m)[1];
    assert Opening(m) == [first] + [length];
    PrintConcat([first], [length]);
    PrintOne(first);
    PrintOne(length);
  }

  lemma TrailerIsLiteral(raw: bytes)
    ensures var sum := Sum(raw) % 256;
      PrintAll([Trailer(raw)]) == [49, 48, 61, 48 + sum / 100, 48 + sum / 10 % 10, 48 + sum % 10, 1]
  {
    hide PrintAll, Sum;
    PrintOne(Trailer(raw));
  }

  // The wire form byte by byte: 8=FIX.4.2, 9= with the body length in decimal, the body, and 10=
  // with the sum of all bytes before it modulo 256 in three digits, each ended by a byte 1.
  lemma WireIsLiteral(m: Message)
    ensures var body := PrintAll(m);
      var raw := [56, 61, 70, 73, 88, 46, 52, 46, 50, 1] + ([57, 61] + Decimal(|body|) + [1]) + body;
      var sum := Sum(raw) % 256;
      Wire(m) == raw + [49, 48, 61, 48 + sum / 100, 48 + sum / 10 % 10, 48 + sum % 10, 1]
  {
    hide PrintAll, Sum, Decimal, Opening, Trailer, Wire;
    WireParts(m);
    OpeningIsLiteral(m);
    TrailerIsLiteral(PrintAll(Opening(m) + m));
  }

  // ----- Deciding where a message ends -----

  predicate StartsTrailer(field: bytes) {
    |field| > 3 && field[..3] == TRAILER_START
  }

  // The backward search, at most nine bytes deep, for the start of the last field.
  predicate LastFieldIsTrailer(raw: bytes, i: int)
    requires i <= |raw| - 2
    decreases i + 1
  {
    if i < 0 || i <= |raw| - 10 then false
    else if raw[i] == SOH then StartsTrailer(raw[i + 1..|raw| - 1])
    else if i == 0 then StartsTrailer(raw[..|raw| - 1])
    else LastFieldIsTrailer(raw, i - 1)
  }

  // What the reader tests after each byte.
  predicate Stop(raw: bytes) {
    && |raw| > 7 && raw[|raw| - 1] == SOH
    && (raw[|raw| - 8..|raw| - 5] == TRAILER_START || LastFieldIsTrailer(raw, |raw| - 2))
  }

  // Number of bytes read when the reader stops, or -1 at the end of the stream.
  function FrameEnd(s: bytes, n: nat): (k: int)
    requires n <= |s|
    ensures k == -1 || n <= k <= |s|
    decreases |s| - n
  {
    if Stop(s[..n]) then n else if n == |s| then -1 else FrameEnd(s, n + 1)
  }

  // ----- Parsing -----

  function IndexOf(s: bytes, b: byte): (i: nat)
    ensures i <= |s| && (i < |s| ==> s[i] == b) && b !in s[..i]
  {
    if s == [] || s[0] == b then 0 else 1 + IndexOf(s[1..], b)
  }

  // One field text; text without '=' is dropped.
  function ParseField(text: bytes): Message {
    var j := IndexOf(text, EQUALS);
    if j < |text| then [Field(text[..j], text[j + 1..])] else []
  }

  function ParseAll(raw: bytes): Message
    decreases |raw|
  {
    var i := IndexOf(raw, SOH);
    if i == |raw| then [] else ParseField(raw[..i]) + ParseAll(raw[i + 1..])
  }

  function ReadOne(s: bytes): Read {
    var n := FrameEnd(s, 0);
    if n < 0 then EndOfStream else Got(ParseAll(s[..n]), s[n..])
  }

  // ----- Parsing what was printed -----

  predicate Plain(f: Field) {
    SOH !in f.tag && SOH !in f.value && EQUALS !in f.tag
  }

  predicate AllPlain(fs: Message) {
    forall i :: 0 <= i < |fs| ==> Plain(fs[i])
  }

  lemma {:induction false} IndexAfterPrefix(a: bytes, b: byte, rest: bytes)
    requires b !in a
    ensures IndexOf(a + [b] + rest, b) == |a|
    decreases |a|
  {
    var s := a + [b] + rest;
    if a != [] {
      assert s[1..] == a[1..] + [b] + rest;
      IndexAfterPrefix(a[1..], b, rest);
    }
  }

  lemma ParseOneText(text: bytes, rest: bytes)
    requires SOH !in text
    ensures ParseAll(text + [SOH] + rest) == ParseField(text) + ParseAll(rest)
  {
    hide IndexOf, ParseField;
    var raw := text + [SOH] + rest;
    IndexAfterPrefix(text, SOH, rest);
    assert raw[..|text|] == text && raw[|text| + 1..] == rest;
  }

  lemma ParseOneField(f: Field)
    requires Plain(f)
    ensures SOH !in Text(f) && ParseField(Text(f)) == [f]
  {
    hide IndexOf;
    IndexAfterPrefix(f.tag, EQUALS, f.value);
    assert Text(f)[..|f.tag|] == f.tag && Text(f)[|f.tag| + 1..] == f.value;
  }

  lemma {:induction false} ParsePrinted(fs: Message)
    requires AllPlain(fs)
    ensures ParseAll(PrintAll(fs)) == fs
    decreases |fs|
  {
    if fs == [] {
      hide ParseField;
    } else {
      assert PrintAll(fs) == Text(fs[0]) + [SOH] + PrintAll(fs[1..]);
      hide PrintAll, ParseAll, ParseField, Text, Plain;
      ParseOneField(fs[0]);
      ParseOneText(Text(fs[0]), PrintAll(fs[1..]));
      ParsePrinted(fs[1..]);
    }
  }

  // Whatever is parsed is plain.
  lemma FieldIsPlain(text: bytes)
    requires SOH !in text
    ensures AllPlain(ParseField(text))
  {
    hide IndexOf;
  }

  lemma {:induction false} ParsedIsPlain(raw: bytes)
    ensures AllPlain(ParseAll(raw))
    decreases |raw|
  {
    hide IndexOf, ParseField, Plain;
    var i := IndexOf(raw, SOH);
    if i < |raw| {
      FieldIsPlain(raw[..i]);
      ParsedIsPlain(raw[i + 1..]);
    }
  }

  // ----- Field boundaries -----

  lemma {:induction false} PrintedEnds(fs: Message)
    requires fs != []
    ensures PrintAll(fs) != [] && PrintAll(fs)[|PrintAll(fs)| - 1] == SOH
    decreases |fs|
  {
    hide Text;
    if |fs| > 1 { PrintedEnds(fs[1..]); }
  }

  // In a plain message a separator ends a field: the text up to it is a printed prefix.
  lemma {:induction false} SeparatorEndsField(fs: Message, n: nat) returns (k: nat)
    requires AllPlain(fs) && 0 < n <= |PrintAll(fs)| && PrintAll(fs)[n - 1] == SOH
    ensures 0 < k <= |fs| && PrintAll(fs)[..n] == PrintAll(fs[..k])
    decreases |fs|
  {
    var first, tail := Text(fs[0]) + [SOH], PrintAll(fs[1..]);
    ParseOneField(fs[0]);
    assert PrintAll(fs) == first + tail;
    hide Text, Plain;
    if n <= |first| {
      k := 1;
      assert fs[..1][0] == fs[0] && fs[..1][1..] == [];
      assert PrintAll(fs[..1]) == first + [];
      assert n == |first|;
    } else {
      assert PrintAll(fs)[n - 1] == tail[n - |first| - 1];
      var j := SeparatorEndsField(fs[1..], n - |first|);
      k := j + 1;
      assert fs[..k][0] == fs[0] && fs[..k][1..] == fs[1..][..j];
      assert PrintAll(fs[..k]) == first + PrintAll(fs[1..][..j]);
      assert PrintAll(fs)[..n] == first + tail[..n - |first|];
    }
  }

  lemma PrintedPrefix(fs: Message, k: nat)
    requires k <= |fs|
    ensures PrintAll(fs[..k]) <= PrintAll(fs)
    ensures k < |fs| ==> |PrintAll(fs[..k])| < |PrintAll(fs)|
  {
    assert fs == fs[..k] + fs[k..];
    PrintConcat(fs[..k], fs[k..]);
    if k < |fs| { PrintedEnds(fs[k..]); }
  }

  // ----- The trailer stops the reader -----

  lemma TrailerStops(before: Message, checksum: nat)
    requires before != [] && checksum < 1000
    ensures Stop(PrintAll(before + [Field([49, 48], ThreeDigits(checksum))]))
  {
    var f := Field([49, 48], ThreeDigits(checksum));
    PrintConcat(before, [f]);
    PrintedEnds(before);
    assert [f][1..] == [];
    assert PrintAll([f]) == Text(f) + [SOH] + [];
    assert PrintAll(before + [f]) == PrintAll(before) + Text(f) + [SOH];
    assert Text(f)[..3] == TRAILER_START;
    assert forall i :: 0 <= i < 6 ==> Text(f)[i] != SOH;
    SixByteTrailerStops(PrintAll(before), Text(f));
  }

  lemma SixByteTrailerStops(before: bytes, text: bytes)
    requires before != [] && before[|before| - 1] == SOH
    requires |text| == 6 && text[..3] == TRAILER_START && forall i :: 0 <= i < 6 ==> text[i] != SOH
    ensures Stop(before + text + [SOH])
  {
    var raw, p := before + text + [SOH], |before|;
    assert raw[p - 1] == SOH;
    assert forall j :: p <= j <= |raw| - 2 ==> raw[j] == text[j - p];
    LastFieldFound(raw, p, |raw| - 2);
    assert raw[p..|raw| - 1] == text;
    hide LastFieldIsTrailer;
  }

  lemma {:induction false} LastFieldFound(raw: bytes, p: nat, i: int)
    requires 0 < p <= |raw| - 2 && p >= |raw| - 8 && p - 1 <= i <= |raw| - 2
    requires raw[p - 1] == SOH && forall j :: p <= j <= |raw| - 2 ==> raw[j] != SOH
    ensures LastFieldIsTrailer(raw, i) == StartsTrailer(raw[p..|raw| - 1])
    decreases i
  {
    hide StartsTrailer;
    if i >= p { LastFieldFound(raw, p, i - 1); }
  }

  // ----- Reading back -----

  // The reader's own test never succeeds on a proper printed prefix of the framed message.
  ghost predicate NoEarlyStop(m: Message) {
    forall k :: 0 <= k < |Framed(m)| ==> !Stop(PrintAll(Framed(m)[..k]))
  }

  ghost predicate ReadsWhole(m: Message) {
    AllPlain(m) && NoEarlyStop(m)
  }

  lemma DigitsArePlain(d: bytes, tag: bytes)
    requires forall i :: 0 <= i < |d| ==> ZERO <= d[i] < ZERO + 10
    requires SOH !in tag && EQUALS !in tag
    ensures Plain(Field(tag, d))
  {
  }

  lemma FramedIsPlainIff(m: Message)
    ensures AllPlain(Framed(m)) <==> AllPlain(m)
  {
    var fs := Framed(m);
    var n := |fs|;
    DigitsArePlain(fs[1].value, [57]);
    DigitsArePlain(fs[n - 1].value, [49, 48]);
    assert Plain(fs[0]);
    hide Plain, Decimal, Sum, ThreeDigits, PrintAll;
    forall i | 0 <= i < |m|
      ensures fs[i + 2] == m[i]
    {
    }
    if AllPlain(fs) {
      forall i | 0 <= i < |m|
        ensures Plain(m[i])
      {
        assert Plain(fs[i + 2]);
      }
    }
  }

  lemma WireStops(m: Message)
    ensures Stop(Wire(m))
  {
    TrailerStops(Opening(m) + m, Sum(PrintAll(Opening(m) + m)) % 256);
  }

  lemma {:induction false} FrameEndIs(s: bytes, n: nat, end: nat)
    requires n <= end <= |s| && Stop(s[..end])
    requires forall k :: n <= k < end ==> !Stop(s[..k])
    ensures FrameEnd(s, n) == end
    decreases end - n
  {
    hide Stop;
    if n < end { FrameEndIs(s, n + 1, end); }
  }

  lemma {:induction false} FrameEndIsFirst(s: bytes, n: nat, k: nat)
    requires n <= k < |s| && FrameEnd(s, n) > k
    ensures !Stop(s[..k])
    decreases k - n
  {
    hide Stop;
    if n < k { FrameEndIsFirst(s, n + 1, k); }
  }

  lemma WholeSlice(fs: Message)
    ensures fs[..|fs|] == fs
  {
  }

  lemma WholeNeverStopsEarly(m: Message, rest: bytes, n: nat)
    requires ReadsWhole(m) && n < |Wire(m)|
    ensures !Stop((Wire(m) + rest)[..n])
  {
    var s := Wire(m) + rest;
    assert s[..n] == Wire(m)[..n];
    hide LastFieldIsTrailer, PrintAll, Framed;
    if n > 7 && Wire(m)[n - 1] == SOH {
      FramedIsPlainIff(m);
      var k := SeparatorEndsField(Framed(m), n);
      WholeSlice(Framed(m));
      hide Stop;
      assert k < |Framed(m)|;
      assert !Stop(PrintAll(Framed(m)[..k]));
    }
  }

  lemma WholeReadsBack(m: Message, rest: bytes)
    requires ReadsWhole(m)
    ensures ReadOne(Wire(m) + rest) == Got(Framed(m), rest)
  {
    hide Stop, PrintAll, Framed, ParseAll, FrameEnd, ReadsWhole, AllPlain;
    var s := Wire(m) + rest;
    assert s[..|Wire(m)|] == Wire(m) && s[|Wire(m)|..] == rest;
    WireStops(m);
    forall n | 0 <= n < |Wire(m)|
      ensures !Stop(s[..n])
    {
      WholeNeverStopsEarly(m, rest, n);
    }
    FrameEndIs(s, 0, |Wire(m)|);
    FramedIsPlainIff(m);
    WholeIsPlain(m);
    ParsePrinted(Framed(m));
  }

  lemma WholeIsPlain(m: Message)
    requires ReadsWhole(m)
    ensures AllPlain(m)
  {
  }

  lemma ReadsBackOnlyIfWhole(m: Message, rest: bytes)
    requires ReadOne(Wire(m) + rest) == Got(Framed(m), rest)
    ensures ReadsWhole(m)
  {
    hide Stop, PrintAll, Framed, ParseAll, FrameEnd, AllPlain;
    var s := Wire(m) + rest;
    var n := FrameEnd(s, 0);
    assert |s[n..]| == |rest|;
    assert n == |Wire(m)|;
    ParsedIsPlain(s[..n]);
    FramedIsPlainIff(m);
    forall k | 0 <= k < |Framed(m)|
      ensures !Stop(PrintAll(Framed(m)[..k]))
    {
      PrintedPrefix(Framed(m), k);
      var p := |PrintAll(Framed(m)[..k])|;
      assert s[..p] == PrintAll(Framed(m)[..k]);
      FrameEndIsFirst(s, 0, p);
    }
  }

  // ----- Which fields stop the reader early -----

  // The trailer text starts d bytes before the end.
  predicate TrailerBack(t: bytes, d: nat) {
    3 <= d <= |t| && t[|t| - d..|t| - d + 3] == TRAILER_START
  }

  // Field i, printed last, passes the end test: the backward search takes it for the checksum
  // field, or the eight-byte window finds the trailer text seven bytes before its end. In a
  // shorter field the window reaches into the field before, and over a field that is a lone '='
  // into the one before that.
  predicate Trips(m: Message, i: nat)
    requires i < |m|
  {
    var t := Text(m[i]);
    || (4 <= |t| <= 7 && t[..3] == TRAILER_START)
    || TrailerBack(t, 7)
    || (|t| <= 3 && i > 0 && TrailerBack(Text(m[i - 1]), 6 - |t|))
    || (|t| == 1 && i > 1 && |Text(m[i - 1])| == 1 && TrailerBack(Text(m[i - 2]), 3))
  }

  // A condition on the fields of the message alone.
  predicate Clean(m: Message) {
    AllPlain(m) && forall i :: 0 <= i < |m| ==> !Trips(m, i)
  }

  // The search goes at most nine bytes back.
  lemma {:induction false} SearchGivesUp(raw: bytes, i: int)
    requires |raw| - 10 <= i <= |raw| - 2 && |raw| >= 10
    requires forall j :: |raw| - 10 < j <= i ==> raw[j] != SOH
    ensures !LastFieldIsTrailer(raw, i)
    decreases i + 1
  {
    if i > |raw| - 10 { SearchGivesUp(raw, i - 1); }
  }

  lemma SearchFindsIff(before: bytes, t: bytes)
    requires |before| >= 8 && before[|before| - 1] == SOH && t != [] && SOH !in t
    ensures var raw := before + t + [SOH];
      LastFieldIsTrailer(raw, |raw| - 2) <==> 4 <= |t| <= 7 && t[..3] == TRAILER_START
  {
    var raw, p := before + t + [SOH], |before|;
    assert raw[p - 1] == SOH;
    forall j | p <= j <= |raw| - 2
      ensures raw[j] != SOH
    {
      assert raw[j] == t[j - p];
    }
    if |t| <= 7 {
      LastFieldFound(raw, p, |raw| - 2);
      assert raw[p..|raw| - 1] == t;
    } else {
      SearchGivesUp(raw, |raw| - 2);
    }
    hide LastFieldIsTrailer;
  }

  // The bytes a distance before the end, in a text that goes on for n more bytes.
  lemma BackInFront(front: bytes, back: bytes, d: nat)
    requires d >= |back| + 3
    ensures TrailerBack(front + back, d) <==> TrailerBack(front, d - |back|)
  {
    var s := front + back;
    if d <= |s| { assert s[|s| - d..|s| - d + 3] == front[|s| - d..|s| - d + 3]; }
  }

  lemma BackInBack(front: bytes, back: bytes, d: nat)
    requires d <= |back|
    ensures TrailerBack(front + back, d) <==> TrailerBack(back, d)
  {
    var s := front + back;
    if d >= 3 { assert s[|s| - d..|s| - d + 3] == back[|back| - d..|back| - d + 3]; }
  }

  // No separator in the trailer text.
  lemma BackOverSeparator(s: bytes, d: nat, j: nat)
    requires 3 <= d <= |s| && |s| - d <= j < |s| - d + 3 && s[j] == SOH
    ensures !TrailerBack(s, d)
  {
  }

  // Taking the last field with its separator off the end.
  lemma BackOverField(front: bytes, t: bytes, d: nat)
    requires d >= 4 && front != [] && front[|front| - 1] == SOH
    ensures TrailerBack(front + (t + [SOH]), d) <==>
      if d <= |t| + 1 then TrailerBack(t, d - 1) else d > |t| + 4 && TrailerBack(front, d - |t| - 1)
  {
    var s := front + (t + [SOH]);
    if d <= |t| + 1 {
      BackInBack(front, t + [SOH], d);
      BackInFront(t, [SOH], d);
    } else if d > |t| + 4 {
      BackInFront(front, t + [SOH], d);
    } else if d <= |s| {
      BackOverSeparator(s, d, |front| - 1);
    }
  }

  lemma LastPrinted(fs: Message)
    requires fs != []
    ensures var n := |fs| - 1;
      PrintAll(fs) == PrintAll(fs[..n]) + (Text(fs[n]) + [SOH])
  {
    hide *;
    var n := |fs| - 1;
    assert fs == fs[..n] + [fs[n]];
    LastField(fs[..n], fs[n]);
  }

  lemma TooFarBack(t: bytes, d: nat)
    requires d > |t|
    ensures !TrailerBack(t, d)
  {
  }

  // The window over a printed message, field by field from its end.
  lemma WindowIff(fs: Message)
    requires |fs| >= 3
    ensures var n := |fs| - 1; var t, p := Text(fs[n]), Text(fs[n - 1]);
      TrailerBack(PrintAll(fs), 8) <==>
        || TrailerBack(t, 7)
        || (|t| <= 3 && TrailerBack(p, 6 - |t|))
        || (|t| == 1 && |p| == 1 && TrailerBack(Text(fs[n - 2]), 3))
  {
    hide PrintAll, TrailerBack;
    var n := |fs| - 1;
    var t, p, q := Text(fs[n]), Text(fs[n - 1]), Text(fs[n - 2]);
    var front, middle, rear := fs[..n], fs[..n - 1], fs[..n - 2];
    assert front[n - 1] == fs[n - 1] && front[..n - 1] == middle;
    assert middle[n - 2] == fs[n - 2] && middle[..n - 2] == rear;
    hide Text;
    LastPrinted(fs);
    PrintedEnds(front);
    BackOverField(PrintAll(front), t, 8);
    if |t| < 7 { TooFarBack(t, 7); }
    if |t| <= 3 {
      LastPrinted(front);
      PrintedEnds(middle);
      BackOverField(PrintAll(middle), p, 7 - |t|);
      if |p| < 6 - |t| { TooFarBack(p, 6 - |t|); }
      if |t| == 1 && |p| == 1 {
        LastPrinted(middle);
        if n > 2 { PrintedEnds(rear); } else { NothingPrinted(); }
        EndOfField(PrintAll(rear), q);
      }
    }
  }

  lemma NothingPrinted()
    ensures PrintAll([]) == []
  {
  }

  lemma EndOfField(front: bytes, t: bytes)
    requires t != [] && (front == [] || front[|front| - 1] == SOH)
    ensures TrailerBack(front + (t + [SOH]), 4) <==> TrailerBack(t, 3)
  {
    var s := front + (t + [SOH]);
    if |t| >= 3 {
      BackInBack(front, t + [SOH], 4);
      BackInFront(t, [SOH], 4);
    } else if |s| >= 4 {
      BackOverSeparator(s, 4, |front| - 1);
    }
  }

  lemma StopIsWindowOrSearch(before: bytes, t: bytes)
    requires |before| >= 8 && before[|before| - 1] == SOH && t != [] && SOH !in t
    ensures var raw := before + (t + [SOH]);
      Stop(raw) <==> TrailerBack(raw, 8) || (4 <= |t| <= 7 && t[..3] == TRAILER_START)
  {
    SearchFindsIff(before, t);
    assert before + (t + [SOH]) == before + t + [SOH];
    hide LastFieldIsTrailer;
  }

  // The end test on a printed message says whether its last field trips it.
  lemma StopIffTrips(fs: Message)
    requires |fs| >= 3 && AllPlain(fs) && |PrintAll(fs[..|fs| - 1])| >= 8
    ensures Stop(PrintAll(fs)) <==> Trips(fs, |fs| - 1)
  {
    var n := |fs| - 1;
    LastPrinted(fs);
    PrintedEnds(fs[..n]);
    assert Plain(fs[n]);
    ParseOneField(fs[n]);
    hide PrintAll, Stop, TrailerBack, ParseField;
    StopIsWindowOrSearch(PrintAll(fs[..n]), Text(fs[n]));
    WindowIff(fs);
  }

  lemma NoLateEquals(t: bytes, d: nat)
    requires |t| >= 3 && forall k :: 2 <= k < |t| ==> t[k] != EQUALS
    ensures !TrailerBack(t, d) && t[..3] != TRAILER_START
  {
    assert t[..3][2] == t[2];
    if 3 <= d <= |t| { assert t[|t| - d..|t| - d + 3][2] == t[|t| - d + 2]; }
  }

  // The two fields every message opens with never hold the trailer text.
  lemma OpeningHoldsNoTrailer(m: Message, j: nat, d: nat)
    requires j < 2
    ensures !TrailerBack(Text(Opening(m)[j]), d)
    ensures SOH !in Text(Opening(m)[j]) && |Text(Opening(m)[j])| >= 3
    ensures Text(Opening(m)[j])[..3] != TRAILER_START
  {
    hide TrailerBack, PrintAll;
    var f := Opening(m)[j];
    assert forall k :: 0 <= k < |f.value| ==> f.value[k] != EQUALS && f.value[k] != SOH;
    hide Decimal;
    NoLateEquals(Text(f), d);
  }

  lemma FirstFieldNeverStops(first: bytes)
    requires |first| == 10 && first[2] != 49 && forall j :: 0 < j < 9 ==> first[j] != SOH
    ensures !Stop(first)
  {
    SearchGivesUp(first, 8);
    hide LastFieldIsTrailer;
    assert first[2..5][0] == first[2];
  }

  lemma SecondFieldNeverStops(first: bytes, f: bytes, t: bytes)
    requires |first| >= 8 && first == f + [SOH] && f != [] && SOH !in t && |t| >= 3
    requires t[..3] != TRAILER_START && !TrailerBack(t, 7) && !TrailerBack(f, 3)
    ensures !Stop(first + (t + [SOH]))
  {
    hide Stop, TrailerBack;
    StopIsWindowOrSearch(first, t);
    BackOverField(first, t, 8);
    EndOfField([], f);
    assert [] + (f + [SOH]) == first;
  }

  lemma OpeningPrinted(m: Message)
    ensures var f, g := Text(Opening(m)[0]), Text(Opening(m)[1]);
      && |f| == 9 && f[2] == 70 && PrintAll(Opening(m)[..1]) == f + [SOH]
      && PrintAll(Opening(m)[..2]) == (f + [SOH]) + (g + [SOH]) && PrintAll(Opening(m)) == PrintAll(Opening(m)[..2])
  {
    var f, g := Opening(m)[0], Opening(m)[1];
    assert Opening(m)[..2] == Opening(m) == [f] + [g] && Opening(m)[..1] == [] + [f];
    LastField([], f);
    LastField([f], g);
    assert [] + [f] == [f];
    assert [] + (Text(f) + [SOH]) == Text(f) + [SOH];
  }

  lemma OpeningNeverStops(m: Message, k: nat)
    requires k <= 2
    ensures !Stop(PrintAll(Opening(m)[..k]))
    ensures |PrintAll(Opening(m))| >= 10
  {
    var f, g := Text(Opening(m)[0]), Text(Opening(m)[1]);
    OpeningPrinted(m);
    OpeningHoldsNoTrailer(m, 0, 3);
    OpeningHoldsNoTrailer(m, 1, 7);
    hide Opening, Text, TrailerBack;
    if k == 0 {
      hide PrintAll;
      NothingPrinted();
      EmptyDoesNotStop();
      assert Opening(m)[..0] == [];
    } else if k == 1 {
      hide PrintAll, Stop;
      FirstFieldNeverStops(f + [SOH]);
    } else {
      hide PrintAll, Stop;
      SecondFieldNeverStops(f + [SOH], f, g);
    }
  }

  // Field i of the message, behind two fields that do not hold the trailer text.
  lemma TripsBehind(a: Message, m: Message, i: nat)
    requires |a| == 2 && i < |m|
    requires forall d: nat :: !TrailerBack(Text(a[1]), d)
    requires |Text(a[1])| > 1
    ensures Trips(a + m, i + 2) <==> Trips(m, i)
  {
    hide TrailerBack, Text;
    var fs := a + m;
    assert fs[i + 2] == m[i];
    assert fs[i + 1] == if i > 0 then m[i - 1] else a[1];
    assert fs[i] == if i > 1 then m[i - 2] else a[i];
  }

  lemma TripsInMessage(m: Message, i: nat)
    requires i < |m|
    ensures Trips(Opening(m) + m, i + 2) <==> Trips(m, i)
  {
    OpeningHoldsNoTrailer(m, 1, 3);
    forall d: nat
      ensures !TrailerBack(Text(Opening(m)[1]), d)
    {
      OpeningHoldsNoTrailer(m, 1, d);
    }
    hide TrailerBack, Text, Trips;
    TripsBehind(Opening(m), m, i);
  }

  lemma FramedPrefix(m: Message, k: nat)
    requires k <= |m| + 2
    ensures |Framed(m)| == |m| + 3 && Framed(m)[..k] == (Opening(m) + m)[..k]
    ensures k <= 2 ==> Framed(m)[..k] == Opening(m)[..k]
  {
    hide Decimal, PrintAll, Sum;
  }

  lemma TripsInPrefix(fs: Message, k: nat)
    requires 0 < k <= |fs|
    ensures Trips(fs[..k], k - 1) <==> Trips(fs, k - 1)
  {
    hide TrailerBack, Text;
  }

  lemma PrefixStopsIff(m: Message, k: nat)
    requires AllPlain(m) && 3 <= k <= |m| + 2
    ensures Stop(PrintAll(Framed(m)[..k])) <==> Trips(m, k - 3)
  {
    var fs := (Opening(m) + m)[..k];
    FramedPrefix(m, k);
    FramedIsPlainIff(m);
    assert AllPlain(fs) by {
      hide Plain;
      assert forall i :: 0 <= i < |fs| ==> fs[i] == Framed(m)[i];
    }
    OpeningNeverStops(m, 0);
    assert fs[..k - 1][..2] == fs[..2] == (Opening(m) + m)[..2] == Opening(m);
    PrintedPrefix(fs[..k - 1], 2);
    hide PrintAll, Stop, Trips, Opening;
    StopIffTrips(fs);
    TripsInPrefix(Opening(m) + m, k);
    TripsInMessage(m, k - 3);
  }

  // The reader stops early exactly on a message with a field that trips its end test.
  lemma EarlyStopIff(m: Message)
    requires AllPlain(m)
    ensures NoEarlyStop(m) <==> forall i :: 0 <= i < |m| ==> !Trips(m, i)
  {
    FramedPrefix(m, 0);
    hide PrintAll, Stop, Trips, Opening, AllPlain, Framed;
    forall k | 0 <= k < |Framed(m)|
      ensures Stop(PrintAll(Framed(m)[..k])) <==> k >= 3 && Trips(m, k - 3)
    {
      if k >= 3 {
        PrefixStopsIff(m, k);
      } else {
        FramedPrefix(m, k);
        OpeningNeverStops(m, k);
      }
    }
    forall i | 0 <= i < |m| && NoEarlyStop(m)
      ensures !Trips(m, i)
    {
      assert !Stop(PrintAll(Framed(m)[..i + 3]));
    }
  }

  // A message comes back from its printed form, whatever follows it, exactly when its texts
  // hold no separator, its tags no '=', and none of its fields trips the reader's end test.
  lemma ReadsBackIff(m: Message, rest: bytes)
    ensures ReadOne(Wire(m) + rest) == Got(Framed(m), rest) <==> Clean(m)
  {
    if AllPlain(m) { EarlyStopIff(m); }
    assert ReadsWhole(m) <==> Clean(m) by { hide NoEarlyStop, Trips, AllPlain; }
    hide *;
    if ReadsWhole(m) { WholeReadsBack(m, rest); }
    if ReadOne(Wire(m) + rest) == Got(Framed(m), rest) { ReadsBackOnlyIfWhole(m, rest); }
  }

  // ----- Two kinds of fields -----

  ghost predicate Mentions(s: bytes) {
    exists j :: 0 <= j <= |s| - 3 && TrailerTextAt(s, j)
  }

  predicate TrailerTextAt(s: bytes, j: int)
    requires 0 <= j <= |s| - 3
  {
    s[j..j + 3] == TRAILER_START
  }

  // Plain fields that nowhere contain the text "10=" make a clean message.
  lemma OrdinaryFieldsAreClean(m: Message)
    requires AllPlain(m) && forall i :: 0 <= i < |m| ==> !Mentions(Text(m[i]))
    ensures Clean(m)
  {
    forall i | 0 <= i < |m|
      ensures !Trips(m, i)
    {
      NoMentionNoTrailer(Text(m[i]), 7);
      if |Text(m[i])| <= 3 && i > 0 { NoMentionNoTrailer(Text(m[i - 1]), 6 - |Text(m[i])|); }
      if i > 1 { NoMentionNoTrailer(Text(m[i - 2]), 3); }
      hide TrailerBack, Mentions, Text;
    }
    hide Trips, Mentions;
  }

  lemma NoMentionNoTrailer(t: bytes, d: nat)
    requires !Mentions(t)
    ensures !TrailerBack(t, d)
    ensures |t| >= 3 ==> t[..3] != TRAILER_START
  {
    if TrailerBack(t, d) { assert TrailerTextAt(t, |t| - d); }
    if |t| >= 3 { assert !TrailerTextAt(t, 0); }
  }

  // A tag ending in 10 with a four-character value trips the eight-byte window, wherever it
  // stands.
  lemma LookalikeTagIsNotClean(m: Message, i: nat)
    requires i < |m| && m[i].tag == [49, 49, 48] && |m[i].value| == 4
    ensures !Clean(m)
  {
    var t := Text(m[i]);
    assert t[1..4] == TRAILER_START;
    assert TrailerBack(t, 7);
    assert Trips(m, i);
  }

  // ----- Streams -----

  function WireAll(ms: seq<Message>): bytes {
    if ms == [] then [] else Wire(ms[0]) + WireAll(ms[1..])
  }

  function FramedAll(ms: seq<Message>): seq<Message> {
    if ms == [] then [] else [Framed(ms[0])] + FramedAll(ms[1..])
  }

  datatype ReadMany = Short | Messages(messages: seq<Message>, rest: bytes)

  function ReadCount(s: bytes, n: nat): ReadMany
    decreases n
  {
    if n == 0 then Messages([], s)
    else match ReadOne(s)
      case EndOfStream => Short
      case Got(m, rest) =>
        match ReadCount(rest, n - 1)
        case Short => Short
        case Messages(ms, left) => Messages([m] + ms, left)
  }

  // A stream of clean messages is read back one by one, each call taking exactly its bytes.
  lemma {:induction false} StreamReadsBack(ms: seq<Message>, rest: bytes)
    requires forall i :: 0 <= i < |ms| ==> Clean(ms[i])
    ensures ReadCount(WireAll(ms) + rest, |ms|) == Messages(FramedAll(ms), rest)
    decreases |ms|
  {
    hide Clean, Wire, Framed, ReadOne;
    if ms == [] {
      assert WireAll(ms) + rest == rest;
    } else {
      var tail := WireAll(ms[1..]) + rest;
      assert WireAll(ms) + rest == Wire(ms[0]) + tail;
      ReadsBackIff(ms[0], tail);
      StreamReadsBack(ms[1..], rest);
    }
  }

  // ----- Looking up tags -----

  function GetTag(m: Message, tag: bytes): bytes {
    if m == [] then [] else if m[0].tag == tag then m[0].value else GetTag(m[1..], tag)
  }

  // A lookup gives the value of the first field with the tag, or nothing if there is none.
  lemma {:induction false} GetTagIsFirst(m: Message, tag: bytes, k: nat)
    requires k <= |m| && forall i :: 0 <= i < k ==> m[i].tag != tag
    requires k < |m| ==> m[k].tag == tag
    ensures GetTag(m, tag) == if k < |m| then m[k].value else []
    decreases |m|
  {
    if k > 0 {
      assert forall i :: 0 <= i < k - 1 ==> m[1..][i] == m[i + 1];
      GetTagIsFirst(m[1..], tag, k - 1);
    }
  }

  lemma {:induction false} GetTagSkips(a: Message, m: Message, tag: bytes)
    requires forall i :: 0 <= i < |a| ==> a[i].tag != tag
    ensures GetTag(a + m, tag) == GetTag(m, tag)
    decreases |a|
  {
    if a == [] {
      assert a + m == m;
    } else {
      assert (a + m)[1..] == a[1..] + m;
      GetTagSkips(a[1..], m, tag);
    }
  }

  lemma {:induction false} GetTagIgnoresOther(m: Message, last: Field, tag: bytes)
    requires last.tag != tag
    ensures GetTag(m + [last], tag) == GetTag(m, tag)
    decreases |m|
  {
    if m == [] {
      assert m + [last] == [last] && [last][1..] == [];
    } else {
      assert (m + [last])[1..] == m[1..] + [last];
      GetTagIgnoresOther(m[1..], last, tag);
    }
  }

  // Framing hides no tag of the message.
  lemma FramingKeepsTags(m: Message, tag: bytes)
    requires tag != [56] && tag != [57] && tag != [49, 48]
    ensures GetTag(Framed(m), tag) == GetTag(m, tag)
  {
    GetTagIgnoresOther(Opening(m) + m, Trailer(PrintAll(Opening(m) + m)), tag);
    GetTagSkips(Opening(m), m, tag);
    hide GetTag, PrintAll, Decimal, Sum;
  }

  // ----- Steps of the client -----

  lemma LastField(fs: Message, f: Field)
    ensures PrintAll(fs + [f]) == PrintAll(fs) + (Text(f) + [SOH])
  {
    PrintConcat(fs, [f]);
    assert [f][1..] == [];
    assert PrintAll([f]) == Text(f) + [SOH] + [];
  }

  lemma EmptyDoesNotStop()
    ensures !Stop([])
  {
  }

  lemma ParseSplit(raw: bytes, start: nat, i: nat)
    requires start <= i < |raw| && raw[i] == SOH && SOH !in raw[start..i]
    ensures ParseAll(raw[start..]) == ParseField(raw[start..i]) + ParseAll(raw[i + 1..])
  {
    hide ParseAll, ParseField;
    assert raw[start..] == raw[start..i] + [SOH] + raw[i + 1..];
    ParseOneText(raw[start..i], raw[i + 1..]);
  }

  lemma NoSeparatorParsesEmpty(s: bytes)
    requires SOH !in s
    ensures ParseAll(s) == []
  {
  }

  // ----- The client object -----

  class Client {
    var outSeq: uint64
    var wire: bytes    // everything written to the connection
    var inbox: bytes   // bytes of the connection not read yet

    // A message with its standard header tags; each takes the next sequence number.
    method NewMessage(msgType: bytes, sender: bytes, target: bytes, time: bytes) returns (m: Message)
      modifies this`outSeq
      ensures outSeq == (old(outSeq) + 1) % TWO_64
      ensures m == [Field([51, 53], msgType), Field([52, 57], sender), Field([53, 54], target),
                    Field([51, 52], Decimal(old(outSeq))), Field([53, 50], time)]
    {
      var seqNum := outSeq;
      outSeq := if outSeq + 1 == TWO_64 then 0 else outSeq + 1;
      m := [Field([51, 53], msgType), Field([52, 57], sender), Field([53, 54], target),
            Field([51, 52], Decimal(seqNum)), Field([53, 50], time)];
    }

    method Send(m: Message)
      modifies this`wire
      ensures wire == old(wire) + Wire(m)
    {
      hide PrintAll, Opening, ThreeDigits, Sum, Text;
      var body := PrintBody(m);
      var header := PrintBody(Opening(m));
      var raw := header + body;
      PrintConcat(Opening(m), m);
      assert raw == PrintAll(Opening(m) + m);
      var sum := SumOf(raw);
      var checksum := Text(Field([49, 48], ThreeDigits(sum % 256))) + [SOH];
      LastField(Opening(m) + m, Trailer(raw));
      assert raw + checksum == Wire(m);
      wire := wire + (raw + checksum);
    }

    method PrintBody(m: Message) returns (body: bytes)
      ensures body == PrintAll(m)
    {
      body := [];
      for i := 0 to |m|
        invariant body + PrintAll(m[i..]) == PrintAll(m)
      {
        ghost var before := body;
        body := body + m[i].tag + [EQUALS] + m[i].value + [SOH];
        assert m[i..][0] == m[i] && m[i..][1..] == m[i + 1..];
        assert body == before + (Text(m[i]) + [SOH]);
      }
    }

    method SumOf(raw: bytes) returns (sum: nat)
      ensures sum == Sum(raw)
    {
      sum := 0;
      for i := 0 to |raw|
        invariant sum == Sum(raw[..i])
      {
        assert raw[..i + 1][..i] == raw[..i];
        sum := sum + raw[i];
      }
      assert raw[..|raw|] == raw;
    }

    // Reads byte by byte until the end test succeeds, then parses what was read.
    method ReadMessage() returns (ok: bool, m: Message)
      modifies this`inbox
      ensures ok <==> ReadOne(old(inbox)).Got?
      ensures ok ==> ReadOne(old(inbox)) == Got(m, inbox)
      ensures !ok ==> inbox == []
    {
      hide Stop, ParseAll;
      ghost var s := inbox;
      var raw: bytes := [];
      m := [];
      EmptyDoesNotStop();
      while true
        invariant raw + inbox == s && raw == s[..|raw|]
        invariant FrameEnd(s, 0) == FrameEnd(s, |raw|) && !Stop(raw)
        decreases |inbox|
      {
        if inbox == [] {
          assert |raw| == |s|;
          return false, m;
        }
        raw := raw + [inbox[0]];
        inbox := inbox[1..];
        assert raw == s[..|raw|];
        if Stop(raw) { break; }
      }
      m := Parse(raw);
      assert inbox == s[|raw|..];
      return true, m;
    }

    // Splits at separators, and each piece at its first '='.
    method Parse(raw: bytes) returns (m: Message)
      ensures m == ParseAll(raw)
    {
      hide ParseAll, ParseField;
      m := [];
      var start := 0;
      var i := 0;
      while i < |raw|
        invariant 0 <= start <= i <= |raw|
        invariant SOH !in raw[start..i]
        invariant m + ParseAll(raw[start..]) == ParseAll(raw)
      {
        if raw[i] == SOH {
          ParseSplit(raw, start, i);
          m := m + ParseField(raw[start..i]);
          start := i + 1;
        } else {
          assert raw[start..i + 1] == raw[start..i] + [raw[i]];
        }
        i := i + 1;
      }
      NoSeparatorParsesEmpty(raw[start..]);
    }
  }
}
