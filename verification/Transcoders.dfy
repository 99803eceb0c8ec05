/** The UTF-8 transcoders of ghc::filesystem for 4-byte and 2-byte strings. */
module Transcoders {
  import opened Utf8Automaton

  type unit = u: bv32 | u < 0x10000

  const REPLACEMENT: bv32 := 0xfffd

  /** `in_range`, with the wrap-around of unsigned subtraction. */
  predicate InRange(c: bv32, lo: bv32, hi: bv32) {
    c - lo < hi - lo + 1
  }

  predicate IsSurrogate(c: bv32) {
    InRange(c, 0xd800, 0xdfff)
  }

  predicate IsHighSurrogate(c: bv32) {
    c & 0xfffffc00 == 0xd800
  }

  predicate IsLowSurrogate(c: bv32) {
    c & 0xfffffc00 == 0xdc00
  }

  /** A Unicode scalar value. */
  predicate Scalar(u: bv32) {
    u <= 0xd7ff || 0xe000 <= u <= 0x10ffff
  }

  /** `appendUTF8` of a code point; anything else is replaced. */
  function Append(u: bv32): seq<byte>
    decreases if Scalar(u) then 0 else 1
  {
    if u <= 0x7f then [u & 0xff]
    else if u >= 0x80 && u <= 0x7ff then [Lead(u >> 6, 192), Trail(u)]
    else if (u >= 0x800 && u <= 0xd7ff) || (u >= 0xe000 && u <= 0xffff) then
      [Lead(u >> 12, 224), Trail((u & 0xfff) >> 6), Trail(u)]
    else if u >= 0x10000 && u <= 0x10ffff then
      [Lead(u >> 18, 240), Trail((u & 0x3ffff) >> 12), Trail((u & 0xfff) >> 6), Trail(u)]
    else Append(REPLACEMENT)
  }

  /** The two casts to `char`. */
  function Lead(bits: bv32, mark: bv32): byte {
    (bits + mark) & 0xff
  }

  function Trail(bits: bv32): byte {
    ((bits & 0x3f) + 128) & 0xff
  }

  lemma TrailBits(bits: bv32)
    ensures Tail(Trail(bits)) && Trail(bits) & 0x3f == bits & 0x3f
  {
  }

  function Fix(u: bv32): bv32 {
    if Scalar(u) then u else REPLACEMENT
  }

  lemma Append12(u: bv32)
    requires u <= 0x7ff
    ensures IsChar(Append(u)) && CodePoint(Append(u)) == u
  {
  }

  lemma Join3Append(u: bv32)
    requires Scalar(u) && 0x800 <= u <= 0xffff
    ensures Join3(Lead(u >> 12, 224), Trail((u & 0xfff) >> 6), Trail(u)) == u
  {
  }

  lemma Lead3Bits(u: bv32)
    requires Scalar(u) && 0x800 <= u <= 0xffff
    ensures var a, b := Lead(u >> 12, 224), Trail((u & 0xfff) >> 6);
            && a & 0x0f == u >> 12 && 0xe0 <= a <= 0xef
            && (a == 0xe0 ==> 0xa0 <= b) && (a == 0xed ==> b <= 0x9f)
  {
  }

  lemma Append3IsChar(u: bv32)
    requires Scalar(u) && 0x800 <= u <= 0xffff
    ensures IsChar(Append(u))
  {
    Lead3Bits(u);
    TrailBits((u & 0xfff) >> 6);
    TrailBits(u);
  }

  lemma Append3Code(u: bv32)
    requires Scalar(u) && 0x800 <= u <= 0xffff && IsChar(Append(u))
    ensures CodePoint(Append(u)) == u
  {
    Join3Append(u);
  }

  lemma Join4Append(u: bv32)
    requires 0x10000 <= u <= 0x10ffff
    ensures Join4(Lead(u >> 18, 240), Trail((u & 0x3ffff) >> 12), Trail((u & 0xfff) >> 6), Trail(u)) == u
  {
  }

  lemma Lead4Bits(u: bv32)
    requires 0x10000 <= u <= 0x10ffff
    ensures var a, b := Lead(u >> 18, 240), Trail((u & 0x3ffff) >> 12);
            && a & 0x07 == u >> 18 && 0xf0 <= a <= 0xf4
            && (a == 0xf0 ==> 0x90 <= b) && (a == 0xf4 ==> b <= 0x8f)
  {
  }

  lemma Append4IsChar(u: bv32)
    requires 0x10000 <= u <= 0x10ffff
    ensures IsChar(Append(u))
  {
    Lead4Bits(u);
    TrailBits((u & 0x3ffff) >> 12);
    TrailBits((u & 0xfff) >> 6);
    TrailBits(u);
  }

  lemma Append4Code(u: bv32)
    requires 0x10000 <= u <= 0x10ffff && IsChar(Append(u))
    ensures CodePoint(Append(u)) == u
  {
    Join4Append(u);
  }

  /** What is appended is one character, whose code point is the given one if that is a scalar value. */
  lemma AppendIsChar(u: bv32)
    ensures IsChar(Append(u)) && CodePoint(Append(u)) == Fix(u)
  {
    if u <= 0x7ff { Append12(u); }
    else if u > 0x10ffff || 0xd800 <= u <= 0xdfff { Append3IsChar(REPLACEMENT); Append3Code(REPLACEMENT); }
    else if u <= 0xffff { Append3IsChar(u); Append3Code(u); }
    else { Append4IsChar(u); Append4Code(u); }
  }

  lemma CodePoint12(c: seq<byte>)
    requires IsChar(c) && |c| <= 2
    ensures CodePoint(c) <= 0x7ff && Append(CodePoint(c)) == c
  {
  }

  lemma Join3Bits(a: byte, b: byte, c: byte)
    requires 0xe0 <= a <= 0xef && Tail(b) && Tail(c)
    ensures var u := Join3(a, b, c);
            Lead(u >> 12, 224) == a && Trail((u & 0xfff) >> 6) == b && Trail(u) == c && u <= 0xffff
  {
  }

  lemma Join3Scalar(a: byte, b: byte, c: byte)
    requires 0xe0 <= a <= 0xef && Tail(b) && Tail(c) && (a == 0xe0 ==> 0xa0 <= b) && (a == 0xed ==> b <= 0x9f)
    ensures Scalar(Join3(a, b, c)) && Join3(a, b, c) >= 0x800
  {
  }

  lemma CodePoint3IsScalar(c: seq<byte>)
    requires IsChar(c) && |c| == 3
    ensures Scalar(CodePoint(c)) && 0x800 <= CodePoint(c) <= 0xffff
  {
    Join3Bits(c[0], c[1], c[2]);
    Join3Scalar(c[0], c[1], c[2]);
  }

  lemma AppendThree(u: bv32)
    requires Scalar(u) && 0x800 <= u <= 0xffff
    ensures Append(u) == [Lead(u >> 12, 224), Trail((u & 0xfff) >> 6), Trail(u)]
  {
  }

  lemma AppendJoined(a: byte, b: byte, c: byte)
    requires 0xe0 <= a <= 0xef && Tail(b) && Tail(c) && Scalar(Join3(a, b, c)) && 0x800 <= Join3(a, b, c)
    ensures Append(Join3(a, b, c)) == [a, b, c]
  {
    Join3Bits(a, b, c);
    AppendThree(Join3(a, b, c));
  }

  lemma CodePoint3(c: seq<byte>)
    requires IsChar(c) && |c| == 3
    requires Scalar(CodePoint(c)) && 0x800 <= CodePoint(c) <= 0xffff
    ensures Append(CodePoint(c)) == c
  {
    AppendJoined(c[0], c[1], c[2]);
  }

  lemma Join4Bits(a: byte, b: byte, c: byte, d: byte)
    requires 0xf0 <= a <= 0xf4 && Tail(b) && Tail(c) && Tail(d)
    ensures var u := Join4(a, b, c, d);
            Lead(u >> 18, 240) == a && Trail((u & 0x3ffff) >> 12) == b && Trail((u & 0xfff) >> 6) == c && Trail(u) == d
  {
  }

  lemma Join4Range(a: byte, b: byte, c: byte, d: byte)
    requires 0xf0 <= a <= 0xf4 && Tail(b) && Tail(c) && Tail(d) && (a == 0xf0 ==> 0x90 <= b)
    requires a == 0xf4 ==> b <= 0x8f
    ensures 0x10000 <= Join4(a, b, c, d) <= 0x10ffff
  {
  }

  lemma CodePoint4IsScalar(c: seq<byte>)
    requires IsChar(c) && |c| == 4
    ensures 0x10000 <= CodePoint(c) <= 0x10ffff
  {
    Join4Range(c[0], c[1], c[2], c[3]);
  }

  /** The four bytes of `c` are those appended for `u`. */
  predicate Parts4(u: bv32, c: seq<byte>) {
    && |c| == 4 && Lead(u >> 18, 240) == c[0] && Trail((u & 0x3ffff) >> 12) == c[1]
    && Trail((u & 0xfff) >> 6) == c[2] && Trail(u) == c[3]
  }

  lemma Parts4Of(c: seq<byte>)
    requires IsChar(c) && |c| == 4
    ensures Parts4(CodePoint(c), c)
  {
    Join4Bits(c[0], c[1], c[2], c[3]);
  }

  lemma AppendOf4(u: bv32, c: seq<byte>)
    requires 0x10000 <= u <= 0x10ffff && Parts4(u, c)
    ensures Append(u) == c
  {
  }

  lemma CodePoint4(c: seq<byte>)
    requires IsChar(c) && |c| == 4 && 0x10000 <= CodePoint(c) <= 0x10ffff
    ensures Append(CodePoint(c)) == c
  {
    Parts4Of(c);
    AppendOf4(CodePoint(c), c);
  }

  /** A character of the grammar encodes a scalar value, in the only way. */
  lemma CharIsAppended(c: seq<byte>)
    requires IsChar(c)
    ensures Scalar(CodePoint(c)) && Append(CodePoint(c)) == c
  {
    if |c| <= 2 { CodePoint12(c); }
    else if |c| == 3 { CodePoint3IsScalar(c); CodePoint3(c); }
    else { CodePoint4IsScalar(c); CodePoint4(c); }
  }

  // 4-byte strings

  function ToWide(us: seq<bv32>): seq<byte> {
    if us == [] then [] else Append(us[0]) + ToWide(us[1..])
  }

  /** `fromUtf8` from a state in the middle of a string; a byte that is rejected is replaced and skipped. */
  function FromWide(state: bv32, cp: bv32, s: seq<byte>): seq<bv32>
    requires state <= 8
    decreases |s|
  {
    if s == [] then if state != START then [REPLACEMENT] else []
    else
      TableIsNext(state, s[0], cp);
      var (state1, cp1) := Consume(state, s[0], cp);
      if state1 == START then [cp1] + FromWide(START, 0, s[1..])
      else if state1 == REJECT then [REPLACEMENT] + FromWide(START, 0, s[1..])
      else FromWide(state1, cp1, s[1..])
  }

  function FixAll(us: seq<bv32>): (r: seq<bv32>)
    ensures |r| == |us|
  {
    seq(|us|, k requires 0 <= k < |us| => Fix(us[k]))
  }

  predicate Scalars(us: seq<bv32>) {
    forall k :: 0 <= k < |us| ==> Scalar(us[k])
  }

  /** `toUtf8` gives a string of the grammar for every input. */
  lemma {:induction false} ToWideIsUtf8(us: seq<bv32>) returns (cs: seq<seq<byte>>)
    ensures AllChars(cs) && Flatten(cs) == ToWide(us) && CodePoints(cs) == FixAll(us)
  {
    if us == [] {
      cs := [];
    } else {
      var tail := ToWideIsUtf8(us[1..]);
      AppendIsChar(us[0]);
      cs := [Append(us[0])] + tail;
      assert cs[1..] == tail;
      assert FixAll(us) == [Fix(us[0])] + FixAll(us[1..]);
      CodePointsOfOne(cs[0], tail);
    }
  }

  lemma CodePointsOfOne(c: seq<byte>, cs: seq<seq<byte>>)
    requires IsChar(c) && AllChars(cs)
    ensures AllChars([c] + cs) && CodePoints([c] + cs) == [CodePoint(c)] + CodePoints(cs)
  {
  }

  /** On an accepted string `fromUtf8` returns the code points of the run. */
  lemma {:induction false} FromWideIsRun(state: bv32, cp: bv32, s: seq<byte>)
    requires state < 8 && RunFrom(state, cp, s).state == START
    ensures FromWide(state, cp, s) == RunFrom(state, cp, s).codes
    decreases |s|
  {
    if s != [] {
      TableIsNext(state, s[0], cp);
      var (state1, cp1) := Consume(state, s[0], cp);
      RejectStays(cp1, s[1..]);
      if state1 == START {
        StartForgets(cp1, 0, s[1..]);
        FromWideIsRun(START, 0, s[1..]);
      } else {
        FromWideIsRun(state1, cp1, s[1..]);
      }
    }
  }

  lemma FromWideOfChars(cs: seq<seq<byte>>)
    requires AllChars(cs)
    ensures FromWide(START, 0, Flatten(cs)) == CodePoints(cs)
  {
    CharsRun(cs);
    FromWideIsRun(START, 0, Flatten(cs));
  }

  /** Main result: what comes back is the input with everything else than scalar values replaced. */
  lemma WideRoundTrip(us: seq<bv32>)
    ensures Utf8(ToWide(us)) && FromWide(START, 0, ToWide(us)) == FixAll(us)
    ensures FromWide(START, 0, ToWide(us)) == us <==> Scalars(us)
  {
    var cs := ToWideIsUtf8(us);
    FromWideOfChars(cs);
    if FixAll(us) == us {
      forall k | 0 <= k < |us|
        ensures Scalar(us[k])
      {
        assert FixAll(us)[k] == us[k];
      }
    }
  }

  lemma {:induction false} ToWideOfChars(cs: seq<seq<byte>>)
    requires AllChars(cs)
    ensures Scalars(CodePoints(cs)) && ToWide(CodePoints(cs)) == Flatten(cs)
  {
    if cs != [] {
      CharIsAppended(cs[0]);
      ToWideOfChars(cs[1..]);
      assert CodePoints(cs) == [CodePoint(cs[0])] + CodePoints(cs[1..]);
      assert CodePoints(cs)[1..] == CodePoints(cs[1..]);
    }
  }

  /** Main result: decoding and encoding again gives back exactly the valid strings. */
  lemma WideRoundTripBytes(s: seq<byte>)
    ensures ToWide(FromWide(START, 0, s)) == s <==> Utf8(s)
  {
    if Utf8(s) {
      var cs :| AllChars(cs) && Flatten(cs) == s;
      FromWideOfChars(cs);
      ToWideOfChars(cs);
    }
    WideRoundTrip(FromWide(START, 0, s));
  }

  // 2-byte strings

  /** The UTF-16 form of a code point, section 2.1 of RFC 2781, with the casts to 16 bits. */
  function Units(u: bv32): seq<unit> {
    if u <= 0xffff then [u & 0xffff] else [High(u), Low(u)]
  }

  function High(u: bv32): unit {
    (((u - 0x10000) >> 10) + 0xd800) & 0xffff
  }

  function Low(u: bv32): unit {
    (((u - 0x10000) & 0x3ff) + 0xdc00) & 0xffff
  }

  function AllUnits(us: seq<bv32>): seq<unit> {
    if us == [] then [] else Units(us[0]) + AllUnits(us[1..])
  }

  function Combine(high: unit, low: unit): bv32 {
    (high << 10) + low - 0x35fdc00
  }

  /** The code points that `toUtf8` appends; a lone surrogate is replaced together with the unit after it. */
  function Decode(s: seq<unit>): seq<bv32>
    decreases |s|
  {
    if s == [] then []
    else if IsSurrogate(s[0]) then
      if |s| == 1 then [REPLACEMENT]
      else if IsHighSurrogate(s[0]) && IsLowSurrogate(s[1]) then [Combine(s[0], s[1])] + Decode(s[2..])
      else [REPLACEMENT] + Decode(s[2..])
    else [s[0]] + Decode(s[1..])
  }

  /** Well-formed UTF-16: surrogates come in pairs of a high and a low one. */
  predicate Utf16(s: seq<unit>)
    decreases |s|
  {
    || s == []
    || (!(0xd800 <= s[0] <= 0xdfff) && Utf16(s[1..]))
    || (|s| >= 2 && 0xd800 <= s[0] <= 0xdbff && 0xdc00 <= s[1] <= 0xdfff && Utf16(s[2..]))
  }

  lemma SurrogateTests(c: unit)
    ensures IsSurrogate(c) <==> 0xd800 <= c <= 0xdfff
    ensures IsHighSurrogate(c) <==> 0xd800 <= c <= 0xdbff
    ensures IsLowSurrogate(c) <==> 0xdc00 <= c <= 0xdfff
  {
  }

  lemma CombineRange(high: unit, low: unit)
    requires 0xd800 <= high <= 0xdbff && 0xdc00 <= low <= 0xdfff
    ensures 0x10000 <= Combine(high, low) <= 0x10ffff
  {
  }

  lemma CombineHigh(high: unit, low: unit)
    requires 0xd800 <= high <= 0xdbff && 0xdc00 <= low <= 0xdfff
    ensures High(Combine(high, low)) == high
  {
  }

  lemma CombineLow(high: unit, low: unit)
    requires 0xd800 <= high <= 0xdbff && 0xdc00 <= low <= 0xdfff
    ensures Low(Combine(high, low)) == low
  {
  }

  lemma PairCombines(high: unit, low: unit)
    requires 0xd800 <= high <= 0xdbff && 0xdc00 <= low <= 0xdfff
    ensures Scalar(Combine(high, low)) && Units(Combine(high, low)) == [high, low]
  {
    CombineRange(high, low);
    CombineHigh(high, low);
    CombineLow(high, low);
  }

  lemma HighRange(u: bv32)
    requires 0x10000 <= u <= 0x10ffff
    ensures 0xd800 <= High(u) <= 0xdbff
  {
  }

  lemma LowRange(u: bv32)
    requires 0x10000 <= u <= 0x10ffff
    ensures 0xdc00 <= Low(u) <= 0xdfff
  {
  }

  lemma PairJoins(u: bv32)
    requires 0x10000 <= u <= 0x10ffff
    ensures Combine(High(u), Low(u)) == u
  {
  }

  lemma {:induction false} DecodeScalars(s: seq<unit>)
    ensures Scalars(Decode(s))
    decreases |s|
  {
    if s != [] {
      SurrogateTests(s[0]);
      if IsSurrogate(s[0]) {
        if |s| > 1 {
          SurrogateTests(s[1]);
          DecodeScalars(s[2..]);
          if IsHighSurrogate(s[0]) && IsLowSurrogate(s[1]) { PairCombines(s[0], s[1]); }
        }
      } else {
        DecodeScalars(s[1..]);
      }
    }
  }

  lemma Narrow(u: bv32)
    requires u <= 0xffff
    ensures u & 0xffff == u
  {
  }

  lemma DecodeSingle(u: unit, rest: seq<unit>)
    requires !(0xd800 <= u <= 0xdfff)
    ensures Decode([u] + rest) == [u] + Decode(rest) && Utf16([u] + rest) == Utf16(rest)
  {
    SurrogateTests(u);
    assert ([u] + rest)[1..] == rest;
  }

  lemma DecodePair(high: unit, low: unit, rest: seq<unit>)
    requires 0xd800 <= high <= 0xdbff && 0xdc00 <= low <= 0xdfff
    ensures Decode([high, low] + rest) == [Combine(high, low)] + Decode(rest)
    ensures Utf16(rest) ==> Utf16([high, low] + rest)
  {
    SurrogateTests(high);
    SurrogateTests(low);
    assert ([high, low] + rest)[2..] == rest;
  }

  /** Decoding the units of one scalar value. */
  lemma DecodeOne(u: bv32, rest: seq<unit>)
    requires Scalar(u) && Utf16(rest)
    ensures Decode(Units(u) + rest) == [u] + Decode(rest) && Utf16(Units(u) + rest)
  {
    if u <= 0xffff {
      Narrow(u);
      DecodeSingle(u, rest);
    } else {
      HighRange(u);
      LowRange(u);
      PairJoins(u);
      DecodePair(High(u), Low(u), rest);
    }
  }

  lemma {:induction false} DecodeUnits(us: seq<bv32>)
    requires Scalars(us)
    ensures Utf16(AllUnits(us)) && Decode(AllUnits(us)) == us
  {
    if us != [] {
      DecodeUnits(us[1..]);
      DecodeOne(us[0], AllUnits(us[1..]));
      assert us == [us[0]] + us[1..];
    }
  }

  lemma {:induction false} UnitsOfDecoded(s: seq<unit>)
    requires Utf16(s)
    ensures Scalars(Decode(s)) && AllUnits(Decode(s)) == s
    decreases |s|
  {
    DecodeScalars(s);
    if s != [] {
      SurrogateTests(s[0]);
      if IsSurrogate(s[0]) {
        SurrogateTests(s[1]);
        PairCombines(s[0], s[1]);
        UnitsOfDecoded(s[2..]);
        assert Decode(s)[1..] == Decode(s[2..]);
        assert s == [s[0], s[1]] + s[2..];
      } else {
        UnitsOfDecoded(s[1..]);
        Narrow(s[0]);
        assert Decode(s)[1..] == Decode(s[1..]);
        assert s == [s[0]] + s[1..];
      }
    }
  }

  function ToNarrow(s: seq<unit>): seq<byte> {
    ToWide(Decode(s))
  }

  /** `fromUtf8` for 2-byte strings, in the middle of a string. */
  function FromNarrow(state: bv32, cp: bv32, s: seq<byte>): seq<unit>
    requires state <= 8
    decreases |s|
  {
    if s == [] then if state != START then [REPLACEMENT] else []
    else
      TableIsNext(state, s[0], cp);
      var (state1, cp1) := Consume(state, s[0], cp);
      if state1 == START then Units(cp1) + FromNarrow(START, 0, s[1..])
      else if state1 == REJECT then [REPLACEMENT] + FromNarrow(START, 0, s[1..])
      else FromNarrow(state1, cp1, s[1..])
  }

  lemma {:induction false} NarrowIsWide(state: bv32, cp: bv32, s: seq<byte>)
    requires state <= 8
    ensures FromNarrow(state, cp, s) == AllUnits(FromWide(state, cp, s))
    decreases |s|
  {
    if s == [] {
      UnitsOfOne(REPLACEMENT, []);
    } else {
      TableIsNext(state, s[0], cp);
      var (state1, cp1) := Consume(state, s[0], cp);
      if state1 == START {
        NarrowIsWide(START, 0, s[1..]);
        UnitsOfOne(cp1, FromWide(START, 0, s[1..]));
      } else if state1 == REJECT {
        NarrowIsWide(START, 0, s[1..]);
        UnitsOfOne(REPLACEMENT, FromWide(START, 0, s[1..]));
      } else {
        NarrowIsWide(state1, cp1, s[1..]);
      }
    }
  }

  lemma UnitsOfOne(u: bv32, us: seq<bv32>)
    ensures AllUnits([u] + us) == Units(u) + AllUnits(us)
    ensures us == [] ==> AllUnits([u]) == Units(u)
    ensures Units(REPLACEMENT) == [REPLACEMENT]
  {
    assert ([u] + us)[1..] == us;
    if us == [] {
      assert [u] + us == [u] && Units(u) + [] == Units(u);
    }
  }

  /** Main result: `toUtf8` is valid for every input, and exactly well-formed UTF-16 comes back unchanged. */
  lemma NarrowRoundTrip(s: seq<unit>)
    ensures Utf8(ToNarrow(s))
    ensures FromNarrow(START, 0, ToNarrow(s)) == s <==> Utf16(s)
  {
    DecodeScalars(s);
    var us := Decode(s);
    WideRoundTrip(us);
    NarrowIsWide(START, 0, ToNarrow(s));
    assert FromNarrow(START, 0, ToNarrow(s)) == AllUnits(us);
    DecodeUnits(us);
    if Utf16(s) { UnitsOfDecoded(s); }
  }

  /** Main result: decoding to UTF-16 and encoding again gives back exactly the valid strings. */
  lemma NarrowRoundTripBytes(s: seq<byte>)
    ensures ToNarrow(FromNarrow(START, 0, s)) == s <==> Utf8(s)
  {
    if Utf8(s) {
      var cs :| AllChars(cs) && Flatten(cs) == s;
      FromWideOfChars(cs);
      ToWideOfChars(cs);
      NarrowIsWide(START, 0, s);
      DecodeUnits(CodePoints(cs));
    }
    NarrowRoundTrip(FromNarrow(START, 0, s));
  }

  // The loops

  lemma Regroup<T>(a: seq<T>, b: seq<T>, c: seq<T>)
    ensures (a + b) + c == a + (b + c) && a + [] == a
  {
  }

  method ToUtf8Wide(us: seq<bv32>) returns (out: seq<byte>)
    ensures out == ToWide(us)
  {
    out := [];
    var i := 0;
    while i < |us|
      invariant i <= |us| && out + ToWide(us[i..]) == ToWide(us)
    {
      assert us[i..][1..] == us[i + 1..];
      out := out + Append(us[i]);
      i := i + 1;
    }
    assert ToWide(us[i..]) == [];
  }

  /** What one pass of the loop below appends. */
  function WideEmitted(next: (bv32, bv32)): seq<bv32> {
    if next.0 == START then [next.1] else if next.0 == REJECT then [REPLACEMENT] else []
  }

  lemma WideUnfold(state: bv32, cp: bv32, s: seq<byte>)
    requires state <= 8 && s != []
    ensures var next := Consume(state, s[0], cp);
            && next.0 <= 8
            && FromWide(state, cp, s) == WideEmitted(next)
               + if next.0 == START || next.0 == REJECT then FromWide(START, 0, s[1..])
                 else FromWide(next.0, next.1, s[1..])
  {
    TableIsNext(state, s[0], cp);
  }

  lemma WideStep(state: bv32, cp: bv32, b: byte, rest: seq<byte>)
    requires state <= 8
    ensures var next := Consume(state, b, cp);
            && next.0 <= 8
            && FromWide(state, cp, [b] + rest) == WideEmitted(next)
               + if next.0 == START || next.0 == REJECT then FromWide(START, 0, rest)
                 else FromWide(next.0, next.1, rest)
  {
    var s := [b] + rest;
    assert s[0] == b && s[1..] == rest;
    WideUnfold(state, cp, s);
  }

  method FromUtf8Wide(s: seq<byte>) returns (out: seq<bv32>)
    ensures out == FromWide(START, 0, s)
  {
    out := [];
    var state, cp := START, 0 as bv32;
    var i := 0;
    while i < |s|
      invariant i <= |s| && state <= 8
      invariant out + FromWide(state, cp, s[i..]) == FromWide(START, 0, s)
    {
      ghost var before := out;
      assert s[i..] == [s[i]] + s[i + 1..];
      WideStep(state, cp, s[i], s[i + 1..]);
      var next := Consume(state, s[i], cp);
      if next.0 == START {
        out, state, cp := out + [next.1], START, 0;
      } else if next.0 == REJECT {
        out, state, cp := out + [REPLACEMENT], START, 0;
      } else {
        state, cp := next.0, next.1;
      }
      Regroup(before, WideEmitted(next), FromWide(state, cp, s[i + 1..]));
      i := i + 1;
    }
    if state != START {
      out := out + [REPLACEMENT];
    }
  }

  /** One pass of the loop below: what is appended, and from where it continues. */
  lemma DecodeNext(s: seq<unit>, i: nat)
    requires i < |s|
    ensures var c := s[i];
            ToWide(Decode(s[i..])) ==
              if !IsSurrogate(c) then Append(c) + ToWide(Decode(s[i + 1..]))
              else if i + 1 == |s| then Append(REPLACEMENT)
              else if IsHighSurrogate(c) && IsLowSurrogate(s[i + 1]) then
                Append(Combine(c, s[i + 1])) + ToWide(Decode(s[i + 2..]))
              else Append(REPLACEMENT) + ToWide(Decode(s[i + 2..]))
  {
    var c, t := s[i], s[i..];
    assert t[1..] == s[i + 1..];
    if !IsSurrogate(c) {
      AppendOne(c, Decode(s[i + 1..]));
    } else if i + 1 == |s| {
      AppendOne(REPLACEMENT, []);
    } else {
      assert t[2..] == s[i + 2..];
      AppendOne(Combine(c, s[i + 1]), Decode(s[i + 2..]));
      AppendOne(REPLACEMENT, Decode(s[i + 2..]));
    }
  }

  method ToUtf8Narrow(s: seq<unit>) returns (out: seq<byte>)
    ensures out == ToNarrow(s)
  {
    out := [];
    var i := 0;
    while i < |s|
      invariant i <= |s| && out + ToWide(Decode(s[i..])) == ToNarrow(s)
    {
      DecodeNext(s, i);
      ghost var before := out;
      var c := s[i];
      if IsSurrogate(c) {
        i := i + 1;
        if i < |s| && IsHighSurrogate(c) && IsLowSurrogate(s[i]) {
          out := out + Append(Combine(c, s[i]));
        } else {
          out := out + Append(REPLACEMENT);
          if i == |s| {
            return;
          }
        }
      } else {
        out := out + Append(c);
      }
      i := i + 1;
      Regroup(before, out[|before|..], ToWide(Decode(s[i..])));
    }
    assert Decode(s[i..]) == [];
  }

  lemma AppendOne(u: bv32, us: seq<bv32>)
    ensures ToWide([u] + us) == Append(u) + ToWide(us)
    ensures us == [] ==> ToWide([u]) == Append(u)
  {
    assert ([u] + us)[1..] == us;
    if us == [] {
      assert [u] + us == [u] && Append(u) + [] == Append(u);
    }
  }

  /** What one pass of the loop below appends. */
  function NarrowEmitted(next: (bv32, bv32)): seq<unit> {
    if next.0 == START then Units(next.1) else if next.0 == REJECT then [REPLACEMENT] else []
  }

  lemma NarrowUnfold(state: bv32, cp: bv32, s: seq<byte>)
    requires state <= 8 && s != []
    ensures var next := Consume(state, s[0], cp);
            && next.0 <= 8
            && FromNarrow(state, cp, s) == NarrowEmitted(next)
               + if next.0 == START || next.0 == REJECT then FromNarrow(START, 0, s[1..])
                 else FromNarrow(next.0, next.1, s[1..])
  {
    TableIsNext(state, s[0], cp);
  }

  lemma NarrowStep(state: bv32, cp: bv32, b: byte, rest: seq<byte>)
    requires state <= 8
    ensures var next := Consume(state, b, cp);
            && next.0 <= 8
            && FromNarrow(state, cp, [b] + rest) == NarrowEmitted(next)
               + if next.0 == START || next.0 == REJECT then FromNarrow(START, 0, rest)
                 else FromNarrow(next.0, next.1, rest)
  {
    var s := [b] + rest;
    assert s[0] == b && s[1..] == rest;
    NarrowUnfold(state, cp, s);
  }

  method FromUtf8Narrow(s: seq<byte>) returns (out: seq<unit>)
    ensures out == FromNarrow(START, 0, s)
  {
    out := [];
    var state, cp := START, 0 as bv32;
    var i := 0;
    while i < |s|
      invariant i <= |s| && state <= 8
      invariant out + FromNarrow(state, cp, s[i..]) == FromNarrow(START, 0, s)
    {
      ghost var before := out;
      assert s[i..] == [s[i]] + s[i + 1..];
      NarrowStep(state, cp, s[i], s[i + 1..]);
      var next := Consume(state, s[i], cp);
      if next.0 == START {
        out, state, cp := out + Units(next.1), START, 0;
      } else if next.0 == REJECT {
        out, state, cp := out + [REPLACEMENT], START, 0;
      } else {
        state, cp := next.0, next.1;
      }
      assert out == before + NarrowEmitted(next);
      Regroup(before, NarrowEmitted(next), FromNarrow(state, cp, s[i + 1..]));
      i := i + 1;
    }
    if state != START {
      out := out + [REPLACEMENT];
    }
  }
}
