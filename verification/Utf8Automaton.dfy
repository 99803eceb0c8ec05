/** The UTF-8 automaton of ghc::filesystem against the grammar in section 4 of RFC 3629. */
module Utf8Automaton {

  type byte = b: bv32 | b < 0x100

  /** `utf8_state_info`: two classes of bytes per entry below 16, the transitions of a class above. */
  function StateInfo(i: bv32): bv32 {
    match i
    case 0 => 0x11111111
    case 1 => 0x11111111
    case 2 => 0x77777777
    case 3 => 0x77777777
    case 4 => 0x88888888
    case 5 => 0x88888888
    case 6 => 0x88888888
    case 7 => 0x88888888
    case 8 => 0x22222299
    case 9 => 0x22222222
    case 10 => 0x22222222
    case 11 => 0x22222222
    case 12 => 0x3333333a
    case 13 => 0x33433333
    case 14 => 0x9995666b
    case 15 => 0x99999999
    case 16 => 0x88888880
    case 17 => 0x22818108
    case 18 => 0x88888881
    case 19 => 0x88888882
    case 20 => 0x88888884
    case 21 => 0x88888887
    case 22 => 0x88888886
    case 23 => 0x82218108
    case 24 => 0x82281108
    case 25 => 0x88888888
    case 26 => 0x88888883
    case 27 => 0x88888885
    case _ => 0
  }

  const START: bv32 := 0
  const REJECT: bv32 := 8

  function Category(b: byte): bv32 {
    if b < 128 then 0 else (StateInfo((b >> 3) & 0xf) >> ((b & 7) << 2)) & 0xf
  }

  /** `consumeUtf8Fragment`: the next state and code point. */
  function Consume(state: bv32, b: byte, cp: bv32): (bv32, bv32)
    requires state <= 8
  {
    var category := Category(b);
    (if state == REJECT then REJECT else (StateInfo(category + 16) >> (state << 2)) & 0xf,
     if state != 0 then (cp << 6) | (b & 0x3f) else (0xff >> category) & b)
  }

  // The grammar

  predicate Tail(b: byte) {
    0x80 <= b <= 0xbf
  }

  /** One character: UTF8-1, UTF8-2, UTF8-3 or UTF8-4 of section 4 of RFC 3629. */
  predicate IsChar(c: seq<byte>) {
    || (|c| == 1 && c[0] <= 0x7f)
    || (|c| == 2 && 0xc2 <= c[0] <= 0xdf && Tail(c[1]))
    || (|c| == 3 && Tail(c[2]) &&
        (|| (c[0] == 0xe0 && 0xa0 <= c[1] <= 0xbf)
         || (0xe1 <= c[0] <= 0xec && Tail(c[1]))
         || (c[0] == 0xed && 0x80 <= c[1] <= 0x9f)
         || (0xee <= c[0] <= 0xef && Tail(c[1]))))
    || (|c| == 4 && Tail(c[2]) && Tail(c[3]) &&
        (|| (c[0] == 0xf0 && 0x90 <= c[1] <= 0xbf)
         || (0xf1 <= c[0] <= 0xf3 && Tail(c[1]))
         || (c[0] == 0xf4 && 0x80 <= c[1] <= 0x8f)))
  }

  /** The code point of a character: section 3 of RFC 3629. */
  function CodePoint(c: seq<byte>): bv32
    requires IsChar(c)
  {
    if |c| == 1 then c[0]
    else if |c| == 2 then ((c[0] & 0x1f) << 6) | (c[1] & 0x3f)
    else if |c| == 3 then Join3(c[0], c[1], c[2])
    else Join4(c[0], c[1], c[2], c[3])
  }

  function Join3(a: byte, b: byte, c: byte): bv32 {
    ((a & 0x0f) << 12) | ((b & 0x3f) << 6) | (c & 0x3f)
  }

  function Join4(a: byte, b: byte, c: byte, d: byte): bv32 {
    ((a & 0x07) << 18) | ((b & 0x3f) << 12) | ((c & 0x3f) << 6) | (d & 0x3f)
  }

  /** A concatenation of characters. */
  function Flatten(cs: seq<seq<byte>>): seq<byte> {
    if cs == [] then [] else cs[0] + Flatten(cs[1..])
  }

  predicate AllChars(cs: seq<seq<byte>>) {
    forall k :: 0 <= k < |cs| ==> IsChar(cs[k])
  }

  ghost predicate Utf8(s: seq<byte>) {
    exists cs :: AllChars(cs) && Flatten(cs) == s
  }

  function CodePoints(cs: seq<seq<byte>>): (us: seq<bv32>)
    requires AllChars(cs)
    ensures |us| == |cs| && forall k :: 0 <= k < |us| ==> us[k] == CodePoint(cs[k])
  {
    seq(|cs|, k requires 0 <= k < |cs| => CodePoint(cs[k]))
  }

  // The automaton, state by state

  /** The states: what may follow. */
  function Next(state: bv32, b: byte): bv32 {
    match state
    case 0 =>
      if b <= 0x7f then 0
      else if 0xc2 <= b <= 0xdf then 1
      else if b == 0xe0 then 3
      else if b == 0xed then 4
      else if 0xe1 <= b <= 0xef then 2
      else if b == 0xf0 then 5
      else if 0xf1 <= b <= 0xf3 then 6
      else if b == 0xf4 then 7
      else REJECT
    case 1 => if Tail(b) then 0 else REJECT
    case 2 => if Tail(b) then 1 else REJECT
    case 3 => if 0xa0 <= b <= 0xbf then 1 else REJECT
    case 4 => if 0x80 <= b <= 0x9f then 1 else REJECT
    case 5 => if 0x90 <= b <= 0xbf then 2 else REJECT
    case 6 => if Tail(b) then 2 else REJECT
    case 7 => if 0x80 <= b <= 0x8f then 2 else REJECT
    case _ => REJECT
  }

  /** The classes that the table distinguishes. */
  function Class(b: byte): bv32 {
    if b < 0x80 then 0
    else if b <= 0x8f then 1
    else if b <= 0x9f then 7
    else if b <= 0xbf then 8
    else if b <= 0xc1 then 9
    else if b <= 0xdf then 2
    else if b == 0xe0 then 10
    else if b == 0xed then 4
    else if b <= 0xef then 3
    else if b == 0xf0 then 11
    else if b <= 0xf3 then 6
    else if b == 0xf4 then 5
    else 9
  }

  lemma CategoryIsClass(b: byte)
    ensures Category(b) == Class(b)
  {
  }

  function Row(state: bv32, class_: bv32): bv32
    requires state < 8
  {
    (StateInfo(class_ + 16) >> (state << 2)) & 0xf
  }

  lemma RowOfStart(b: byte)
    ensures Row(0, Class(b)) == Next(0, b)
  {
  }

  lemma RowOfOneLeft(b: byte)
    ensures Row(1, Class(b)) == Next(1, b)
  {
  }

  lemma LowRows(state: bv32, b: byte)
    requires 2 <= state < 4
    ensures Row(state, Class(b)) == Next(state, b)
  {
    var c := Class(b);
    if state == 2 { assert Row(2, c) == Next(2, b); }
    else { assert Row(3, c) == Next(3, b); }
  }

  lemma MiddleRows(state: bv32, b: byte)
    requires 4 <= state < 6
    ensures Row(state, Class(b)) == Next(state, b)
  {
    var c := Class(b);
    if state == 4 { assert Row(4, c) == Next(4, b); }
    else { assert Row(5, c) == Next(5, b); }
  }

  lemma HighRows(state: bv32, b: byte)
    requires 6 <= state < 8
    ensures Row(state, Class(b)) == Next(state, b)
  {
    var c := Class(b);
    if state == 6 { assert Row(6, c) == Next(6, b); }
    else { assert Row(7, c) == Next(7, b); }
  }

  /** What the table says, for every state and every byte. */
  lemma TableIsNext(state: bv32, b: byte, cp: bv32)
    requires state <= 8
    ensures Consume(state, b, cp).0 == Next(state, b)
  {
    CategoryIsClass(b);
    if state == 0 { RowOfStart(b); }
    else if state == 1 { RowOfOneLeft(b); }
    else if state < 4 { LowRows(state, b); }
    else if state < 6 { MiddleRows(state, b); }
    else if state < 8 { HighRows(state, b); }
  }

  /** The first byte of a character contributes its payload bits. */
  lemma FirstByte(b: byte, cp: bv32)
    ensures Next(START, b) == START ==> Consume(START, b, cp).1 == b
    ensures Next(START, b) == 1 ==> Consume(START, b, cp).1 == b & 0x1f
    ensures Next(START, b) in {2, 3, 4} ==> Consume(START, b, cp).1 == b & 0x0f
    ensures Next(START, b) in {5, 6, 7} ==> Consume(START, b, cp).1 == b & 0x07
  {
    CategoryIsClass(b);
  }

  // Running the automaton

  /** The state after a string, and the code points accumulated whenever the start state was reached. */
  datatype Run = Run(state: bv32, codes: seq<bv32>)

  function RunFrom(state: bv32, cp: bv32, s: seq<byte>): (r: Run)
    requires state <= 8
    ensures r.state <= 8
    decreases |s|
  {
    if s == [] then Run(state, [])
    else
      TableIsNext(state, s[0], cp);
      var (state1, cp1) := Consume(state, s[0], cp);
      var r := RunFrom(state1, cp1, s[1..]);
      Run(r.state, (if state1 == START then [cp1] else []) + r.codes)
  }

  lemma {:induction false} RejectStays(cp: bv32, s: seq<byte>)
    ensures RunFrom(REJECT, cp, s).state == REJECT
    decreases |s|
  {
    if s != [] {
      TableIsNext(REJECT, s[0], cp);
      RejectStays(Consume(REJECT, s[0], cp).1, s[1..]);
    }
  }

  /** In the start state the code point accumulated before does not matter. */
  lemma StartForgets(cp: bv32, cp1: bv32, s: seq<byte>)
    ensures RunFrom(START, cp, s) == RunFrom(START, cp1, s)
  {
  }

  /** One byte that leads neither to acceptance nor to rejection. */
  lemma Inside(state: bv32, cp: bv32, b: byte, rest: seq<byte>)
    requires state <= 8 && Next(state, b) != START
    ensures Consume(state, b, cp).0 == Next(state, b) <= 8
    ensures RunFrom(state, cp, [b] + rest) == RunFrom(Next(state, b), Consume(state, b, cp).1, rest)
  {
    TableIsNext(state, b, cp);
    OneByte(state, cp, b, rest);
  }

  lemma OneByte(state: bv32, cp: bv32, b: byte, rest: seq<byte>)
    requires state <= 8 && Consume(state, b, cp).0 != START && Consume(state, b, cp).0 <= 8
    ensures RunFrom(state, cp, [b] + rest) == RunFrom(Consume(state, b, cp).0, Consume(state, b, cp).1, rest)
  {
    assert ([b] + rest)[1..] == rest;
  }

  lemma Accepts(state: bv32, cp: bv32, b: byte, rest: seq<byte>)
    requires state <= 8 && Next(state, b) == START
    ensures var r := RunFrom(START, 0, rest);
            RunFrom(state, cp, [b] + rest) == Run(r.state, [Consume(state, b, cp).1] + r.codes)
  {
    TableIsNext(state, b, cp);
    assert ([b] + rest)[1..] == rest;
    StartForgets(Consume(state, b, cp).1, 0, rest);
  }

  function Shift(cp: bv32, b: byte): bv32 {
    (cp << 6) | (b & 0x3f)
  }

  lemma TailRun(cp: bv32, b: byte, rest: seq<byte>)
    requires Tail(b)
    ensures var r := RunFrom(START, 0, rest);
            RunFrom(1, cp, [b] + rest) == Run(r.state, [Shift(cp, b)] + r.codes)
  {
    Accepts(1, cp, b, rest);
  }

  lemma TwoTailsRun(cp: bv32, b: byte, c: byte, rest: seq<byte>)
    requires Tail(b) && Tail(c)
    ensures var r := RunFrom(START, 0, rest);
            RunFrom(2, cp, [b] + ([c] + rest)) == Run(r.state, [Shift(Shift(cp, b), c)] + r.codes)
  {
    Inside(2, cp, b, [c] + rest);
    TailRun(Shift(cp, b), c, rest);
  }

  lemma SecondByte(state: bv32, cp: bv32, b: byte, rest: seq<byte>)
    requires 2 <= state <= 7 && Next(state, b) in {1, 2}
    ensures RunFrom(state, cp, [b] + rest) == RunFrom(Next(state, b), Shift(cp, b), rest)
  {
    Inside(state, cp, b, rest);
  }

  lemma Char1Runs(a: byte, cp: bv32, rest: seq<byte>)
    requires IsChar([a])
    ensures var r := RunFrom(START, 0, rest);
            RunFrom(START, cp, [a] + rest) == Run(r.state, [CodePoint([a])] + r.codes)
  {
    FirstByte(a, cp);
    Accepts(START, cp, a, rest);
  }

  lemma Char2Runs(a: byte, b: byte, cp: bv32, rest: seq<byte>)
    requires IsChar([a, b])
    ensures var r := RunFrom(START, 0, rest);
            RunFrom(START, cp, [a] + ([b] + rest)) == Run(r.state, [CodePoint([a, b])] + r.codes)
  {
    FirstByte(a, cp);
    Inside(START, cp, a, [b] + rest);
    TailRun(a & 0x1f, b, rest);
  }

  /** The first two bytes of a longer character. */
  lemma Lead3Runs(a: byte, b: byte, cp: bv32, rest: seq<byte>)
    requires Next(START, a) in {2, 3, 4} && Next(Next(START, a), b) == 1
    ensures RunFrom(START, cp, [a] + ([b] + rest)) == RunFrom(1, Shift(a & 0x0f, b), rest)
  {
    FirstByte(a, cp);
    Inside(START, cp, a, [b] + rest);
    SecondByte(Next(START, a), a & 0x0f, b, rest);
  }

  lemma Lead4Runs(a: byte, b: byte, cp: bv32, rest: seq<byte>)
    requires Next(START, a) in {5, 6, 7} && Next(Next(START, a), b) == 2
    ensures RunFrom(START, cp, [a] + ([b] + rest)) == RunFrom(2, Shift(a & 0x07, b), rest)
  {
    FirstByte(a, cp);
    Inside(START, cp, a, [b] + rest);
    SecondByte(Next(START, a), a & 0x07, b, rest);
  }

  lemma Lead3(c: seq<byte>)
    requires IsChar(c) && |c| == 3
    ensures Next(START, c[0]) in {2, 3, 4} && Next(Next(START, c[0]), c[1]) == 1
  {
  }

  lemma Lead4(c: seq<byte>)
    requires IsChar(c) && |c| == 4
    ensures Next(START, c[0]) in {5, 6, 7} && Next(Next(START, c[0]), c[1]) == 2
  {
  }

  lemma Char3Runs(c: seq<byte>, cp: bv32, rest: seq<byte>)
    requires IsChar(c) && |c| == 3
    ensures var r := RunFrom(START, 0, rest);
            RunFrom(START, cp, [c[0]] + ([c[1]] + ([c[2]] + rest))) == Run(r.state, [CodePoint(c)] + r.codes)
  {
    Lead3(c);
    Lead3Runs(c[0], c[1], cp, [c[2]] + rest);
    TailRun(Shift(c[0] & 0x0f, c[1]), c[2], rest);
    ThreeBytes(c[0], c[1], c[2]);
  }

  lemma Char4Runs(c: seq<byte>, cp: bv32, rest: seq<byte>)
    requires IsChar(c) && |c| == 4
    ensures var r := RunFrom(START, 0, rest);
            RunFrom(START, cp, [c[0]] + ([c[1]] + ([c[2]] + ([c[3]] + rest)))) == Run(r.state, [CodePoint(c)] + r.codes)
  {
    Lead4(c);
    Lead4Runs(c[0], c[1], cp, [c[2]] + ([c[3]] + rest));
    TwoTailsRun(Shift(c[0] & 0x07, c[1]), c[2], c[3], rest);
    FourBytes(c[0], c[1], c[2], c[3]);
  }

  /** A character takes the automaton from the start state back to it, with its code point. */
  lemma CharRuns(c: seq<byte>, cp: bv32, rest: seq<byte>)
    requires IsChar(c)
    ensures var r := RunFrom(START, 0, rest);
            RunFrom(START, cp, c + rest) == Run(r.state, [CodePoint(c)] + r.codes)
  {
    if |c| == 1 {
      assert c == [c[0]];
      Char1Runs(c[0], cp, rest);
    } else if |c| == 2 {
      assert c == [c[0], c[1]] && c + rest == [c[0]] + ([c[1]] + rest);
      Char2Runs(c[0], c[1], cp, rest);
    } else if |c| == 3 {
      assert c + rest == [c[0]] + ([c[1]] + ([c[2]] + rest));
      Char3Runs(c, cp, rest);
    } else {
      assert c + rest == [c[0]] + ([c[1]] + ([c[2]] + ([c[3]] + rest)));
      Char4Runs(c, cp, rest);
    }
  }

  lemma ThreeBytes(a: byte, b: byte, c: byte)
    ensures ((((a & 0x0f) << 6) | (b & 0x3f)) << 6) | (c & 0x3f) == Join3(a, b, c)
  {
  }

  lemma FourBytes(a: byte, b: byte, c: byte, d: byte)
    ensures ((((((a & 0x07) << 6) | (b & 0x3f)) << 6) | (c & 0x3f)) << 6) | (d & 0x3f) == Join4(a, b, c, d)
  {
  }

  lemma {:induction false} CharsRun(cs: seq<seq<byte>>)
    requires AllChars(cs)
    ensures RunFrom(START, 0, Flatten(cs)) == Run(START, CodePoints(cs))
  {
    if cs != [] {
      CharRuns(cs[0], 0, Flatten(cs[1..]));
      CharsRun(cs[1..]);
      assert CodePoints(cs) == [CodePoint(cs[0])] + CodePoints(cs[1..]);
    }
  }

  // What an accepting run has read

  lemma Step(state: bv32, cp: bv32, s: seq<byte>)
    requires state <= 8 && s != []
    ensures Next(state, s[0]) <= 8
    ensures RunFrom(state, cp, s).state == RunFrom(Next(state, s[0]), Consume(state, s[0], cp).1, s[1..]).state
  {
    TableIsNext(state, s[0], cp);
  }

  /** What an accepted string consists of that starts with `n` bytes inside a character. */
  ghost predicate Rest(s: seq<byte>, n: nat) {
    n <= |s| && RunFrom(START, 0, s[n..]).state == START
  }

  lemma AfterOne(cp: bv32, s: seq<byte>)
    requires RunFrom(1, cp, s).state == START
    ensures s != [] && Tail(s[0]) && Rest(s, 1)
  {
    Step(1, cp, s);
    RejectStays(Consume(1, s[0], cp).1, s[1..]);
    StartForgets(Consume(1, s[0], cp).1, 0, s[1..]);
  }

  lemma AfterTwo(cp: bv32, s: seq<byte>)
    requires RunFrom(2, cp, s).state == START
    ensures |s| >= 2 && Tail(s[0]) && Tail(s[1]) && Rest(s, 2)
  {
    Step(2, cp, s);
    var cp1 := Consume(2, s[0], cp).1;
    RejectStays(cp1, s[1..]);
    AfterOne(cp1, s[1..]);
    assert s[1..][1..] == s[2..];
  }

  lemma AfterLead3(state: bv32, cp: bv32, s: seq<byte>)
    requires 3 <= state <= 4 && RunFrom(state, cp, s).state == START
    ensures |s| >= 2 && Next(state, s[0]) == 1 && Tail(s[1]) && Rest(s, 2)
  {
    Step(state, cp, s);
    var cp1 := Consume(state, s[0], cp).1;
    RejectStays(cp1, s[1..]);
    AfterOne(cp1, s[1..]);
    assert s[1..][1..] == s[2..];
  }

  lemma AfterLead4(state: bv32, cp: bv32, s: seq<byte>)
    requires 5 <= state <= 7 && RunFrom(state, cp, s).state == START
    ensures |s| >= 3 && Next(state, s[0]) == 2 && Tail(s[1]) && Tail(s[2]) && Rest(s, 3)
  {
    Step(state, cp, s);
    var cp1 := Consume(state, s[0], cp).1;
    RejectStays(cp1, s[1..]);
    AfterTwo(cp1, s[1..]);
    assert s[1..][2..] == s[3..];
  }

  /** The state after the first byte, from which the rest of the string is accepted. */
  ghost predicate Led(s: seq<byte>, state: bv32, cp: bv32) {
    s != [] && state == Next(START, s[0]) && RunFrom(state, cp, s[1..]).state == START
  }

  lemma FirstOne(s: seq<byte>, cp: bv32)
    requires Led(s, START, cp)
    ensures IsChar(s[..1]) && Rest(s, 1)
  {
    StartForgets(cp, 0, s[1..]);
  }

  lemma FirstTwo(s: seq<byte>, cp: bv32)
    requires Led(s, 1, cp)
    ensures |s| >= 2 && IsChar(s[..2]) && Rest(s, 2)
  {
    AfterOne(cp, s[1..]);
    assert s[1..][1..] == s[2..];
  }

  lemma FirstThree(s: seq<byte>, state: bv32, cp: bv32)
    requires Led(s, state, cp) && 2 <= state <= 4
    ensures |s| >= 3 && IsChar(s[..3]) && Rest(s, 3)
  {
    if state == 2 { AfterTwo(cp, s[1..]); } else { AfterLead3(state, cp, s[1..]); }
    assert s[1..][2..] == s[3..];
  }

  lemma FirstFour(s: seq<byte>, state: bv32, cp: bv32)
    requires Led(s, state, cp) && 5 <= state <= 7
    ensures |s| >= 4 && IsChar(s[..4]) && Rest(s, 4)
  {
    AfterLead4(state, cp, s[1..]);
    assert s[1..][3..] == s[4..];
  }

  /** An accepted string starts with a character, and its rest is accepted. */
  lemma FirstChar(s: seq<byte>) returns (n: nat)
    requires s != [] && RunFrom(START, 0, s).state == START
    ensures 1 <= n <= |s| && IsChar(s[..n]) && Rest(s, n)
  {
    Step(START, 0, s);
    var state := Next(START, s[0]);
    var cp := Consume(START, s[0], 0).1;
    RejectStays(cp, s[1..]);
    if state == START {
      FirstOne(s, cp);
      n := 1;
    } else if state == 1 {
      FirstTwo(s, cp);
      n := 2;
    } else if state <= 4 {
      FirstThree(s, state, cp);
      n := 3;
    } else {
      FirstFour(s, state, cp);
      n := 4;
    }
  }

  lemma FirstOf(c: seq<byte>, cs: seq<seq<byte>>)
    requires IsChar(c) && AllChars(cs)
    ensures AllChars([c] + cs) && Flatten([c] + cs) == c + Flatten(cs)
  {
    assert ([c] + cs)[1..] == cs;
  }

  lemma {:induction false} AcceptedIsUtf8(s: seq<byte>) returns (cs: seq<seq<byte>>)
    requires RunFrom(START, 0, s).state == START
    ensures AllChars(cs) && Flatten(cs) == s
    decreases |s|
  {
    if s == [] {
      cs := [];
    } else {
      var n := FirstChar(s);
      var tail := AcceptedIsUtf8(s[n..]);
      cs := [s[..n]] + tail;
      FirstOf(s[..n], tail);
      assert s == s[..n] + s[n..];
    }
  }

  /** Main result: the automaton accepts exactly the strings of the grammar. */
  lemma AcceptsExactlyUtf8(s: seq<byte>)
    ensures RunFrom(START, 0, s).state == START <==> Utf8(s)
  {
    if RunFrom(START, 0, s).state == START {
      var cs := AcceptedIsUtf8(s);
    }
    if Utf8(s) {
      var cs :| AllChars(cs) && Flatten(cs) == s;
      CharsRun(cs);
    }
  }

  /** `validUtf8`. */
  method ValidUtf8(s: seq<byte>) returns (valid: bool)
    ensures valid <==> Utf8(s)
  {
    AcceptsExactlyUtf8(s);
    var state, cp := START, 0 as bv32;
    var i := 0;
    while i < |s|
      invariant i <= |s| && state < 8
      invariant RunFrom(START, 0, s).state == RunFrom(state, cp, s[i..]).state
    {
      Step(state, cp, s[i..]);
      TableIsNext(state, s[i], cp);
      var next := Consume(state, s[i], cp);
      RejectStays(next.1, s[i + 1..]);
      assert s[i..][1..] == s[i + 1..];
      state, cp := next.0, next.1;
      if state == REJECT {
        return false;
      }
      i := i + 1;
    }
    return state == START;
  }
}
