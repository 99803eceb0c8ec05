/** What the UTF-8 transcoders make of ill-formed input: U+FFFD for each broken piece, and what that piece is. */
module Utf8Repair {
  import opened Utf8Automaton
  import opened Transcoders

  /** The second byte of a character of three or four bytes. */
  predicate Second(a: byte, b: byte) {
    && Tail(b)
    && (a == 0xe0 ==> 0xa0 <= b) && (a == 0xed ==> b <= 0x9f) && (a == 0xf0 ==> 0x90 <= b) && (a == 0xf4 ==> b <= 0x8f)
  }

  /** A character of the grammar begins like this, and goes on. */
  predicate Begins(p: seq<byte>) {
    || (|p| == 1 && 0xc2 <= p[0] <= 0xf4)
    || (|p| == 2 && 0xe0 <= p[0] <= 0xf4 && Second(p[0], p[1]))
    || (|p| == 3 && 0xf0 <= p[0] <= 0xf4 && Second(p[0], p[1]) && Tail(p[2]))
  }

  /** The bytes that finish the beginning of a character. */
  function Rest(p: seq<byte>): (r: seq<byte>)
    requires Begins(p)
    ensures r != [] && IsChar(p + r)
  {
    if |p| == 1 then
      if p[0] <= 0xdf then [0x80]
      else
        var b: byte := if p[0] == 0xe0 then 0xa0 else if p[0] == 0xf0 then 0x90 else 0x80;
        if p[0] <= 0xef then [b, 0x80] else [b, 0x80, 0x80]
    else if |p| == 2 && p[0] > 0xef then [0x80, 0x80]
    else [0x80]
  }

  lemma CharBegins(c: seq<byte>, k: nat)
    requires IsChar(c) && 0 < k < |c|
    ensures Begins(c[..k])
  {
  }

  /** That is so exactly if it is the start of a character, without its end. */
  lemma BeginsExactly(p: seq<byte>)
    ensures Begins(p) <==> p != [] && exists c :: IsChar(c) && |p| < |c| && c[..|p|] == p
  {
    if Begins(p) {
      assert IsChar(p + Rest(p)) && (p + Rest(p))[..|p|] == p;
    }
    if p != [] && exists c :: IsChar(c) && |p| < |c| && c[..|p|] == p {
      var c :| IsChar(c) && |p| < |c| && c[..|p|] == p;
      CharBegins(c, |p|);
    }
  }

  /** The state in the middle of a character. */
  function StateOf(p: seq<byte>): (state: bv32)
    requires Begins(p)
    ensures 1 <= state <= 7
  {
    if |p| == 1 then Next(START, p[0])
    else if |p| == 2 then if p[0] <= 0xef then 1 else 2
    else 1
  }

  /** One byte more: the character ends, it goes on, or there is none. */
  lemma OneMore(p: seq<byte>, b: byte)
    requires p == [] || Begins(p)
    ensures var state := if p == [] then START else StateOf(p);
            && (IsChar(p + [b]) <==> Next(state, b) == START)
            && (Begins(p + [b]) <==> 1 <= Next(state, b) <= 7)
            && (Begins(p + [b]) ==> Next(state, b) == StateOf(p + [b]))
  {
  }

  // Reading pieces

  lemma Joined(p: seq<byte>, rest: seq<byte>)
    requires p != []
    ensures p + rest == p[..|p| - 1] + ([p[|p| - 1]] + rest)
  {
  }

  lemma ShorterBegins(p: seq<byte>)
    requires Begins(p)
    ensures p[..|p| - 1] == [] || Begins(p[..|p| - 1])
  {
  }

  /** The bits read so far. */
  function BitsOf(p: seq<byte>): bv32
    requires Begins(p)
  {
    if |p| == 1 then Consume(START, p[0], 0).1
    else
      ShorterBegins(p);
      Consume(StateOf(p[..|p| - 1]), p[|p| - 1], BitsOf(p[..|p| - 1])).1
  }

  lemma ByteRead(state: bv32, cp: bv32, b: byte, rest: seq<byte>)
    requires state <= 7 && 1 <= Next(state, b) <= 7
    ensures FromWide(state, cp, [b] + rest) == FromWide(Next(state, b), Consume(state, b, cp).1, rest)
  {
    WideStep(state, cp, b, rest);
    TableIsNext(state, b, cp);
  }

  /** Reading the beginning of a character leads to its state. */
  lemma {:induction false} BeginRead(p: seq<byte>, rest: seq<byte>)
    requires Begins(p)
    ensures FromWide(START, 0, p + rest) == FromWide(StateOf(p), BitsOf(p), rest)
    decreases |p|
  {
    var q, b := p[..|p| - 1], p[|p| - 1];
    Joined(p, rest);
    assert q + [b] == p;
    ShorterBegins(p);
    OneMore(q, b);
    if q == [] {
      assert q + ([b] + rest) == [b] + rest;
      ByteRead(START, 0, b, rest);
    } else {
      BeginRead(q, [b] + rest);
      ByteRead(StateOf(q), BitsOf(q), b, rest);
    }
  }

  /** A string that ends in the middle of a character: one replacement for its beginning. */
  lemma TruncatedRead(p: seq<byte>)
    requires Begins(p)
    ensures FromWide(START, 0, p) == [0xfffd]
  {
    BeginRead(p, []);
    assert p + [] == p;
  }

  lemma Rejected(state: bv32, cp: bv32, b: byte, rest: seq<byte>)
    requires state <= 7 && Next(state, b) == REJECT
    ensures FromWide(state, cp, [b] + rest) == [0xfffd] + FromWide(START, 0, rest)
  {
    WideStep(state, cp, b, rest);
    TableIsNext(state, b, cp);
  }

  lemma NextBounded(state: bv32, b: byte)
    ensures Next(state, b) <= 8
  {
  }

  /**
   * A byte that neither ends nor continues a character: one replacement for it and the beginning before it,
   * and reading starts anew behind it.
   */
  lemma BrokenRead(p: seq<byte>, b: byte, rest: seq<byte>)
    requires (p == [] || Begins(p)) && !IsChar(p + [b]) && !Begins(p + [b])
    ensures FromWide(START, 0, p + [b] + rest) == [0xfffd] + FromWide(START, 0, rest)
  {
    OneMore(p, b);
    assert p + [b] + rest == p + ([b] + rest);
    if p == [] {
      NextBounded(START, b);
      assert p + ([b] + rest) == [b] + rest;
      Rejected(START, 0, b, rest);
    } else {
      NextBounded(StateOf(p), b);
      BeginRead(p, [b] + rest);
      Rejected(StateOf(p), BitsOf(p), b, rest);
    }
  }

  lemma Ended(state: bv32, cp: bv32, b: byte, rest: seq<byte>)
    requires state <= 7 && Next(state, b) == START
    ensures FromWide(state, cp, [b] + rest) == [Consume(state, b, cp).1] + FromWide(START, 0, rest)
  {
    WideStep(state, cp, b, rest);
    TableIsNext(state, b, cp);
  }

  /** The code point at the end of a character. */
  function CodeOf(c: seq<byte>): bv32
    requires IsChar(c)
  {
    if |c| == 1 then Consume(START, c[0], 0).1
    else
      CharBegins(c, |c| - 1);
      Consume(StateOf(c[..|c| - 1]), c[|c| - 1], BitsOf(c[..|c| - 1])).1
  }

  lemma CharThen(c: seq<byte>, rest: seq<byte>)
    requires IsChar(c)
    ensures FromWide(START, 0, c + rest) == [CodeOf(c)] + FromWide(START, 0, rest)
  {
    var p, b := c[..|c| - 1], c[|c| - 1];
    Joined(c, rest);
    assert p + [b] == c;
    if p == [] {
      OneMore(p, b);
      assert p + ([b] + rest) == [b] + rest;
      Ended(START, 0, b, rest);
    } else {
      CharBegins(c, |p|);
      OneMore(p, b);
      BeginRead(p, [b] + rest);
      Ended(StateOf(p), BitsOf(p), b, rest);
    }
  }

  /** A character, wherever it stands. */
  lemma CharRead(c: seq<byte>, rest: seq<byte>)
    requires IsChar(c)
    ensures FromWide(START, 0, c + rest) == [CodePoint(c)] + FromWide(START, 0, rest)
  {
    CharThen(c, rest);
    CharThen(c, []);
    CharAlone(c);
    assert c + [] == c && [CodeOf(c)] + FromWide(START, 0, []) == [CodeOf(c)];
  }

  lemma CharAlone(c: seq<byte>)
    requires IsChar(c)
    ensures FromWide(START, 0, c) == [CodePoint(c)]
  {
    assert AllChars([c]) && [c][1..] == [] && c + [] == c;
    assert Flatten([c]) == c + Flatten([]);
    FromWideOfChars([c]);
    assert CodePoints([c]) == [CodePoint(c)];
  }

  /** A piece that is replaced: the beginning of a character, and a byte that does not go on with it. */
  predicate Broken(s: seq<byte>, j: nat) {
    && j < |s| && (j == 0 || Begins(s[..j]))
    && !IsChar(s[..j + 1]) && !Begins(s[..j + 1])
  }

  /** These are all cases: nothing, the beginning of a character, or a character or a broken piece and what follows. */
  lemma {:induction false} PiecesCover(s: seq<byte>, k: nat)
    requires k <= |s| && (k == 0 || Begins(s[..k]))
    ensures s == [] || Begins(s) || (exists j :: 0 < j <= |s| && IsChar(s[..j])) || (exists j :: Broken(s, j))
    decreases |s| - k
  {
    assert s[..|s|] == s;
    if k < |s| {
      if Begins(s[..k + 1]) {
        PiecesCover(s, k + 1);
      } else if !IsChar(s[..k + 1]) {
        assert Broken(s, k);
      }
    }
  }

  // The same for 2-byte strings, and the other direction

  lemma NarrowBroken(p: seq<byte>, b: byte, rest: seq<byte>)
    requires (p == [] || Begins(p)) && !IsChar(p + [b]) && !Begins(p + [b])
    ensures FromNarrow(START, 0, p + [b] + rest) == [0xfffd] + FromNarrow(START, 0, rest)
  {
    BrokenRead(p, b, rest);
    NarrowIsWide(START, 0, p + [b] + rest);
    NarrowIsWide(START, 0, rest);
    UnitsOfOne(0xfffd, FromWide(START, 0, rest));
  }

  lemma NarrowTruncated(p: seq<byte>)
    requires Begins(p)
    ensures FromNarrow(START, 0, p) == [0xfffd]
  {
    TruncatedRead(p);
    NarrowIsWide(START, 0, p);
    UnitsOfOne(0xfffd, []);
  }

  lemma ReplacementBytes()
    ensures Append(0xfffd) == [0xef, 0xbf, 0xbd]
  {
  }

  /** `toUtf8` of something that is no scalar value: the three bytes of U+FFFD. */
  lemma NoScalarWritten(u: bv32, us: seq<bv32>)
    requires !Scalar(u)
    ensures ToWide([u] + us) == [0xef, 0xbf, 0xbd] + ToWide(us)
  {
    AppendOne(u, us);
    ReplacementBytes();
  }

  /** There and back, one U+FFFD stands for every one of them. */
  lemma RoundTripRepairs(us: seq<bv32>)
    ensures var back := FromWide(START, 0, ToWide(us));
            |back| == |us| && forall k :: 0 <= k < |us| ==> back[k] == if Scalar(us[k]) then us[k] else 0xfffd
  {
    WideRoundTrip(us);
  }

  /** A surrogate without its partner, with the unit behind it. */
  lemma LoneSurrogateWritten(a: unit, b: unit, rest: seq<unit>)
    requires 0xd800 <= a <= 0xdfff && !(a <= 0xdbff && 0xdc00 <= b <= 0xdfff)
    ensures ToNarrow([a, b] + rest) == [0xef, 0xbf, 0xbd] + ToNarrow(rest) && ToNarrow([a]) == [0xef, 0xbf, 0xbd]
  {
    SurrogateTests(a);
    SurrogateTests(b);
    assert ([a, b] + rest)[2..] == rest;
    AppendOne(0xfffd, Decode(rest));
    AppendOne(0xfffd, []);
    ReplacementBytes();
  }
}
