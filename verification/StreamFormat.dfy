/** The characters of a serializer stream, in the binary mode and in the three text modes. */
module StreamFormat {
  import opened ObjectGraph
  import opened ByteCoding

  /** A stream that is being read: the characters not yet read, and the values read so far. */
  datatype Stream = Stream(chars: string, seen: seq<Token>)

  /** `sizeof` of the type of a variable that is not a string. */
  function Width(q: Want): nat {
    match q
    case WantKind => 4
    case WantAddress => 8
    case WantStr => 8
    case WantNum(width) => width
  }

  /** `isspace` of the C locale: the blank, and the characters from the tabulator to the carriage return. */
  predicate Space(c: char) {
    c == ' ' || '\t' <= c <= '\r'
  }

  predicate IsWord(w: string) {
    w != "" && forall k :: 0 <= k < |w| ==> !Space(w[k])
  }

  /** In binary mode a value has the size of its type, in the text modes it is printed without white space. */
  ghost predicate CodeOk(env: Env) {
    forall t: Token :: !t.Str? ==>
      if env.Binary() then |env.code.form(t)| == Width(WantOf(t)) else IsWord(env.code.form(t))
  }

  // Writing

  function Written(env: Env, t: Token): string {
    if t.Str? then
      if env.Binary() then Chars(Encode(|t.s|, 8)) + t.s else ['"'] + t.s + ['"', '\n']
    else
      if env.Binary() then env.code.form(t) else env.code.form(t) + ['\n']
  }

  function WrittenAll(env: Env, toks: seq<Token>): string {
    if toks == [] then "" else Written(env, toks[0]) + WrittenAll(env, toks[1..])
  }

  // Reading

  /** The position of the first quote, or the length. */
  function FindQuote(s: string): (k: nat)
    ensures k <= |s| && (forall j :: 0 <= j < k ==> s[j] != '"') && (k < |s| ==> s[k] == '"')
  {
    if s == "" then 0 else if s[0] == '"' then 0 else 1 + FindQuote(s[1..])
  }

  /** Leading white space that `operator>>` skips. */
  function Skip(s: string): (k: nat)
    ensures k <= |s| && (forall j :: 0 <= j < k ==> Space(s[j])) && (k < |s| ==> !Space(s[k]))
  {
    if s == "" || !Space(s[0]) then 0 else 1 + Skip(s[1..])
  }

  function WordLength(s: string): (k: nat)
    ensures k <= |s| && (forall j :: 0 <= j < k ==> !Space(s[j])) && (k < |s| ==> Space(s[k]))
  {
    if s == "" || Space(s[0]) then 0 else 1 + WordLength(s[1..])
  }

  /** Text modes: `getline` up to a quote, twice. */
  function ReadQuoted(s: string): (r: Option<(string, string)>)
    ensures r.Some? ==> |r.value.1| < |s|
  {
    var open := FindQuote(s);
    if open == |s| then None
    else
      var t := s[open + 1..];
      var close := FindQuote(t);
      if close == |t| then None else Some((t[..close], t[close + 1..]))
  }

  function ReadWord(s: string): (r: Option<(string, string)>)
    ensures r.Some? ==> |r.value.1| < |s|
  {
    var t := s[Skip(s)..];
    var k := WordLength(t);
    if k == 0 then None else Some((t[..k], t[k..]))
  }

  function ReadCounted(s: string): (r: Option<(string, string)>)
    ensures r.Some? ==> |r.value.1| < |s|
  {
    if |s| < 8 then None
    else
      var n := Decode(Bytes(s[..8]));
      if |s| - 8 < n then None else Some((s[8..8 + n], s[8 + n..]))
  }

  function ReadBytes(s: string, size: nat): Option<(string, string)> {
    if |s| < size then None else Some((s[..size], s[size..]))
  }

  /** One `read` into a variable of the wanted type. */
  function Next(env: Env, q: Want, s: Stream): (r: Option<(Token, Stream)>)
    ensures r.Some? ==>
      && WantOf(r.value.0) == q && r.value.1.seen == s.seen + [r.value.0]
      && |r.value.1.chars| <= |s.chars| && (!q.WantNum? ==> |r.value.1.chars| < |s.chars|)
  {
    if q.WantStr? then
      match if env.Binary() then ReadCounted(s.chars) else ReadQuoted(s.chars)
      case None => None
      case Some((t, rest)) => Some((Str(t), Stream(rest, s.seen + [Str(t)])))
    else
      match ReadValue(env, q, s.chars)
      case None => None
      case Some((t, rest)) => Some((t, Stream(rest, s.seen + [t])))
  }

  function ReadValue(env: Env, q: Want, s: string): (r: Option<(Token, string)>)
    ensures r.Some? ==>
      WantOf(r.value.0) == q && |r.value.1| <= |s| && (!q.WantNum? ==> |r.value.1| < |s|)
  {
    match if env.Binary() then ReadBytes(s, Width(q)) else ReadWord(s)
    case None => None
    case Some((w, rest)) =>
      match env.code.scan(q, w)
      case None => None
      case Some(t) => if WantOf(t) == q then Some((t, rest)) else None
  }

  /** The stream after reading values of the kinds of `toks`, none unless they are `toks`. */
  function After(env: Env, s: Stream, toks: seq<Token>): (r: Option<Stream>)
    ensures r.Some? ==> r.value.seen == s.seen + toks
    decreases |toks|
  {
    if toks == [] then Some(s)
    else
      match Next(env, WantOf(toks[0]), s)
      case None => None
      case Some((t, s1)) => if t == toks[0] then After(env, s1, toks[1..]) else None
  }

  lemma {:induction false} AfterConcat(env: Env, s: Stream, a: seq<Token>, b: seq<Token>)
    ensures After(env, s, a + b) ==
      match After(env, s, a)
      case None => None
      case Some(m) => After(env, m, b)
    decreases |a|
  {
    if a == [] {
      assert a + b == b;
    } else {
      assert (a + b)[1..] == a[1..] + b;
      match Next(env, WantOf(a[0]), s)
      case None =>
      case Some((t, s1)) => if t == a[0] { AfterConcat(env, s1, a[1..], b); }
    }
  }

  // What is read back

  /** A value that comes back as it was written. */
  predicate Readable(env: Env, t: Token) {
    if t.Str? then if env.Binary() then |t.s| < Power(8) else '"' !in t.s
    else env.code.scan(WantOf(t), env.code.form(t)) == Some(t)
  }

  predicate AllReadable(env: Env, toks: seq<Token>) {
    forall k :: 0 <= k < |toks| ==> Readable(env, toks[k])
  }

  /** White space left over by the previous read. */
  predicate Blank(pre: string) {
    forall k :: 0 <= k < |pre| ==> Space(pre[k])
  }

  lemma QuoteAt(s: string, k: nat)
    requires k < |s| && s[k] == '"' && forall j :: 0 <= j < k ==> s[j] != '"'
    ensures FindQuote(s) == k
  {
  }

  lemma CountedIs(s: string, n: nat)
    requires |s| >= 8 && Decode(Bytes(s[..8])) == n
    ensures ReadCounted(s) == if |s| - 8 < n then None else Some((s[8..8 + n], s[8 + n..]))
  {
  }

  /** In binary mode a string comes back unless its length does not fit the size field. */
  lemma CountedBack(t: string, rest: string)
    ensures var r := ReadCounted(Chars(Encode(|t|, 8)) + t + rest);
            if |t| < Power(8) then r == Some((t, rest)) else r.Some? ==> r.value.0 != t
  {
    var s := Chars(Encode(|t|, 8)) + (t + rest);
    assert Chars(Encode(|t|, 8)) + t + rest == s;
    CountRead(|t|, t + rest);
    CountedIs(s, Decode(Bytes(s[..8])));
    if |t| < Power(8) { CountedTail(Chars(Encode(|t|, 8)), t, rest); }
  }

  lemma CountedTail(head: string, t: string, rest: string)
    requires |head| == 8
    ensures var s := head + (t + rest); s[8..8 + |t|] == t && s[8 + |t|..] == rest
  {
  }

  lemma CountRead(n: nat, rest: string)
    ensures var s := Chars(Encode(n, 8)) + rest;
            |s| >= 8 && Decode(Bytes(s[..8])) < Power(8) && (n < Power(8) ==> Decode(Bytes(s[..8])) == n)
  {
    var s := Chars(Encode(n, 8)) + rest;
    assert s[..8] == Chars(Encode(n, 8));
    BytesOfChars(Encode(n, 8));
    DecodeInRange(Encode(n, 8));
    if n < Power(8) { DecodeEncoded(n, 8); }
  }

  lemma QuotedBack(pre: string, t: string, tail: string)
    requires '"' !in pre && '"' !in t
    ensures ReadQuoted(pre + ['"'] + t + ['"'] + tail) == Some((t, tail))
  {
    var s := pre + ['"'] + t + ['"'] + tail;
    QuoteAt(s, |pre|);
    var u := s[|pre| + 1..];
    assert u == t + ['"'] + tail;
    QuoteAt(u, |t|);
    assert u[..|t|] == t && u[|t| + 1..] == tail;
  }

  lemma TextBack(t: string, pre: string, rest: string)
    requires Blank(pre)
    ensures var r := ReadQuoted(pre + (['"'] + t + ['"', '\n']) + rest);
            && r.Some?
            && ('"' !in t ==> r.value == (t, ['\n'] + rest))
            && ('"' in t ==> r.value.0 != t)
  {
    var s := pre + (['"'] + t + ['"', '\n']) + rest;
    var k := FindQuote(t);
    if k == |t| {
      assert s == pre + ['"'] + t + ['"'] + (['\n'] + rest);
      QuotedBack(pre, t, ['\n'] + rest);
    } else {
      var tail := t[k + 1..] + ['"', '\n'] + rest;
      assert s == pre + ['"'] + t[..k] + ['"'] + tail;
      QuotedBack(pre, t[..k], tail);
    }
  }

  lemma SkipIs(s: string, k: nat)
    requires k < |s| && Blank(s[..k]) && !Space(s[k])
    ensures Skip(s) == k
  {
    assert forall j :: 0 <= j < k ==> s[..k][j] == s[j];
  }

  lemma WordBack(w: string, pre: string, rest: string)
    requires Blank(pre) && IsWord(w)
    ensures ReadWord(pre + (w + ['\n']) + rest) == Some((w, ['\n'] + rest))
  {
    var s := pre + (w + ['\n']) + rest;
    var t := s[|pre|..];
    assert t == w + (['\n'] + rest);
    assert s[..|pre|] == pre && s[|pre|] == w[0];
    SkipIs(s, |pre|);
    assert t[|w|] == '\n';
    assert WordLength(t) == |w|;
    assert t[..|w|] == w && t[|w|..] == ['\n'] + rest;
  }

  /** What the text modes leave before the next value. */
  function Left(env: Env): string {
    if env.Binary() then "" else ['\n']
  }

  /** A value comes back exactly when it is readable. */
  lemma NextWritten(env: Env, t: Token, pre: string, rest: string, seen: seq<Token>)
    requires CodeOk(env) && Blank(pre) && (env.Binary() ==> pre == "")
    ensures var r := Next(env, WantOf(t), Stream(pre + Written(env, t) + rest, seen));
            if Readable(env, t) then r == Some((t, Stream(Left(env) + rest, seen + [t])))
            else r.Some? ==> r.value.0 != t
  {
    if t.Str? {
      if env.Binary() {
        assert pre + Written(env, t) + rest == Chars(Encode(|t.s|, 8)) + t.s + rest && Left(env) + rest == rest;
        CountedBack(t.s, rest);
      } else {
        TextBack(t.s, pre, rest);
      }
    } else {
      ValueWritten(env, t, pre, rest);
    }
  }

  lemma ValueWritten(env: Env, t: Token, pre: string, rest: string)
    requires CodeOk(env) && Blank(pre) && (env.Binary() ==> pre == "") && !t.Str?
    ensures var r := ReadValue(env, WantOf(t), pre + Written(env, t) + rest);
            if Readable(env, t) then r == Some((t, Left(env) + rest)) else r.Some? ==> r.value.0 != t
  {
    var w := env.code.form(t);
    if env.Binary() {
      var s := pre + Written(env, t) + rest;
      assert s == w + rest && s[..|w|] == w && s[|w|..] == rest && Left(env) + rest == rest;
    } else {
      WordBack(w, pre, rest);
    }
  }

  lemma Regrouped<T>(a: seq<T>, b: seq<T>, c: seq<T>)
    ensures a + b + c == a + (b + c)
  {
  }

  lemma FirstWritten(env: Env, toks: seq<Token>, pre: string, rest: string)
    requires toks != []
    ensures pre + WrittenAll(env, toks) + rest == pre + Written(env, toks[0]) + (WrittenAll(env, toks[1..]) + rest)
  {
    Regrouped(pre, Written(env, toks[0]), WrittenAll(env, toks[1..]));
    Regrouped(pre + Written(env, toks[0]), WrittenAll(env, toks[1..]), rest);
  }

  /** The first value of a stream. */
  lemma FirstBack(env: Env, toks: seq<Token>, pre: string, rest: string, seen: seq<Token>)
    requires CodeOk(env) && Blank(pre) && (env.Binary() ==> pre == "") && toks != []
    ensures After(env, Stream(pre + WrittenAll(env, toks) + rest, seen), toks) ==
            if Readable(env, toks[0])
            then After(env, Stream(Left(env) + WrittenAll(env, toks[1..]) + rest, seen + [toks[0]]), toks[1..])
            else None
  {
    var tail := WrittenAll(env, toks[1..]) + rest;
    FirstWritten(env, toks, pre, rest);
    NextWritten(env, toks[0], pre, tail, seen);
    Regrouped(Left(env), WrittenAll(env, toks[1..]), rest);
    var s := Stream(pre + WrittenAll(env, toks) + rest, seen);
    if Readable(env, toks[0]) {
      AfterFirst(env, s, toks, Stream(Left(env) + tail, seen + [toks[0]]));
    } else {
      NotAfterFirst(env, s, toks);
    }
  }

  /** Main result: a whole stream comes back, whatever follows it, exactly when each of its values is readable. */
  lemma {:induction false} AfterWritten(env: Env, toks: seq<Token>, pre: string, rest: string, seen: seq<Token>)
    requires CodeOk(env) && Blank(pre) && (env.Binary() ==> pre == "")
    ensures After(env, Stream(pre + WrittenAll(env, toks) + rest, seen), toks) ==
            if AllReadable(env, toks) then Some(Stream((if toks == [] then pre else Left(env)) + rest, seen + toks))
            else None
    decreases |toks|
  {
    if toks == [] {
      NothingWritten(env, pre, rest, seen);
    } else {
      FirstBack(env, toks, pre, rest, seen);
      if Readable(env, toks[0]) {
        AfterWritten(env, toks[1..], Left(env), rest, seen + [toks[0]]);
        SeenThen(seen, toks);
        ReadableTail(env, toks);
      } else {
        assert !AllReadable(env, toks);
      }
    }
  }

  lemma NothingWritten(env: Env, pre: string, rest: string, seen: seq<Token>)
    ensures After(env, Stream(pre + WrittenAll(env, []) + rest, seen), []) == Some(Stream(pre + rest, seen + []))
  {
    assert pre + WrittenAll(env, []) == pre && seen + [] == seen;
  }

  lemma SeenThen(seen: seq<Token>, toks: seq<Token>)
    requires toks != []
    ensures seen + [toks[0]] + toks[1..] == seen + toks
  {
  }

  lemma NotAfterFirst(env: Env, s: Stream, toks: seq<Token>)
    requires toks != [] && var r := Next(env, WantOf(toks[0]), s); r.Some? ==> r.value.0 != toks[0]
    ensures After(env, s, toks) == None
  {
  }

  lemma AfterFirst(env: Env, s: Stream, toks: seq<Token>, s1: Stream)
    requires toks != [] && Next(env, WantOf(toks[0]), s) == Some((toks[0], s1))
    ensures After(env, s, toks) == After(env, s1, toks[1..])
  {
  }

  lemma ReadableTail(env: Env, toks: seq<Token>)
    requires toks != [] && Readable(env, toks[0])
    ensures AllReadable(env, toks) <==> AllReadable(env, toks[1..])
  {
    assert forall k :: 0 <= k < |toks| - 1 ==> toks[1..][k] == toks[k + 1];
    if AllReadable(env, toks[1..]) {
      forall k | 0 <= k < |toks| ensures Readable(env, toks[k]) {
        if k > 0 { assert Readable(env, toks[1..][k - 1]); }
      }
    }
  }

  /** Every number of the stream is one that the current mode represents exactly, and every length fits its field. */
  predicate Exact(env: Env, toks: seq<Token>) {
    forall k :: 0 <= k < |toks| ==> if toks[k].Str? then |toks[k].s| < Power(8) else Readable(env, toks[k])
  }

  predicate QuoteFree(toks: seq<Token>) {
    forall k :: 0 <= k < |toks| && toks[k].Str? ==> '"' !in toks[k].s
  }

  /** Then it is the quotes alone that matter, and only in the text modes. */
  lemma ReadableExactly(env: Env, toks: seq<Token>)
    requires Exact(env, toks)
    ensures AllReadable(env, toks) <==> env.Binary() || QuoteFree(toks)
  {
    if !env.Binary() && AllReadable(env, toks) {
      forall k | 0 <= k < |toks| && toks[k].Str? ensures '"' !in toks[k].s {
        assert Readable(env, toks[k]);
      }
    }
  }
}
