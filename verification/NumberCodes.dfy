/** How numbers are put on the stream: as bytes in the binary mode, in decimal in the text modes. */
module NumberCodes {
  import opened ObjectGraph
  import opened ByteCoding
  import opened Decimals
  import opened StreamFormat
  import opened Readability

  /** The bytes of unsigned numbers, a code for the binary mode. */
  function ByteForm(t: Token): string {
    Chars(match t
          case Kind(k) => Encode(k, 4)
          case Address(a) => Encode(a, 8)
          case Num(width, n) => Encode(if n < 0 then 0 else n, width)
          case Str(_) => [])
  }

  function ByteScan(q: Want, w: string): Option<Token> {
    var n := Decode(Bytes(w));
    match q
    case WantKind => Some(Kind(n))
    case WantAddress => Some(Address(n))
    case WantNum(width) => Some(Num(width, n))
    case WantStr => None
  }

  /** It is exact for every number that fits its type. */
  lemma BytesAreReadable(env: Env, t: Token)
    requires env.Binary() && env.code == NumberCode(ByteForm, ByteScan)
    requires match t
             case Kind(k) => k < Power(4)
             case Address(a) => a < Power(8)
             case Num(width, n) => 0 <= n < Power(width)
             case Str(s) => |s| < Power(8)
    ensures CodeOk(env) && Readable(env, t)
  {
    match t
    case Kind(k) => DecodeEncoded(k, 4); BytesOfChars(Encode(k, 4));
    case Address(a) => DecodeEncoded(a, 8); BytesOfChars(Encode(a, 8));
    case Num(width, n) => DecodeEncoded(n, width); BytesOfChars(Encode(n, width));
    case Str(_) =>
  }

  function DecimalForm(t: Token): string {
    match t
    case Kind(k) => Signed(k)
    case Address(a) => Signed(a)
    case Num(_, n) => Signed(n)
    case Str(_) => ""
  }

  function DecimalScan(q: Want, w: string): Option<Token> {
    var n := Unsigned(w);
    match q
    case WantKind => if n < 0 then None else Some(Kind(n))
    case WantAddress => if n < 0 then None else Some(Address(n))
    case WantNum(width) => Some(Num(width, n))
    case WantStr => None
  }

  /** In decimal every integer comes back in the text modes. */
  lemma DecimalsAreReadable(env: Env, t: Token)
    requires !env.Binary() && env.code == NumberCode(DecimalForm, DecimalScan) && !t.Str?
    ensures CodeOk(env) && Readable(env, t)
  {
    match t
    case Kind(k) => SignedBack(k);
    case Address(a) => SignedBack(a);
    case Num(_, n) => SignedBack(n);
  }

  // What the serializer puts around the data

  /** The names and tags of the classes satisfy `ok`. */
  ghost predicate Named(env: Env, ok: string -> bool) {
    && (forall ty :: ty in env.names ==> ok(env.names[ty]))
    && (forall ty, i :: ty in env.classes && 0 <= i < |env.classes[ty]| ==> ok(env.classes[ty][i].tag))
    && (forall s :: s in {"E", "First", "Second", "size"} ==> ok(s))
  }

  predicate Unquoted(s: string) {
    '"' !in s
  }

  /** In decimal it is always readable if no name or tag has a quote. */
  lemma DecimalsFrame(env: Env, h: Heap)
    requires !env.Binary() && env.code == NumberCode(DecimalForm, DecimalScan)
    requires HeapOk(env, h) && Named(env, Unquoted)
    ensures CodeOk(env) && Framed(env, h)
  {
    forall t: Token | !t.Str?
      ensures IsWord(env.code.form(t)) && Readable(env, t)
    {
      DecimalsAreReadable(env, t);
    }
    forall a, i | a in h && 0 <= i < |h[a].fields|
      ensures FieldFramed(env, env.Shape(h[a].ty)[i], h[a].fields[i])
    {
      assert Unquoted(env.classes[h[a].ty][i].tag);
    }
  }

  predicate Short(s: string) {
    |s| < Power(8)
  }

  function SizeOf(v: Value): nat {
    match v
    case Refs(ps) => |ps|
    case Entries(es) => |es|
    case _ => 0
  }

  /** As bytes it is readable as long as addresses and sizes are below 2^64. */
  lemma BytesFrame(env: Env, h: Heap)
    requires env.Binary() && env.code == NumberCode(ByteForm, ByteScan)
    requires HeapOk(env, h) && Named(env, Short)
    requires forall a :: a in h ==>
      a < Power(8) && forall i :: 0 <= i < |h[a].fields| ==> SizeOf(h[a].fields[i]) < Power(8)
    ensures CodeOk(env) && Framed(env, h)
  {
    forall k: nat | k <= 2
      ensures Readable(env, Kind(k))
    {
      assert Power(4) == 256 * Power(3);
      BytesAreReadable(env, Kind(k));
    }
    forall a | a in h
      ensures Readable(env, Address(a)) && FieldsFramed(env, env.Shape(h[a].ty), h[a].fields)
    {
      BytesAreReadable(env, Address(a));
      forall i | 0 <= i < |h[a].fields|
        ensures FieldFramed(env, env.Shape(h[a].ty)[i], h[a].fields[i])
      {
        assert Short(env.classes[h[a].ty][i].tag);
        BytesAreReadable(env, Num(8, SizeOf(h[a].fields[i])));
      }
    }
  }
}
