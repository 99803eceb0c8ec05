/** Numbers as bytes, least significant first. */
module ByteCoding {

  type Byte = b: int | 0 <= b < 256

  function Power(n: nat): (r: nat)
    ensures r > 0
  {
    if n == 0 then 1 else 256 * Power(n - 1)
  }

  /** The sizes of the ranges of 4 and of 8 bytes. */
  lemma WordSizes()
    ensures Power(4) == 0x1_0000_0000 && Power(8) == 0x1_0000_0000_0000_0000
  {
    assert Power(2) == 65536 && Power(4) == 65536 * Power(2) && Power(6) == 65536 * Power(4);
  }

  /** The `width` low bytes of a number. */
  function Encode(n: nat, width: nat): (r: seq<Byte>)
    ensures |r| == width
  {
    if width == 0 then [] else [n % 256] + Encode(n / 256, width - 1)
  }

  function Decode(bytes: seq<Byte>): nat {
    if bytes == [] then 0 else bytes[0] + 256 * Decode(bytes[1..])
  }

  /** Bytes further behind weigh more: each 256 times as much as the one before it. */
  lemma {:induction false} DecodeConcat(a: seq<Byte>, b: seq<Byte>)
    ensures Decode(a + b) == Decode(a) + Power(|a|) * Decode(b)
  {
    if a == [] {
      assert a + b == b;
    } else {
      assert (a + b)[1..] == a[1..] + b;
      DecodeConcat(a[1..], b);
      assert 256 * (Power(|a| - 1) * Decode(b)) == Power(|a|) * Decode(b);
    }
  }

  lemma {:induction false} DecodeEncoded(n: nat, width: nat)
    requires n < Power(width)
    ensures Decode(Encode(n, width)) == n
  {
    if width > 0 {
      DecodeEncoded(n / 256, width - 1);
      assert Encode(n, width)[1..] == Encode(n / 256, width - 1);
    }
  }

  /** No more than the low bytes come back. */
  lemma {:induction false} DecodeInRange(bytes: seq<Byte>)
    ensures Decode(bytes) < Power(|bytes|)
  {
    if bytes != [] {
      DecodeInRange(bytes[1..]);
    }
  }

  function Chars(bytes: seq<Byte>): (s: string)
    ensures |s| == |bytes|
  {
    seq(|bytes|, i requires 0 <= i < |bytes| => bytes[i] as char)
  }

  function Bytes(s: string): (r: seq<Byte>)
    ensures |r| == |s|
  {
    seq(|s|, i requires 0 <= i < |s| => s[i] as int % 256)
  }

  lemma BytesOfChars(bytes: seq<Byte>)
    ensures Bytes(Chars(bytes)) == bytes
  {
  }
}
