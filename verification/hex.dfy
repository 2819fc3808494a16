/** Lower-case hexadecimal rendering of random bytes, as produced by
    `secrets.token_hex(n)`: n random bytes become 2n hex digits. */
module Hex {
  import opened Base

  newtype byte = x: int | 0 <= x < 256

  const Digits: string := "0123456789abcdef"

  /** One of the characters of `Digits`. */
  predicate IsHexDigit(c: char)
  {
    '0' <= c <= '9' || 'a' <= c <= 'f'
  }

  predicate IsHex(s: string)
  {
    forall i :: 0 <= i < |s| ==> IsHexDigit(s[i])
  }

  /** The value of one lower-case hex digit, or None for any other character. */
  function DigitValue(c: char): (v: Option<nat>)
    ensures v.Some? <==> IsHexDigit(c)
    ensures v.Some? ==> v.value < 16
  {
    if '0' <= c <= '9' then Some(c as nat - '0' as nat)
    else if 'a' <= c <= 'f' then Some(c as nat - 'a' as nat + 10)
    else None
  }

  /** Two digits per byte, high nibble first. */
  function Encode(bs: seq<byte>): (h: string)
    ensures |h| == 2 * |bs|
    ensures IsHex(h)
  {
    if bs == [] then ""
    else
      DigitValueOfDigit(bs[0] as int / 16);
      DigitValueOfDigit(bs[0] as int % 16);
      [Digits[bs[0] as int / 16], Digits[bs[0] as int % 16]] + Encode(bs[1..])
  }

  /** Reads back the bytes of an even-length hex string. */
  function Decode(h: string): (r: Option<seq<byte>>)
    ensures r.Some? ==> 2 * |r.value| == |h|
    decreases |h|
  {
    if h == [] then Some([])
    else if |h| == 1 then None
    else
      var hi, lo, rest := DigitValue(h[0]), DigitValue(h[1]), Decode(h[2..]);
      if hi.Some? && lo.Some? && rest.Some? then Some([(hi.value * 16 + lo.value) as byte] + rest.value)
      else None
  }

  lemma {:induction false} DigitValueOfDigit(k: nat)
    requires k < 16
    ensures DigitValue(Digits[k]) == Some(k)
  {
  }

  lemma {:induction false} DecodeStep(h: string, hi: nat, lo: nat, rest: seq<byte>)
    requires |h| >= 2 && DigitValue(h[0]) == Some(hi) && DigitValue(h[1]) == Some(lo)
    requires Decode(h[2..]) == Some(rest)
    ensures Decode(h) == Some([(hi * 16 + lo) as byte] + rest)
  {
  }

  lemma {:induction false} EncodeStep(bs: seq<byte>)
    requires bs != []
    ensures Encode(bs)[0] == Digits[bs[0] as int / 16]
    ensures Encode(bs)[1] == Digits[bs[0] as int % 16]
    ensures Encode(bs)[2..] == Encode(bs[1..])
  {
  }

  /** A byte is its high nibble times 16 plus its low nibble. */
  lemma {:induction false} Nibbles(b: byte)
    ensures (b as int / 16) * 16 + b as int % 16 == b as int
  {
  }

  /** One step of the round trip: the first two digits decode to the first byte. */
  lemma {:induction false} DecodeEncodeStep(bs: seq<byte>)
    requires bs != []
    requires Decode(Encode(bs[1..])) == Some(bs[1..])
    ensures Decode(Encode(bs)) == Some(bs)
  {
    var h, hi, lo := Encode(bs), bs[0] as int / 16, bs[0] as int % 16;
    EncodeStep(bs);
    DigitValueOfDigit(hi);
    DigitValueOfDigit(lo);
    DecodeStep(h, hi, lo, bs[1..]);
    Nibbles(bs[0]);
    assert [(hi * 16 + lo) as byte] + bs[1..] == bs;
  }

  /** Encoding loses nothing: the hex key carries exactly the random bytes. */
  lemma {:induction false} DecodeEncode(bs: seq<byte>)
    ensures Decode(Encode(bs)) == Some(bs)
  {
    if bs != [] {
      DecodeEncode(bs[1..]);
      DecodeEncodeStep(bs);
    }
  }
}
