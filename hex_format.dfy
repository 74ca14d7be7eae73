/**
 * The key formatter: a byte buffer as lower-case hexadecimal, last stored
 * byte first (an IRK is stored little-endian and shown most significant
 * byte first).
 */
module HexFormat {
  import opened Wrappers

  type byte = bv8

  /** The digit table `hexmap`. */
  const HEX_MAP: seq<char> := "0123456789abcdef"

  predicate IsLowerHexDigit(c: char) {
    ('0' <= c <= '9') || ('a' <= c <= 'f')
  }

  /** `(b & 0xF0) >> 4`: the index of the first digit of a byte. */
  function HighNibble(b: byte): (n: nat)
    ensures n < 16
  {
    ((b & 0xF0) >> 4) as nat
  }

  /** `b & 0x0F`: the index of the second digit of a byte. */
  function LowNibble(b: byte): (n: nat)
    ensures n < 16
  {
    (b & 0x0F) as nat
  }

  /** The two characters that stand for one byte. */
  function ByteHex(b: byte): string {
    [HEX_MAP[HighNibble(b)], HEX_MAP[LowNibble(b)]]
  }

  /** The formatted key: the last byte's two digits first, then the rest the same way. */
  function HexReversed(data: seq<byte>): (s: string)
    ensures |s| == 2 * |data|
  {
    if data == [] then [] else ByteHex(data[|data| - 1]) + HexReversed(data[..|data| - 1])
  }

  /** Characters 2i and 2i+1 of the output are the digits of byte len-1-i. */
  lemma {:induction false} HexReversedAt(data: seq<byte>, i: nat)
    requires i < |data|
    ensures HexReversed(data)[2 * i] == HEX_MAP[HighNibble(data[|data| - 1 - i])]
    ensures HexReversed(data)[2 * i + 1] == HEX_MAP[LowNibble(data[|data| - 1 - i])]
  {
    if i > 0 {
      var init := data[..|data| - 1];
      HexReversedAt(init, i - 1);
      assert init[|init| - 1 - (i - 1)] == data[|data| - 1 - i];
    }
  }

  /** The output starts with the digits of the last input byte. */
  lemma HexStartsWithLastByte(data: seq<byte>)
    requires |data| > 0
    ensures HexReversed(data)[..2] == ByteHex(data[|data| - 1])
  {
  }

  /** Every output character is one of 0-9 a-f. */
  lemma HexReversedIsLowerHex(data: seq<byte>)
    ensures forall k :: 0 <= k < |HexReversed(data)| ==> IsLowerHexDigit(HexReversed(data)[k])
  {
  }

  /** The value of one digit, the inverse of HEX_MAP. */
  function DigitValue(c: char): (r: Option<nat>)
    ensures r.Some? ==> r.value < 16 && HEX_MAP[r.value] == c
  {
    if '0' <= c <= '9' then Some((c - '0') as nat)
    else if 'a' <= c <= 'f' then Some((c - 'a') as nat + 10)
    else None
  }

  lemma DigitValueOfDigit(n: nat)
    requires n < 16
    ensures DigitValue(HEX_MAP[n]) == Some(n)
  {
  }

  /** Joins two digit values back into a byte, high digit first. */
  function JoinNibbles(hi: nat, lo: nat): byte
    requires hi < 16 && lo < 16
  {
    ((hi as bv8) << 4) | (lo as bv8)
  }

  lemma NibblesRebuildByte(b: byte)
    ensures JoinNibbles(HighNibble(b), LowNibble(b)) == b
  {
  }

  /** The inverse of HexReversed: reads pairs of digits, building the buffer from its last byte. */
  function ParseHexReversed(s: string): (r: Option<seq<byte>>)
    ensures r.Some? ==> 2 * |r.value| == |s|
  {
    if s == [] then Some([])
    else if |s| < 2 then None
    else match (DigitValue(s[0]), DigitValue(s[1]), ParseHexReversed(s[2..]))
      case (Some(hi), Some(lo), Some(rest)) => Some(rest + [JoinNibbles(hi, lo)])
      case _ => None
  }

  /** Parsing the formatted key gives the key back. */
  lemma {:induction false} ParseHexReversedRoundTrip(data: seq<byte>)
    ensures ParseHexReversed(HexReversed(data)) == Some(data)
  {
    if data != [] {
      var last, init := data[|data| - 1], data[..|data| - 1];
      var s := HexReversed(data);
      assert s == ByteHex(last) + HexReversed(init);
      assert s[2..] == HexReversed(init);
      DigitValueOfDigit(HighNibble(last));
      DigitValueOfDigit(LowNibble(last));
      ParseHexReversedRoundTrip(init);
      NibblesRebuildByte(last);
      assert init + [last] == data;
    }
  }

  /** Two keys format to the same string only if they are the same key. */
  lemma HexReversedInjective(a: seq<byte>, b: seq<byte>)
    ensures HexReversed(a) == HexReversed(b) <==> a == b
  {
    if HexReversed(a) == HexReversed(b) {
      ParseHexReversedRoundTrip(a);
      ParseHexReversedRoundTrip(b);
    }
  }

  /**
   * `hexStr(data, len)`: preallocates a string of 2*len spaces and fills it
   * two characters per byte, reading the buffer from its end.
   */
  method HexStr(data: seq<byte>, len: nat) returns (r: string)
    requires len <= |data|
    ensures r == HexReversed(data[..len])
  {
    var s := new char[2 * len](_ => ' ');
    for i := 0 to len
      invariant forall k :: 0 <= k < i ==>
        s[2 * k] == HEX_MAP[HighNibble(data[len - 1 - k])] &&
        s[2 * k + 1] == HEX_MAP[LowNibble(data[len - 1 - k])]
    {
      s[2 * i] := HEX_MAP[HighNibble(data[len - 1 - i])];
      s[2 * i + 1] := HEX_MAP[LowNibble(data[len - 1 - i])];
    }
    r := s[..];
    ghost var d := data[..len];
    forall k | 0 <= k < 2 * len
      ensures r[k] == HexReversed(d)[k]
    {
      var i := k / 2;
      HexReversedAt(d, i);
      assert k == 2 * i || k == 2 * i + 1;
    }
  }
}
