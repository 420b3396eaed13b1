/** The server's hexadecimal coding: lower case only, with a byte-count window. */
module Hex {
  import opened Prelude

  predicate IsLowerHex(b: Byte) {
    48 <= b <= 57 || 97 <= b <= 102
  }

  function Digit(n: int): Byte
    requires 0 <= n < 16
  {
    if n < 10 then 48 + n else 87 + n
  }

  function Nibble(b: Byte): (n: int)
    requires IsLowerHex(b)
    ensures 0 <= n < 16 && Digit(n) == b
  {
    if b <= 57 then b - 48 else b - 87
  }

  predicate AllLowerHex(s: Str) {
    forall i :: 0 <= i < |s| ==> IsLowerHex(s[i])
  }

  function Encode(bytes: Bytes): (s: Str)
    ensures |s| == 2 * |bytes| && AllLowerHex(s)
  {
    if bytes == [] then []
    else [Digit(bytes[0] / 16), Digit(bytes[0] % 16)] + Encode(bytes[1..])
  }

  function Pairs(s: Str): (b: Bytes)
    requires |s| % 2 == 0 && AllLowerHex(s)
    ensures |b| == |s| / 2
  {
    if s == [] then [] else [16 * Nibble(s[0]) + Nibble(s[1])] + Pairs(s[2..])
  }

  /** `decode_hex_vec`. */
  function DecodeVec(s: Str, minimum: nat, maximum: nat): (r: Option<Bytes>)
    ensures r.Some? ==> minimum <= |r.value| <= maximum && |s| == 2 * |r.value|
  {
    if |s| % 2 != 0 || |s| < 2 * minimum || |s| > 2 * maximum || !AllLowerHex(s)
    then None else Some(Pairs(s))
  }

  /** `decode_hex::<N>`. */
  function Decode(s: Str, n: nat): (r: Option<Bytes>)
    ensures r.Some? ==> |r.value| == n && |s| == 2 * n
  {
    DecodeVec(s, n, n)
  }

  lemma {:induction false} PairsOfEncode(b: Bytes)
    ensures Pairs(Encode(b)) == b
  {
    if b != [] {
      PairsOfEncode(b[1..]);
      assert Encode(b)[2..] == Encode(b[1..]);
    }
  }

  lemma {:induction false} EncodeOfPairs(s: Str)
    requires |s| % 2 == 0 && AllLowerHex(s)
    ensures Encode(Pairs(s)) == s
  {
    if s != [] {
      EncodeOfPairs(s[2..]);
      var first := 16 * Nibble(s[0]) + Nibble(s[1]);
      assert Pairs(s) == [first] + Pairs(s[2..]);
      assert first / 16 == Nibble(s[0]) && first % 16 == Nibble(s[1]);
      assert Encode(Pairs(s)) == [s[0], s[1]] + s[2..];
    }
  }

  /** Decoding and encoding are inverse on exactly the accepted strings. */
  lemma DecodesExactlyItsEncoding(s: Str, minimum: nat, maximum: nat, b: Bytes)
    ensures DecodeVec(s, minimum, maximum) == Some(b)
       <==> minimum <= |b| <= maximum && s == Encode(b)
  {
    PairsOfEncode(b);
    if DecodeVec(s, minimum, maximum).Some? {
      EncodeOfPairs(s);
    }
  }

  lemma DecodeEncode(b: Bytes, minimum: nat, maximum: nat)
    requires minimum <= |b| <= maximum
    ensures DecodeVec(Encode(b), minimum, maximum) == Some(b)
  {
    DecodesExactlyItsEncoding(Encode(b), minimum, maximum, b);
  }

  lemma EncodeInjective(a: Bytes, b: Bytes)
    requires Encode(a) == Encode(b)
    ensures a == b
  {
    PairsOfEncode(a);
    PairsOfEncode(b);
  }

  /** Comparing two accepted nonce strings compares the nonces. */
  lemma StringEqualityIsByteEquality(s: Str, t: Str, n: nat)
    requires Decode(s, n).Some? && Decode(t, n).Some?
    ensures s == t <==> Decode(s, n) == Decode(t, n)
  {
    DecodesExactlyItsEncoding(s, n, n, Decode(s, n).value);
    DecodesExactlyItsEncoding(t, n, n, Decode(t, n).value);
  }
}

/** The protocol kit's own coding: it writes lower case and reads either case. */
module KitHex {
  import opened Prelude
  import Hex

  const HEX: Bytes := [48, 49, 50, 51, 52, 53, 54, 55, 56, 57, 97, 98, 99, 100, 101, 102]

  predicate IsHexDigit(b: Byte) {
    Hex.IsLowerHex(b) || 65 <= b <= 70
  }

  /** `char::to_digit(16)`. */
  function ToDigit(b: Byte): (n: Option<int>)
    ensures n.Some? ==> 0 <= n.value < 16
  {
    if Hex.IsLowerHex(b) then Some(Hex.Nibble(b))
    else if 65 <= b <= 70 then Some(b - 55)
    else None
  }

  /** ASCII lower-casing. */
  function Lower(s: Str): (r: Str)
    ensures |r| == |s|
  {
    seq(|s|, i requires 0 <= i < |s| => if 65 <= s[i] <= 90 then s[i] + 32 else s[i])
  }

  /** The decoding this kit accepts, stated through the server's. */
  function DecodeAnyCase(s: Str, n: nat): (r: Option<Bytes>)
    ensures r.Some? ==> |r.value| == n
  {
    Hex.Decode(Lower(s), n)
  }

  lemma {:induction false} EncodeAppend(a: Bytes, b: Byte)
    ensures Hex.Encode(a + [b]) == Hex.Encode(a) + [Hex.Digit(b / 16), Hex.Digit(b % 16)]
  {
    if a != [] {
      EncodeAppend(a[1..], b);
      assert (a + [b])[1..] == a[1..] + [b];
    }
  }

  lemma HexDigits(n: int)
    requires 0 <= n < 16
    ensures HEX[n] == Hex.Digit(n)
  {
  }

  lemma EmptyEncoding()
    ensures Hex.Encode([]) == []
  {
  }

  method EncodeHex(bytes: Bytes) returns (out: Str)
    ensures out == Hex.Encode(bytes)
  {
    hide Hex.Encode, Hex.Digit;
    out := [];
    EmptyEncoding();
    for i := 0 to |bytes|
      invariant out == Hex.Encode(bytes[..i])
    {
      EncodeAppend(bytes[..i], bytes[i]);
      HexDigits(bytes[i] / 16);
      HexDigits(bytes[i] % 16);
      assert bytes[..i + 1] == bytes[..i] + [bytes[i]];
      out := out + [HEX[bytes[i] / 16]];
      out := out + [HEX[bytes[i] % 16]];
    }
    assert bytes[..|bytes|] == bytes;
  }

  lemma {:induction false} PairAt(s: Str, i: nat)
    requires |s| % 2 == 0 && Hex.AllLowerHex(s) && 2 * i + 1 < |s|
    ensures Hex.Pairs(s)[i] == 16 * Hex.Nibble(s[2 * i]) + Hex.Nibble(s[2 * i + 1])
  {
    if i > 0 {
      PairAt(s[2..], i - 1);
    }
  }

  lemma LowerKeepsDigits(s: Str)
    ensures Hex.AllLowerHex(Lower(s)) <==> forall i :: 0 <= i < |s| ==> IsHexDigit(s[i])
  {
    var l := Lower(s);
    if Hex.AllLowerHex(l) {
      forall i | 0 <= i < |s| ensures IsHexDigit(s[i]) {
        assert Hex.IsLowerHex(l[i]);
      }
    }
  }

  method DecodeHex(value: Str, n: nat) returns (r: Option<Bytes>)
    ensures r == DecodeAnyCase(value, n)
  {
    hide Hex.Pairs, Hex.Digit;
    LowerKeepsDigits(value);
    if |value| != n * 2 || !(forall i :: 0 <= i < |value| ==> IsHexDigit(value[i])) {
      return None;
    }
    ghost var expected := Hex.Pairs(Lower(value));
    var out := new Byte[n](_ => 0);
    for index := 0 to n
      invariant out[..index] == expected[..index]
    {
      var hi := ToDigit(value[2 * index]);
      var lo := ToDigit(value[2 * index + 1]);
      assert IsHexDigit(value[2 * index]) && IsHexDigit(value[2 * index + 1]);
      PairAt(Lower(value), index);
      out[index] := 16 * hi.value + lo.value;
      assert out[..index + 1] == out[..index] + [out[index]];
      assert expected[..index + 1] == expected[..index] + [expected[index]];
    }
    assert out[..] == out[..n] == expected[..n] == expected;
    return Some(out[..]);
  }

  /** Wherever the server decodes, the kit decodes to the same bytes. */
  lemma AgreesWithServer(s: Str, n: nat)
    requires Hex.Decode(s, n).Some?
    ensures DecodeAnyCase(s, n) == Hex.Decode(s, n)
  {
    assert Lower(s) == s;
  }

  /** The kit accepts exactly the strings whose lower-cased form encodes the result. */
  lemma ReencodesToLowerCase(s: Str, n: nat, b: Bytes)
    ensures DecodeAnyCase(s, n) == Some(b) <==> |b| == n && Lower(s) == Hex.Encode(b)
  {
    Hex.DecodesExactlyItsEncoding(Lower(s), n, n, b);
  }
}
