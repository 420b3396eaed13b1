/** HKDF-SHA256 as the fixture generator computes it. */
module Hkdf {
  import opened Prelude

  const HASH_BYTES := 32
  const MAX_LENGTH := 255 * HASH_BYTES

  /** HMAC-SHA256, left uninterpreted: key, message. */
  type Hmac = (Bytes, Bytes) -> Bytes32

  /** Block i of the expansion in section 2.3 of RFC 5869: T(0) is empty and
      T(i) = HMAC(PRK, T(i-1) | info | i). */
  function T(hmac: Hmac, prk: Bytes, info: Bytes, i: nat): Bytes
    requires i <= 255
  {
    if i == 0 then [] else hmac(prk, T(hmac, prk, info, i - 1) + info + [i])
  }

  /** T(1) | ... | T(n). */
  function Blocks(hmac: Hmac, prk: Bytes, info: Bytes, n: nat): (b: Bytes)
    requires n <= 255
    ensures |b| == n * HASH_BYTES
  {
    if n == 0 then [] else Blocks(hmac, prk, info, n - 1) + T(hmac, prk, info, n)
  }

  /** The output keying material of RFC 5869 for every length it allows. */
  function Okm(hmac: Hmac, prk: Bytes, info: Bytes, length: nat): (okm: Bytes)
    requires length <= MAX_LENGTH
    ensures |okm| == length
  {
    Blocks(hmac, prk, info, (length + HASH_BYTES - 1) / HASH_BYTES)[..length]
  }

  /** `hkdf_sha256`. Beyond 255 blocks `bytes([i])` raises, modelled as `None`. */
  method HkdfSha256(hmac: Hmac, ikm: Bytes, salt: Bytes, info: Bytes, length: nat) returns (r: Option<Bytes>)
    ensures r.Some? <==> length <= MAX_LENGTH
    ensures r.Some? ==> r.value == Okm(hmac, hmac(salt, ikm), info, length)
  {
    var prk := hmac(salt, ikm);
    var okm: Bytes, t: Bytes, i := [], [], 1;
    while |okm| < length
      invariant 1 <= i <= 256
      invariant |okm| == (i - 1) * HASH_BYTES && (i > 1 ==> |okm| - HASH_BYTES < length)
      invariant t == T(hmac, prk, info, i - 1) && okm == Blocks(hmac, prk, info, i - 1)
      decreases length - |okm|
    {
      if i > 255 {
        return None;
      }
      t := hmac(prk, t + info + [i]);
      okm := okm + t;
      i := i + 1;
    }
    return Some(okm[..length]);
  }

  lemma {:induction false} BlocksPrefix(hmac: Hmac, prk: Bytes, info: Bytes, m: nat, n: nat)
    requires m <= n <= 255
    ensures Blocks(hmac, prk, info, n)[..m * HASH_BYTES] == Blocks(hmac, prk, info, m)
  {
    if m < n {
      BlocksPrefix(hmac, prk, info, m, n - 1);
      assert Blocks(hmac, prk, info, n)[..(n - 1) * HASH_BYTES] == Blocks(hmac, prk, info, n - 1);
      assert m * HASH_BYTES <= (n - 1) * HASH_BYTES;
    }
  }

  /** A shorter output is a prefix of a longer one. */
  lemma ShorterIsPrefix(hmac: Hmac, prk: Bytes, info: Bytes, short: nat, long: nat)
    requires short <= long <= MAX_LENGTH
    ensures Okm(hmac, prk, info, short) == Okm(hmac, prk, info, long)[..short]
  {
    var m, n := (short + HASH_BYTES - 1) / HASH_BYTES, (long + HASH_BYTES - 1) / HASH_BYTES;
    BlocksPrefix(hmac, prk, info, m, n);
    assert Blocks(hmac, prk, info, n)[..m * HASH_BYTES][..short] == Blocks(hmac, prk, info, n)[..short];
  }

  lemma {:induction false} BlockAt(hmac: Hmac, prk: Bytes, info: Bytes, n: nat, k: nat)
    requires k < n <= 255
    ensures Blocks(hmac, prk, info, n)[k * HASH_BYTES..(k + 1) * HASH_BYTES] == T(hmac, prk, info, k + 1)
  {
    BlocksPrefix(hmac, prk, info, k + 1, n);
    assert Blocks(hmac, prk, info, k + 1) == Blocks(hmac, prk, info, k) + T(hmac, prk, info, k + 1);
    assert Blocks(hmac, prk, info, n)[..(k + 1) * HASH_BYTES][k * HASH_BYTES..]
        == Blocks(hmac, prk, info, n)[k * HASH_BYTES..(k + 1) * HASH_BYTES];
  }

  lemma Window(b: Bytes, length: nat, start: nat, mid: nat, end: nat)
    requires start <= mid <= length <= |b| && mid <= end <= |b|
    ensures b[..length][start..mid] == b[start..mid] == b[start..end][..mid - start]
  {
  }

  /** Every block of an output, the last one as far as it goes, is the HMAC of the block before it,
      `info` and the number of the block counted from 1. */
  lemma OutputChains(hmac: Hmac, prk: Bytes, info: Bytes, length: nat, k: nat)
    requires k * HASH_BYTES < length <= MAX_LENGTH
    ensures var okm, start, end := Okm(hmac, prk, info, length), k * HASH_BYTES, Min((k + 1) * HASH_BYTES, length);
            var previous := if k == 0 then [] else okm[start - HASH_BYTES..start];
            okm[start..end] == hmac(prk, previous + info + [k + 1])[..end - start]
  {
    hide Blocks;
    var n := (length + HASH_BYTES - 1) / HASH_BYTES;
    var b, start, next := Blocks(hmac, prk, info, n), k * HASH_BYTES, (k + 1) * HASH_BYTES;
    BlockAt(hmac, prk, info, n, k);
    Window(b, length, start, Min(next, length), next);
    assert T(hmac, prk, info, k + 1) == hmac(prk, T(hmac, prk, info, k) + info + [k + 1]);
    if k > 0 {
      BlockAt(hmac, prk, info, n, k - 1);
      Window(b, length, (k - 1) * HASH_BYTES, start, start);
    }
  }
}

/** Scalar multiplication on P-256 as the fixture generator computes it. */
module P256 {
  import opened Prelude

  const P := 0xFFFFFFFF00000001000000000000000000000000FFFFFFFFFFFFFFFFFFFFFFFF
  const A := P - 3
  const N := 0xFFFFFFFF00000000FFFFFFFFFFFFFFFFBCE6FAADA7179E84F3B9CAC2FC632551

  type Point = Option<(int, int)>

  /** `pow(x, n, P)` for positive moduli, with the remainder never negative. */
  function PowMod(x: int, n: nat): int {
    if n == 0 then 1 else PowMod(x, n - 1) * x % P
  }

  function Inv(x: int): int {
    PowMod(x, P - 2)
  }

  /** `_add`. */
  function Add(p: Point, q: Point): Point {
    Sum(P, A, Inv, p, q)
  }

  /** `_add` over any modulus, coefficient and inverse. */
  function Sum(m: int, a: int, inv: int -> int, p: Point, q: Point): Point
    requires m > 0
  {
    match (p, q)
    case (None, _) => q
    case (_, None) => p
    case (Some((x1, y1)), Some((x2, y2))) =>
      if x1 == x2 && (y1 + y2) % m == 0 then None
      else
        var slope := if p == q then (3 * x1 * x1 + a) * inv(2 * y1) % m else (y2 - y1) * inv(x2 - x1) % m;
        var x3 := (slope * slope - x1 - x2) % m;
        Some((x3, (slope * (x1 - x3) - y1) % m))
  }

  // The curve behind `_add`.

  const B := 0x5AC635D8AA3A93E7B3EBBD55769886BC651D06B0CC53B0F63BCE3C3E27D2604B
  const GX := 0x6B17D1F2E12C4247F8BCE6E563A440F277037D812DEB33A0F4A13945D898C296
  const GY := 0x4FE342E2FE1A7F9B8EE7EB4A7C0F9E162BCE33576B315ECECBB6406837BF51F5

  /** Divisible by a modulus. */
  ghost predicate Zero(m: int, e: int)
    requires m > 0
  {
    e % m == 0
  }

  lemma Multiple(m: int, k: int)
    requires m > 0
    ensures Zero(m, m * k)
  {
    var q, r := m * k / m, m * k % m;
    assert m * (k - q) == r;
    assert k - q >= 1 ==> m * (k - q) >= m;
    assert k - q <= -1 ==> m * (k - q) <= -m;
  }

  lemma Combined(m: int, u: int, e: int, v: int, f: int)
    requires m > 0 && Zero(m, e) && Zero(m, f)
    ensures Zero(m, u * e + v * f)
  {
    var j, k := e / m, f / m;
    assert e == m * j && f == m * k;
    hide Zero;
    calc {
      u * e + v * f;
      u * (m * j) + v * (m * k);
      m * (u * j) + m * (v * k);
      m * (u * j + v * k);
    }
    Multiple(m, u * j + v * k);
  }

  /** What the equation `y^2 = x^3 + a x + b` is off by. */
  function Off(a: int, b: int, x: int, y: int): int {
    y * y - x * x * x - a * x - b
  }

  function Line(s: int, x1: int, y1: int, x: int): int {
    s * (x - x1) + y1
  }

  /** On a line the equation is a cubic in x: subtracting the cubic with roots x1, x2 and
      s^2 - x1 - x2 leaves `Alpha * x + Beta`. */
  function Alpha(a: int, s: int, x1: int, y1: int, x2: int): int {
    a - 2 * s * (y1 - s * x1) - x1 * x2 - (x1 + x2) * (s * s - x1 - x2)
  }

  function Beta(b: int, s: int, x1: int, y1: int, x2: int): int {
    b - (y1 - s * x1) * (y1 - s * x1) + x1 * x2 * (s * s - x1 - x2)
  }

  lemma Square(s: int, c: int, x: int)
    ensures (s * x + c) * (s * x + c) == s * s * (x * x) + 2 * s * c * x + c * c
  {
    assert (s * x) * (s * x) == s * s * (x * x);
  }

  lemma Roots(x: int, x1: int, x2: int, w: int)
    ensures (x - x1) * (x - x2) * (x - w)
         == x * x * x - (x1 + x2 + w) * (x * x) + (x1 * x2 + (x1 + x2) * w) * x - x1 * x2 * w
  {
    assert (x - x1) * (x - x2) == x * x - (x1 + x2) * x + x1 * x2;
  }

  lemma CubicOnLine(a: int, b: int, s: int, x1: int, y1: int, x2: int, x: int)
    ensures -Off(a, b, x, Line(s, x1, y1, x))
         == Alpha(a, s, x1, y1, x2) * x + Beta(b, s, x1, y1, x2) + (x - x1) * (x - x2) * (x - (s * s - x1 - x2))
  {
    var c, w, t := y1 - s * x1, s * s - x1 - x2, 2 * s * (y1 - s * x1);
    assert Line(s, x1, y1, x) == s * x + c;
    Square(s, c, x);
    Roots(x, x1, x2, w);
    assert Alpha(a, s, x1, y1, x2) * x == a * x - t * x - (x1 * x2 + (x1 + x2) * w) * x by {
      assert Alpha(a, s, x1, y1, x2) == a - t - (x1 * x2 + (x1 + x2) * w);
    }
    assert (x1 + x2 + w) * (x * x) == s * s * (x * x);
  }

  lemma ValuesOnChord(a: int, b: int, s: int, x1: int, y1: int, x2: int, y2: int)
    ensures var e3 := s * (x2 - x1) - (y2 - y1);
            Alpha(a, s, x1, y1, x2) * x2 + Beta(b, s, x1, y1, x2) == -Off(a, b, x2, y2) - (2 * y2 + e3) * e3
    ensures Beta(b, s, x1, y1, x2) == -Off(a, b, x1, y1) - Alpha(a, s, x1, y1, x2) * x1
  {
    var e3 := s * (x2 - x1) - (y2 - y1);
    CubicOnLine(a, b, s, x1, y1, x2, x1);
    CubicOnLine(a, b, s, x1, y1, x2, x2);
    hide Alpha, Beta;
    assert Line(s, x1, y1, x2) == y2 + e3;
    assert (y2 + e3) * (y2 + e3) == y2 * y2 + (2 * y2 + e3) * e3;
  }

  /** Of `alpha * d` and the inverse of d. */
  lemma Cancelled(m: int, i: int, d: int, alpha: int)
    requires m > 0 && Zero(m, alpha * d) && Zero(m, i * d - 1)
    ensures Zero(m, alpha)
  {
    hide Zero;
    Combined(m, i, alpha * d, -alpha, i * d - 1);
    assert i * (alpha * d) == alpha * (i * d);
    assert i * (alpha * d) + -alpha * (i * d - 1) == alpha;
  }

  /** Chord: a line through two points of the curve whose abscissas differ invertibly leaves no
      remainder. */
  lemma ChordLeavesNothing(m: int, a: int, b: int, s: int, i: int, x1: int, y1: int, x2: int, y2: int)
    requires m > 0 && Zero(m, Off(a, b, x1, y1)) && Zero(m, Off(a, b, x2, y2))
    requires Zero(m, i * (x2 - x1) - 1) && Zero(m, s * (x2 - x1) - (y2 - y1))
    ensures Zero(m, Alpha(a, s, x1, y1, x2)) && Zero(m, Beta(b, s, x1, y1, x2))
  {
    hide Zero, Alpha, Beta, Off;
    var alpha, beta := Alpha(a, s, x1, y1, x2), Beta(b, s, x1, y1, x2);
    var e1, e2, e3 := Off(a, b, x1, y1), Off(a, b, x2, y2), s * (x2 - x1) - (y2 - y1);
    ValuesOnChord(a, b, s, x1, y1, x2, y2);
    var v := -(2 * y2 + e3);
    Combined(m, 1, e1, -1, e2);
    Combined(m, 1, 1 * e1 + -1 * e2, v, e3);
    assert alpha * (x2 - x1) == e1 - e2 + v * e3 by {
      assert alpha * (x2 - x1) == alpha * x2 - alpha * x1;
    }
    Cancelled(m, i, x2 - x1, alpha);
    Combined(m, -1, e1, -x1, alpha);
    assert -x1 * alpha == -(alpha * x1);
  }

  lemma ValuesOnTangent(a: int, b: int, s: int, x1: int, y1: int)
    ensures Alpha(a, s, x1, y1, x1) == -1 * (s * (2 * y1) - (3 * x1 * x1 + a))
    ensures Beta(b, s, x1, y1, x1) == -Off(a, b, x1, y1) - Alpha(a, s, x1, y1, x1) * x1
  {
    CubicOnLine(a, b, s, x1, y1, x1, x1);
    assert 2 * s * (y1 - s * x1) == s * (2 * y1) - 2 * x1 * (s * s);
  }

  /** Tangent: likewise for a line whose slope is that of the curve. */
  lemma TangentLeavesNothing(m: int, a: int, b: int, s: int, x1: int, y1: int)
    requires m > 0 && Zero(m, Off(a, b, x1, y1)) && Zero(m, s * (2 * y1) - (3 * x1 * x1 + a))
    ensures Zero(m, Alpha(a, s, x1, y1, x1)) && Zero(m, Beta(b, s, x1, y1, x1))
  {
    hide Zero, Alpha, Beta, Off;
    ValuesOnTangent(a, b, s, x1, y1);
    var alpha, e3 := Alpha(a, s, x1, y1, x1), s * (2 * y1) - (3 * x1 * x1 + a);
    Combined(m, -1, e3, 0, e3);
    Combined(m, -1, Off(a, b, x1, y1), -x1, alpha);
    assert -x1 * alpha == -(alpha * x1);
  }

  lemma LeavesNothingAt(m: int, a: int, b: int, s: int, x1: int, y1: int, x2: int, x3: int)
    requires m > 0 && Zero(m, Alpha(a, s, x1, y1, x2)) && Zero(m, Beta(b, s, x1, y1, x2))
    requires Zero(m, x3 - (s * s - x1 - x2))
    ensures Zero(m, -Off(a, b, x3, Line(s, x1, y1, x3)))
  {
    hide Zero, Alpha, Beta, Off, Line;
    var alpha, beta := Alpha(a, s, x1, y1, x2), Beta(b, s, x1, y1, x2);
    var u, e4 := (x3 - x1) * (x3 - x2), x3 - (s * s - x1 - x2);
    CubicOnLine(a, b, s, x1, y1, x2, x3);
    assert x3 * alpha == alpha * x3;
    Combined(m, x3, alpha, 1, beta);
    Combined(m, 1, x3 * alpha + 1 * beta, u, e4);
  }

  lemma Reflection(a: int, b: int, x: int, y: int, l: int)
    ensures Off(a, b, x, y) == -1 * -Off(a, b, x, l) + (y - l) * (y + l)
  {
    assert (y - l) * (y + l) == y * y - l * l;
  }

  /** The third point of such a line, reflected, is on the curve. */
  lemma ThirdPointOnCurve(m: int, a: int, b: int, s: int, x1: int, y1: int, x2: int, x3: int, y3: int)
    requires m > 0 && Zero(m, Alpha(a, s, x1, y1, x2)) && Zero(m, Beta(b, s, x1, y1, x2))
    requires Zero(m, x3 - (s * s - x1 - x2)) && Zero(m, y3 + Line(s, x1, y1, x3))
    ensures Zero(m, Off(a, b, x3, y3))
  {
    hide Zero, Alpha, Beta, Off, Line;
    var l := Line(s, x1, y1, x3);
    LeavesNothingAt(m, a, b, s, x1, y1, x2, x3);
    Combined(m, -1, -Off(a, b, x3, l), y3 - l, y3 + l);
    Reflection(a, b, x3, y3, l);
  }

  lemma Inverse(m: int, d: int, i: int)
    requires m > 1 && (d * i) % m == 1
    ensures Zero(m, i * d - 1)
  {
    Multiple(m, d * i / m);
  }

  lemma QuotientTimes(r: int, n: int, i: int, d: int)
    ensures d * (r - n * i) + n * (i * d - 1) == r * d - n
  {
    assert d * (n * i) == n * (i * d);
  }

  lemma Quotient(m: int, n: int, d: int, i: int)
    requires m > 1 && (d * i) % m == 1
    ensures Zero(m, (n * i % m) * d - n)
  {
    Inverse(m, d, i);
    Reduced(m, n * i);
    var r := n * i % m;
    hide Zero;
    Combined(m, d, r - n * i, n, i * d - 1);
    QuotientTimes(r, n, i, d);
  }

  lemma Close(m: int, y1: int, y2: int)
    requires m > 1 && 0 <= y1 < m && 0 <= y2 < m && Zero(m, y1 - y2)
    ensures y1 == y2
  {
    var k := (y1 - y2) / m;
    assert y1 - y2 == m * k;
    assert k >= 1 ==> m * k >= m;
    assert k <= -1 ==> m * k <= -m;
  }

  lemma Factors(y1: int, y2: int, i: int)
    ensures y1 * y1 - y2 * y2 == (y1 - y2) * (y1 + y2)
    ensures i * ((y1 - y2) * (y1 + y2)) + -(y1 - y2) * (i * (y1 + y2) - 1) == y1 - y2
  {
    var d := y1 - y2;
    assert i * (d * (y1 + y2)) == d * (i * (y1 + y2));
  }

  /** Two reduced points of a curve with one abscissa are equal or opposite. */
  lemma SameAbscissa(m: int, a: int, b: int, x: int, y1: int, y2: int, i: int)
    requires m > 1 && 0 <= y1 < m && 0 <= y2 < m
    requires Zero(m, Off(a, b, x, y1)) && Zero(m, Off(a, b, x, y2)) && Zero(m, i * (y1 + y2) - 1)
    ensures y1 == y2
  {
    hide Zero;
    Factors(y1, y2, i);
    Combined(m, 1, Off(a, b, x, y1), -1, Off(a, b, x, y2));
    assert Zero(m, (y1 - y2) * (y1 + y2));
    Combined(m, i, (y1 - y2) * (y1 + y2), -(y1 - y2), i * (y1 + y2) - 1);
    Close(m, y1, y2);
  }

  lemma Reduced(m: int, e: int)
    requires m > 0
    ensures Zero(m, e % m - e) && 0 <= e % m < m
  {
    Multiple(m, -(e / m));
    assert e % m - e == m * -(e / m);
  }

  /** A slope n / d, a line through (x1, y1), and the reflection of another point of the line. */
  lemma OnTheLine(m: int, s: int, n: int, d: int, x1: int, y1: int, x3: int, y3: int)
    requires m > 0 && Zero(m, s * d - n) && Zero(m, y3 + Line(s, x1, y1, x3))
    ensures Zero(m, n * (x3 - x1) - (-y3 - y1) * d)
  {
    hide Zero;
    var w, e3 := x3 - x1, s * d - n;
    Combined(m, -w, e3, d, y3 + s * w + y1);
    calc {
      -w * e3 + d * (y3 + s * w + y1);
      n * w - w * (s * d) + d * (s * w) + d * (y3 + y1);
      { assert w * (s * d) == d * (s * w); }
      n * w - (-y3 - y1) * d;
    }
  }

  lemma ChordSum(m: int, a: int, b: int, i: int, x1: int, y1: int, x2: int, y2: int, s: int, x3: int, y3: int)
    requires m > 1 && Zero(m, Off(a, b, x1, y1)) && Zero(m, Off(a, b, x2, y2)) && ((x2 - x1) * i) % m == 1
    requires s == (y2 - y1) * i % m && x3 == (s * s - x1 - x2) % m && y3 == (s * (x1 - x3) - y1) % m
    ensures 0 <= x3 < m && 0 <= y3 < m && Zero(m, Off(a, b, x3, y3))
    ensures Zero(m, (y2 - y1) * (x3 - x1) - (-y3 - y1) * (x2 - x1))
  {
    Inverse(m, x2 - x1, i);
    Quotient(m, y2 - y1, x2 - x1, i);
    Reduced(m, s * s - x1 - x2);
    Reduced(m, s * (x1 - x3) - y1);
    hide Zero;
    assert y3 - (s * (x1 - x3) - y1) == y3 + Line(s, x1, y1, x3);
    ChordLeavesNothing(m, a, b, s, i, x1, y1, x2, y2);
    ThirdPointOnCurve(m, a, b, s, x1, y1, x2, x3, y3);
    OnTheLine(m, s, y2 - y1, x2 - x1, x1, y1, x3, y3);
  }

  lemma TangentSum(m: int, a: int, b: int, i: int, x1: int, y1: int, s: int, x3: int, y3: int)
    requires m > 1 && Zero(m, Off(a, b, x1, y1)) && ((2 * y1) * i) % m == 1
    requires s == (3 * x1 * x1 + a) * i % m && x3 == (s * s - x1 - x1) % m && y3 == (s * (x1 - x3) - y1) % m
    ensures 0 <= x3 < m && 0 <= y3 < m && Zero(m, Off(a, b, x3, y3))
    ensures Zero(m, (3 * x1 * x1 + a) * (x3 - x1) - (-y3 - y1) * (2 * y1))
  {
    Quotient(m, 3 * x1 * x1 + a, 2 * y1, i);
    Reduced(m, s * s - x1 - x1);
    Reduced(m, s * (x1 - x3) - y1);
    hide Zero;
    assert y3 - (s * (x1 - x3) - y1) == y3 + Line(s, x1, y1, x3);
    TangentLeavesNothing(m, a, b, s, x1, y1);
    ThirdPointOnCurve(m, a, b, s, x1, y1, x1, x3, y3);
    OnTheLine(m, s, 3 * x1 * x1 + a, 2 * y1, x1, y1, x3, y3);
  }

  /** A reduced point of a curve, or the point at infinity. */
  ghost predicate PointOf(m: int, a: int, b: int, p: Point)
    requires m > 0
  {
    p.Some? ==> var (x, y) := p.value; 0 <= x < m && 0 <= y < m && Zero(m, Off(a, b, x, y))
  }

  ghost predicate Inverts(m: int, inv: int -> int)
    requires m > 0
  {
    forall d {:trigger inv(d)} :: d % m != 0 ==> (d * inv(d)) % m == 1
  }

  /** Two points and the reflection of a third: on one line, or on the tangent when the two are
      equal. */
  ghost predicate Reflects(m: int, a: int, p: (int, int), q: (int, int), r: (int, int))
    requires m > 0
  {
    var (dy, dx) := if p == q then (3 * p.0 * p.0 + a, 2 * p.1) else (q.1 - p.1, q.0 - p.0);
    Zero(m, dy * (r.0 - p.0) - (-r.1 - p.1) * dx)
  }

  lemma SumIsThird(m: int, a: int, b: int, inv: int -> int, p: (int, int), q: (int, int))
    requires m > 1 && Inverts(m, inv) && PointOf(m, a, b, Some(p)) && PointOf(m, a, b, Some(q))
    requires !(p.0 == q.0 && (p.1 + q.1) % m == 0)
    ensures var sum := Sum(m, a, inv, Some(p), Some(q));
            sum.Some? && PointOf(m, a, b, sum) && Reflects(m, a, p, q, sum.value)
  {
    var (x1, y1) := p;
    var (x2, y2) := q;
    var (x3, y3) := Sum(m, a, inv, Some(p), Some(q)).value;
    if p == q {
      TangentSum(m, a, b, inv(2 * y1), x1, y1, (3 * x1 * x1 + a) * inv(2 * y1) % m, x3, y3);
    } else {
      if x1 == x2 {
        Inverse(m, y1 + y2, inv(y1 + y2));
        SameAbscissa(m, a, b, x1, y1, y2, inv(y1 + y2));
      }
      if (x2 - x1) % m == 0 {
        Close(m, x2, x1);
      }
      ChordSum(m, a, b, inv(x2 - x1), x1, y1, x2, y2, (y2 - y1) * inv(x2 - x1) % m, x3, y3);
    }
  }

  /** Opposite points cancel; any other sum is again a point of the curve, the reflection of the
      third one on the chord or the tangent. */
  lemma SumReflects(m: int, a: int, b: int, inv: int -> int, p: (int, int), q: (int, int))
    requires m > 1 && Inverts(m, inv) && PointOf(m, a, b, Some(p)) && PointOf(m, a, b, Some(q))
    ensures var sum := Sum(m, a, inv, Some(p), Some(q));
            && PointOf(m, a, b, sum)
            && (sum.None? <==> p.0 == q.0 && (p.1 + q.1) % m == 0)
            && (sum.Some? ==> Reflects(m, a, p, q, sum.value))
  {
    if Sum(m, a, inv, Some(p), Some(q)).Some? {
      SumIsThird(m, a, b, inv, p, q);
    }
  }

  /** A point of P-256 with reduced coordinates, or the point at infinity. */
  ghost predicate OnCurve(p: Point) {
    PointOf(P, A, B, p)
  }

  /** What Fermat's theorem says of `_inv`, P being prime: the only property of P used. */
  ghost predicate Field() {
    Inverts(P, Inv)
  }

  /** The k-fold sum of a point. */
  function Times(k: nat, p: Point): Point {
    if k == 0 then None else Add(Times(k - 1, p), p)
  }

  /** A set of points on which addition is closed and associative, as it is on the curve. */
  ghost predicate Associative(g: iset<Point>) {
    && None in g
    && (forall p, q {:trigger Add(p, q)} :: p in g && q in g ==> Add(p, q) in g)
    && (forall p, q, r {:trigger Add(Add(p, q), r)} {:trigger Add(p, Add(q, r))} ::
          p in g && q in g && r in g ==> Add(Add(p, q), r) == Add(p, Add(q, r)))
  }

  lemma Closed(g: iset<Point>, p: Point, q: Point)
    requires Associative(g) && p in g && q in g
    ensures Add(p, q) in g
  {
    hide Add;
  }

  lemma Reassociate(g: iset<Point>, p: Point, q: Point, r: Point)
    requires Associative(g) && p in g && q in g && r in g
    ensures Add(Add(p, q), r) == Add(p, Add(q, r))
  {
    hide Add;
  }

  lemma NoneIsIdentity(g: iset<Point>, p: Point)
    requires Associative(g)
    ensures None in g && Add(None, p) == p && Add(p, None) == p
  {
  }

  lemma {:induction false} TimesInGroup(g: iset<Point>, k: nat, p: Point)
    requires Associative(g) && p in g
    ensures Times(k, p) in g
  {
    hide Add, Associative;
    if k == 0 {
      NoneIsIdentity(g, p);
    } else {
      TimesInGroup(g, k - 1, p);
      Closed(g, Times(k - 1, p), p);
    }
  }

  lemma {:induction false} TimesSum(g: iset<Point>, a: nat, b: nat, p: Point)
    requires Associative(g) && p in g
    ensures Times(a + b, p) == Add(Times(a, p), Times(b, p))
  {
    hide Add, Associative;
    if b == 0 {
      NoneIsIdentity(g, Times(a, p));
    } else {
      TimesSum(g, a, b - 1, p);
      TimesInGroup(g, a, p);
      TimesInGroup(g, b - 1, p);
      Reassociate(g, Times(a, p), Times(b - 1, p), p);
      assert Times(a + b, p) == Add(Times(a + b - 1, p), p);
    }
  }

  lemma TimesOne(g: iset<Point>, p: Point)
    requires Associative(g)
    ensures Times(1, p) == p && Times(2, p) == Add(p, p)
  {
    hide Add, Associative;
    NoneIsIdentity(g, p);
    assert Times(1, p) == Add(Times(0, p), p);
    assert Times(2, p) == Add(Times(1, p), p);
  }

  lemma {:induction false} TimesDouble(g: iset<Point>, k: nat, p: Point)
    requires Associative(g) && p in g
    ensures Times(2 * k, p) == Times(k, Add(p, p))
  {
    hide Add, Associative;
    if k > 0 {
      TimesDouble(g, k - 1, p);
      TimesSum(g, 2 * (k - 1), 2, p);
      TimesOne(g, p);
      assert 2 * (k - 1) + 2 == 2 * k;
    }
  }

  lemma OddTimes(g: iset<Point>, half: nat, acc: Point, q: Point)
    requires Associative(g) && acc in g && q in g
    ensures Add(acc, Times(1 + 2 * half, q)) == Add(Add(acc, q), Times(2 * half, q))
  {
    hide Add, Associative;
    TimesSum(g, 1, 2 * half, q);
    TimesOne(g, q);
    TimesInGroup(g, 2 * half, q);
    Reassociate(g, acc, q, Times(2 * half, q));
  }

  /** One round keeps the weighted sum `acc + n * q`. */
  lemma Round(g: iset<Point>, acc: Point, n: nat, q: Point)
    requires Associative(g) && acc in g && q in g
    ensures Add(q, q) in g && Add(acc, q) in g
    ensures Add(acc, Times(n, q)) == Add(if n % 2 == 1 then Add(acc, q) else acc, Times(n / 2, Add(q, q)))
  {
    hide *;
    var half := n / 2;
    TimesDouble(g, half, q);
    Closed(g, q, q);
    Closed(g, acc, q);
    if n % 2 == 1 {
      OddTimes(g, half, acc, q);
      assert n == 1 + 2 * half;
    } else {
      assert n == 2 * half;
    }
  }

  /** Sums of points of the curve stay on it. */
  lemma {:induction false} TimesOnCurve(k: nat, p: Point)
    requires Field() && OnCurve(p)
    ensures OnCurve(Times(k, p))
  {
    if k > 0 {
      TimesOnCurve(k - 1, p);
      hide Field, OnCurve, Add;
      SumOnCurve(Times(k - 1, p), p);
    }
  }

  lemma SumOnCurve(p: Point, q: Point)
    requires Field() && OnCurve(p) && OnCurve(q)
    ensures OnCurve(Add(p, q))
  {
    hide Inverts, PointOf, Reflects, Inv, Sum;
    match (p, q)
    case (Some(u), Some(v)) => SumReflects(P, A, B, Inv, u, v);
    case _ => AddNone(p, q);
  }

  lemma AddNone(p: Point, q: Point)
    ensures Add(None, q) == q && Add(p, None) == p
  {
  }

  lemma GeneratorOnCurve()
    ensures OnCurve(Some((GX, GY)))
  {
  }

  /** `_mul`: double-and-add returns the k-fold sum wherever addition is associative; a scalar
      out of range raises, modelled as a failure. */
  method Mul(k: int, p: Point, ghost g: iset<Point>) returns (r: Result<Point, ()>)
    requires Associative(g) && p in g
    ensures r.Success? <==> 0 < k < N
    ensures r.Success? ==> r.value == Times(k, p)
  {
    hide Add, Associative;
    if !(0 < k < N) {
      return Failure(());
    }
    var acc: Point, q, n: nat := None, p, k;
    NoneIsIdentity(g, Times(k, p));
    while n > 0
      invariant q in g && acc in g
      invariant Add(acc, Times(n, q)) == Times(k, p)
      decreases n
    {
      Round(g, acc, n, q);
      if n % 2 == 1 {
        acc := Add(acc, q);
      }
      q := Add(q, q);
      n := n / 2;
    }
    NoneIsIdentity(g, acc);
    return Success(acc);
  }
}
