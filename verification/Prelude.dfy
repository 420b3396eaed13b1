/** Bytes, machine integers, failure types and a few facts about finite maps. */
module Prelude {

  type Byte = x: int | 0 <= x < 256
  type Bytes = seq<Byte>

  /** A Rust `str`: its UTF-8 bytes, so that `len()` is a byte count. */
  type Str = Bytes

  type Bytes16 = b: Bytes | |b| == 16 witness seq(16, _ => 0)
  type Bytes32 = b: Bytes | |b| == 32 witness seq(32, _ => 0)

  const U64_LIMIT := 0x1_0000_0000_0000_0000
  type U64 = x: int | 0 <= x < U64_LIMIT

  datatype Option<+T> = None | Some(value: T) {
    function OkOr<E>(error: E): Result<T, E> {
      match this
      case None => Failure(error)
      case Some(v) => Success(v)
    }
  }

  datatype Result<+T, +E> = Success(value: T) | Failure(error: E) {
    predicate IsFailure() { Failure? }

    function PropagateFailure<U>(): Result<U, E>
      requires Failure?
    {
      Failure(error)
    }

    function Extract(): T
      requires Success?
    {
      value
    }
  }

  function Need<E>(condition: bool, error: E): Result<(), E> {
    if condition then Success(()) else Failure(error)
  }

  /** `u64::saturating_add`. */
  function SaturatingAdd(a: U64, b: nat): U64 {
    if a + b < U64_LIMIT then a + b else U64_LIMIT - 1
  }

  function Min(a: int, b: int): int {
    if a <= b then a else b
  }

  function Max(a: int, b: int): int {
    if a <= b then b else a
  }

  /** The bytes of an ASCII literal. */
  function Ascii(s: string): Str
    requires forall i :: 0 <= i < |s| ==> s[i] < 128 as char
  {
    seq(|s|, i requires 0 <= i < |s| => s[i] as int)
  }

  function Remove<K, V>(m: map<K, V>, k: K): map<K, V> {
    m - {k}
  }

  /** Every entry of `a` is an entry of `b`. */
  ghost predicate Within<K, V>(a: map<K, V>, b: map<K, V>) {
    forall k <- a :: k in b && a[k] == b[k]
  }

  lemma WithinSize<K, V>(a: map<K, V>, b: map<K, V>)
    requires a.Keys <= b.Keys
    ensures |a| <= |b|
    ensures |a| == |b| ==> a.Keys == b.Keys
  {
    SubsetSize(a.Keys, b.Keys);
  }

  lemma {:induction false} SubsetSize<T>(a: set<T>, b: set<T>)
    requires a <= b
    ensures |a| <= |b|
    ensures |a| == |b| ==> a == b
    decreases a
  {
    if a != {} {
      var x :| x in a;
      SubsetSize(a - {x}, b - {x});
    }
  }
}
