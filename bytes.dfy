/**
 * Byte strings: little-endian fixed-width integer encodings (the canonical
 * encoding used for lengths and field elements) and the lexicographic order
 * on byte strings that an ordered map keyed by `Vec<u8>` uses.
 */
module Bytes {

  type byte = b: int | 0 <= b < 256

  function Pow256(w: nat): (r: nat)
    ensures r > 0
  {
    if w == 0 then 1 else 256 * Pow256(w - 1)
  }

  /** The w-byte little-endian encoding of x mod 256^w. */
  function LeBytes(x: nat, w: nat): (r: seq<byte>)
    ensures |r| == w
  {
    if w == 0 then [] else [x % 256] + LeBytes(x / 256, w - 1)
  }

  /** The number a little-endian byte string denotes. */
  function LeValue(bs: seq<byte>): (r: nat)
    ensures r < Pow256(|bs|)
  {
    if bs == [] then 0 else bs[0] + 256 * LeValue(bs[1..])
  }

  lemma {:induction false} LeRoundTrip(x: nat, w: nat)
    requires x < Pow256(w)
    ensures LeValue(LeBytes(x, w)) == x
  {
    if w > 0 {
      LeRoundTrip(x / 256, w - 1);
      assert LeBytes(x, w)[1..] == LeBytes(x / 256, w - 1);
    }
  }

  /** Encoding is injective on the integers it can represent. */
  lemma LeBytesInjective(x: nat, y: nat, w: nat)
    requires x < Pow256(w) && y < Pow256(w)
    requires LeBytes(x, w) == LeBytes(y, w)
    ensures x == y
  {
    LeRoundTrip(x, w);
    LeRoundTrip(y, w);
  }

  const U64_LIMIT: nat := 0x1_0000_0000_0000_0000

  /** `n as u64`, serialised as 8 little-endian bytes (the length prefix of a `Vec`). */
  function U64Bytes(n: nat): (r: seq<byte>)
    ensures |r| == 8
  {
    LeBytes(n % U64_LIMIT, 8)
  }

  lemma Pow256Of8()
    ensures Pow256(8) == U64_LIMIT
  {
    assert Pow256(2) == 65536;
    assert Pow256(4) == 65536 * 65536 by {
      assert Pow256(4) == 256 * 256 * Pow256(2);
    }
    assert Pow256(6) == 256 * 256 * Pow256(4);
    assert Pow256(8) == 256 * 256 * Pow256(6);
  }

  lemma U64RoundTrip(n: nat)
    requires n < U64_LIMIT
    ensures LeValue(U64Bytes(n)) == n
  {
    assert n % U64_LIMIT == n;
    Pow256Of8();
    LeRoundTrip(n, 8);
  }

  /** A u64 length prefix reads back from the front of whatever follows it. */
  lemma U64Prefix(n: nat, tail: seq<byte>)
    requires n < U64_LIMIT
    ensures |U64Bytes(n) + tail| >= 8
    ensures LeValue((U64Bytes(n) + tail)[..8]) == n
    ensures (U64Bytes(n) + tail)[8..] == tail
  {
    var bs := U64Bytes(n) + tail;
    assert bs[..8] == U64Bytes(n);
    U64RoundTrip(n);
  }

  lemma {:induction false} Pow256Add(a: nat, b: nat)
    ensures Pow256(a + b) == Pow256(a) * Pow256(b)
    decreases a
  {
    if a > 0 {
      Pow256Add(a - 1, b);
    }
  }

  /** 32 bytes hold every integer below 2^256. */
  lemma Pow256Of32()
    ensures Pow256(32) == U64_LIMIT * U64_LIMIT * U64_LIMIT * U64_LIMIT
  {
    Pow256Of8();
    Pow256Add(8, 8);
    Pow256Add(16, 16);
  }

  // ---------------------------------------------------------------------
  // Lexicographic order (the `Ord` of `Vec<u8>`): a proper prefix is smaller.

  predicate Less(a: seq<byte>, b: seq<byte>)
    decreases |a|
  {
    if a == [] then b != []
    else if b == [] then false
    else a[0] < b[0] || (a[0] == b[0] && Less(a[1..], b[1..]))
  }

  lemma {:induction false} LessIrreflexive(a: seq<byte>)
    ensures !Less(a, a)
    decreases |a|
  {
    if a != [] {
      LessIrreflexive(a[1..]);
    }
  }

  lemma {:induction false} LessTransitive(a: seq<byte>, b: seq<byte>, c: seq<byte>)
    requires Less(a, b) && Less(b, c)
    ensures Less(a, c)
    decreases |a|
  {
    if a != [] && b != [] && c != [] && a[0] == b[0] == c[0] {
      LessTransitive(a[1..], b[1..], c[1..]);
    }
  }

  lemma {:induction false} LessTotal(a: seq<byte>, b: seq<byte>)
    requires a != b
    ensures Less(a, b) || Less(b, a)
    decreases |a|
  {
    if a != [] && b != [] && a[0] == b[0] {
      assert a == [a[0]] + a[1..] && b == [b[0]] + b[1..];
      LessTotal(a[1..], b[1..]);
    }
  }

  lemma LessAsymmetric(a: seq<byte>, b: seq<byte>)
    requires Less(a, b)
    ensures !Less(b, a)
  {
    if Less(b, a) {
      LessTransitive(a, b, a);
      LessIrreflexive(a);
    }
  }
}
