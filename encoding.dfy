/**
 * Byte layouts of lib/util/encoding.js: the 32-byte public-key blob, the 8-byte
 * uint64 blob, and the little-endian u64 codec over Node.js Buffers.
 */
module Encoding {
  import opened Wrappers

  /** A buffer-layout `blob`: a fixed number of raw bytes stored under a property name. */
  datatype Layout = Blob(span: nat, property: string)

  /** 2^64: one more than the largest value a u64 holds. */
  const TwoTo64: int := 0x1_0000_0000_0000_0000

  /** The RangeError Node.js raises when a value does not fit in a u64. */
  const ValueOutOfRange := "ERR_OUT_OF_RANGE"
  /** The RangeError Node.js raises when a buffer is read beyond its end. */
  const BufferOutOfBounds := "ERR_BUFFER_OUT_OF_BOUNDS"

  /** The layout of a public key: a 32-byte blob. */
  function PublicKeyLayout(property: string): (l: Layout)
    ensures l.span == 32 && l.property == property
  {
    Blob(32, property)
  }

  /** The layout of a 64-bit unsigned value: an 8-byte blob, named "uint64" unless told otherwise. */
  function Uint64Layout(property: string := "uint64"): (l: Layout)
    ensures l.span == 8 && l.property == property
  {
    Blob(8, property)
  }

  /** 256^k. */
  function Pow256(k: nat): (p: nat)
    ensures p > 0
  {
    if k == 0 then 1 else 256 * Pow256(k - 1)
  }

  /** The number whose little-endian base-256 digits are `s` (least significant first). */
  function FromLE(s: seq<Byte>): nat
  {
    if s == [] then 0 else s[0] as nat + 256 * FromLE(s[1..])
  }

  /** The `k` least significant base-256 digits of `n`, least significant first. */
  function ToLE(n: nat, k: nat): (s: seq<Byte>)
    ensures |s| == k
  {
    if k == 0 then [] else [(n % 256) as Byte] + ToLE(n / 256, k - 1)
  }

  /** A little-endian value of `k` bytes is below 256^k. */
  lemma {:induction false} FromLEBound(s: seq<Byte>)
    ensures FromLE(s) < Pow256(|s|)
  {
    if s != [] {
      FromLEBound(s[1..]);
    }
  }

  /** Decoding an encoding of width k gives the value back, for every value below 256^k. */
  lemma {:induction false} FromToLE(n: nat, k: nat)
    requires n < Pow256(k)
    ensures FromLE(ToLE(n, k)) == n
  {
    if k > 0 {
      FromToLE(n / 256, k - 1);
      assert ToLE(n, k)[1..] == ToLE(n / 256, k - 1);
    }
  }

  /** Encoding a decoded byte string at its own width gives the bytes back. */
  lemma {:induction false} ToFromLE(s: seq<Byte>)
    ensures ToLE(FromLE(s), |s|) == s
  {
    if s != [] {
      ToFromLE(s[1..]);
      assert FromLE(s) % 256 == s[0] as nat;
      assert FromLE(s) / 256 == FromLE(s[1..]);
    }
  }

  /** Multiplying by a positive factor keeps a strict order at least one factor apart. */
  lemma {:induction false} MulGap(d: nat, x: nat, y: nat)
    requires x < y
    ensures d * x + d <= d * y
    decreases y - x
  {
    assert d * y == d * (y - 1) + d;
    if x + 1 < y {
      MulGap(d, x, y - 1);
    }
  }

  /** Euclidean division is determined by its quotient and remainder. */
  lemma DivUnique(n: nat, d: nat, q: nat, r: nat)
    requires d > 0 && n == d * q + r && r < d
    ensures n / d == q
  {
    var q', r' := n / d, n % d;
    assert n == d * q' + r';
    if q' < q {
      MulGap(d, q', q);
    } else if q' > q {
      MulGap(d, q, q');
    }
  }

  /** Dividing twice is dividing by the product, for non-negative numerators. */
  lemma DivDiv(n: nat, a: nat, b: nat)
    requires a > 0 && b > 0
    ensures n / a / b == n / (a * b)
  {
    var q, r := n / a, n % a;
    var q2, r2 := q / b, q % b;
    assert n == a * q + r;
    assert q == b * q2 + r2;
    assert a * q == a * (b * q2) + a * r2;
    assert a * (b * q2) == (a * b) * q2;
    assert a * r2 + a <= a * b by {
      MulGap(a, r2, b);
    }
    DivUnique(n, a * b, q2, a * r2 + r);
  }

  /** Byte i of the k-byte little-endian encoding of n is (n / 256^i) % 256. */
  lemma {:induction false} ToLEByte(n: nat, k: nat, i: nat)
    requires i < k
    ensures ToLE(n, k)[i] as int == (n / Pow256(i)) % 256
  {
    if i > 0 {
      ToLEByte(n / 256, k - 1, i - 1);
      DivDiv(n, 256, Pow256(i - 1));
    }
  }

  /**
   * u64FromBuffer: reads bytes 0..7 of the buffer as a little-endian u64;
   * later bytes are ignored and a buffer shorter than 8 bytes is an error.
   */
  function U64FromBuffer(buf: seq<Byte>): (r: Result<nat, string>)
    ensures r.Success? <==> |buf| >= 8
    ensures r.Success? ==> r.value < TwoTo64 && ToLE(r.value, 8) == buf[..8]
    ensures r.Failure? ==> r.error == BufferOutOfBounds
  {
    if |buf| < 8 then Failure(BufferOutOfBounds)
    else
      FromLEBound(buf[..8]);
      ToFromLE(buf[..8]);
      Success(FromLE(buf[..8]))
  }

  /**
   * u64LEBuffer: allocates an 8-byte buffer and writes `n` into it little-endian;
   * a value outside 0 .. 2^64-1 is an error.
   */
  method U64LEBuffer(n: int) returns (r: Result<seq<Byte>, string>)
    ensures r.Success? <==> 0 <= n < TwoTo64
    ensures r.Success? ==> r.value == ToLE(n, 8)
    ensures r.Failure? ==> r.error == ValueOutOfRange
  {
    if !(0 <= n < TwoTo64) {
      return Failure(ValueOutOfRange);
    }
    var buf := new Byte[8];
    var rest: nat := n;
    for i := 0 to 8
      invariant buf[..i] + ToLE(rest, 8 - i) == ToLE(n, 8)
    {
      assert ToLE(rest, 8 - i) == [(rest % 256) as Byte] + ToLE(rest / 256, 8 - i - 1);
      buf[i] := (rest % 256) as Byte;
      assert buf[..i + 1] == buf[..i] + [(rest % 256) as Byte];
      rest := rest / 256;
    }
    assert buf[..8] == buf[..];
    return Success(buf[..]);
  }

  /** Every byte of u64LEBuffer's output is the matching base-256 digit, and the output fills a uint64 layout. */
  lemma U64LEBytes(n: nat, i: nat)
    requires n < TwoTo64 && i < 8
    ensures |ToLE(n, 8)| == Uint64Layout().span
    ensures ToLE(n, 8)[i] as int == (n / Pow256(i)) % 256
  {
    ToLEByte(n, 8, i);
  }

  /** Round trip: decoding the encoding of a u64 gives it back. */
  lemma U64RoundTrip(n: nat)
    requires n < TwoTo64
    ensures U64FromBuffer(ToLE(n, 8)) == Success(n)
  {
    assert Pow256(8) == TwoTo64;
    FromToLE(n, 8);
    assert ToLE(n, 8)[..8] == ToLE(n, 8);
  }

  /** Reverse round trip: re-encoding what was decoded gives back the first eight bytes. */
  lemma U64ReverseRoundTrip(buf: seq<Byte>)
    requires |buf| >= 8
    ensures U64FromBuffer(buf).Success?
    ensures ToLE(U64FromBuffer(buf).value, 8) == buf[..8]
  {
  }
}
