/** Little-endian 64-bit codec: the registry key encoding
    (encoding/binary.LittleEndian.PutUint64 / Uint64) and the hand-written
    accumulator Btoi64, which builds the same value with shifts and `|=`. */
module LittleEndian {
  import opened Common

  /** The value of a byte string read least significant byte first:
      the sum of b[i] * 256^i. */
  function LeValue(b: seq<U8>): (v: nat)
    ensures v < Pow2(8 * |b|)
  {
    if b == [] then 0
    else
      Pow2Add(8, 8 * (|b| - 1));
      assert Pow2(8) == 256;
      b[0] + 256 * LeValue(b[1..])
  }

  /** The first n bytes of x, least significant first (PutUint64 when n == 8). */
  function LeBytes(x: nat, n: nat): (r: seq<U8>)
    ensures |r| == n
  {
    if n == 0 then [] else [x % 256] + LeBytes(x / 256, n - 1)
  }

  type Key = s: seq<U8> | |s| == 8 witness [0, 0, 0, 0, 0, 0, 0, 0]

  /** binary.LittleEndian.PutUint64 into a fresh 8-byte key. */
  function PutUint64(x: U64): Key
  {
    LeBytes(x, 8)
  }

  /** binary.LittleEndian.Uint64: the address a registry key stands for. */
  function Uint64(key: Key): U64
  {
    Pow2Of64();
    LeValue(key)
  }

  /** Encoding then decoding n bytes keeps x modulo 2^(8n). */
  lemma {:induction false} LeValueOfLeBytes(x: nat, n: nat)
    ensures LeValue(LeBytes(x, n)) == x % Pow2(8 * n)
  {
    if n > 0 {
      LeValueOfLeBytes(x / 256, n - 1);
      Pow2Add(8, 8 * (n - 1));
      assert Pow2(8) == 256;
      ModSplit(x, 256, Pow2(8 * (n - 1)));
      assert LeBytes(x, n)[1..] == LeBytes(x / 256, n - 1);
    }
  }

  /** Decoding then encoding gives back the same bytes. */
  lemma {:induction false} LeBytesOfLeValue(b: seq<U8>)
    ensures LeBytes(LeValue(b), |b|) == b
  {
    if b != [] {
      var rest := LeValue(b[1..]);
      ModUnique(b[0] + 256 * rest, 256, rest, b[0]);
      LeBytesOfLeValue(b[1..]);
    }
  }

  /** The registry key round trip: Uint64(PutUint64(x)) == x. */
  lemma KeyRoundTrip(x: U64)
    ensures Uint64(PutUint64(x)) == x
  {
    LeValueOfLeBytes(x, 8);
    Pow2Of64();
    ModUnique(x, Pow2(64), 0, x);
  }

  /** ... and the other way: every 8-byte key is the encoding of its value. */
  lemma KeyRoundTripBytes(key: Key)
    ensures PutUint64(Uint64(key)) == key
  {
    LeBytesOfLeValue(key);
  }

  /** Distinct addresses have distinct keys. */
  lemma PutUint64Injective(x: U64, y: U64)
    requires PutUint64(x) == PutUint64(y)
    ensures x == y
  {
    KeyRoundTrip(x);
    KeyRoundTrip(y);
  }

  /** Appending a most significant byte. */
  lemma {:induction false} LeValueSnoc(b: seq<U8>, x: U8)
    ensures LeValue(b + [x]) == LeValue(b) + x * Pow2(8 * |b|)
  {
    if b == [] {
      assert b + [x] == [x];
      assert LeValue([x]) == x + 256 * LeValue([]);
    } else {
      var tail := b[1..];
      var p := Pow2(8 * |tail|);
      assert (b + [x])[0] == b[0];
      assert (b + [x])[1..] == tail + [x];
      LeValueSnoc(tail, x);
      var v := LeValue(tail);
      assert LeValue(b + [x]) == b[0] + 256 * (v + x * p);
      assert LeValue(b) == b[0] + 256 * v;
      Pow2Add(8, 8 * |tail|);
      Pow2Of64();
      assert 8 * |b| == 8 + 8 * |tail|;
      assert Pow2(8 * |b|) == 256 * p;
      ScaleSum(v, x, p);
    }
  }

  lemma ScaleSum(v: int, x: int, p: int)
    ensures 256 * (v + x * p) == 256 * v + x * (256 * p)
  {
  }

  /** Bitwise OR on naturals, one bit at a time (Go's `|` on uint64 values). */
  function BitOr(a: nat, b: nat): nat
    decreases a + b
  {
    if a == 0 then b
    else if b == 0 then a
    else 2 * BitOr(a / 2, b / 2) + (if a % 2 == 1 || b % 2 == 1 then 1 else 0)
  }

  /** OR of values in disjoint bit lanes is their sum: a fits below bit k
      and b has no bit below k. */
  lemma {:induction false} DisjointOrIsAdd(a: nat, b: nat, k: nat)
    requires a < Pow2(k)
    requires b % Pow2(k) == 0
    ensures BitOr(a, b) == a + b
    decreases k
  {
    if a != 0 && b != 0 {
      assert k > 0;
      ModSplit(b, 2, Pow2(k - 1));
      assert b % 2 == 0 && (b / 2) % Pow2(k - 1) == 0;
      assert a / 2 < Pow2(k - 1);
      DisjointOrIsAdd(a / 2, b / 2, k - 1);
    }
  }

  /** Go's `x << s` on uint64: bits shifted past bit 63 are lost. */
  function ShiftLeft64(x: U64, s: nat): U64
  {
    Pow2Of64();
    (x * Pow2(s)) % Pow2(64)
  }

  lemma MulMonotone(a: nat, b: nat, c: nat)
    requires a <= b
    ensures a * c <= b * c
  {
    assert b * c == a * c + (b - a) * c;
  }

  /** A byte shifted by at most 56 bits never loses bits, so every lane of
      Btoi64 stays below 2^64. */
  lemma ShiftNeverWraps(b: U8, i: nat)
    requires i < 8
    ensures ShiftLeft64(b, 8 * i) == b * Pow2(8 * i)
  {
    var p := Pow2(8 * i);
    Pow2Monotonic(8 * i, 56);
    Pow2Add(8, 56);
    Pow2Of64();
    MulMonotone(b, 255, p);
    MulMonotone(p, Pow2(56), 255);
    assert 255 * Pow2(56) < 256 * Pow2(56);
    ModUnique(b * p, Pow2(64), 0, b * p);
  }

  /** One round of Btoi64: OR-ing the next byte into its lane appends it. */
  lemma Btoi64Step(prefix: seq<U8>, x: U8)
    requires |prefix| < 8
    ensures LeValue(prefix) < Pow2(64)
    ensures BitOr(LeValue(prefix), ShiftLeft64(x, 8 * |prefix|)) == LeValue(prefix + [x])
  {
    var k := 8 * |prefix|;
    Pow2Monotonic(k, 64);
    ShiftNeverWraps(x, |prefix|);
    var lane := x * Pow2(k);
    ModUnique(lane, Pow2(k), x, 0);
    DisjointOrIsAdd(LeValue(prefix), lane, k);
    LeValueSnoc(prefix, x);
  }

  /** Btoi64: `r |= uint64(val[i]) << (8 * i)` for i < 8. A shorter input
      makes the Go code panic on the index, so it is excluded here. */
  method Btoi64(val: seq<U8>) returns (r: U64)
    requires |val| >= 8
    ensures r == LeValue(val[..8])
  {
    r := 0;
    var i := 0;
    while i < 8
      invariant 0 <= i <= 8
      invariant r == LeValue(val[..i])
    {
      Btoi64Step(val[..i], val[i]);
      assert val[..i + 1] == val[..i] + [val[i]];
      Pow2Monotonic(8 * (i + 1), 64);
      Pow2Of64();
      assert LeValue(val[..i + 1]) < 0x1_0000_0000_0000_0000;
      r := BitOr(r, ShiftLeft64(val[i], 8 * i));
      i := i + 1;
    }
  }

  /** Btoi64 reads only the first eight bytes and inverts PutUint64. */
  lemma Btoi64InvertsPutUint64(x: U64, extra: seq<U8>)
    ensures LeValue((PutUint64(x) + extra)[..8]) == x
  {
    assert (PutUint64(x) + extra)[..8] == PutUint64(x);
    KeyRoundTrip(x);
  }

  /** The configured extended PAN ID: eight bytes of 221. */
  lemma ExtendedPanIdValue()
    ensures LeValue([221, 221, 221, 221, 221, 221, 221, 221]) == 0xDDDD_DDDD_DDDD_DDDD
  {
  }
}
