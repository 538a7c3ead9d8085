/** WireGuard private keys: 32 random bytes clamped in place (section 5 of RFC 7748). */
module Clamp {
  import opened Bits

  /** A key as the little-endian integer it stands for. */
  function LittleEndian(s: seq<Byte>): nat {
    if s == [] then 0 else s[0] + 256 * LittleEndian(s[1..])
  }

  lemma SmallPowers()
    ensures Pow2(3) == 8 && Pow2(6) == 64 && Pow2(7) == 128 && Pow2(8) == 256
  {
    assert Pow2(4) == 16;
    Pow2Plus(4, 4);
  }

  lemma AndFirst(b: Byte)
    ensures BitAnd(b, 248) == b - b % 8
  {
    SmallPowers();
    AndHigh(b, 3, 8);
  }

  lemma AndLast(b: Byte)
    ensures BitAnd(b, 127) == b % 128
  {
    SmallPowers();
    AndLow(b, 7);
  }

  lemma OrLast(a: nat)
    requires a < 128
    ensures BitOr(a, 64) == 64 + a % 64
  {
    SmallPowers();
    OrBit(a, 6);
  }

  lemma LastSix(b: Byte, low: nat)
    requires low == b % 128
    ensures low < 128 && low % 64 == b % 64
  {
  }

  function ClampFirst(b: Byte): (r: Byte)
    ensures r == b - b % 8
  {
    AndFirst(b);
    BitAnd(b, 248)
  }

  function ClampLast(b: Byte): (r: Byte)
    ensures r == 64 + b % 64
  {
    AndLast(b);
    var low := BitAnd(b, 127);
    OrLast(low);
    LastSix(b, low);
    BitOr(low, 64)
  }

  function Clamped(key: seq<Byte>): (r: seq<Byte>)
    requires |key| == 32
    ensures |r| == 32
  {
    key[0 := ClampFirst(key[0])][31 := ClampLast(key[31])]
  }

  /** The masking of generateWGPrivateKey, in place. */
  method ClampKey(key: array<Byte>)
    requires key.Length == 32
    modifies key
    ensures key[..] == Clamped(old(key[..]))
  {
    key[0] := ClampFirst(key[0]);
    key[31] := ClampLast(key[31]);
  }

  lemma EightMore(n: nat)
    ensures Pow2(8 + n) == 256 * Pow2(n)
  {
    SmallPowers();
    Pow2Plus(8, n);
  }

  lemma {:induction false} LittleEndianBound(s: seq<Byte>)
    ensures LittleEndian(s) < Pow2(8 * |s|)
  {
    if s != [] {
      LittleEndianBound(s[1..]);
      EightMore(8 * |s[1..]|);
    }
  }

  lemma {:induction false} LittleEndianSnoc(s: seq<Byte>, b: Byte)
    ensures LittleEndian(s + [b]) == LittleEndian(s) + Pow2(8 * |s|) * b
  {
    if s == [] {
      assert [] + [b] == [b] && [b][1..] == [];
    } else {
      var t := s[1..];
      assert (s + [b])[1..] == t + [b];
      LittleEndianSnoc(t, b);
      EightMore(8 * |t|);
      var p := Pow2(8 * |t|);
      assert 256 * p * b == 256 * (p * b);
    }
  }

  /** A key read as two digits: its last byte, and the number the others make. The latter
      has the remainder of the first byte modulo 8. */
  lemma KeyDigits(key: seq<Byte>) returns (low: nat, p: nat)
    requires |key| == 32
    ensures p == Pow2(8 * |key| - 8) && low < p && LittleEndian(key) == key[31] * p + low
    ensures low == key[0] + 256 * LittleEndian(key[1..31])
  {
    var init := key[..31];
    assert key == init + [key[31]];
    LittleEndianSnoc(init, key[31]);
    LittleEndianBound(init);
    assert init[1..] == key[1..31];
    low, p := LittleEndian(init), Pow2(8 * |init|);
  }

  lemma LowThreeBits(first: nat, m: nat)
    ensures (first + 8 * m) % 8 == first % 8
  {
  }

  /** Clamping a two-digit number digit by digit. */
  lemma ClampedDigits(top: Byte, low: nat, p: nat, q: nat, p64: nat, u: nat, v: nat)
    requires low < p && p == 8 * q && p64 == 64 * p
    requires u == top * p + low && v == (64 + top % 64) * p + (low - low % 8)
    ensures p64 > 0 && v == p64 + u % p64 - u % 8
  {
    RemainderOfDigits(top, low, p, 64);
    var x := top * q;
    assert top * p == 8 * x;
    LowThreeBits(low, x);
    var s := top % 64;
    assert (64 + s) * p == 64 * p + s * p;
  }

  /** What clamping does to the bytes. */
  predicate ClampOf(key: seq<Byte>, c: seq<Byte>) {
    && |key| == |c| == 32
    && c[0] == key[0] - key[0] % 8 && c[31] == 64 + key[31] % 64 && c[1..31] == key[1..31]
  }

  lemma ClampedBytes(key: seq<Byte>)
    requires |key| == 32
    ensures ClampOf(key, Clamped(key))
  {
  }

  lemma KeyScale(n: nat)
    requires n == 248
    ensures Pow2(n) == 8 * Pow2(n - 3) && Pow2(n + 6) == 64 * Pow2(n) && Pow2(n + 7) == 128 * Pow2(n)
  {
    SmallPowers();
    Pow2Plus(3, n - 3);
    Pow2Plus(6, n);
    Pow2Plus(7, n);
  }

  lemma FirstDigit(first: nat, middle: nat, low: nat)
    requires low == first + 256 * middle
    ensures first - first % 8 + 256 * middle == low - low % 8
  {
    LowThreeBits(first, 32 * middle);
  }

  lemma ClampOfValue(key: seq<Byte>, c: seq<Byte>)
    requires ClampOf(key, c)
    ensures LittleEndian(c)
            == Pow2(8 * |key| - 2) + LittleEndian(key) % Pow2(8 * |key| - 2) - LittleEndian(key) % 8
  {
    var low, p := KeyDigits(key);
    var clow, cp := KeyDigits(c);
    FirstDigit(key[0], LittleEndian(key[1..31]), low);
    var n := 8 * |key| - 8;
    KeyScale(n);
    ClampedDigits(key[31], low, p, Pow2(n - 3), Pow2(n + 6), LittleEndian(key), LittleEndian(c));
  }

  /** Clamping clears the low three bits, clears the top bit and sets the one below it; the
      bits between are those of the random bytes. For 32 bytes 8 * |key| - 2 is 254. */
  lemma ClampedValue(key: seq<Byte>)
    requires |key| == 32
    ensures LittleEndian(Clamped(key))
            == Pow2(8 * |key| - 2) + LittleEndian(key) % Pow2(8 * |key| - 2) - LittleEndian(key) % 8
  {
    ClampedBytes(key);
    ClampOfValue(key, Clamped(key));
  }

  lemma MultipleOfEight(top: nat, first: nat, middle: nat, q: nat)
    requires first % 8 == 0
    ensures (top * (8 * q) + (first + 256 * middle)) % 8 == 0
  {
    var x := top * q;
    assert top * (8 * q) == 8 * x;
    LowThreeBits(first, x + 32 * middle);
  }

  lemma TopByteBounds(top: nat, low: nat, p: nat)
    requires 64 <= top < 128 && low < p
    ensures 64 * p <= top * p + low < 128 * p
  {
    assert 64 * p <= top * p;
    assert (top + 1) * p <= 128 * p;
    assert (top + 1) * p == top * p + p;
  }

  lemma FirstBits(b: Byte)
    ensures var x := b - b % 8; x % 8 == 0 && x == 8 * (x / 8)
  {
  }

  lemma LastBits(b: Byte)
    ensures var x := 64 + b % 64; 64 <= x < 128 && 64 + x % 64 == x
  {
  }

  /** The two digits of a clamped key, as plain numbers. */
  lemma RangeOfDigits(v: nat, top: nat, first: nat, middle: nat, p: nat, q: nat)
    requires v == top * p + (first + 256 * middle) && first + 256 * middle < p && p == 8 * q
    requires first % 8 == 0 && 64 <= top < 128
    ensures v % 8 == 0 && 64 * p <= v < 128 * p
  {
    MultipleOfEight(top, first, middle, q);
    TopByteBounds(top, first + 256 * middle, p);
  }

  lemma ClampOfRangeAt(key: seq<Byte>, c: seq<Byte>, low: nat, p: nat, q: nat)
    requires ClampOf(key, c) && LittleEndian(c) == c[31] * p + low && low < p && p == 8 * q
    requires low == c[0] + 256 * LittleEndian(c[1..31])
    ensures LittleEndian(c) % 8 == 0 && 64 * p <= LittleEndian(c) < 128 * p
  {
    FirstBits(key[0]);
    LastBits(key[31]);
    RangeOfDigits(LittleEndian(c), c[31], c[0], LittleEndian(c[1..31]), p, q);
  }

  lemma ClampOfRange(key: seq<Byte>, c: seq<Byte>)
    requires ClampOf(key, c)
    ensures LittleEndian(c) % 8 == 0
    ensures Pow2(8 * |key| - 2) <= LittleEndian(c) < Pow2(8 * |key| - 1)
  {
    var low, p := KeyDigits(c);
    var n := 8 * |key| - 8;
    KeyScale(n);
    ClampOfRangeAt(key, c, low, p, Pow2(n - 3));
  }

  /** Every clamped key is a multiple of 8 in [2^254, 2^255). */
  lemma ClampedRange(key: seq<Byte>)
    requires |key| == 32
    ensures LittleEndian(Clamped(key)) % 8 == 0
    ensures Pow2(8 * |key| - 2) <= LittleEndian(Clamped(key)) < Pow2(8 * |key| - 1)
  {
    ClampedBytes(key);
    ClampOfRange(key, Clamped(key));
  }

  lemma Unchanged(key: seq<Byte>)
    requires |key| == 32 && key[0] % 8 == 0 && 64 + key[31] % 64 == key[31]
    ensures Clamped(key) == key
  {
    assert ClampFirst(key[0]) == key[0];
    assert ClampLast(key[31]) == key[31];
  }

  /** Clamping a clamped key changes nothing. */
  lemma ClampIdempotent(key: seq<Byte>)
    requires |key| == 32
    ensures Clamped(Clamped(key)) == Clamped(key)
  {
    var c := Clamped(key);
    ClampedBytes(key);
    FirstBits(key[0]);
    LastBits(key[31]);
    Unchanged(c);
  }
}
