/**
 Bit strings and the 32-bit operators the encoder of `tooling/scan-media.ts` uses.
 A bit string is least significant bit first, as in a GIF image.
 */
module Bits {

  function Pow2(n: nat): (r: nat)
    ensures r >= 1
  {
    if n == 0 then 1 else 2 * Pow2(n - 1)
  }

  lemma {:induction false} Pow2Add(a: nat, b: nat)
    ensures Pow2(a + b) == Pow2(a) * Pow2(b)
  {
    if a > 0 {
      Pow2Add(a - 1, b);
      assert Pow2(a) * Pow2(b) == 2 * (Pow2(a - 1) * Pow2(b));
    }
  }

  lemma {:induction false} Pow2Monotone(a: nat, b: nat)
    requires a <= b
    ensures Pow2(a) <= Pow2(b)
  {
    if a < b {
      Pow2Monotone(a, b - 1);
    }
  }

  lemma Pow2Values()
    ensures Pow2(2) == 4 && Pow2(7) == 128 && Pow2(8) == 256 && Pow2(12) == 4096 && Pow2(20) == 0x10_0000
  {
    assert Pow2(4) == 16;
    Pow2Add(4, 3);
    Pow2Add(4, 4);
    Pow2Add(4, 8);
    Pow2Add(8, 12);
  }

  /** The n low bits of v, least significant first. */
  function BitsOf(v: nat, n: nat): (b: seq<bool>)
    ensures |b| == n
  {
    if n == 0 then [] else [v % 2 == 1] + BitsOf(v / 2, n - 1)
  }

  /** The number a bit string stands for. */
  function ValueOf(b: seq<bool>): nat {
    if b == [] then 0 else (if b[0] then 1 else 0) + 2 * ValueOf(b[1..])
  }

  lemma {:induction false} ValueOfBits(v: nat, n: nat)
    requires v < Pow2(n)
    ensures ValueOf(BitsOf(v, n)) == v
  {
    if n > 0 {
      ValueOfBits(v / 2, n - 1);
      assert BitsOf(v, n)[1..] == BitsOf(v / 2, n - 1);
    }
  }

  /** The bits of a number put above a shorter one are the two bit strings one after the other. */
  lemma {:induction false} BitsConcat(lo: nat, n: nat, hi: nat, m: nat)
    requires lo < Pow2(n)
    ensures BitsOf(lo + hi * Pow2(n), n + m) == BitsOf(lo, n) + BitsOf(hi, m)
  {
    if n == 0 {
      assert BitsOf(lo, n) + BitsOf(hi, m) == BitsOf(hi, m);
    } else {
      var v, rest := lo + hi * Pow2(n), hi * Pow2(n - 1);
      assert hi * Pow2(n) == 2 * rest;
      assert v % 2 == lo % 2 && v / 2 == lo / 2 + rest;
      BitsConcat(lo / 2, n - 1, hi, m);
      assert [lo % 2 == 1] + (BitsOf(lo / 2, n - 1) + BitsOf(hi, m))
          == ([lo % 2 == 1] + BitsOf(lo / 2, n - 1)) + BitsOf(hi, m);
    }
  }

  function Zeros(n: nat): (b: seq<bool>)
    ensures |b| == n
  {
    seq(n, _ => false)
  }

  lemma {:induction false} BitsOfZero(n: nat)
    ensures BitsOf(0, n) == Zeros(n)
  {
    if n > 0 {
      BitsOfZero(n - 1);
    }
  }

  /** Zero bits above a number that fits leave it as it is. */
  lemma BitsPadded(v: nat, n: nat, pad: nat)
    requires v < Pow2(n)
    ensures BitsOf(v, n + pad) == BitsOf(v, n) + Zeros(pad)
  {
    BitsConcat(v, n, 0, pad);
    BitsOfZero(pad);
  }

  /** The bits of a byte string. */
  function BytesBits(bytes: seq<nat>): (b: seq<bool>)
    ensures |b| == 8 * |bytes|
  {
    if bytes == [] then [] else BytesBits(bytes[..|bytes| - 1]) + BitsOf(bytes[|bytes| - 1], 8)
  }

  // ----- the language's operators on 32-bit integers

  function ToInt32(x: int): int {
    var r := x % 0x1_0000_0000;
    if r >= 0x8000_0000 then r - 0x1_0000_0000 else r
  }

  /** `x << k` */
  function ShiftLeft(x: int, k: nat): int {
    ToInt32(x * Pow2(k))
  }

  /** `x | y` of two non-negative numbers */
  function BitOr(x: nat, y: nat): nat {
    if x == 0 then y
    else if y == 0 then x
    else (if x % 2 == 1 || y % 2 == 1 then 1 else 0) + 2 * BitOr(x / 2, y / 2)
  }

  lemma {:induction false} BitOrDisjoint(lo: nat, n: nat, hi: nat)
    requires lo < Pow2(n)
    ensures BitOr(lo, hi * Pow2(n)) == lo + hi * Pow2(n)
  {
    if lo > 0 && hi * Pow2(n) > 0 {
      var rest := hi * Pow2(n - 1);
      assert hi * Pow2(n) == 2 * rest;
      BitOrDisjoint(lo / 2, n - 1, hi);
    }
  }
}
