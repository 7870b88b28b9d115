/** hamming_distance from the bit-flip case study: the number of bit
    positions in which two C `int`s differ, counted by shifting their XOR
    right one bit at a time and adding up the low bits. A distance of 1 is
    what the case study calls a single event upset.

    C `int`s are 32-bit two's complement. On an `int` the loop's `val & 1`
    is `val % 2` (Dafny's `%` never returns a negative remainder, as the low
    bit never is). Shifting a negative `int` right is implementation-defined
    in C (section 6.5.7 of the C99 standard); gcc and clang shift
    arithmetically, and this model follows them: `val >>= 1` is division by 2
    rounded down, which is Dafny's `val / 2` for a positive divisor. */
module Hamming {

  const TwoTo31: nat := 0x8000_0000
  const TwoTo32: nat := 0x1_0000_0000

  /** The values of a C `int`. */
  predicate IsInt32(x: int) {
    -(TwoTo31 as int) <= x < TwoTo31
  }

  function Pow2(k: nat): (p: nat)
    ensures p >= 1
  {
    if k == 0 then 1 else 2 * Pow2(k - 1)
  }

  /** The 32-bit two's-complement pattern of an `int`, read as unsigned. */
  function Pattern(x: int): (p: nat)
    requires IsInt32(x)
    ensures p < TwoTo32
    ensures (x < 0) <==> (p >= TwoTo31)
  {
    if x >= 0 then x else x + TwoTo32
  }

  /** The `int` whose pattern is `p`. */
  function Signed(p: nat): (x: int)
    requires p < TwoTo32
    ensures IsInt32(x) && Pattern(x) == p
  {
    if p < TwoTo31 then p else p - TwoTo32
  }

  /** Bitwise exclusive or of two unsigned values. */
  function Xor(x: nat, y: nat): nat
    decreases x + y
  {
    if x == 0 && y == 0 then 0
    else 2 * Xor(x / 2, y / 2) + (if x % 2 == y % 2 then 0 else 1)
  }

  /** The number of set bits of an unsigned value. */
  function PopCount(n: nat): nat {
    if n == 0 then 0 else n % 2 + PopCount(n / 2)
  }

  /** The reference definition of Hamming distance: walk both values bit by
      bit and count the positions whose bits differ. */
  function DifferingBits(x: nat, y: nat): nat
    decreases x + y
  {
    if x == 0 && y == 0 then 0
    else (if x % 2 == y % 2 then 0 else 1) + DifferingBits(x / 2, y / 2)
  }

  lemma {:induction false} XorBound(x: nat, y: nat, n: nat)
    requires x < Pow2(n) && y < Pow2(n)
    ensures Xor(x, y) < Pow2(n)
    decreases n
  {
    if n > 0 && !(x == 0 && y == 0) {
      XorBound(x / 2, y / 2, n - 1);
    }
  }

  /** The top bit of an XOR is set exactly when the top bits differ. */
  lemma {:induction false} XorTopBit(x: nat, y: nat, n: nat)
    requires x < 2 * Pow2(n) && y < 2 * Pow2(n)
    ensures Xor(x, y) >= Pow2(n) <==> ((x >= Pow2(n)) != (y >= Pow2(n)))
    decreases n
  {
    if n > 0 && !(x == 0 && y == 0) {
      XorTopBit(x / 2, y / 2, n - 1);
    }
  }

  lemma Pow2Of32()
    ensures Pow2(31) == TwoTo31 && Pow2(32) == TwoTo32
  {
    assert Pow2(8) == 256;
    assert Pow2(16) == 65536;
    assert Pow2(24) == 16777216;
  }

  /** C's `a ^ b` on two `int`s. */
  function CXor(a: int, b: int): (r: int)
    requires IsInt32(a) && IsInt32(b)
    ensures IsInt32(r)
  {
    Pow2Of32();
    XorBound(Pattern(a), Pattern(b), 32);
    Signed(Xor(Pattern(a), Pattern(b)))
  }

  /** The XOR of two `int`s is negative exactly when their signs differ. */
  lemma CXorSign(a: int, b: int)
    requires IsInt32(a) && IsInt32(b)
    ensures CXor(a, b) < 0 <==> ((a < 0) != (b < 0))
  {
    Pow2Of32();
    XorTopBit(Pattern(a), Pattern(b), 31);
  }

  /** hamming_distance as written, on the inputs for which its loop ends:
      those whose XOR is not negative. There it counts the differing bits. */
  method HammingDistanceAsWritten(a: int, b: int) returns (dist: nat)
    requires IsInt32(a) && IsInt32(b)
    requires CXor(a, b) >= 0
    ensures dist == PopCount(Xor(Pattern(a), Pattern(b)))
  {
    dist := 0;
    var val := CXor(a, b);
    while val != 0
      invariant val >= 0
      invariant dist + PopCount(val) == PopCount(Xor(Pattern(a), Pattern(b)))
      decreases val
    {
      dist := dist + val % 2;
      val := val / 2;
    }
  }

  /** The value of the as-written loop's `val` after `k` iterations. */
  function AfterShifts(val: int, k: nat): int
    decreases k
  {
    if k == 0 then val else AfterShifts(val / 2, k - 1)
  }

  /** A negative `val` stays negative under arithmetic right shifts, so the
      guard `val != 0` holds after any number of iterations: the loop never
      ends. */
  lemma {:induction false} NegativeNeverReachesZero(val: int, k: nat)
    requires val < 0
    ensures AfterShifts(val, k) < 0
    decreases k
  {
    if k > 0 {
      NegativeNeverReachesZero(val / 2, k - 1);
    }
  }

  /** Every pair of operands of different signs makes the as-written loop
      run forever; -1 and 0 are the smallest instance. */
  lemma AsWrittenDivergesOnMixedSigns(a: int, b: int, k: nat)
    requires IsInt32(a) && IsInt32(b) && (a < 0) != (b < 0)
    ensures AfterShifts(CXor(a, b), k) != 0
  {
    CXorSign(a, b);
    NegativeNeverReachesZero(CXor(a, b), k);
  }

  /** hamming_distance as evidently intended: the XOR is taken on the
      unsigned 32-bit patterns, so the shift brings in zeros and the loop
      counts the set bits of the whole pattern, for every pair of `int`s. */
  method HammingDistance(a: int, b: int) returns (dist: nat)
    requires IsInt32(a) && IsInt32(b)
    ensures dist == PopCount(Xor(Pattern(a), Pattern(b)))
    ensures dist == DifferingBits(Pattern(a), Pattern(b))
  {
    PopCountXorIsDifferingBits(Pattern(a), Pattern(b));
    dist := 0;
    var val: nat := Xor(Pattern(a), Pattern(b));
    while val != 0
      invariant dist + PopCount(val) == PopCount(Xor(Pattern(a), Pattern(b)))
      decreases val
    {
      dist := dist + val % 2;
      val := val / 2;
    }
  }

  /** The set bits of the XOR are exactly the positions where the two
      values differ. */
  lemma {:induction false} PopCountXorIsDifferingBits(x: nat, y: nat)
    ensures PopCount(Xor(x, y)) == DifferingBits(x, y)
    decreases x + y
  {
    if !(x == 0 && y == 0) {
      PopCountXorIsDifferingBits(x / 2, y / 2);
      var r := Xor(x, y);
      assert r / 2 == Xor(x / 2, y / 2);
    }
  }

  lemma {:induction false} XorSelf(x: nat)
    ensures Xor(x, x) == 0
    decreases x
  {
    if x != 0 {
      XorSelf(x / 2);
    }
  }

  lemma {:induction false} XorCommutes(x: nat, y: nat)
    ensures Xor(x, y) == Xor(y, x)
    decreases x + y
  {
    if !(x == 0 && y == 0) {
      XorCommutes(x / 2, y / 2);
    }
  }

  /** A value is at distance 0 from itself. */
  lemma HammingSelfIsZero(a: int)
    requires IsInt32(a)
    ensures PopCount(Xor(Pattern(a), Pattern(a))) == 0
  {
    XorSelf(Pattern(a));
  }

  /** The distance does not depend on the order of the operands. */
  lemma HammingSymmetric(a: int, b: int)
    requires IsInt32(a) && IsInt32(b)
    ensures PopCount(Xor(Pattern(a), Pattern(b))) == PopCount(Xor(Pattern(b), Pattern(a)))
  {
    XorCommutes(Pattern(a), Pattern(b));
  }

  lemma {:induction false} PopCountZero(n: nat)
    ensures PopCount(n) == 0 <==> n == 0
  {
    if n != 0 && n % 2 == 0 {
      PopCountZero(n / 2);
    }
  }

  lemma {:induction false} PopCountOfPow2(k: nat)
    ensures PopCount(Pow2(k)) == 1
  {
    if k > 0 {
      PopCountOfPow2(k - 1);
      assert Pow2(k) / 2 == Pow2(k - 1);
    }
  }

  lemma {:induction false} PopCountOneIsPow2(n: nat)
    requires PopCount(n) == 1
    ensures exists k: nat :: n == Pow2(k)
  {
    PopCountZero(n / 2);
    if n % 2 == 1 {
      assert n == Pow2(0);
    } else {
      PopCountOneIsPow2(n / 2);
      var k: nat :| n / 2 == Pow2(k);
      assert n == Pow2(k + 1);
    }
  }

  /** A distance of 1 (a single event upset) holds exactly when the two
      values differ in one bit position only: their XOR is a power of two. */
  lemma SingleBitFlip(a: int, b: int)
    requires IsInt32(a) && IsInt32(b)
    ensures PopCount(Xor(Pattern(a), Pattern(b))) == 1
            <==> exists k: nat :: Xor(Pattern(a), Pattern(b)) == Pow2(k)
  {
    var x := Xor(Pattern(a), Pattern(b));
    if PopCount(x) == 1 {
      PopCountOneIsPow2(x);
    }
    if exists k: nat :: x == Pow2(k) {
      var k: nat :| x == Pow2(k);
      PopCountOfPow2(k);
    }
  }
}
