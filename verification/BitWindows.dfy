/** The bit-level steps of the base32 accumulator: five bits shifted in at the bottom of
    32, and a byte read out above the bits that stay. */
module BitWindows {
  type Byte = n: nat | n < 256

  /** The lowest n bits, most significant first. */
  function Low(v: bv32, n: nat): (r: seq<bool>)
    ensures |r| == n
    decreases n, v
  {
    if n == 0 then [] else Low(v >> 1, n - 1) + [v & 1 == 1]
  }

  /** The last n binary digits of a number, most significant first. */
  function Digits(v: nat, n: nat): (r: seq<bool>)
    ensures |r| == n
    decreases n, v
  {
    if n == 0 then [] else Digits(v / 2, n - 1) + [v % 2 == 1]
  }

  function NumberOf(bits: seq<bool>): nat {
    if bits == [] then 0 else 2 * NumberOf(bits[..|bits| - 1]) + if bits[|bits| - 1] then 1 else 0
  }

  function Pow2(n: nat): nat {
    if n == 0 then 1 else 2 * Pow2(n - 1)
  }

  /** The unsigned shift, one place at a time. */
  function ShiftedRight(v: bv32, n: nat): bv32
    decreases n
  {
    if n == 0 then v else ShiftedRight(v >> 1, n - 1)
  }

  // ---- numbers and their digits ---------------------------------------------------------------

  lemma {:induction false} NumberOfDigits(v: nat, n: nat)
    requires v < Pow2(n)
    ensures NumberOf(Digits(v, n)) == v
    decreases n
  {
    if n > 0 {
      NumberOfDigits(v / 2, n - 1);
      assert Digits(v, n)[..n - 1] == Digits(v / 2, n - 1);
    }
  }

  lemma {:induction false} DigitsOfNumber(bits: seq<bool>)
    ensures NumberOf(bits) < Pow2(|bits|)
    ensures Digits(NumberOf(bits), |bits|) == bits
    decreases |bits|
  {
    if bits != [] {
      DigitsOfNumber(bits[..|bits| - 1]);
      assert bits == bits[..|bits| - 1] + [bits[|bits| - 1]];
    }
  }

  lemma SmallPowers()
    ensures Pow2(5) == 32 && Pow2(8) == 256
  {
    assert Pow2(3) == 8;
    assert Pow2(6) == 64;
  }

  // ---- agreement on the low bits ---------------------------------------------------------------

  /** The mask's lowest n bits are all set. */
  predicate Covers(m: bv32, n: nat)
    decreases n
  {
    if n == 0 then true else m & 1 == 1 && Covers(m >> 1, n - 1)
  }

  lemma {:induction false} Agree(v: bv32, x: bv32, m: bv32, covered: nat, n: nat)
    requires (v ^ x) & m == 0 && Covers(m, covered) && n <= covered
    ensures Low(v, n) == Low(x, n)
    decreases n
  {
    if n > 0 {
      OneStep(v, x, m);
      Agree(v >> 1, x >> 1, m >> 1, covered - 1, n - 1);
    }
  }

  lemma OneStep(v: bv32, x: bv32, m: bv32)
    requires (v ^ x) & m == 0 && m & 1 == 1
    ensures ((v >> 1) ^ (x >> 1)) & (m >> 1) == 0 && v & 1 == x & 1
  {}

  lemma ByteMask()
    ensures Covers(0xff, 8)
  {
    assert Covers(0x03, 2);
    assert Covers(0x0f, 4);
    assert Covers(0x3f, 6);
  }

  lemma {:induction false} LowSplits(v: bv32, n: nat, s: nat)
    ensures Low(v, n + s) == Low(ShiftedRight(v, s), n) + Low(v, s)
    decreases s
  {
    if s > 0 {
      LowSplits(v >> 1, n, s - 1);
    }
  }

  lemma {:induction false} LowAreDigits(x: bv32, n: nat)
    requires x < 256
    ensures Low(x, n) == Digits(x as nat, n)
    decreases n
  {
    if n > 0 {
      Halved(x);
      LowAreDigits(x >> 1, n - 1);
    }
  }

  lemma Halved(x: bv32)
    requires x < 256
    ensures (x >> 1) as nat == (x as nat) / 2 && x >> 1 < 256
    ensures (x & 1 == 1) == ((x as nat) % 2 == 1)
  {}

  // ---- five bits in ------------------------------------------------------------------------------

  method ShiftIn(value: bv32, ghost bits: nat, index: nat) returns (next: bv32)
    requires bits < 8 && index < 32
    ensures Low(next, bits + 5) == Low(value, bits) + Digits(index, 5)
  {
    next := (value << 5) | (index as bv32);
    ComesIn(value, bits, index, index as bv32);
  }

  lemma ComesIn(v: bv32, bits: nat, index: nat, i: bv32)
    requires bits < 8 && index < 32 && i == index as bv32
    ensures Low((v << 5) | i, bits + 5) == Low(v, bits) + Digits(index, 5)
  {
    var w := (v << 5) | i;
    IndexFits(index);
    MovedUp(v, i, w);
    LowSplits(w, bits, 5);
    FiveDown(w);
    ByteMask();
    Agree(w >> 5, v, 0xff, 8, bits);
    assert Covers(0x1f, 5) by { assert Covers(0x07, 3); }
    Agree(w, i, 0x1f, 5, 5);
    LowAreDigits(i, 5);
  }

  lemma IndexFits(index: nat)
    requires index < 32
    ensures index as bv32 < 32 && (index as bv32) as nat == index
  {}

  lemma FiveDown(w: bv32)
    ensures ShiftedRight(w, 5) == w >> 5
  {
    assert ShiftedRight(w, 5) == ShiftedRight(w >> 1 >> 1, 3) == ShiftedRight(w >> 1 >> 1 >> 1 >> 1, 1);
  }

  /** What falls off the top of the 32 bits is not among the low eight. */
  lemma MovedUp(v: bv32, i: bv32, w: bv32)
    requires i < 32 && w == (v << 5) | i
    ensures ((w >> 5) ^ v) & 0xff == 0 && (w ^ i) & 0x1f == 0
  {}

  // ---- eight bits out ----------------------------------------------------------------------------

  method ShiftOut(value: bv32, bits: nat) returns (b: Byte)
    requires 8 <= bits
    ensures Low(value, bits) == Digits(b, 8) + Low(value, bits - 8)
  {
    Masked(ShiftedRight(value, bits - 8));
    b := (ShiftedRight(value, bits - 8) & 0xff) as nat;
    ComesOut(value, bits - 8);
  }

  lemma Masked(x: bv32)
    ensures (x & 0xff) < 256 && (x & 0xff) as nat < 256
  {}

  lemma ComesOut(v: bv32, s: nat)
    ensures Low(v, 8 + s) == Digits((ShiftedRight(v, s) & 0xff) as nat, 8) + Low(v, s)
  {
    var x := ShiftedRight(v, s);
    LowSplits(v, 8, s);
    Masked(x);
    LowestByte(x);
    LowAreDigits(x & 0xff, 8);
  }

  lemma LowestByte(x: bv32)
    ensures Low(x & 0xff, 8) == Low(x, 8)
  {
    ByteMask();
    assert ((x & 0xff) ^ x) & 0xff == 0;
    Agree(x & 0xff, x, 0xff, 8, 8);
  }
}
