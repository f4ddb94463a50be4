/** Machine words as bounded integers, with the bit-level operations the hardware uses. */
module Words {

  type Word = x: int | 0 <= x < 0x1_0000_0000
  type Byte = x: int | 0 <= x < 0x100
  type RegIndex = x: int | 0 <= x < 32

  /** Truncation of an unbounded integer to 32 bits. */
  function Wrap(x: int): Word {
    x % 0x1_0000_0000
  }

  /** `x + 4` on 32 bits. */
  function Plus4(x: Word): Word {
    if x < 0xFFFF_FFFC then x + 4 else x - 0xFFFF_FFFC
  }

  /** The two's-complement reading of a word. */
  function Signed(x: Word): int {
    if x < 0x8000_0000 then x else x - 0x1_0000_0000
  }

  function Pow2(n: nat): (p: nat)
    ensures p > 0
  {
    if n == 0 then 1 else 2 * Pow2(n - 1)
  }

  /** The value 0 or 1 of a one-bit signal. */
  function Flag(b: bool): Word {
    if b then 1 else 0
  }

  /** 1 for an event that happens, for counting. */
  function Count(p: bool): nat {
    if p then 1 else 0
  }

  ghost predicate Bit(x: nat, i: nat) {
    if i == 0 then x % 2 == 1 else Bit(x / 2, i - 1)
  }

  function Or(x: nat, y: nat): nat
    decreases x + y
  {
    if x == 0 then y
    else if y == 0 then x
    else 2 * Or(x / 2, y / 2) + (if x % 2 == 1 || y % 2 == 1 then 1 else 0)
  }

  function And(x: nat, y: nat): nat
    decreases x + y
  {
    if x == 0 || y == 0 then 0
    else 2 * And(x / 2, y / 2) + (if x % 2 == 1 && y % 2 == 1 then 1 else 0)
  }

  function Xor(x: nat, y: nat): nat
    decreases x + y
  {
    if x == 0 then y
    else if y == 0 then x
    else 2 * Xor(x / 2, y / 2) + (if x % 2 != y % 2 then 1 else 0)
  }

  /** `~x` on 32 bits. */
  function Not(x: Word): Word {
    0xFFFF_FFFF - x
  }

  // ----- Or, And, Xor and Not act bit by bit -----

  lemma {:induction false} BitOfZero(i: nat)
    ensures !Bit(0, i)
  {
    if i > 0 {
      BitOfZero(i - 1);
    }
  }

  lemma OrHalves(x: nat, y: nat)
    requires x > 0 && y > 0
    ensures Or(x, y) / 2 == Or(x / 2, y / 2)
    ensures Or(x, y) % 2 == 1 <==> x % 2 == 1 || y % 2 == 1
  {
  }

  lemma {:induction false} OrBits(x: nat, y: nat, i: nat)
    ensures Bit(Or(x, y), i) <==> Bit(x, i) || Bit(y, i)
  {
    if x == 0 || y == 0 {
      BitOfZero(i);
    } else {
      OrHalves(x, y);
      if i > 0 {
        OrBits(x / 2, y / 2, i - 1);
      }
    }
  }

  lemma AndHalves(x: nat, y: nat)
    requires x > 0 && y > 0
    ensures And(x, y) / 2 == And(x / 2, y / 2)
    ensures And(x, y) % 2 == 1 <==> x % 2 == 1 && y % 2 == 1
  {
  }

  lemma {:induction false} AndBits(x: nat, y: nat, i: nat)
    ensures Bit(And(x, y), i) <==> Bit(x, i) && Bit(y, i)
  {
    if x == 0 || y == 0 {
      BitOfZero(i);
    } else {
      AndHalves(x, y);
      if i > 0 {
        AndBits(x / 2, y / 2, i - 1);
      }
    }
  }

  lemma XorHalves(x: nat, y: nat)
    requires x > 0 && y > 0
    ensures Xor(x, y) / 2 == Xor(x / 2, y / 2)
    ensures Xor(x, y) % 2 == 1 <==> x % 2 != y % 2
  {
  }

  lemma {:induction false} XorBits(x: nat, y: nat, i: nat)
    ensures Bit(Xor(x, y), i) <==> Bit(x, i) != Bit(y, i)
  {
    if x == 0 || y == 0 {
      BitOfZero(i);
    } else {
      XorHalves(x, y);
      if i > 0 {
        XorBits(x / 2, y / 2, i - 1);
      }
    }
  }

  lemma {:induction false} BitwiseBounds(x: nat, y: nat, n: nat)
    requires x < Pow2(n) && y < Pow2(n)
    ensures Or(x, y) < Pow2(n) && And(x, y) < Pow2(n) && Xor(x, y) < Pow2(n)
  {
    if x > 0 && y > 0 {
      BitwiseBounds(x / 2, y / 2, n - 1);
    }
  }

  lemma Pow2At32()
    ensures Pow2(32) == 0x1_0000_0000
  {
    assert Pow2(8) == 0x100;
    assert Pow2(16) == 0x1_0000;
    assert Pow2(24) == 0x100_0000;
  }

  function OrW(x: Word, y: Word): Word {
    Pow2At32();
    BitwiseBounds(x, y, 32);
    Or(x, y)
  }

  function AndW(x: Word, y: Word): Word {
    Pow2At32();
    BitwiseBounds(x, y, 32);
    And(x, y)
  }

  function XorW(x: Word, y: Word): Word {
    Pow2At32();
    BitwiseBounds(x, y, 32);
    Xor(x, y)
  }

  /** Fields that do not overlap may be combined by `|` or by `+`. */
  lemma {:induction false} OrOfDisjoint(high: nat, low: nat, n: nat)
    requires high % Pow2(n) == 0 && low < Pow2(n)
    ensures Or(high, low) == high + low
  {
    if high > 0 && low > 0 {
      var p := Pow2(n - 1);
      var q := high / Pow2(n);
      assert high == q * (2 * p) == 2 * (q * p);
      assert high / 2 == q * p;
      MultipleMod(q, p);
      OrOfDisjoint(high / 2, low / 2, n - 1);
    }
  }

  lemma MultipleMod(q: nat, p: nat)
    requires p > 0
    ensures (q * p) % p == 0
  {
    QuotientUnique(q * p, q, 0, p);
  }

  /** Euclidean quotient and remainder are determined by their defining equation. */
  lemma QuotientUnique(a: int, q: int, r: int, p: int)
    requires p > 0 && a == q * p + r && 0 <= r < p
    ensures a / p == q && a % p == r
  {
    var k := q - a / p;
    assert k * p == a % p - r;
    MultipleTooBig(k, p);
  }

  lemma MultipleTooBig(k: int, p: int)
    requires p > 0
    ensures k >= 1 ==> k * p >= p
    ensures k <= -1 ==> k * p <= -p
  {
    if k >= 1 {
      assert (k - 1) * p >= 0;
    } else if k <= -1 {
      assert (-k - 1) * p >= 0;
    }
  }

  lemma {:induction false} Pow2Sum(m: nat, n: nat)
    ensures Pow2(m + n) == Pow2(m) * Pow2(n)
  {
    if m > 0 {
      Pow2Sum(m - 1, n);
    }
  }
}
