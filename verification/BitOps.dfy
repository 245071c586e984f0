/** The bit utilities of grlib_utilgrspw.c, on the two kinds of 32-bit words of the device.

    Words that are only ever masked (the control and status registers) are bit-vectors.
    Words that also serve as numbers (addresses, lengths, descriptor words) are integers
    below 2^32; on those, `&` and `|` are defined digit by digit and related to division
    and remainder. */
module BitOps {

  type word = bv32
  newtype byte = n: int | 0 <= n < 0x100
  type uint32 = n: int | 0 <= n < 0x1_0000_0000

  // ---- masks on bit-vector words ----

  predicate CheckBit(reg: word, mask: word) {
    mask == reg & mask
  }

  function SetBit(reg: word, mask: word): word {
    reg | mask
  }

  function ClearBit(reg: word, mask: word): word {
    reg & !mask
  }

  function Deposit(reg: word, mask: word, value: word): word {
    (reg & !mask) | (value & mask)
  }

  // Setting or clearing some bits leaves the other bits alone, and operations on different bits can
  // be done in either order. The facts on plain `&` and `|` come first.

  lemma OrOther(reg: word, m: word, n: word)
    ensures m & n == 0 ==> (reg | m) & n == reg & n
  {
  }

  lemma AndOther(reg: word, m: word, n: word)
    ensures m & n == 0 ==> (reg & !m) & n == reg & n
  {
  }

  lemma OrOr(reg: word, m: word, n: word)
    ensures (reg | m) | n == (reg | n) | m
  {
  }

  lemma AndAnd(reg: word, m: word, n: word)
    ensures (reg & !m) & !n == (reg & !n) & !m
  {
  }

  lemma AndOr(reg: word, m: word, n: word)
    ensures m & n == 0 ==> (reg & !m) | n == (reg | n) & !m
  {
  }

  lemma CheckOtherSet(reg: word, m: word, n: word)
    requires m & n == 0
    ensures CheckBit(SetBit(reg, m), n) == CheckBit(reg, n)
  {
    OrOther(reg, m, n);
  }

  lemma CheckOtherClear(reg: word, m: word, n: word)
    requires m & n == 0
    ensures CheckBit(ClearBit(reg, m), n) == CheckBit(reg, n)
  {
    AndOther(reg, m, n);
  }

  lemma SetTwice(reg: word, m: word)
    ensures SetBit(SetBit(reg, m), m) == SetBit(reg, m)
  {
  }

  lemma CheckCleared(reg: word, m: word)
    requires m != 0
    ensures !CheckBit(ClearBit(reg, m), m)
  {
  }

  lemma SetIsOr(reg: word, m: word, r: word)
    requires r == SetBit(reg, m)
    ensures r == reg | m
  {
  }

  lemma ClearIsAnd(reg: word, m: word, r: word)
    requires r == ClearBit(reg, m)
    ensures r == reg & !m
  {
  }

  lemma SetSet(reg: word, m: word, n: word)
    ensures SetBit(SetBit(reg, m), n) == SetBit(SetBit(reg, n), m)
  {
    hide SetBit;
    OrOr(reg, m, n);
    var a, b := SetBit(reg, m), SetBit(reg, n);
    SetIsOr(reg, m, a);
    SetIsOr(reg, n, b);
    SetIsOr(a, n, SetBit(a, n));
    SetIsOr(b, m, SetBit(b, m));
  }

  lemma ClearClear(reg: word, m: word, n: word)
    ensures ClearBit(ClearBit(reg, m), n) == ClearBit(ClearBit(reg, n), m)
  {
    hide ClearBit;
    AndAnd(reg, m, n);
    var a, b := ClearBit(reg, m), ClearBit(reg, n);
    ClearIsAnd(reg, m, a);
    ClearIsAnd(reg, n, b);
    ClearIsAnd(a, n, ClearBit(a, n));
    ClearIsAnd(b, m, ClearBit(b, m));
  }

  lemma SetClear(reg: word, m: word, n: word)
    requires m & n == 0
    ensures SetBit(ClearBit(reg, m), n) == ClearBit(SetBit(reg, n), m)
  {
    hide SetBit, ClearBit;
    AndOr(reg, m, n);
    var a, b := ClearBit(reg, m), SetBit(reg, n);
    ClearIsAnd(reg, m, a);
    SetIsOr(reg, n, b);
    SetIsOr(a, n, SetBit(a, n));
    ClearIsAnd(b, m, ClearBit(b, m));
  }

  // ---- the same operations on numbers ----

  function And(a: nat, b: nat): (r: nat)
    ensures r <= a && r <= b
  {
    if a == 0 || b == 0 then 0
    else 2 * And(a / 2, b / 2) + (if a % 2 == 1 && b % 2 == 1 then 1 else 0)
  }

  function Or(a: nat, b: nat): nat
    decreases a + b
  {
    if a == 0 && b == 0 then 0
    else 2 * Or(a / 2, b / 2) + (if a % 2 == 1 || b % 2 == 1 then 1 else 0)
  }

  /** The complement of a 32-bit mask. */
  function Not(mask: uint32): uint32 {
    0xFFFF_FFFF - mask
  }

  /** Unsigned addition wraps around. */
  function Add(a: uint32, b: uint32): uint32 {
    if a + b < 0x1_0000_0000 then a + b else a + b - 0x1_0000_0000
  }

  predicate Check(reg: uint32, mask: uint32) {
    mask == And(reg, mask)
  }

  function Set(reg: nat, mask: nat): nat {
    Or(reg, mask)
  }

  function Clear(reg: uint32, mask: uint32): uint32 {
    And(reg, Not(mask))
  }

  function Insert(reg: uint32, mask: uint32, value: uint32): nat {
    Or(And(reg, Not(mask)), And(value, mask))
  }

  // ---- what they mean as arithmetic ----

  function Pow2(k: nat): (p: nat)
    ensures p >= 1
  {
    if k == 0 then 1 else 2 * Pow2(k - 1)
  }

  /** The number held in the n bits of w that start at bit lo. */
  function Field(w: nat, lo: nat, n: nat): nat {
    w / Pow2(lo) % Pow2(n)
  }

  /** FIELDMASK(n) << lo. */
  function FieldMask(lo: nat, n: nat): nat {
    (Pow2(n) - 1) * Pow2(lo)
  }

  lemma DivTwice(w: nat, p: nat)
    requires p >= 1
    ensures w / 2 / p == w / (2 * p)
  {
    var q, r := w / 2 / p, w / 2 % p;
    var s := 2 * r + w % 2;
    assert w == (2 * p) * q + s && 0 <= s < 2 * p;
    DivUnique(w, 2 * p, q, s);
  }

  lemma DivUnique(w: nat, d: nat, q: nat, s: nat)
    requires d >= 1 && w == d * q + s && s < d
    ensures w / d == q && w % d == s
  {
    var e := w / d - q;
    assert d * e == s - w % d by {
      assert w == d * (w / d) + w % d;
      assert d * e == d * (w / d) - d * q;
    }
    assert d * -e == -(d * e);
    PositiveMultiple(d, e);
    PositiveMultiple(d, -e);
  }

  lemma {:induction false} PositiveMultiple(d: nat, e: int)
    ensures e >= 1 ==> d * e >= d
    decreases if e < 0 then 0 else e
  {
    if e > 1 {
      PositiveMultiple(d, e - 1);
      assert d * e == d * (e - 1) + d;
    }
  }

  lemma ModTwice(w: nat, p: nat)
    requires p >= 1
    ensures w % (2 * p) == 2 * (w / 2 % p) + w % 2
  {
    var q, r := w / 2 / p, w / 2 % p;
    var s := 2 * r + w % 2;
    assert w == (2 * p) * q + s && 0 <= s < 2 * p;
    DivUnique(w, 2 * p, q, s);
  }

  /** Masking with FIELDMASK(n) keeps the number in the low n bits. */
  lemma {:induction false} AndLow(w: nat, n: nat)
    ensures And(w, Pow2(n) - 1) == w % Pow2(n)
  {
    if n > 0 {
      AndLow(w / 2, n - 1);
      ModTwice(w, Pow2(n - 1));
      assert (Pow2(n) - 1) / 2 == Pow2(n - 1) - 1 && (Pow2(n) - 1) % 2 == 1;
    }
  }

  /** Masking with FIELDMASK(n) << lo keeps the field in its place. */
  lemma {:induction false} AndField(w: nat, lo: nat, n: nat)
    ensures And(w, FieldMask(lo, n)) == Field(w, lo, n) * Pow2(lo)
  {
    if lo == 0 {
      AndLow(w, n);
    } else {
      AndField(w / 2, lo - 1, n);
      DivTwice(w, Pow2(lo - 1));
      MulTwice(Pow2(n) - 1, Pow2(lo - 1));
      MulTwice(Field(w, lo, n), Pow2(lo - 1));
      AndTwice(w, FieldMask(lo - 1, n));
    }
  }

  lemma MulTwice(a: int, p: int)
    ensures a * (2 * p) == 2 * (a * p)
  {
  }

  lemma AndTwice(w: nat, m: nat)
    ensures And(w, 2 * m) == 2 * And(w / 2, m)
  {
    assert 2 * m / 2 == m && 2 * m % 2 == 0;
  }

  lemma {:induction false} OrSum(a: nat, b: nat)
    ensures Or(a, b) == a + b - And(a, b)
    decreases a + b
  {
    if a != 0 || b != 0 {
      OrSum(a / 2, b / 2);
    }
  }

  /** The lowest digit of a conjunction, and the digits above it. */
  lemma AndHalves(a: nat, b: nat)
    ensures And(a, b) / 2 == And(a / 2, b / 2)
    ensures And(a, b) % 2 == if a % 2 == 1 && b % 2 == 1 then 1 else 0
  {
  }

  /** Masking with a complement removes what the mask would keep. */
  lemma {:induction false} AndComplement(w: nat, m: nat, n: nat)
    requires w < Pow2(n) && m < Pow2(n)
    ensures And(w, Pow2(n) - 1 - m) == w - And(w, m)
  {
    hide And;
    if n == 0 {
      AndNothing(0, And(0, 0), 0);
    } else {
      AndComplement(w / 2, m / 2, n - 1);
      var k := Pow2(n) - 1 - m;
      assert k / 2 == Pow2(n - 1) - 1 - m / 2 && k % 2 == 1 - m % 2;
      AndHalves(w, k);
      AndHalves(w, m);
    }
  }

  lemma {:induction false} AndDisjoint(w: nat, v: nat, m: nat, n: nat)
    requires w < Pow2(n) && m < Pow2(n)
    ensures And(And(w, Pow2(n) - 1 - m), And(v, m)) == 0
  {
    hide And;
    if n == 0 {
      AndNothing(And(w, 0), And(v, 0), v);
    } else {
      AndDisjoint(w / 2, v / 2, m / 2, n - 1);
      var k := Pow2(n) - 1 - m;
      assert k / 2 == Pow2(n - 1) - 1 - m / 2 && k % 2 == 1 - m % 2;
      AndHalves(w, k);
      AndHalves(v, m);
      AndHalves(And(w, k), And(v, m));
    }
  }

  lemma AndNothing(x: nat, y: nat, v: nat)
    requires y == And(v, 0)
    ensures And(x, y) == 0
  {
  }

  lemma {:induction false} PowSum(a: nat, b: nat)
    ensures Pow2(a + b) == Pow2(a) * Pow2(b)
  {
    if b > 0 {
      PowSum(a, b - 1);
      MulTwice(Pow2(a), Pow2(b - 1));
    }
  }

  lemma Pow32()
    ensures Pow2(32) == 0x1_0000_0000
  {
    assert Pow2(4) == 16;
    PowSum(4, 4);
    PowSum(8, 8);
    PowSum(16, 16);
  }

  /** What clearbit, setbit and deposit do to the number in a 32-bit word, for every mask. */
  lemma MaskArithmetic(reg: uint32, mask: uint32, value: uint32)
    ensures Clear(reg, mask) == reg - And(reg, mask)
    ensures Set(reg, mask) == reg + mask - And(reg, mask)
    ensures Insert(reg, mask, value) == reg - And(reg, mask) + And(value, mask)
  {
    Pow32();
    AndComplement(reg, mask, 32);
    OrSum(reg, mask);
    AndDisjoint(reg, value, mask, 32);
    OrSum(And(reg, Not(mask)), And(value, mask));
  }
}
