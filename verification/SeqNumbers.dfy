/** Sequence numbers as the program stores them (32 bits, wrapping), the unbounded
    numbers they stand for, and ring slots. */
module SeqNumbers {
  const TWO32: int := 0x1_0000_0000
  const HALF: int := 0x8000_0000
  const I64_MAX: int := 0x7FFF_FFFF_FFFF_FFFF

  type SeqNo = x: int | 0 <= x < 0x1_0000_0000

  /** The 32-bit image of an unbounded sequence number. */
  function Wrap(n: int): SeqNo { n % TWO32 }

  function WrappingAdd(a: SeqNo, b: int): SeqNo { (a + b) % TWO32 }

  function WrappingSub(a: SeqNo, b: int): SeqNo { (a - b) % TWO32 }

  /** The unbounded number that a 32-bit number stands for, seen from `base`: distances
      of 2^31 and more ahead are read as lying behind. */
  function Lift(x: SeqNo, base: int): int {
    var d := WrappingSub(x, Wrap(base));
    if d > (TWO32 - 1) / 2 then base + d - TWO32 else base + d
  }

  /** A capacity for which the slot of a number survives the wrap. */
  predicate GoodCap(cap: int) {
    2 <= cap <= HALF && TWO32 % cap == 0
  }

  /** Reading back a wrapped number gives the number itself exactly when it lies within
      2^31 behind, or less than 2^31 ahead of, the base. */
  lemma LiftOfWrap(n: int, base: int)
    ensures Lift(Wrap(n), base) == n <==> base - HALF <= n < base + HALF
  {
  }

  lemma WrapOfLift(x: SeqNo, base: int)
    ensures Wrap(Lift(x, base)) == x
    ensures base - HALF <= Lift(x, base) < base + HALF
  {
  }

  lemma WrapInjective(a: int, b: int)
    requires Wrap(a) == Wrap(b)
    requires -TWO32 < a - b < TWO32
    ensures a == b
  {
  }

  lemma WrapStep(n: int, d: int)
    ensures WrappingAdd(Wrap(n), d) == Wrap(n + d)
    ensures WrappingSub(Wrap(n), d) == Wrap(n - d)
  {
  }

  /** Subtracting wrapped numbers gives the distance back when it is in range. */
  lemma WrapDistance(a: int, b: int)
    requires 0 <= a - b < TWO32
    ensures WrappingSub(Wrap(a), Wrap(b)) == a - b
  {
  }

  lemma ModShift(a: int, q: int, c: int)
    requires c > 0
    ensures (a + q * c) % c == a % c
  {
    var d := a / c;
    var r := a % c;
    assert a + q * c == (d + q) * c + r;
    DivUnique(a + q * c, c, d + q, r);
  }

  lemma SmallMultiple(q: int, c: int)
    requires c > 0 && -c < q * c < c
    ensures q == 0
  {
  }

  lemma DivUnique(a: int, c: int, q: int, r: int)
    requires c > 0 && 0 <= r < c && a == q * c + r
    ensures a % c == r
  {
    var q2, r2 := a / c, a % c;
    assert a == q2 * c + r2;
    assert (q - q2) * c == q * c - q2 * c;
    SmallMultiple(q - q2, c);
  }

  /** Wrapping does not move a number to another ring slot. */
  lemma WrapKeepsSlot(n: int, cap: int)
    requires GoodCap(cap)
    ensures Wrap(n) % cap == n % cap
  {
    var q, t := n / TWO32, TWO32 / cap;
    assert n == Wrap(n) + q * TWO32;
    assert TWO32 == t * cap;
    assert n == Wrap(n) + (q * t) * cap;
    ModShift(Wrap(n), q * t, cap);
  }

  /** Only such capacities do: with any other, counting on past the wrap changes slots. */
  lemma WrapKeepsSlotIff(cap: int)
    requires 2 <= cap <= HALF
    ensures (forall n :: Wrap(n) % cap == n % cap) <==> GoodCap(cap)
  {
    if GoodCap(cap) {
      forall n ensures Wrap(n) % cap == n % cap { WrapKeepsSlot(n, cap); }
    } else {
      assert Wrap(TWO32) == 0;
      assert Wrap(TWO32) % cap != TWO32 % cap;
    }
  }

  /** And only with such capacities do the numbers of one window, less than a capacity apart,
      always keep to different slots. */
  lemma SlotsApartIff(cap: int)
    requires 2 <= cap <= HALF
    ensures (forall a, b :: 0 < b - a < cap ==> Wrap(a) % cap != Wrap(b) % cap) <==> GoodCap(cap)
  {
    if GoodCap(cap) {
      forall a, b | 0 < b - a < cap
        ensures Wrap(a) % cap != Wrap(b) % cap
      {
        WrapKeepsSlot(a, cap);
        WrapKeepsSlot(b, cap);
        if a % cap == b % cap { SlotInjective(a, b, cap); }
      }
    } else {
      var a := TWO32 - TWO32 % cap;
      assert a == (TWO32 / cap) * cap;
      ModShift(0, TWO32 / cap, cap);
      assert Wrap(a) % cap == 0 && Wrap(TWO32) % cap == 0;
    }
  }

  /** Two numbers less than a capacity apart never share a slot. */
  lemma SlotInjective(a: int, b: int, cap: int)
    requires cap > 0 && a % cap == b % cap && -cap < a - b < cap
    ensures a == b
  {
    assert a - b == (a / cap - b / cap) * cap;
    SmallMultiple(a / cap - b / cap, cap);
  }

  /** Slots of numbers exactly one capacity apart agree. */
  lemma SlotPeriod(a: int, cap: int)
    requires cap > 0
    ensures (a - cap) % cap == a % cap == (a + cap) % cap
  {
    ModShift(a, -1, cap);
    ModShift(a, 1, cap);
  }

  lemma SameSlot(a: int, b: int, cap: int)
    requires cap > 0
    ensures (a - b) % cap == 0 <==> a % cap == b % cap
  {
    if (a - b) % cap == 0 {
      var q := (a - b) / cap;
      assert a == b + q * cap;
      ModShift(b, q, cap);
    }
    if a % cap == b % cap {
      var q := a / cap - b / cap;
      assert a - b == q * cap;
      ModShift(0, q, cap);
    }
  }
}
