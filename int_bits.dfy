/**
 * Python's bitwise operators on unbounded integers.
 *
 * An integer is read as an infinite two's-complement bit string: `a % 2` is
 * its lowest bit and `a / 2` the rest (Dafny's `/` and `%` by 2 floor, as
 * Python's `>>` and `% 2` do), so a negative integer ends in infinitely many
 * ones and a non-negative one in infinitely many zeros. Every operation is
 * defined bit by bit and every law below is proved from `TestBit`.
 */
module IntBits {

  /** The four bit operations a bitmask operator can apply. */
  datatype BinOp = Union | SymmetricDifference | Intersection | Difference

  /** `a|b`, `a^b`, `a&b` and `a&~b` on single bits. */
  predicate Presence(op: BinOp, x: bool, y: bool) {
    match op
    case Union => x || y
    case SymmetricDifference => x != y
    case Intersection => x && y
    case Difference => x && !y
  }

  function Abs(a: int): nat {
    if a < 0 then -a else a
  }

  /** 0 and -1 are their own upper bits: all zeros or all ones. */
  predicate IsEnd(a: int) {
    a == 0 || a == -1
  }

  lemma HalfShrinks(a: int)
    ensures IsEnd(a) ==> a / 2 == a
    ensures !IsEnd(a) ==> Abs(a / 2) < Abs(a)
  {
  }

  /** `2 ** k`. */
  function Pow2(k: nat): (r: int)
    ensures r >= 1
  {
    if k == 0 then 1 else 2 * Pow2(k - 1)
  }

  /** `(a >> k) & 1 == 1`. */
  predicate TestBit(a: int, k: nat)
    decreases k
  {
    if k == 0 then a % 2 == 1 else TestBit(a / 2, k - 1)
  }

  /** The operator applied to two integers, one bit at a time from the bottom. */
  function Apply(op: BinOp, a: int, b: int): int
    decreases Abs(a) + Abs(b)
  {
    if IsEnd(a) && IsEnd(b) then
      (if Presence(op, a == -1, b == -1) then -1 else 0)
    else
      HalfShrinks(a);
      HalfShrinks(b);
      2 * Apply(op, a / 2, b / 2) + (if Presence(op, a % 2 == 1, b % 2 == 1) then 1 else 0)
  }

  /** `~a`. */
  function Not(a: int): int {
    -a - 1
  }

  /** `bool(v & bits)`: the two share a bit. */
  predicate Has(v: int, bits: int) {
    Apply(Intersection, v, bits) != 0
  }

  // ---------------------------------------------------------------------------
  // Reading single bits

  lemma TestBitEnd(a: int, k: nat)
    requires IsEnd(a)
    ensures TestBit(a, k) == (a == -1)
  {
    if k > 0 {
      TestBitEnd(a / 2, k - 1);
    }
  }

  lemma TestBitPush(x: int, r: int, k: nat)
    requires r == 0 || r == 1
    ensures TestBit(2 * x + r, k) == if k == 0 then r == 1 else TestBit(x, k - 1)
  {
    assert (2 * x + r) / 2 == x;
  }

  /** Bit `k` of `2 ** p` is set exactly when `k == p`. */
  lemma {:induction false} TestBitPow2(p: nat, k: nat)
    ensures TestBit(Pow2(p), k) == (k == p)
  {
    if p == 0 {
      if k > 0 {
        TestBitEnd(0, k - 1);
      }
    } else {
      TestBitPush(Pow2(p - 1), 0, k);
      if k > 0 {
        TestBitPow2(p - 1, k - 1);
      }
    }
  }

  /** Each operator is its single-bit operation at every position. */
  lemma {:induction false} TestBitApply(op: BinOp, a: int, b: int, k: nat)
    ensures TestBit(Apply(op, a, b), k) == Presence(op, TestBit(a, k), TestBit(b, k))
    decreases k
  {
    if IsEnd(a) && IsEnd(b) {
      TestBitEnd(a, k);
      TestBitEnd(b, k);
      TestBitEnd(Apply(op, a, b), k);
    } else {
      var r := if Presence(op, a % 2 == 1, b % 2 == 1) then 1 else 0;
      TestBitPush(Apply(op, a / 2, b / 2), r, k);
      if k > 0 {
        TestBitApply(op, a / 2, b / 2, k - 1);
      }
    }
  }

  /** `~a` flips every bit. */
  lemma {:induction false} TestBitNot(a: int, k: nat)
    ensures TestBit(Not(a), k) == !TestBit(a, k)
    decreases k
  {
    if k > 0 {
      assert Not(a) / 2 == Not(a / 2);
      TestBitNot(a / 2, k - 1);
    }
  }

  /** Two integers with the same bits are equal. */
  lemma {:induction false} BitsDetermine(a: int, b: int)
    requires forall k: nat :: TestBit(a, k) == TestBit(b, k)
    ensures a == b
    decreases Abs(a) + Abs(b)
  {
    assert TestBit(a, 0) == TestBit(b, 0);
    if IsEnd(a) && IsEnd(b) {
    } else {
      HalfShrinks(a);
      HalfShrinks(b);
      forall k: nat
        ensures TestBit(a / 2, k) == TestBit(b / 2, k)
      {
        assert TestBit(a, k + 1) == TestBit(b, k + 1);
      }
      BitsDetermine(a / 2, b / 2);
    }
  }

  /** `v & 2**p` is non-zero exactly when bit `p` of `v` is set. */
  lemma HasPow2(v: int, p: nat)
    ensures Has(v, Pow2(p)) == TestBit(v, p)
  {
    var w := Apply(Intersection, v, Pow2(p));
    TestBitApply(Intersection, v, Pow2(p), p);
    TestBitPow2(p, p);
    TestBitEnd(0, p);
    if !TestBit(v, p) {
      forall k: nat
        ensures TestBit(w, k) == TestBit(0, k)
      {
        TestBitApply(Intersection, v, Pow2(p), k);
        TestBitPow2(p, k);
        TestBitEnd(0, k);
      }
      BitsDetermine(w, 0);
    }
  }

  /** The difference operator is Python's `a & ~b`. */
  lemma DifferenceIsAndNot(a: int, b: int)
    ensures Apply(Difference, a, b) == Apply(Intersection, a, Not(b))
  {
    forall k: nat
      ensures TestBit(Apply(Difference, a, b), k) == TestBit(Apply(Intersection, a, Not(b)), k)
    {
      TestBitApply(Difference, a, b, k);
      TestBitApply(Intersection, a, Not(b), k);
      TestBitNot(b, k);
    }
    BitsDetermine(Apply(Difference, a, b), Apply(Intersection, a, Not(b)));
  }

  /** Whether an operator's result has bit `p` depends only on whether its operands have it. */
  lemma HasApply(op: BinOp, a: int, b: int, p: nat)
    ensures Has(Apply(op, a, b), Pow2(p)) == Presence(op, Has(a, Pow2(p)), Has(b, Pow2(p)))
  {
    HasPow2(Apply(op, a, b), p);
    HasPow2(a, p);
    HasPow2(b, p);
    TestBitApply(op, a, b, p);
  }

  /** `|`, `^` and `&` are commutative; `a & ~b` is not. */
  lemma ApplyCommutes(op: BinOp, a: int, b: int)
    requires op != Difference
    ensures Apply(op, a, b) == Apply(op, b, a)
  {
    forall k: nat
      ensures TestBit(Apply(op, a, b), k) == TestBit(Apply(op, b, a), k)
    {
      TestBitApply(op, a, b, k);
      TestBitApply(op, b, a, k);
    }
    BitsDetermine(Apply(op, a, b), Apply(op, b, a));
  }
}
