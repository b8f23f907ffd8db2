/**
 Unbounded integers as polynomials over GF(2): bit `i` is the coefficient of x^i.  Addition is the
 bitwise exclusive or, and multiplication is carry-less.
 */
module Gf2 {

  // ---------------------------------------------------------------------------------------------
  // Bits
  // ---------------------------------------------------------------------------------------------

  function Xor(a: nat, b: nat): nat
    decreases a + b
  {
    if a == 0 && b == 0 then 0 else 2 * Xor(a / 2, b / 2) + (if a % 2 == b % 2 then 0 else 1)
  }

  function And(a: nat, b: nat): nat
    decreases a + b
  {
    if a == 0 && b == 0 then 0 else 2 * And(a / 2, b / 2) + (if a % 2 == 1 && b % 2 == 1 then 1 else 0)
  }

  function Or(a: nat, b: nat): nat
    decreases a + b
  {
    if a == 0 && b == 0 then 0 else 2 * Or(a / 2, b / 2) + (if a % 2 + b % 2 > 0 then 1 else 0)
  }

  /** `a & ~b`. */
  function Clear(a: nat, b: nat): nat
    decreases a + b
  {
    if a == 0 && b == 0 then 0 else 2 * Clear(a / 2, b / 2) + (if a % 2 > b % 2 then 1 else 0)
  }

  function Pow2(n: nat): (p: nat)
    ensures p > 0
  {
    if n == 0 then 1 else 2 * Pow2(n - 1)
  }

  predicate Bit(a: nat, n: nat)
    decreases n
  {
    if n == 0 then a % 2 == 1 else Bit(a / 2, n - 1)
  }

  /** The number of one bits. */
  function Ones(a: nat): nat {
    if a == 0 then 0 else Ones(a / 2) + a % 2
  }

  // ---------------------------------------------------------------------------------------------
  // Addition
  // ---------------------------------------------------------------------------------------------

  lemma {:induction false} XorZero(a: nat)
    ensures Xor(a, 0) == a && Xor(0, a) == a
  {
    if a > 0 {
      XorZero(a / 2);
    }
  }

  lemma {:induction false} XorSelf(a: nat)
    ensures Xor(a, a) == 0
  {
    if a > 0 {
      XorSelf(a / 2);
    }
  }

  lemma {:induction false} XorCommutes(a: nat, b: nat)
    ensures Xor(a, b) == Xor(b, a)
    decreases a + b
  {
    if a + b > 0 {
      XorCommutes(a / 2, b / 2);
    }
  }

  lemma XorHalves(a: nat, b: nat)
    ensures Xor(a, b) / 2 == Xor(a / 2, b / 2) && Xor(a, b) % 2 == (if a % 2 == b % 2 then 0 else 1)
  {
  }

  lemma {:induction false} XorAssociates(a: nat, b: nat, c: nat)
    ensures Xor(Xor(a, b), c) == Xor(a, Xor(b, c))
    decreases a + b + c
  {
    hide Xor;
    XorHalves(a, b);
    XorHalves(b, c);
    XorHalves(Xor(a, b), c);
    XorHalves(a, Xor(b, c));
    if a + b + c > 0 {
      XorAssociates(a / 2, b / 2, c / 2);
    } else {
      XorZero(0);
    }
  }

  lemma XorDouble(a: nat, b: nat)
    ensures Xor(2 * a, 2 * b) == 2 * Xor(a, b)
  {
    hide Xor;
    XorHalves(2 * a, 2 * b);
  }

  lemma Twice(p: nat, a: nat)
    ensures (2 * p) * a == 2 * (p * a)
  {
  }

  lemma {:induction false} XorScale(a: nat, b: nat, n: nat)
    ensures Xor(Pow2(n) * a, Pow2(n) * b) == Pow2(n) * Xor(a, b)
    decreases n
  {
    hide Xor;
    if n > 0 {
      var p := Pow2(n - 1);
      XorScale(a, b, n - 1);
      XorDouble(p * a, p * b);
      Twice(p, a);
      Twice(p, b);
      Twice(p, Xor(a, b));
    }
  }

  lemma {:induction false} XorBound(a: nat, b: nat, n: nat)
    requires a < Pow2(n) && b < Pow2(n)
    ensures Xor(a, b) < Pow2(n)
    decreases n
  {
    if n > 0 {
      XorBound(a / 2, b / 2, n - 1);
      XorHalves(a, b);
    }
  }

  /** A bit above all bits of the other summand stays. */
  lemma {:induction false} XorKeepsHigh(a: nat, b: nat, n: nat)
    requires a < Pow2(n) <= b
    ensures Xor(a, b) >= Pow2(n)
    decreases n
  {
    if n > 0 {
      XorKeepsHigh(a / 2, b / 2, n - 1);
      XorHalves(a, b);
    } else {
      XorZero(b);
    }
  }

  /** A common highest bit cancels. */
  lemma {:induction false} XorCancelsHigh(a: nat, b: nat, n: nat)
    requires a < Pow2(n) && b < Pow2(n)
    ensures Xor(Pow2(n) + a, Pow2(n) + b) == Xor(a, b)
    decreases n
  {
    hide Xor;
    XorHalves(a, b);
    XorHalves(Pow2(n) + a, Pow2(n) + b);
    if n > 0 {
      XorCancelsHigh(a / 2, b / 2, n - 1);
      assert (Pow2(n) + a) / 2 == Pow2(n - 1) + a / 2 && (Pow2(n) + b) / 2 == Pow2(n - 1) + b / 2;
    } else {
      XorSelf(1);
      XorZero(0);
    }
  }

  /** Bits that do not overlap add up. */
  lemma {:induction false} XorDisjoint(a: nat, b: nat, n: nat)
    requires b < Pow2(n)
    ensures Xor(Pow2(n) * a, b) == Pow2(n) * a + b
    decreases n
  {
    hide Xor;
    if n == 0 {
      XorZero(a);
    } else {
      var p := Pow2(n - 1);
      Twice(p, a);
      XorHalves(Pow2(n) * a, b);
      XorDisjoint(a, b / 2, n - 1);
    }
  }

  lemma XorSwap(a: nat, b: nat, c: nat, d: nat)
    ensures Xor(Xor(a, b), Xor(c, d)) == Xor(Xor(a, c), Xor(b, d))
  {
    XorAssociates(a, b, Xor(c, d));
    XorAssociates(b, c, d);
    XorCommutes(b, c);
    XorAssociates(c, b, d);
    XorAssociates(a, c, Xor(b, d));
  }

  /** Adding the same thing to both sides. */
  lemma XorMove(a: nat, b: nat, c: nat)
    ensures Xor(a, b) == c <==> a == Xor(c, b)
  {
    XorAssociates(a, b, b);
    XorAssociates(c, b, b);
    XorSelf(b);
    XorZero(a);
    XorZero(c);
  }

  // ---------------------------------------------------------------------------------------------
  // Multiplication
  // ---------------------------------------------------------------------------------------------

  function Mul(a: nat, b: nat): nat
    decreases a
  {
    if a == 0 then 0 else Xor(if a % 2 == 1 then b else 0, 2 * Mul(a / 2, b))
  }

  lemma MulEven(a: nat, b: nat)
    ensures Mul(2 * a, b) == 2 * Mul(a, b)
  {
    XorZero(2 * Mul(a, b));
  }

  lemma MulOdd(a: nat, b: nat)
    ensures Mul(2 * a + 1, b) == Xor(b, 2 * Mul(a, b))
  {
    assert (2 * a + 1) / 2 == a;
  }

  lemma {:induction false} MulDistributes(a: nat, b: nat, g: nat)
    ensures Mul(Xor(a, b), g) == Xor(Mul(a, g), Mul(b, g))
    decreases a + b
  {
    hide Xor, Mul;
    var x, y := if a % 2 == 1 then g else 0, if b % 2 == 1 then g else 0;
    MulStep(a, g);
    MulStep(b, g);
    MulStep(Xor(a, b), g);
    XorHalves(a, b);
    XorSelf(g);
    XorZero(g);
    XorZero(0);
    if a + b > 0 {
      MulDistributes(a / 2, b / 2, g);
      XorSwap(x, 2 * Mul(a / 2, g), y, 2 * Mul(b / 2, g));
      XorDouble(Mul(a / 2, g), Mul(b / 2, g));
      assert Xor(x, y) == if Xor(a, b) % 2 == 1 then g else 0;
    } else {
      MulZero(g);
    }
  }

  lemma MulZero(g: nat)
    ensures Mul(0, g) == 0
  {
  }

  lemma MulStep(a: nat, g: nat)
    ensures Mul(a, g) == Xor(if a % 2 == 1 then g else 0, 2 * Mul(a / 2, g))
  {
  }

  ghost predicate Divides(g: nat, p: nat) {
    exists q: nat :: Mul(q, g) == p
  }

  lemma DividesXor(g: nat, a: nat, b: nat)
    requires Divides(g, a) && Divides(g, b)
    ensures Divides(g, Xor(a, b))
  {
    var p: nat :| Mul(p, g) == a;
    var q: nat :| Mul(q, g) == b;
    MulDistributes(p, q, g);
  }

  lemma DividesShift(g: nat, p: nat)
    requires Divides(g, p)
    ensures Divides(g, 2 * p)
  {
    var q: nat :| Mul(q, g) == p;
    MulEven(q, g);
  }

  /** A generator with a constant term is prime to x. */
  lemma DividesUnshift(g: nat, p: nat)
    requires g % 2 == 1 && Divides(g, 2 * p)
    ensures Divides(g, p)
  {
    var q: nat :| Mul(q, g) == 2 * p;
    MulStep(q, g);
    XorHalves(if q % 2 == 1 then g else 0, 2 * Mul(q / 2, g));
    assert q == 2 * (q / 2);
    MulEven(q / 2, g);
  }

  lemma {:induction false} DividesUnscale(g: nat, p: nat, n: nat)
    requires g % 2 == 1
    ensures Divides(g, Pow2(n) * p) <==> Divides(g, p)
    decreases n
  {
    if n > 0 {
      assert Pow2(n) * p == 2 * (Pow2(n - 1) * p);
      DividesUnscale(g, p, n - 1);
      if Divides(g, Pow2(n) * p) {
        DividesUnshift(g, Pow2(n - 1) * p);
      }
      if Divides(g, p) {
        DividesShift(g, Pow2(n - 1) * p);
      }
    }
  }

  /** A multiple of a polynomial of degree `n` other than zero has at least that degree. */
  lemma {:induction false} MultipleIsBig(q: nat, g: nat, n: nat)
    requires q > 0 && Pow2(n) <= g < 2 * Pow2(n)
    ensures Mul(q, g) >= Pow2(n)
    decreases q
  {
    MulStep(q, g);
    if q == 1 {
      XorZero(g);
    } else {
      MultipleIsBig(q / 2, g, n);
      var x := if q % 2 == 1 then g else 0;
      XorKeepsHigh(x, 2 * Mul(q / 2, g), n + 1);
    }
  }

  /** `r` is the remainder of `p` divided by `g`, which has degree `n`. */
  ghost predicate IsRemainder(r: nat, p: nat, g: nat, n: nat) {
    r < Pow2(n) && exists q: nat :: Xor(Mul(q, g), r) == p
  }

  lemma RemainderIsUnique(r: nat, s: nat, p: nat, g: nat, n: nat)
    requires Pow2(n) <= g < 2 * Pow2(n)
    requires IsRemainder(r, p, g, n) && IsRemainder(s, p, g, n)
    ensures r == s
  {
    var a: nat :| Xor(Mul(a, g), r) == p;
    var b: nat :| Xor(Mul(b, g), s) == p;
    XorSwap(Mul(a, g), r, Mul(b, g), s);
    XorSelf(p);
    MulDistributes(a, b, g);
    var m := Mul(Xor(a, b), g);
    XorMove(m, Xor(r, s), 0);
    XorZero(Xor(r, s));
    XorBound(r, s, n);
    if Xor(a, b) > 0 {
      MultipleIsBig(Xor(a, b), g, n);
    }
    assert Xor(r, s) == 0;
    XorMove(r, s, 0);
    XorZero(s);
  }

  lemma RemainderZero(p: nat, g: nat, n: nat)
    ensures IsRemainder(0, p, g, n) <==> Divides(g, p)
  {
    forall q: nat
      ensures Xor(Mul(q, g), 0) == Mul(q, g)
    {
      XorZero(Mul(q, g));
    }
    if Divides(g, p) {
      var q: nat :| Mul(q, g) == p;
      assert Xor(Mul(q, g), 0) == p;
    }
  }

  /** Remainders add up. */
  lemma RemainderXor(r: nat, s: nat, p: nat, q: nat, g: nat, n: nat)
    requires IsRemainder(r, p, g, n) && IsRemainder(s, q, g, n)
    ensures IsRemainder(Xor(r, s), Xor(p, q), g, n)
  {
    var a: nat :| Xor(Mul(a, g), r) == p;
    var b: nat :| Xor(Mul(b, g), s) == q;
    XorSwap(Mul(a, g), r, Mul(b, g), s);
    MulDistributes(a, b, g);
    XorBound(r, s, n);
    assert Xor(Mul(Xor(a, b), g), Xor(r, s)) == Xor(p, q);
  }

  // ---------------------------------------------------------------------------------------------
  // Parity
  // ---------------------------------------------------------------------------------------------

  /** Whether the number of one bits is odd. */
  predicate Odd(a: nat) {
    a > 0 && (Odd(a / 2) <==> a % 2 == 0)
  }

  lemma {:induction false} OddOnes(a: nat)
    ensures Odd(a) <==> Ones(a) % 2 == 1
  {
    if a > 0 {
      OddOnes(a / 2);
    }
  }

  lemma OddHalf(a: nat)
    ensures Odd(a) <==> (Odd(a / 2) <==> a % 2 == 0)
  {
  }

  lemma {:induction false} OddXor(a: nat, b: nat)
    ensures Odd(Xor(a, b)) <==> (Odd(a) != Odd(b))
    decreases a + b
  {
    hide Xor, Odd;
    XorHalves(a, b);
    OddHalf(a);
    OddHalf(b);
    OddHalf(Xor(a, b));
    if a + b > 0 {
      OddXor(a / 2, b / 2);
    } else {
      XorZero(0);
      OddZero();
    }
  }

  lemma {:induction false} OddMul(q: nat, g: nat)
    requires !Odd(g)
    ensures !Odd(Mul(q, g))
    decreases q
  {
    hide Xor, Mul, Odd;
    MulStep(q, g);
    OddZero();
    if q > 0 {
      OddMul(q / 2, g);
      OddHalf(2 * Mul(q / 2, g));
      OddXor(if q % 2 == 1 then g else 0, 2 * Mul(q / 2, g));
    } else {
      MulZero(g);
    }
  }

  lemma OddZero()
    ensures !Odd(0)
  {
  }

  // ---------------------------------------------------------------------------------------------
  // Single bits
  // ---------------------------------------------------------------------------------------------

  /** In a number of `n + 1` bits, bit `n` says whether it is at least 2^n. */
  lemma {:induction false} BitTop(a: nat, n: nat)
    requires a < 2 * Pow2(n)
    ensures Bit(a, n) <==> a >= Pow2(n)
    decreases n
  {
    if n > 0 {
      BitTop(a / 2, n - 1);
    }
  }

  lemma AndHalves(a: nat, b: nat)
    ensures And(a, b) / 2 == And(a / 2, b / 2) && And(a, b) % 2 == (if a % 2 == 1 && b % 2 == 1 then 1 else 0)
  {
  }

  lemma {:induction false} AndTestsBit(a: nat, n: nat)
    ensures And(a, Pow2(n)) != 0 <==> Bit(a, n)
    decreases n
  {
    AndHalves(a, Pow2(n));
    if n > 0 {
      AndTestsBit(a / 2, n - 1);
    } else {
      AndZero(a / 2);
    }
  }

  lemma {:induction false} AndZero(a: nat)
    ensures And(a, 0) == 0
  {
    if a > 0 {
      AndZero(a / 2);
    }
  }

  /** `a | 2^n` adds the bit when it is missing and leaves the others. */
  lemma {:induction false} OrBit(a: nat, n: nat)
    ensures Or(a, Pow2(n)) == (if Bit(a, n) then a else a + Pow2(n))
    ensures forall i: nat :: Bit(Or(a, Pow2(n)), i) <==> i == n || Bit(a, i)
    decreases n
  {
    OrHalves(a, Pow2(n));
    if n == 0 {
      OrZero(a / 2);
    } else {
      OrBit(a / 2, n - 1);
    }
    forall i: nat
      ensures Bit(Or(a, Pow2(n)), i) <==> i == n || Bit(a, i)
    {
      if i > 0 {
        assert Bit(Or(a, Pow2(n)), i) <==> Bit(Or(a / 2, Pow2(n) / 2), i - 1);
      }
    }
  }

  /** `a & ~2^n` takes the bit away when it is there and leaves the others. */
  lemma {:induction false} ClearBit(a: nat, n: nat)
    ensures Clear(a, Pow2(n)) == (if Bit(a, n) then a - Pow2(n) else a)
    ensures forall i: nat :: Bit(Clear(a, Pow2(n)), i) <==> i != n && Bit(a, i)
    decreases n
  {
    ClearHalves(a, Pow2(n));
    if n == 0 {
      ClearZero(a / 2);
    } else {
      ClearBit(a / 2, n - 1);
    }
    forall i: nat
      ensures Bit(Clear(a, Pow2(n)), i) <==> i != n && Bit(a, i)
    {
      if i > 0 {
        assert Bit(Clear(a, Pow2(n)), i) <==> Bit(Clear(a / 2, Pow2(n) / 2), i - 1);
      }
    }
  }

  lemma OrHalves(a: nat, b: nat)
    ensures Or(a, b) / 2 == Or(a / 2, b / 2) && Or(a, b) % 2 == (if a % 2 + b % 2 > 0 then 1 else 0)
  {
  }

  lemma ClearHalves(a: nat, b: nat)
    ensures Clear(a, b) / 2 == Clear(a / 2, b / 2) && Clear(a, b) % 2 == (if a % 2 > b % 2 then 1 else 0)
  {
  }

  lemma {:induction false} OrZero(a: nat)
    ensures Or(a, 0) == a
  {
    if a > 0 {
      OrZero(a / 2);
    }
  }

  lemma {:induction false} ClearZero(a: nat)
    ensures Clear(a, 0) == a
  {
    if a > 0 {
      ClearZero(a / 2);
    }
  }
}
