/** Which changes to a message the CRC-8 of the NVRAM records detects. */
module CrcDetection {
  import opened Gf2
  import opened Crc8

  // ---------------------------------------------------------------------------------------------
  // Equal checksums
  // ---------------------------------------------------------------------------------------------

  lemma DivisibleByte(r: nat)
    requires r < 256 && Divides(G, r)
    ensures r == 0
  {
    Pows();
    var q: nat :| Mul(q, G) == r;
    if q > 0 {
      MultipleIsBig(q, G, 8);
    } else {
      MulZero(G);
    }
  }

  /** Two messages have the same checksum exactly when the generator divides their difference. */
  lemma SameCrcExactly(a: seq<Byte>, b: seq<Byte>)
    ensures Crc(a) == Crc(b) <==> Divides(G, Xor(Value(a), Value(b)))
  {
    hide Xor, Crc, Value, Pow2;
    var x, d := Xor(Crc(a), Crc(b)), Xor(Value(a), Value(b));
    Pows();
    CrcIsRemainder(a);
    CrcIsRemainder(b);
    RemainderXor(Crc(a), Crc(b), 256 * Value(a), 256 * Value(b), G, 8);
    XorScale(Value(a), Value(b), 8);
    assert IsRemainder(x, 256 * d, G, 8);
    DividesUnscale(G, d, 8);
    RemainderZero(256 * d, G, 8);
    XorSelf(Crc(b));
    XorMove(Crc(a), Crc(b), 0);
    XorZero(Crc(b));
    if Divides(G, d) {
      RemainderIsUnique(x, 0, 256 * d, G, 8);
    }
  }

  /** Appending a byte makes the checksum zero exactly when the byte is the checksum so far. */
  lemma ClosedExactly(buf: seq<Byte>, c: Byte)
    ensures Crc(buf + [c]) == 0 <==> c == Crc(buf)
  {
    hide Xor, Pow2, Steps;
    var r := Xor(Crc(buf), c);
    assert (buf + [c])[..|buf + [c]| - 1] == buf;
    assert Crc(buf + [c]) == Steps(r, 8);
    Pows();
    CrcIsByte(buf);
    XorBound(Crc(buf), c, 8);
    SmallIsRemainder(r);
    StepsAreRemainder(r, r, 8);
    XorMove(Crc(buf), c, 0);
    XorZero(c);
    RemainderZero(256 * r, G, 8);
    DividesUnscale(G, r, 8);
    if Steps(r, 8) == 0 {
      DivisibleByte(r);
    }
    if r == 0 {
      MulZero(G);
      assert Divides(G, r);
      StepsStayByte(r, 8);
      RemainderIsUnique(Steps(r, 8), 0, 256 * r, G, 8);
    }
  }

  // ---------------------------------------------------------------------------------------------
  // Bursts and odd changes
  // ---------------------------------------------------------------------------------------------

  /** Of the nine-bit polynomials the generator divides itself alone. */
  lemma DivisibleNineBits(pattern: nat)
    requires 0 < pattern < 512
    ensures Divides(G, pattern) <==> pattern == G
  {
    hide Xor, Divides;
    SelfDivides();
    if Divides(G, pattern) {
      Pows();
      if pattern < 256 {
        DivisibleByte(pattern);
      } else {
        var low := pattern - 256;
        XorDisjoint(1, low, 8);
        XorDisjoint(1, 7, 8);
        XorSwap(256, low, 256, 7);
        XorSelf(256);
        XorZero(Xor(low, 7));
        XorBound(low, 7, 8);
        DividesXor(G, pattern, G);
        DivisibleByte(Xor(low, 7));
        XorMove(low, 7, 0);
        XorZero(7);
      }
    }
  }

  lemma SelfDivides()
    ensures Divides(G, G)
  {
    MulOdd(0, G);
    MulZero(G);
    XorZero(G);
    assert Mul(1, G) == G;
  }

  /**
   A change confined to nine consecutive bits, anywhere, goes unnoticed if and only if the bits that it
   flips are those of the generator.
   */
  lemma BurstExactly(a: seq<Byte>, b: seq<Byte>, at: nat, pattern: nat)
    requires 0 < pattern < 512
    requires Xor(Value(a), Value(b)) == Pow2(at) * pattern
    ensures Crc(a) == Crc(b) <==> pattern == G
  {
    hide Xor, Crc, Value, Pow2, Divides;
    SameCrcExactly(a, b);
    DividesUnscale(G, pattern, at);
    DivisibleNineBits(pattern);
  }

  /** A change confined to eight consecutive bits, anywhere, changes the checksum. */
  lemma BurstIsDetected(a: seq<Byte>, b: seq<Byte>, at: nat, pattern: nat)
    requires 0 < pattern < 256
    requires Xor(Value(a), Value(b)) == Pow2(at) * pattern
    ensures Crc(a) != Crc(b)
  {
    hide Xor, Crc, Value, Pow2;
    BurstExactly(a, b, at, pattern);
  }

  lemma GeneratorIsEven()
    ensures !Odd(G)
  {
    OddZero();
    assert Odd(1) && Odd(2) && Odd(4) && Odd(8) && Odd(0x10);
    assert Odd(0x20) && !Odd(0x41) && Odd(0x83);
  }

  lemma {:induction false} OddScale(n: nat, p: nat)
    ensures Odd(Pow2(n) * p) <==> Odd(p)
    decreases n
  {
    hide Odd;
    if n > 0 {
      Twice(Pow2(n - 1), p);
      OddHalf(2 * (Pow2(n - 1) * p));
      OddScale(n - 1, p);
    }
  }

  lemma {:induction false} OnesDisjoint(a: nat, b: nat, n: nat)
    requires b < Pow2(n)
    ensures Ones(Pow2(n) * a + b) == Ones(a) + Ones(b)
    decreases n
  {
    hide Ones;
    if n == 0 {
      OnesHalf(0);
    } else {
      var p := Pow2(n - 1);
      Twice(p, a);
      OnesDisjoint(a, b / 2, n - 1);
      OnesHalf(2 * (p * a) + b);
      OnesHalf(b);
      assert (2 * (p * a) + b) / 2 == p * a + b / 2;
    }
  }

  lemma OnesHalf(a: nat)
    ensures Ones(a) == Ones(a / 2) + a % 2
    ensures a == 0 ==> Ones(a) == 0
  {
  }

  /** The number of one bits of a message. */
  function TotalOnes(buf: seq<Byte>): nat
    decreases |buf|
  {
    if buf == [] then 0 else TotalOnes(buf[..|buf| - 1]) + Ones(buf[|buf| - 1])
  }

  lemma {:induction false} TotalOnesOfValue(buf: seq<Byte>)
    ensures TotalOnes(buf) == Ones(Value(buf))
    decreases |buf|
  {
    hide Ones;
    if buf == [] {
      OnesHalf(0);
    } else {
      TotalOnesOfValue(buf[..|buf| - 1]);
      Pows();
      OnesDisjoint(Value(buf[..|buf| - 1]), buf[|buf| - 1], 8);
    }
  }

  /** The checksum has as many one bits as the message, modulo two. */
  lemma ParityIsKept(buf: seq<Byte>)
    ensures Ones(Crc(buf)) % 2 == TotalOnes(buf) % 2
  {
    hide Xor, Odd, Ones, TotalOnes, Value, Crc;
    Pows();
    CrcIsRemainder(buf);
    var q: nat :| Xor(Mul(q, G), Crc(buf)) == 256 * Value(buf);
    GeneratorIsEven();
    OddMul(q, G);
    OddXor(Mul(q, G), Crc(buf));
    OddScale(8, Value(buf));
    OddOnes(Value(buf));
    OddOnes(Crc(buf));
    TotalOnesOfValue(buf);
  }

  /** An odd number of changed bits is detected, at any length. */
  lemma OddChangeIsDetected(a: seq<Byte>, b: seq<Byte>)
    requires Ones(Xor(Value(a), Value(b))) % 2 == 1
    ensures Crc(a) != Crc(b)
  {
    hide Xor, Odd, Ones, TotalOnes, Value, Crc;
    OddOnes(Xor(Value(a), Value(b)));
    OddXor(Value(a), Value(b));
    OddOnes(Value(a));
    OddOnes(Value(b));
    TotalOnesOfValue(a);
    TotalOnesOfValue(b);
    ParityIsKept(a);
    ParityIsKept(b);
  }

  // ---------------------------------------------------------------------------------------------
  // The order of x
  // ---------------------------------------------------------------------------------------------

  lemma {:induction false} StepsAdd(r: nat, m: nat, n: nat)
    ensures Steps(r, m + n) == Steps(Steps(r, m), n)
    decreases n
  {
    if n > 0 {
      StepsAdd(r, m, n - 1);
    }
  }

  /** Squaring: the bits of `a` move to the even places. */
  function Square(a: nat): nat {
    if a == 0 then 0 else 4 * Square(a / 2) + a % 2
  }

  lemma SquareHalf(a: nat)
    ensures Square(a) == 4 * Square(a / 2) + a % 2
  {
  }

  lemma {:induction false} SquareXor(a: nat, b: nat)
    ensures Square(Xor(a, b)) == Xor(Square(a), Square(b))
    decreases a + b
  {
    hide Xor, Square;
    XorHalves(a, b);
    SquareHalf(a);
    SquareHalf(b);
    SquareHalf(Xor(a, b));
    if a + b == 0 {
      XorZero(0);
      XorZero(Square(0));
      XorSelf(Square(0));
      assert Square(0) == 0;
    } else {
      SquareXor(a / 2, b / 2);
      XorHalves(Square(a), Square(b));
      XorHalves(2 * Square(a / 2), 2 * Square(b / 2));
    }
  }

  lemma {:induction false} MultipleOfMultiple(a: nat, h: nat, g: nat)
    requires Divides(g, h)
    ensures Divides(g, Mul(a, h))
    decreases a
  {
    hide Xor, Mul;
    MulStep(a, h);
    MulZero(h);
    MulZero(g);
    assert Divides(g, 0);
    if a > 0 {
      MultipleOfMultiple(a / 2, h, g);
      DividesShift(g, Mul(a / 2, h));
      DividesXor(g, if a % 2 == 1 then h else 0, 2 * Mul(a / 2, h));
    }
  }

  lemma {:induction false} SquareMul(q: nat, g: nat)
    ensures Square(Mul(q, g)) == Mul(Square(q), Square(g))
    decreases q
  {
    hide Xor, Mul, Square;
    MulStep(q, g);
    SquareHalf(q);
    SquareHalf(0);
    if q == 0 {
      MulZero(g);
      MulZero(Square(g));
    } else {
      var m, x := Mul(q / 2, g), if q % 2 == 1 then g else 0;
      SquareMul(q / 2, g);
      SquareXor(x, 2 * m);
      SquareHalf(2 * m);
      MulStep(Square(q), Square(g));
      MulEven(Square(q / 2), Square(g));
      assert Square(q) / 2 == 2 * Square(q / 2);
    }
  }

  lemma {:induction false} MulRightDouble(a: nat, b: nat)
    ensures Mul(a, 2 * b) == 2 * Mul(a, b)
    decreases a
  {
    hide Xor, Mul;
    MulStep(a, b);
    MulStep(a, 2 * b);
    MulZero(b);
    MulZero(2 * b);
    if a > 0 {
      MulRightDouble(a / 2, b);
      XorDouble(if a % 2 == 1 then b else 0, 2 * Mul(a / 2, b));
    }
  }

  lemma {:induction false} MulRightXor(a: nat, b: nat, c: nat)
    ensures Mul(a, Xor(b, c)) == Xor(Mul(a, b), Mul(a, c))
    decreases a
  {
    hide Xor, Mul;
    MulStep(a, b);
    MulStep(a, c);
    MulStep(a, Xor(b, c));
    MulZero(b);
    MulZero(c);
    MulZero(Xor(b, c));
    XorZero(0);
    if a > 0 {
      MulRightXor(a / 2, b, c);
      XorDouble(Mul(a / 2, b), Mul(a / 2, c));
      XorSwap(if a % 2 == 1 then b else 0, 2 * Mul(a / 2, b), if a % 2 == 1 then c else 0, 2 * Mul(a / 2, c));
    }
  }

  lemma {:induction false} MulOne(a: nat)
    ensures Mul(a, 1) == a && Mul(a, 0) == 0
  {
    hide Xor, Mul;
    MulStep(a, 1);
    MulStep(a, 0);
    XorZero(0);
    if a == 0 {
      MulZero(1);
      MulZero(0);
    } else {
      MulOne(a / 2);
      Append(a / 2, a % 2);
    }
  }

  lemma Append(h: nat, d: nat)
    requires d < 2
    ensures Xor(2 * h, d) == Xor(d, 2 * h) == 2 * h + d
  {
    assert Pow2(1) == 2 * Pow2(0);
    XorDisjoint(h, d, 1);
    XorCommutes(2 * h, d);
  }

  lemma {:induction false} SquareIsMul(a: nat)
    ensures Square(a) == Mul(a, a)
  {
    hide Xor, Mul, Square;
    SquareHalf(a);
    MulStep(a, a);
    if a == 0 {
      MulZero(0);
      SquareHalf(0);
    } else {
      var h, d := a / 2, a % 2;
      var m := Mul(h, h);
      SquareIsMul(h);
      Append(h, d);
      MulRightXor(h, 2 * h, d);
      MulRightDouble(h, h);
      MulOne(h);
      XorZero(2 * m);
      XorZero(2 * (2 * m));
      XorDouble(2 * m, h);
      XorCommutes(4 * m, 2 * h);
      XorSwap(2 * h, d, 2 * h, 4 * m);
      XorSelf(2 * h);
      XorZero(Xor(d, 4 * m));
      Append(2 * m, d);
    }
  }

  lemma DividesSquare()
    ensures Divides(G, Square(G))
  {
    SquareIsMul(G);
  }

  /** The remainder of a square is that of the square of the remainder. */
  lemma SquareRemainder(r: nat, p: nat, s: nat)
    requires IsRemainder(r, p, G, 8) && IsRemainder(s, Square(r), G, 8)
    ensures IsRemainder(s, Square(p), G, 8)
  {
    hide Xor, Mul, Square, Pow2;
    var q: nat :| Xor(Mul(q, G), r) == p;
    var k: nat :| Xor(Mul(k, G), s) == Square(r);
    SquareXor(Mul(q, G), r);
    SquareMul(q, G);
    DividesSquare();
    MultipleOfMultiple(Square(q), Square(G), G);
    var h: nat :| Mul(h, G) == Square(Mul(q, G));
    MulDistributes(h, k, G);
    XorAssociates(Mul(h, G), Mul(k, G), s);
    assert Xor(Mul(Xor(h, k), G), s) == Square(p);
  }

  lemma {:induction false} SquarePower(n: nat)
    ensures Square(Pow2(n)) == Pow2(2 * n)
    decreases n
  {
    if n > 0 {
      SquarePower(n - 1);
      SquareHalf(Pow2(n));
      assert Pow2(2 * n) == 2 * Pow2(2 * n - 1) == 4 * Pow2(2 * n - 2);
    }
  }

  lemma Double(r: nat, n: nat, s: nat)
    requires IsRemainder(r, Pow2(n), G, 8) && IsRemainder(s, Square(r), G, 8)
    ensures IsRemainder(s, Pow2(2 * n), G, 8)
  {
    SquareRemainder(r, Pow2(n), s);
    SquarePower(n);
  }

  /** A number of nine bits, reduced. */
  lemma OneReduction(t: nat)
    requires t < 256
    ensures IsRemainder(Xor(t, 7), 256 + t, G, 8)
  {
    hide Xor, Mul;
    Pows();
    XorBound(t, 7, 8);
    XorCancelsHigh(t, 7, 8);
    XorMove(256 + t, G, Xor(t, 7));
    XorCommutes(Xor(t, 7), G);
    MulOdd(0, G);
    MulZero(G);
    XorZero(G);
    assert Xor(Mul(1, G), Xor(t, 7)) == 256 + t;
  }

  lemma LowBitsFlip(t: nat)
    ensures Xor(t, 7) == t + 7 - 2 * (t % 8)
  {
    hide Xor;
    XorHalves(t, 7);
    XorHalves(t / 2, 3);
    XorHalves(t / 4, 1);
    XorZero(t / 8);
    assert t / 2 / 2 / 2 == t / 8;
  }

  lemma SquaresOnTheWay()
    ensures Square(7) == 0x15 && Square(0x15) == 0x111 && Square(0x16) == 0x114 && Square(0x13) == 0x105
  {
    assert Square(1) == 1 && Square(2) == 4 && Square(4) == 16;
    assert Square(5) == 0x11;
  }

  /** x^127 is 1 modulo the generator: squaring five times from x^4 on gives x^128 = x. */
  lemma OrderDivides127()
    ensures Divides(G, Xor(Pow2(127), 1))
  {
    hide Xor, Square, Pow2, IsRemainder;
    Pows();
    SquaresOnTheWay();
    OneReduction(0);
    XorZero(7);
    SmallIsRemainder(0x15);
    Double(7, 8, 0x15);
    OneReduction(0x11);
    LowBitsFlip(0x11);
    Double(0x15, 16, 0x16);
    OneReduction(0x14);
    LowBitsFlip(0x14);
    Double(0x16, 32, 0x13);
    OneReduction(5);
    LowBitsFlip(5);
    Double(0x13, 64, 2);
    SmallIsRemainder(2);
    RemainderXor(2, 2, Pow2(128), 2, G, 8);
    XorSelf(2);
    RemainderZero(Xor(Pow2(128), 2), G, 8);
    PowStep(127);
    XorDouble(Pow2(127), 1);
    DividesUnshift(G, Xor(Pow2(127), 1));
  }

  lemma PowStep(n: nat)
    ensures Pow2(n + 1) == 2 * Pow2(n)
  {
  }

  lemma BinomialSteps(d: nat)
    ensures Divides(G, Xor(Pow2(d), 1)) <==> Steps(1, d) == 1
  {
    hide Xor, Steps, Pow2;
    SmallIsRemainder(1);
    StepsAreRemainder(1, 1, d);
    assert Pow2(d) * 1 == Pow2(d);
    RemainderXor(Steps(1, d), 1, Pow2(d), 1, G, 8);
    var x := Xor(Steps(1, d), 1);
    RemainderZero(Xor(Pow2(d), 1), G, 8);
    XorSelf(1);
    XorMove(Steps(1, d), 1, 0);
    XorZero(1);
    Pows();
    if Divides(G, Xor(Pow2(d), 1)) {
      RemainderIsUnique(x, 0, Xor(Pow2(d), 1), G, 8);
    }
  }

  lemma {:induction false} Periodic(k: nat, n: nat)
    ensures Steps(1, 127 * k + n) == Steps(1, n)
    decreases k
  {
    hide Steps, Xor, Pow2, Divides;
    if k > 0 {
      OrderDivides127();
      BinomialSteps(127);
      assert 127 * k + n == 127 + (127 * (k - 1) + n);
      StepsAdd(1, 127, 127 * (k - 1) + n);
      Periodic(k - 1, n);
    }
  }

  lemma {:induction false} Multiples(e: nat, k: nat)
    requires Steps(1, e) == 1
    ensures Steps(1, e * k) == 1
    decreases k
  {
    if k > 0 {
      Multiples(e, k - 1);
      assert e * k == e * (k - 1) + e;
      StepsAdd(1, e * (k - 1), e);
    }
  }

  lemma Prime(e: nat)
    requires 1 < e < 127
    ensures 127 % e != 0
  {
    var k := 127 / e;
    assert 127 == e * k + 127 % e;
    if e < 12 {
      assert e == 2 || e == 3 || e == 4 || e == 5 || e == 6 || e == 7 || e == 8 || e == 9 || e == 10 || e == 11;
    } else {
      assert 12 * k <= e * k;
      assert k == 0 || k == 1 || k == 2 || k == 3 || k == 4 || k == 5
          || k == 6 || k == 7 || k == 8 || k == 9 || k == 10;
      assert e != 127;
    }
  }

  lemma SmallerOrder(e: nat)
    requires e > 0 && Steps(1, e) == 1
    ensures Steps(1, 127 % e) == 1
  {
    hide Steps, Xor, Pow2, Divides;
    var k := 127 / e;
    assert 127 == e * k + 127 % e;
    Multiples(e, k);
    StepsAdd(1, e * k, 127 % e);
    OrderDivides127();
    BinomialSteps(127);
  }

  /** No smaller power of x is 1: the order would have to divide the prime 127. */
  lemma {:induction false} NoSmallerOrder(e: nat)
    requires 0 < e < 127
    ensures Steps(1, e) != 1
    decreases e
  {
    hide Steps;
    if e == 1 {
      FirstSteps();
    } else if Steps(1, e) == 1 {
      Prime(e);
      SmallerOrder(e);
      NoSmallerOrder(127 % e);
    }
  }

  lemma FirstSteps()
    ensures Steps(1, 0) == 1 && Steps(1, 1) == 2
  {
    assert Steps(1, 1) == Step(Steps(1, 0));
  }

  lemma OrderIs127(d: nat)
    ensures Steps(1, d) == 1 <==> d % 127 == 0
  {
    hide Steps;
    Periodic(d / 127, d % 127);
    FirstSteps();
    if d % 127 != 0 {
      NoSmallerOrder(d % 127);
    }
  }

  /** The generator divides x^d + 1 exactly when 127 divides d. */
  lemma DividesBinomial(d: nat)
    ensures Divides(G, Xor(Pow2(d), 1)) <==> d % 127 == 0
  {
    OrderIs127(d);
    BinomialSteps(d);
  }

  // ---------------------------------------------------------------------------------------------
  // Two flipped bits
  // ---------------------------------------------------------------------------------------------

  /** The message with bit `k` flipped, counting from its end. */
  function Flip(buf: seq<Byte>, k: nat): (flipped: seq<Byte>)
    requires k < 8 * |buf|
    ensures |flipped| == |buf|
  {
    var at := |buf| - 1 - k / 8;
    FlippedByte(buf[at], k % 8);
    buf[at := Xor(buf[at], Pow2(k % 8))]
  }

  lemma FlippedByte(b: Byte, k: nat)
    requires k < 8
    ensures Xor(b, Pow2(k)) < 256
  {
    Pows();
    PowMonotone(k, 7);
    XorBound(b, Pow2(k), 8);
  }

  lemma {:induction false} PowMonotone(k: nat, n: nat)
    requires k <= n
    ensures Pow2(k) <= Pow2(n)
    decreases n
  {
    if k < n {
      PowMonotone(k, n - 1);
    }
  }

  lemma {:induction false} PowSum(m: nat, n: nat)
    ensures Pow2(m + n) == Pow2(m) * Pow2(n)
    decreases m
  {
    if m > 0 {
      PowSum(m - 1, n);
      Twice(Pow2(m - 1), Pow2(n));
    }
  }

  lemma {:induction false} FlipChangesValue(buf: seq<Byte>, k: nat)
    requires k < 8 * |buf|
    ensures Value(Flip(buf, k)) == Xor(Value(buf), Pow2(k))
    decreases |buf|
  {
    hide Xor, Pow2;
    var n := |buf| - 1;
    var v, b: nat := Value(buf[..n]), buf[n];
    var flipped := Flip(buf, k);
    Pows();
    XorDisjoint(v, b, 8);
    if k < 8 {
      assert flipped[..n] == buf[..n];
      FlippedByte(buf[n], k);
      XorDisjoint(v, Xor(b, Pow2(k)), 8);
      XorAssociates(256 * v, b, Pow2(k));
    } else {
      FlipChangesValue(buf[..n], k - 8);
      assert flipped[..n] == Flip(buf[..n], k - 8);
      PowSum(8, k - 8);
      XorScale(v, Pow2(k - 8), 8);
      XorDisjoint(Xor(v, Pow2(k - 8)), b, 8);
      XorAssociates(256 * v, b, Pow2(k));
      XorCommutes(b, Pow2(k));
      XorAssociates(256 * v, Pow2(k), b);
    }
  }

  /** In a message of any length, two flipped bits go unnoticed exactly when 127 divides their distance. */
  lemma TwoFlipsExactly(buf: seq<Byte>, k: nat, d: nat)
    requires d > 0 && k + d < 8 * |buf|
    ensures Crc(Flip(Flip(buf, k), k + d)) == Crc(buf) <==> d % 127 == 0
  {
    hide Xor, Pow2, Crc, Value, Flip;
    var a := Flip(Flip(buf, k), k + d);
    var v, x, y := Value(buf), Pow2(k), Pow2(k + d);
    FlipChangesValue(buf, k);
    FlipChangesValue(Flip(buf, k), k + d);
    XorAssociates(v, x, y);
    XorCommutes(v, Xor(x, y));
    XorMove(Value(a), v, Xor(x, y));
    XorCommutes(x, y);
    PowSum(k, d);
    assert Pow2(k) * 1 == Pow2(k);
    XorScale(Pow2(d), 1, k);
    DividesUnscale(G, Xor(Pow2(d), 1), k);
    SameCrcExactly(a, buf);
    DividesBinomial(d);
  }

  // ---------------------------------------------------------------------------------------------
  // Erased flash
  // ---------------------------------------------------------------------------------------------

  function Erased(n: nat): (buf: seq<Byte>)
    ensures |buf| == n
  {
    seq(n, i => 255)
  }

  lemma {:induction false} ErasedValue(n: nat)
    ensures Value(Erased(n)) == Pow2(8 * n) - 1
    decreases n
  {
    if n > 0 {
      assert Erased(n)[..n - 1] == Erased(n - 1);
      ErasedValue(n - 1);
      PowSum(8, 8 * (n - 1));
      Pows();
    }
  }

  /** A record of erased flash carries a right checksum exactly when its length is a multiple of 127. */
  lemma ErasedIsClosedExactly(n: nat)
    ensures Crc(Erased(n)) == 0 <==> n % 127 == 0
  {
    hide Xor, Pow2, Crc, Value, Erased, Divides;
    ErasedValue(n);
    EmptyCrc();
    SameCrcExactly(Erased(n), []);
    XorZero(Pow2(8 * n) - 1);
    if Divides(G, Pow2(8 * n) - 1) {
      DividesOnes(8 * n);
      EightTimes(n);
    }
    if n % 127 == 0 {
      FourTimes(n);
      OnesAreDivided(4 * n);
      assert 2 * (4 * n) == 8 * n;
    }
  }

  lemma MultipleOf127(n: int, z: int)
    requires n == 127 * z
    ensures n % 127 == 0
  {
  }

  lemma EightTimes(n: nat)
    requires 8 * n % 127 == 0
    ensures n % 127 == 0
  {
    var q := 8 * n / 127;
    assert 8 * n == 127 * q;
    MultipleOf127(n, 16 * q - n);
  }

  lemma FourTimes(n: nat)
    requires n % 127 == 0
    ensures 4 * n % 127 == 0
  {
    var q := n / 127;
    assert n == 127 * q;
    MultipleOf127(4 * n, 4 * q);
  }

  lemma DividesOnes(m: nat)
    requires Divides(G, Pow2(m) - 1)
    ensures m % 127 == 0
  {
    hide Xor, Pow2, Divides;
    var v: nat := Pow2(m) - 1;
    DividesShift(G, v);
    DividesXor(G, 2 * v, v);
    DoubleOverlap(v, m);
    DividesBinomial(m);
  }

  lemma OnesAreDivided(n: nat)
    requires n % 127 == 0
    ensures Divides(G, Pow2(2 * n) - 1)
  {
    hide Xor, Pow2, Divides, Mul;
    DividesBinomial(n);
    OnesDouble(n);
    MultipleOfMultiple(Pow2(n) - 1, Xor(Pow2(n), 1), G);
  }

  lemma {:induction false} MulPow(u: nat, n: nat)
    ensures Mul(u, Pow2(n)) == Pow2(n) * u
    decreases n
  {
    hide Mul;
    if n == 0 {
      MulOne(u);
    } else {
      MulPow(u, n - 1);
      MulRightDouble(u, Pow2(n - 1));
      Twice(Pow2(n - 1), u);
    }
  }

  /** 2n ones are n ones times x^n + 1. */
  lemma OnesDouble(n: nat)
    ensures Mul(Pow2(n) - 1, Xor(Pow2(n), 1)) == Pow2(2 * n) - 1
  {
    hide Mul, Xor, Pow2;
    var p := Pow2(n);
    MulRightXor(p - 1, p, 1);
    MulPow(p - 1, n);
    MulOne(p - 1);
    XorDisjoint(p - 1, p - 1, n);
    PowSum(n, n);
    assert p * (p - 1) + (p - 1) == p * p - 1;
  }

  /** (2^m - 1) (x + 1) is x^m + 1. */
  lemma DoubleOverlap(v: nat, m: nat)
    requires v + 1 == Pow2(m)
    ensures Xor(2 * v, v) == Xor(Pow2(m), 1)
  {
    hide Xor, Pow2;
    Append(v, 1);
    XorDisjoint(1, v, m);
    XorSwap(2 * v, 1, v, 1);
    XorSwap(Pow2(m), v, 1, v);
    XorCommutes(1, v);
    XorSelf(1);
    XorSelf(v);
    XorZero(Xor(2 * v, v));
    XorZero(Xor(Pow2(m), 1));
  }

  lemma EmptyCrc()
    ensures Crc([]) == 0 && Value([]) == 0
  {
  }
}
