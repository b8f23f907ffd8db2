/** The CRC-8 of the NVRAM records: generator x^8 + x^2 + x + 1, register starting at zero. */
module Crc8 {
  import opened Gf2

  type Byte = b: nat | b < 256

  /** The generator, as a polynomial. */
  const G: nat := 0x107

  /** What `0x8380` does to the register before the shift, `0x10700` does after it. */
  const FOLD: nat := 0x8380

  // ---------------------------------------------------------------------------------------------
  // The register, without its zero low byte
  // ---------------------------------------------------------------------------------------------

  /** Multiplication by x modulo the generator. */
  function Step(r: nat): nat {
    if r < 128 then 2 * r else Xor(2 * r, G)
  }

  function Steps(r: nat, n: nat): nat
    decreases n
  {
    if n == 0 then r else Step(Steps(r, n - 1))
  }

  /** The checksum of a byte string. */
  function Crc(buf: seq<Byte>): nat
    decreases |buf|
  {
    if buf == [] then 0 else Steps(Xor(Crc(buf[..|buf| - 1]), buf[|buf| - 1]), 8)
  }

  lemma StepStaysByte(r: nat)
    requires r < 256
    ensures Step(r) < 256
  {
    Pows();
    if r >= 128 {
      XorCancelsHigh(2 * r - 256, 7, 8);
      XorBound(2 * r - 256, 7, 8);
    }
  }

  lemma Pows()
    ensures Pow2(0) == 1 && Pow2(7) == 128 && Pow2(8) == 256 && Pow2(15) == 0x8000
  {
    assert Pow2(4) == 16 && Pow2(12) == 4096;
  }

  lemma {:induction false} StepsStayByte(r: nat, n: nat)
    requires r < 256
    ensures Steps(r, n) < 256
    decreases n
  {
    if n > 0 {
      StepsStayByte(r, n - 1);
      StepStaysByte(Steps(r, n - 1));
    }
  }

  lemma {:induction false} CrcIsByte(buf: seq<Byte>)
    ensures Crc(buf) < 256
    decreases |buf|
  {
    if buf != [] {
      var r, b := Crc(buf[..|buf| - 1]), buf[|buf| - 1];
      CrcIsByte(buf[..|buf| - 1]);
      Pows();
      XorBound(r, b, 8);
      StepsStayByte(Xor(r, b), 8);
    }
  }

  // ---------------------------------------------------------------------------------------------
  // The loop of the tool
  // ---------------------------------------------------------------------------------------------

  /** One turn of the inner loop on the register `256 * r`. */
  lemma Fold(r: nat)
    requires r < 256
    ensures And(256 * r, 0x8000) != 0 <==> r >= 128
    ensures r >= 128 ==> 2 * Xor(256 * r, FOLD) == 256 * Step(r) && Xor(256 * r, FOLD) < 0x8000
    ensures r < 128 ==> 2 * (256 * r) == 256 * Step(r)
  {
    Pows();
    AndTestsBit(256 * r, 15);
    BitTop(256 * r, 15);
    if r >= 128 {
      XorScale(2 * r, G, 7);
      assert 128 * (2 * r) == 256 * r && 128 * G == FOLD;
      StepStaysByte(r);
    }
  }

  /**
   `crc8`, on unbounded integers.  The register keeps below 2^16, and its low byte is zero whenever a
   byte has been taken in, so that the result is a byte.
   */
  method ComputeCrc8(buf: seq<Byte>) returns (result: nat)
    ensures result == Crc(buf) && result < 256
  {
    hide Xor, And, Step;
    var crc: nat := 0;
    var i := 0;
    while i < |buf|
      invariant 0 <= i <= |buf|
      invariant crc == 256 * Crc(buf[..i]) && crc < 0x1_0000
    {
      ghost var r := Crc(buf[..i]);
      assert buf[..i + 1][..i] == buf[..i];
      CrcIsByte(buf[..i]);
      TakeIn(r, buf[i]);
      var b: nat := buf[i];
      crc := Xor(crc, 256 * b);
      var n := 0;
      while n < 8
        invariant 0 <= n <= 8
        invariant crc == 256 * Steps(Xor(r, buf[i]), n) && crc < 0x1_0000
      {
        Fold(Steps(Xor(r, buf[i]), n));
        if And(crc, 0x8000) != 0 {
          crc := Xor(crc, FOLD);
        }
        crc := 2 * crc;
        StepStaysByte(Steps(Xor(r, buf[i]), n));
        n := n + 1;
      }
      i := i + 1;
    }
    assert buf[..i] == buf;
    CrcIsByte(buf);
    result := crc / 256;
  }

  lemma TakeIn(r: nat, b: Byte)
    requires r < 256
    ensures Xor(256 * r, 256 * (b as nat)) == 256 * Xor(r, b) && Xor(r, b) < 256
  {
    Pows();
    XorScale(r, b, 8);
    XorBound(r, b, 8);
  }

  // ---------------------------------------------------------------------------------------------
  // The checksum is a remainder
  // ---------------------------------------------------------------------------------------------

  /** The byte string as one number, first byte highest: the message polynomial. */
  function Value(buf: seq<Byte>): nat
    decreases |buf|
  {
    if buf == [] then 0 else 256 * Value(buf[..|buf| - 1]) + buf[|buf| - 1]
  }

  lemma StepIsRemainder(r: nat, p: nat)
    requires IsRemainder(r, p, G, 8)
    ensures IsRemainder(Step(r), 2 * p, G, 8)
  {
    Pows();
    StepStaysByte(r);
    var q: nat :| Xor(Mul(q, G), r) == p;
    XorDouble(Mul(q, G), r);
    if r < 128 {
      MulEven(q, G);
      assert Xor(Mul(2 * q, G), Step(r)) == 2 * p;
    } else {
      MulOdd(q, G);
      var m := 2 * Mul(q, G);
      XorCommutes(G, m);
      XorAssociates(m, G, Xor(2 * r, G));
      XorCommutes(2 * r, G);
      XorAssociates(G, G, 2 * r);
      XorSelf(G);
      XorZero(2 * r);
      assert Xor(Mul(2 * q + 1, G), Step(r)) == 2 * p;
    }
  }

  lemma {:induction false} StepsAreRemainder(r: nat, p: nat, n: nat)
    requires IsRemainder(r, p, G, 8)
    ensures IsRemainder(Steps(r, n), Pow2(n) * p, G, 8)
    decreases n
  {
    if n > 0 {
      StepsAreRemainder(r, p, n - 1);
      StepIsRemainder(Steps(r, n - 1), Pow2(n - 1) * p);
      Twice(Pow2(n - 1), p);
    }
  }

  lemma SmallIsRemainder(r: nat)
    requires r < 256
    ensures IsRemainder(r, r, G, 8)
  {
    Pows();
    MulZero(G);
    XorZero(r);
    assert Xor(Mul(0, G), r) == r;
  }

  /** For every byte string, the checksum is the remainder of M(x) x^8 divided by the generator. */
  lemma {:induction false} CrcIsRemainder(buf: seq<Byte>)
    ensures IsRemainder(Crc(buf), 256 * Value(buf), G, 8)
    decreases |buf|
  {
    Pows();
    if buf == [] {
      SmallIsRemainder(0);
    } else {
      var init, b := buf[..|buf| - 1], buf[|buf| - 1];
      CrcIsRemainder(init);
      SmallIsRemainder(b);
      RemainderXor(Crc(init), b, 256 * Value(init), b, G, 8);
      XorDisjoint(Value(init), b, 8);
      StepsAreRemainder(Xor(Crc(init), b), Value(buf), 8);
    }
  }
}
