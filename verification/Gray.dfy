// gray2binary of pt3_dtv.c: the error counter of the board counts in Gray
// code.
module Gray {
  import opened Arith

  // The lowest bit.
  predicate Bit(x: nat) {
    x % 2 == 1
  }

  function WithBit(half: nat, bit: bool): (x: nat)
    ensures x / 2 == half && Bit(x) == bit
  {
    2 * half + if bit then 1 else 0
  }

  // b exclusive-or b >> 1.
  function Encode(b: nat): nat {
    if b == 0 then 0 else WithBit(Encode(b / 2), Bit(b) != Bit(b / 2))
  }

  // Every bit is the exclusive or of the bits from it upward.
  function Decode(g: nat): nat {
    if g == 0 then 0 else WithBit(Decode(g / 2), Parity(g))
  }

  predicate Parity(g: nat) {
    g != 0 && Bit(g) != Parity(g / 2)
  }

  lemma EncodeStep(b: nat)
    ensures Encode(b) / 2 == Encode(b / 2) && Bit(Encode(b)) == (Bit(b) != Bit(b / 2))
  {
  }

  lemma ParityStep(g: nat)
    ensures Parity(g) == (Bit(g) != Parity(g / 2))
  {
  }

  lemma DecodeStep(g: nat)
    ensures Decode(g) / 2 == Decode(g / 2) && Bit(Decode(g)) == Parity(g)
  {
  }

  lemma {:induction false} ParityOfCode(b: nat)
    ensures Parity(Encode(b)) == Bit(b)
  {
    EncodeStep(b);
    if b > 0 {
      ParityOfCode(b / 2);
      ParityStep(Encode(b));
    }
  }

  lemma Halves(a: nat, b: nat)
    requires a / 2 == b / 2 && Bit(a) == Bit(b)
    ensures a == b
  {
  }

  // Decoding undoes encoding ...
  lemma {:induction false} Decoded(b: nat)
    ensures Decode(Encode(b)) == b
  {
    if b > 0 {
      Decoded(b / 2);
      ParityOfCode(b);
      EncodeStep(b);
      DecodeStep(Encode(b));
      Halves(Decode(Encode(b)), b);
    }
  }

  // ... and encoding undoes decoding: every word is the code of one number.
  lemma {:induction false} Encoded(g: nat)
    ensures Encode(Decode(g)) == g
  {
    if g > 0 {
      Encoded(g / 2);
      DecodeStep(g);
      DecodeStep(g / 2);
      ParityStep(g);
      EncodeStep(Decode(g));
      Halves(Encode(Decode(g)), g);
    }
  }

  lemma HalfOfPow2(b: nat, bit: nat)
    requires bit > 0
    ensures b < Pow2(bit) <==> b / 2 < Pow2(bit - 1)
  {
  }

  // A code has no more bits than its number.
  lemma {:induction false} SameWidth(b: nat, bit: nat)
    ensures b < Pow2(bit) <==> Encode(b) < Pow2(bit)
    decreases bit
  {
    if bit == 0 {
      Decoded(b);
    } else {
      SameWidth(b / 2, bit - 1);
      HalfOfPow2(b, bit);
      HalfOfPow2(Encode(b), bit);
      EncodeStep(b);
    }
  }

  // The loops

  lemma ShiftStep(g: nat, j: nat)
    ensures g / Pow2(j) / 2 == g / Pow2(j + 1)
  {
    DivDiv(g, Pow2(j), 2, Pow2(j + 1));
  }

  function Shift(g: nat, i: nat): nat {
    if i == 0 then g else Shift(g, i - 1) / 2
  }

  lemma {:induction false} ShiftIs(g: nat, i: nat)
    ensures Shift(g, i) == g / Pow2(i)
  {
    if i > 0 {
      ShiftIs(g, i - 1);
      ShiftStep(g, i - 1);
    }
  }

  lemma {:induction false} DecodeShift(g: nat, i: nat)
    ensures Shift(Decode(g), i) == Decode(Shift(g, i))
  {
    if i > 0 {
      DecodeShift(g, i - 1);
      DecodeStep(Shift(g, i - 1));
    }
  }

  // The lowest bits of a word.
  function Low(x: nat, bits: nat): nat {
    if bits == 0 then 0 else WithTop(Low(x, bits - 1), Bit(Shift(x, bits - 1)), bits - 1)
  }

  // Bit i of a word whose other bits are below it.
  function WithTop(low: nat, bit: bool, i: nat): nat {
    low + if bit then Pow2(i) else 0
  }

  lemma OneBitMore(x: nat, l: nat, s: nat, p: nat)
    requires x == l + s * p && l < p
    ensures var top := if Bit(s) then p else 0; x == l + top + s / 2 * (2 * p) && l + top < 2 * p
  {
    var h := s / 2;
    assert h * (2 * p) == 2 * h * p;
    if Bit(s) {
      assert s == 2 * h + 1;
      assert (2 * h + 1) * p == 2 * h * p + p;
    }
  }

  lemma {:induction false} LowAndHigh(x: nat, bits: nat)
    ensures x == Low(x, bits) + Shift(x, bits) * Pow2(bits) && Low(x, bits) < Pow2(bits)
  {
    if bits > 0 {
      LowAndHigh(x, bits - 1);
      OneBitMore(x, Low(x, bits - 1), Shift(x, bits - 1), Pow2(bits - 1));
    }
  }

  // A word of that width is all low bits.
  lemma LowIsAll(x: nat, bits: nat)
    requires x < Pow2(bits)
    ensures Low(x, bits) == x && Shift(x, bits) == 0
  {
    LowAndHigh(x, bits);
    if Shift(x, bits) > 0 {
      MulLe(1, Shift(x, bits), Pow2(bits));
    }
  }

  // Encode is the word exclusive-or the word shifted right by one, bit by bit.
  lemma {:induction false} EncodeShift(b: nat, j: nat)
    ensures Shift(Encode(b), j) == Encode(Shift(b, j))
    ensures Bit(Shift(Encode(b), j)) == (Bit(Shift(b, j)) != Bit(Shift(b, j + 1)))
  {
    if j > 0 {
      EncodeShift(b, j - 1);
      EncodeStep(Shift(b, j - 1));
    }
    EncodeStep(Shift(b, j));
  }

  // The inner loop: the exclusive or of the bits from i upward.
  method BitsFrom(gray: nat, i: nat, bit: nat) returns (k: bool)
    requires i <= bit && Shift(gray, bit) == 0
    ensures k == Parity(Shift(gray, i))
  {
    k := false;
    for j := i to bit
      invariant (k != Parity(Shift(gray, j))) == Parity(Shift(gray, i))
    {
      ParityStep(Shift(gray, j));
      k := k != Bit(Shift(gray, j));
    }
  }

  // A word of the given width is the code of the result, and of no other
  // number.
  method Gray2Binary(gray: nat, bit: nat) returns (binary: nat)
    requires gray < Pow2(bit)
    ensures binary < Pow2(bit) && Encode(binary) == gray
    ensures forall b: nat :: Encode(b) == gray ==> b == binary
  {
    binary := 0;
    LowIsAll(gray, bit);
    for i := 0 to bit
      invariant binary == Low(Decode(gray), i)
    {
      var k := BitsFrom(gray, i, bit);
      DecodeShift(gray, i);
      DecodeStep(Shift(gray, i));
      binary := WithTop(binary, k, i);
    }
    DecodedWord(gray, bit);
    forall b: nat | Encode(b) == gray
      ensures b == binary
    {
      Decoded(b);
    }
  }

  lemma DecodedWord(gray: nat, bit: nat)
    requires gray < Pow2(bit)
    ensures Decode(gray) < Pow2(bit) && Encode(Decode(gray)) == gray && Low(Decode(gray), bit) == Decode(gray)
  {
    Encoded(gray);
    SameWidth(Decode(gray), bit);
    LowIsAll(Decode(gray), bit);
  }
}
