// The PLL arithmetic of tda2014x_tune: division by powers of ten without a
// divide instruction, the choice of the dividers, and the integer and
// fractional part of the ratio of the synthesiser.
module Pll {
  import opened Arith
  import opened Octets

  type u32 = x: int | 0 <= x < 0x1_0000_0000

  // Division by ten

  function Pow10(k: nat): (p: nat)
    ensures p > 0
  {
    if k == 0 then 1 else 10 * Pow10(k - 1)
  }

  // A tenth, from 1/2 + 1/4 times 1 + 1/16, 1 + 1/256 and 1 + 1/65536.
  function Estimate(n: nat): nat {
    var a := n / 2 + n / 4;
    var b := a + a / 16;
    var c := b + b / 256;
    var d := c + c / 65536;
    d / 8
  }

  const EXACT: nat := 0x4_0000_0000
  const LARGEST: nat := 0x40_0000_0000

  // The estimate is never high, and low by at most one up to 2^34.
  lemma EstimateIsLow(n: nat)
    requires n < LARGEST
    ensures 10 * Estimate(n) <= n <= 10 * Estimate(n) + 79
    ensures n < EXACT ==> n <= 10 * Estimate(n) + 18
  {
    var a := n / 2 + n / 4;
    var b := a + a / 16;
    var c := b + b / 256;
    var d := c + c / 65536;
    assert 4 * a <= 3 * n <= 4 * a + 5;
    assert 16 * b <= 17 * a <= 16 * b + 15;
    assert 256 * c <= 257 * b <= 256 * c + 255;
    assert 65536 * d <= 65537 * c <= 65536 * d + 65535;
    assert 8 * (d / 8) <= d <= 8 * (d / 8) + 7;
  }

  lemma PowMore(x: nat, k: nat)
    ensures x * Pow10(k + 1) == 10 * x * Pow10(k)
  {
    assert Pow10(k + 1) == 10 * Pow10(k);
  }

  // One digit less.
  lemma TenthIs(n0: nat, k: nat, n: nat, m: nat)
    requires 10 * m <= n <= 10 * m + 79
    requires n * Pow10(k) <= n0 <= (n + 9) * Pow10(k)
    ensures m * Pow10(k + 1) <= n0 <= (m + 9) * Pow10(k + 1)
  {
    PowMore(m, k);
    PowMore(m + 9, k);
    MulLe(10 * m, n, Pow10(k));
    MulLe(n + 9, 10 * (m + 9), Pow10(k));
  }

  lemma QuotientTenth(n0: nat, k: nat)
    ensures n0 / Pow10(k) / 10 == n0 / Pow10(k + 1)
  {
    DivDiv(n0, Pow10(k), 10, Pow10(k + 1));
  }

  // One round of the loop.
  method Tenth(n: nat) returns (m: nat)
    requires n < LARGEST
    ensures 10 * m <= n <= 10 * m + 79
    ensures n < EXACT ==> m == n / 10
  {
    var q := n / 2 + n / 4;
    q := q + q / 16;
    q := q + q / 256;
    q := q + q / 65536;
    q := q / 8;
    EstimateIsLow(n);
    var r := n - (q * 4 + q) * 2;
    m := q + if r > 9 then 1 else 0;
  }

  // n0 / 10^pow, for every n0 below 2^34; above that it can be low by nine.
  method Div10(n0: nat, pow0: nat) returns (n: nat)
    requires n0 < LARGEST
    ensures n * Pow10(pow0) <= n0 <= (n + 9) * Pow10(pow0)
    ensures n0 < EXACT ==> n == n0 / Pow10(pow0)
  {
    n := n0;
    var pow := pow0;
    ghost var k := 0;
    while pow > 0
      invariant k + pow == pow0 && n <= n0
      invariant n * Pow10(k) <= n0 <= (n + 9) * Pow10(k)
      invariant n0 < EXACT ==> n == n0 / Pow10(k)
      decreases pow
    {
      var m := Tenth(n);
      TenthIs(n0, k, n, m);
      QuotientTenth(n0, k);
      n := m;
      k := k + 1;
      pow := pow - 1;
    }
  }

  // The dividers

  function Shr(x: nat, k: nat): nat
    requires k <= 2
  {
    x / [1, 2, 4][k]
  }

  // The reference is divided by r and the oscillator by 2^premain.
  datatype Dividers = OutOfRange | Dividers(premain: nat, r: nat)

  // What the search comes to.
  function Choice(v15: nat): Dividers {
    if v15 < 88 then OutOfRange
    else if v15 < 131 then Dividers(1, 3)
    else if v15 < 252 then Dividers(0, 1)
    else if v15 < 262 then Dividers(2, 3)
    else if v15 < 504 then Dividers(1, 1)
    else if v15 < 524 then OutOfRange
    else if v15 < 1008 then Dividers(2, 1)
    else OutOfRange
  }

  // With these dividers the integer part of the ratio fits its register.
  predicate Suits(v15: nat, premain: nat, r: nat)
    requires premain <= 2
  {
    131 <= v15 * r / [1, 2, 4][premain] <= 251
  }

  // The reference is not divided if it can be helped, and by three with a
  // predivider otherwise; when neither suits there are no dividers.
  lemma ChoicePrefers(v15: nat, premain: nat, r: nat)
    requires premain <= 2
    ensures Choice(v15) == Dividers(premain, r) <==>
      Suits(v15, premain, r)
      && (r == 1 || (r == 3 && premain > 0 && !Suits(v15, 0, 1) && !Suits(v15, 1, 1) && !Suits(v15, 2, 1)))
  {
  }

  // The search, with its jump into the other branch.
  method Search(v15: nat) returns (d: Dividers, nint: nat)
    ensures d == Choice(v15)
    ensures d.Dividers? ==> nint == Shr(v15 * d.r, d.premain) && 131 <= nint <= 251
  {
    var r, premain, label36 := 1, 1, false;
    nint := Shr(v15 * r, premain);
    if nint < 131 {
      premain := 0;
      nint := Shr(v15 * r, premain);
      if nint > 251 {
        r, premain, label36 := 3, 2, true;
      } else if nint < 131 {
        r, premain, label36 := 3, 1, true;
      }
    } else if nint > 251 {
      premain := 2;
      nint := Shr(v15 * r, premain);
      if nint > 251 {
        r, premain := 3, 2;
      }
      label36 := true;
    }
    if label36 {
      nint := Shr(v15 * r, premain);
      if nint < 131 || nint > 251 {
        return OutOfRange, nint;
      }
    }
    return Dividers(premain, r), nint;
  }

  // Four times r / 2^premain.
  function Factor(d: Dividers): (n: nat)
    requires d.Dividers? && d.premain <= 2
  {
    Shr(4, d.premain) * d.r
  }

  // kint is r / 2^premain of resLsb, but for the rounding of its two parts
  // when r is 3.
  predicate Scales(resLsb: nat, d: Dividers, kint: nat)
    requires d.Dividers? && d.premain <= 2
  {
    && 4 * kint <= Factor(d) * resLsb < 4 * (kint + 2)
    && (d.r == 1 ==> kint == Factor(d) * resLsb / 4)
  }

  // The dividers the search can come to.
  predicate Possible(d: Dividers) {
    d in {Dividers(1, 3), Dividers(0, 1), Dividers(2, 3), Dividers(1, 1), Dividers(2, 1)}
  }

  lemma ChoiceIsPossible(v15: nat)
    ensures Choice(v15).Dividers? ==> Possible(Choice(v15))
  {
  }

  // The cases of the switch; anything else is its default.
  function Switch(resLsb: nat, percent: nat): Option<nat> {
    if percent == 25 then Some(resLsb / 4)
    else if percent == 50 then Some(resLsb / 2)
    else if percent == 75 then Some(resLsb / 2 + resLsb / 4)
    else if percent == 100 then Some(resLsb)
    else if percent == 150 then Some(resLsb / 2 + resLsb)
    else None
  }

  lemma SwitchScales(resLsb: nat, d: Dividers)
    requires Possible(d)
    ensures var k := Switch(resLsb, Shr(100 * d.r, d.premain)); k.Some? && Scales(resLsb, d, k.value)
  {
    if d == Dividers(1, 3) {
    } else if d == Dividers(0, 1) {
    } else if d == Dividers(2, 3) {
    } else if d == Dividers(1, 1) {
    } else {
    }
  }

  // The ratio for the dividers found; with those the default case is not
  // reached.
  method Scale(resLsb: nat, d: Dividers) returns (known: bool, kint: nat)
    requires Possible(d)
    ensures known && Scales(resLsb, d, kint)
  {
    SwitchScales(resLsb, d);
    known, kint := true, resLsb;
    var percent := Shr(100 * d.r, d.premain);
    if percent == 25 {
      kint := resLsb / 4;
    } else if percent == 50 {
      kint := resLsb / 2;
    } else if percent == 75 {
      kint := resLsb / 2 + resLsb / 4;
    } else if percent == 100 {
    } else if percent == 150 {
      kint := resLsb / 2 + resLsb;
    } else {
      known := false;
    }
  }

  // The fraction

  const MILLION: nat := 1_000_000

  // The state of the scaling: value is all was doubled, its last digits cut
  // off, with rest doublings to come; unit is what one of it counts for in
  // the end.  a is the value of 2^16 * frac in millionths, rounded down:
  // cutting digits off never loses it.
  ghost predicate Scaled(value: nat, digits: nat, rest: nat, frac: nat, a: nat) {
    && digits <= 3 && rest <= 16
    && MILLION * a <= value * UnitOf(digits, rest) <= 65536 * frac
  }

  ghost function UnitOf(digits: nat, rest: nat): nat {
    Pow10(digits) * Pow2(rest)
  }

  lemma Pows()
    ensures Pow2(0) == 1 && Pow2(1) == 2 && Pow2(2) == 4 && Pow2(3) == 8 && Pow2(4) == 16
    ensures Pow10(0) == 1 && Pow10(1) == 10 && Pow10(2) == 100 && Pow10(3) == 1000
  {
    assert Pow2(1) == 2 * Pow2(0) && Pow2(2) == 2 * Pow2(1) && Pow2(3) == 2 * Pow2(2) && Pow2(4) == 2 * Pow2(3);
    assert Pow10(1) == 10 * Pow10(0) && Pow10(2) == 10 * Pow10(1) && Pow10(3) == 10 * Pow10(2);
  }

  lemma {:induction false} Pow2Grows(k: nat)
    requires k >= 5
    ensures Pow2(k) >= 32
    decreases k
  {
    if k == 5 {
      Pows();
      assert Pow2(5) == 2 * Pow2(4);
    } else {
      Pow2Grows(k - 1);
    }
  }

  lemma Twice(v: nat, p: nat, q: nat)
    ensures v * (p * (2 * q)) == 2 * v * (p * q)
  {
    assert p * (2 * q) == 2 * (p * q);
  }

  lemma Doubled(value: nat, digits: nat, rest: nat, frac: nat, a: nat)
    requires Scaled(value, digits, rest, frac, a) && rest > 0
    ensures Scaled(2 * value, digits, rest - 1, frac, a)
  {
    Twice(value, Pow10(digits), Pow2(rest - 1));
  }

  lemma TenTimes(v: nat, p: nat, q: nat)
    ensures v * (10 * p * q) == 10 * v * (p * q)
  {
    assert 10 * p * q == 10 * (p * q);
  }

  // Cutting a digit off a value, when one of it counts for unit.
  lemma CutAt(value: nat, unit: nat, a: nat)
    requires unit in {10, 20, 40, 80, 160, 100, 200} && MILLION * a <= value * unit
    ensures MILLION * a <= 10 * (value / 10) * unit
  {
    if unit == 10 {
      Tenths(value, 10_000 * a);
    } else if unit == 20 {
      Tenths(value, 5_000 * a);
    } else if unit == 40 {
      Tenths(value, 2_500 * a);
    } else if unit == 80 {
      Tenths(value, 1_250 * a);
    } else if unit == 160 {
      Tenths(value, 625 * a);
    } else if unit == 100 {
      Tenths(value, 1_000 * a);
    } else {
      Tenths(value, 500 * a);
    }
  }

  lemma Tenths(value: nat, w: nat)
    requires 10 * w <= value
    ensures w <= value / 10
  {
  }

  lemma UnitGrows(digits: nat, rest: nat)
    requires 0 < digits <= 3
    ensures rest >= 5 ==> UnitOf(digits, rest) >= 320
  {
    Pows();
    if rest >= 5 {
      Pow2Grows(rest);
      MulLe(32, Pow2(rest), Pow10(digits));
    }
  }

  // A value that large has few doublings to come.
  lemma UnitIsSmall(value: nat, digits: nat, rest: nat, frac: nat, a: nat)
    requires Scaled(value, digits, rest, frac, a) && frac < MILLION && value > 0x0fff_ffff && digits > 0
    ensures digits < 3 && UnitOf(digits, rest) in {10, 20, 40, 80, 160, 100, 200}
  {
    UnitGrows(digits, rest);
    MulLe(0x1000_0000, value, UnitOf(digits, rest));
    Pows();
  }

  lemma DigitCut(value: nat, digits: nat, rest: nat, frac: nat, a: nat)
    requires Scaled(value, digits, rest, frac, a) && frac < MILLION && value > 0x0fff_ffff
    requires digits == 0 ==> value % 10 == 0
    ensures digits < 3 && Scaled(value / 10, digits + 1, rest, frac, a)
  {
    var unit := UnitOf(digits, rest);
    TenTimes(value / 10, Pow10(digits), Pow2(rest));
    MulLe(10 * (value / 10), value, unit);
    if digits > 0 {
      UnitIsSmall(value, digits, rest, frac, a);
      CutAt(value, unit, a);
    }
  }

  lemma MorePows()
    ensures Pow2(16) == 65536 && Pow10(4) == 10_000 && Pow10(5) == 100_000 && Pow10(6) == MILLION
  {
    Pows();
    assert Pow2(5) == 32 && Pow2(6) == 64 && Pow2(7) == 128 && Pow2(8) == 256;
    assert Pow2(9) == 512 && Pow2(10) == 1024 && Pow2(11) == 2048 && Pow2(12) == 4096;
    assert Pow2(13) == 8192 && Pow2(14) == 16384 && Pow2(15) == 32768;
    assert Pow10(4) == 10 * Pow10(3) && Pow10(5) == 10 * Pow10(4) && Pow10(6) == 10 * Pow10(5);
  }

  // Cutting off the digits that are left gives the value in millionths.
  lemma LastCut(value: nat, digits: nat, frac: nat)
    requires Scaled(value, digits, 0, frac, 65536 * frac / MILLION)
    ensures value / Pow10(6 - digits) == 65536 * frac / MILLION
  {
    Pows();
    MorePows();
    var a, p := 65536 * frac / MILLION, Pow10(6 - digits);
    assert p * a <= value < p * a + p;
    QuotientIs(value, p, a, value - p * a);
  }

  // div10 for one digit.
  method CutDigit(n: nat) returns (m: nat)
    requires n < EXACT
    ensures m == n / 10
  {
    Pows();
    m := Div10(n, 1);
  }

  lemma DoubledAndCut(value: nat, digits: nat, rest: nat, frac: nat, a: nat)
    requires Scaled(value, digits, rest, frac, a) && rest > 0 && frac < MILLION && 2 * value > 0x0fff_ffff
    requires digits == 0 ==> value % 10 == 0
    ensures digits < 3 && Scaled(2 * value / 10, digits + 1, rest - 1, frac, a)
  {
    Doubled(value, digits, rest, frac, a);
    StillRound(value);
    DigitCut(2 * value, digits, rest - 1, frac, a);
  }

  lemma StillRound(value: nat)
    ensures value % 10 == 0 ==> 2 * value % 10 == 0
  {
  }

  // One round of the loop.
  method Double(value: nat, calcPow: nat, i: nat, ghost frac: nat, ghost a: nat) returns (dsmFrac: nat, pow: nat)
    requires i < 16 && 3 <= calcPow <= 6 && frac < MILLION && value <= 0x0fff_ffff
    requires Scaled(value, 6 - calcPow, 16 - i, frac, a) && (calcPow == 6 ==> value % 10 == 0)
    ensures 3 <= pow <= 6 && Scaled(dsmFrac, 6 - pow, 15 - i, frac, a) && (pow == 6 ==> dsmFrac % 10 == 0)
    ensures dsmFrac <= if i < 15 then 0x0fff_ffff else 0x1fff_ffff
  {
    dsmFrac, pow := 2 * value, calcPow;
    if dsmFrac > 0x0fff_ffff && i != 15 {
      DoubledAndCut(value, 6 - calcPow, 16 - i, frac, a);
      dsmFrac := CutDigit(dsmFrac);
      pow := pow - 1;
    } else {
      Doubled(value, 6 - calcPow, 16 - i, frac, a);
      StillRound(value);
    }
  }

  lemma ScaledFirst(frac: nat)
    ensures Scaled(frac, 0, 16, frac, 65536 * frac / MILLION)
  {
    MorePows();
    Pows();
    assert UnitOf(0, 16) == 65536;
  }

  // The sixteen bits of the fraction, exact though digits are lost on the way.
  method Fraction(frac: nat) returns (bits: nat)
    requires frac < MILLION && frac % 10 == 0
    ensures bits == 65536 * frac / MILLION && bits < 65536
  {
    ghost var a := 65536 * frac / MILLION;
    var dsmFrac, calcPow, i := frac, 6, 0;
    ScaledFirst(frac);
    while i < 16
      invariant 0 <= i <= 16 && 3 <= calcPow <= 6
      invariant Scaled(dsmFrac, 6 - calcPow, 16 - i, frac, a)
      invariant calcPow == 6 ==> dsmFrac % 10 == 0
      invariant dsmFrac <= if i < 16 then 0x0fff_ffff else 0x1fff_ffff
    {
      dsmFrac, calcPow := Double(dsmFrac, calcPow, i, frac, a);
      i := i + 1;
    }
    LastCut(dsmFrac, 6 - calcPow, frac);
    bits := Div10(dsmFrac, calcPow);
  }

  // Tuning

  // The divider of the oscillator output that the band has.
  function OutputDivider(fKhz: u32): (n: nat)
    ensures 4 <= n <= 8
  {
    8 - if fKhz <= 1075000 then 0 else if fKhz <= 1228000 then 1 else if fKhz <= 1433000 then 2
        else if fKhz <= 1720000 then 3 else 4
  }

  // The frequency in MHz, rounded up.
  function Megahertz(fKhz: u32): nat {
    (fKhz + 999) / 1000
  }

  // n is the largest divider, from 8 down to 5, with which the oscillator
  // stays within 8600 MHz, and 4 if there is none.
  predicate LargestFitting(n: nat, g: nat) {
    4 <= n <= 8 && (n > 4 ==> n * g <= 8600) && (n < 8 ==> (n + 1) * g > 8600)
  }

  lemma OnlyOneFits(n: nat, m: nat, g: nat)
    requires LargestFitting(n, g) && LargestFitting(m, g)
    ensures n == m
  {
    if n < m {
      MulLe(n + 1, m, g);
    } else if m < n {
      MulLe(m + 1, n, g);
    }
  }

  // What the divider is for.
  lemma DividerFits(n: nat, fKhz: u32)
    ensures LargestFitting(n, Megahertz(fKhz)) <==> n == OutputDivider(fKhz)
  {
    var g := Megahertz(fKhz);
    DividerIsLargest(fKhz);
    if LargestFitting(n, g) {
      OnlyOneFits(n, OutputDivider(fKhz), g);
    }
  }

  lemma DividerIsLargest(fKhz: u32)
    ensures LargestFitting(OutputDivider(fKhz), Megahertz(fKhz))
  {
    var g := Megahertz(fKhz);
    if fKhz <= 1075000 {
      assert g <= 1075;
    } else if fKhz <= 1228000 {
      assert 1076 <= g <= 1228;
    } else if fKhz <= 1433000 {
      assert 1229 <= g <= 1433;
    } else if fKhz <= 1720000 {
      assert 1434 <= g <= 1720;
    } else {
      assert 1721 <= g;
    }
  }

  // The oscillator over the crystal, in millionths.  The first product is one
  // of 32 bits.
  function ResLsb(fKhz: u32): (r: nat)
    ensures r < LARGEST
  {
    OutputDivider(fKhz) * fKhz % 0x1_0000_0000 * 1000 / 27
  }

  // What is written to the registers.
  datatype Plan = Erange | Plan(dividers: Dividers, dsmInt: nat, dsmFrac: nat)

  // The ratio of the synthesiser in 2^-16.
  function Ratio(plan: Plan): nat
    requires plan.Plan?
  {
    plan.dsmInt * 65536 + plan.dsmFrac
  }

  // ratio is 2^16 * factor / 4 times the quotient that resLsb is a rounded
  // value of, less than two units high.
  ghost predicate Near(factor: nat, resLsb: nat, ratio: nat) {
    4 * MILLION * ratio <= 65536 * (factor * resLsb) && 65536 * (factor * (resLsb + 1)) <= 4 * MILLION * (ratio + 2)
  }

  // The dividers fit the band, the parts fit their registers (the first is
  // written less 128), and the ratio is the wanted one less than two units
  // high.
  ghost predicate Planned(resLsb: nat, plan: Plan) {
    && plan.Plan? && plan.dividers == Choice(resLsb / MILLION) && plan.dividers.Dividers?
    && 131 <= plan.dsmInt <= 251 && plan.dsmFrac < 65536
    && Near(Factor(plan.dividers), resLsb, Ratio(plan))
  }

  // Far out of range the quotient may be low, but stays out of range.
  lemma Rounded(resLsb: nat, v15: nat)
    requires v15 * MILLION <= resLsb <= (v15 + 9) * MILLION
    requires resLsb < EXACT ==> v15 == resLsb / MILLION
    ensures Choice(v15) == Choice(resLsb / MILLION)
    ensures Choice(v15).Dividers? ==> v15 == resLsb / MILLION && v15 < 1008
  {
  }

  // The integer part lies where the divider search saw it.
  lemma IntegerPart(v15: nat, resLsb: nat, d: Dividers, kint: nat)
    requires v15 == resLsb / MILLION && d == Choice(v15) && d.Dividers? && Scales(resLsb, d, kint)
    ensures 131 * MILLION <= kint / 10 * 10 <= kint < 252 * MILLION
  {
  }

  lemma TwoParts(kint: nat, dsmInt: nat, dsmFrac: nat)
    requires dsmInt == kint / MILLION && dsmFrac == 65536 * (kint - MILLION * dsmInt) / MILLION
    ensures MILLION * (dsmInt * 65536 + dsmFrac) <= 65536 * kint < MILLION * (dsmInt * 65536 + dsmFrac + 1)
  {
  }

  method Parts(kint: nat) returns (dsmInt: nat, dsmFrac: nat)
    requires kint < EXACT && kint % 10 == 0
    ensures dsmInt == kint / MILLION && dsmFrac < 65536
    ensures dsmFrac == 65536 * (kint - MILLION * dsmInt) / MILLION
  {
    MorePows();
    dsmInt := Div10(kint, 6);
    dsmFrac := Fraction(kint - MILLION * dsmInt);
  }

  method Whole(resLsb: nat) returns (v15: nat)
    requires resLsb < LARGEST
    ensures Choice(v15) == Choice(resLsb / MILLION)
    ensures Choice(v15).Dividers? ==> v15 == resLsb / MILLION && v15 < 1008
  {
    MorePows();
    v15 := Div10(resLsb, 6);
    Rounded(resLsb, v15);
  }

  lemma FactorIs(v15: nat)
    requires Choice(v15).Dividers?
    ensures Factor(Choice(v15)) in {1, 2, 3, 4, 6}
  {
  }

  // The error made by rounding to tens and to 2^-16.
  lemma RatioBound(factor: nat, resLsb: nat, kint: nat, ratio: nat)
    requires factor <= 6 && 4 * kint <= factor * resLsb < 4 * (kint + 2)
    requires MILLION * ratio <= 65536 * (kint / 10 * 10) < MILLION * (ratio + 1)
    ensures Near(factor, resLsb, ratio)
  {
    assert factor * (resLsb + 1) == factor * resLsb + factor;
  }

  lemma ScaleIsNear(resLsb: nat, d: Dividers, kint: nat, dsmInt: nat, dsmFrac: nat)
    requires d.Dividers? && d.premain <= 2 && Factor(d) <= 6 && Scales(resLsb, d, kint)
    requires dsmInt == kint / 10 * 10 / MILLION && dsmFrac == 65536 * (kint / 10 * 10 - MILLION * dsmInt) / MILLION
    ensures Near(Factor(d), resLsb, dsmInt * 65536 + dsmFrac)
  {
    TwoParts(kint / 10 * 10, dsmInt, dsmFrac);
    RatioBound(Factor(d), resLsb, kint, dsmInt * 65536 + dsmFrac);
  }

  lemma PlanIsRight(resLsb: nat, d: Dividers, kint: nat, dsmInt: nat, dsmFrac: nat)
    requires d == Choice(resLsb / MILLION) && d.Dividers? && Scales(resLsb, d, kint)
    requires dsmInt == kint / 10 * 10 / MILLION && dsmFrac < 65536
    requires dsmFrac == 65536 * (kint / 10 * 10 - MILLION * dsmInt) / MILLION
    ensures Planned(resLsb, Plan(d, dsmInt, dsmFrac))
  {
    IntegerPart(resLsb / MILLION, resLsb, d, kint);
    FactorIs(resLsb / MILLION);
    ScaleIsNear(resLsb, d, kint, dsmInt, dsmFrac);
  }

  // The parts for the registers.
  method Compose(resLsb: nat, d: Dividers, kint: nat) returns (plan: Plan)
    requires d == Choice(resLsb / MILLION) && d.Dividers? && Scales(resLsb, d, kint)
    ensures Planned(resLsb, plan)
  {
    IntegerPart(resLsb / MILLION, resLsb, d, kint);
    var tenth := CutDigit(kint);
    var dsmInt, dsmFrac := Parts(tenth * 10);
    PlanIsRight(resLsb, d, kint, dsmInt, dsmFrac);
    plan := Plan(d, dsmInt, dsmFrac);
  }

  // The part after the choice of the dividers.
  method Synthesise(resLsb: nat, d: Dividers) returns (plan: Plan)
    requires d == Choice(resLsb / MILLION) && d.Dividers?
    ensures Planned(resLsb, plan)
  {
    ChoiceIsPossible(resLsb / MILLION);
    var known, kint := Scale(resLsb, d);
    if !known {
      return Erange;
    }
    plan := Compose(resLsb, d, kint);
  }

  // The whole: it fails exactly when no dividers fit.
  method Tune(fKhz: u32) returns (plan: Plan)
    ensures plan.Erange? <==> Choice(ResLsb(fKhz) / MILLION).OutOfRange?
    ensures plan.Plan? ==> Planned(ResLsb(fKhz), plan)
  {
    var resLsb := ResLsb(fKhz);
    var v15 := Whole(resLsb);
    var d, nint := Search(v15);
    if d.OutOfRange? {
      return Erange;
    }
    plan := Synthesise(resLsb, d);
  }

  // What the plan means for the frequency

  lemma CrystalBound(f: nat, factor: nat, ratio: nat)
    requires factor in {1, 2, 3, 4, 6} && Near(factor, f * 1000 / 27, ratio)
    ensures 4 * 27000 * ratio <= 65536 * (factor * f) < 4 * 27000 * (ratio + 2)
  {
    var r := f * 1000 / 27;
    assert 27 * r <= f * 1000 < 27 * (r + 1);
  }

  // Four over a power of two, taken to the other side.
  lemma FactorTimes(d: Dividers, f: nat, ratio: nat)
    requires Possible(d)
    requires 4 * 27000 * ratio <= 65536 * (Factor(d) * f) < 4 * 27000 * (ratio + 2)
    ensures var p := Pow2(d.premain);
      27000 * (p * ratio) <= 65536 * (d.r * f) < 27000 * (p * (ratio + 2))
  {
    Pows();
  }

  // The synthesised ratio, divided by the predivider and multiplied by the
  // reference divider, is that of the oscillator, n times the frequency
  // wanted, to a crystal of 27000 kHz, less than two units high; and n is the
  // largest divider that keeps the oscillator within 8600 MHz.
  lemma RatioIsAccurate(fKhz: u32, n: nat, plan: Plan)
    requires Planned(ResLsb(fKhz), plan) && LargestFitting(n, Megahertz(fKhz))
    ensures var f, p := n * fKhz % 0x1_0000_0000, Pow2(plan.dividers.premain);
      27000 * (p * Ratio(plan)) <= 65536 * (plan.dividers.r * f) < 27000 * (p * (Ratio(plan) + 2))
  {
    var f := n * fKhz % 0x1_0000_0000;
    DividerFits(n, fKhz);
    FactorIs(ResLsb(fKhz) / MILLION);
    ChoiceIsPossible(ResLsb(fKhz) / MILLION);
    CrystalBound(f, Factor(plan.dividers), Ratio(plan));
    FactorTimes(plan.dividers, f, Ratio(plan));
  }

  lemma NoWrap(fKhz: u32)
    ensures fKhz < 0x4000_0000 ==>
      OutputDivider(fKhz) * fKhz % 0x1_0000_0000 == OutputDivider(fKhz) * fKhz
    ensures fKhz >= 0x4000_0000 ==>
      OutputDivider(fKhz) * fKhz % 0x1_0000_0000 == 4 * (fKhz % 0x4000_0000)
  {
  }

  // The choice in terms of the product of divider and frequency.
  lemma ChoiceFor(f: nat)
    ensures Choice(f * 1000 / 27 / MILLION).Dividers? <==>
      2_376_000 <= f < 13_608_000 || 14_148_000 <= f < 27_216_000
  {
  }

  // The frequencies that can be tuned to; from 2^30 on the product wraps.
  lemma Tunable(fKhz: u32)
    ensures fKhz < 0x4000_0000 ==>
      (Choice(ResLsb(fKhz) / MILLION).Dividers? <==> 297000 <= fKhz <= 3401999 || 3537000 <= fKhz <= 6803999)
    ensures fKhz >= 0x4000_0000 ==> var g := fKhz % 0x4000_0000;
      (Choice(ResLsb(fKhz) / MILLION).Dividers? <==> 594000 <= g <= 3401999 || 3537000 <= g <= 6803999)
  {
    NoWrap(fKhz);
    ChoiceFor(OutputDivider(fKhz) * fKhz % 0x1_0000_0000);
  }
}
