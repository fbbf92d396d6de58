// The CRC-32 of Annex A of ISO/IEC 13818-1, computed bit by bit in
// apps/cdev/recpt1/tssplitter_lite.c and by table in apps/dvb/cmds/fixpat.c.

// Facts about iterated steps that do not depend on what the step is. Proved
// here for any type, so that no proof has to look inside a machine word.
module Iteration {
  function Iter<T>(f: T -> T, x: T, n: nat): T {
    if n == 0 then x else f(Iter(f, x, n - 1))
  }

  lemma {:induction false} IterLinear<T(!new)>(f: T -> T, plus: (T, T) -> T, a: T, b: T, n: nat)
    requires forall x, y :: f(plus(x, y)) == plus(f(x), f(y))
    ensures Iter(f, plus(a, b), n) == plus(Iter(f, a, n), Iter(f, b, n))
  {
    if n > 0 {
      IterLinear(f, plus, a, b, n - 1);
    }
  }

  lemma {:induction false} IterKeeps<T(!new)>(f: T -> T, zero: T, x: T, n: nat)
    requires forall y :: f(y) == zero <==> y == zero
    ensures Iter(f, x, n) == zero <==> x == zero
  {
    if n > 0 {
      IterKeeps(f, zero, x, n - 1);
    }
  }

  lemma {:induction false} IterAdds<T>(f: T -> T, x: T, m: nat, n: nat)
    ensures Iter(f, x, m + n) == Iter(f, Iter(f, x, m), n)
  {
    if n > 0 {
      IterAdds(f, x, m, n - 1);
    }
  }

  function Fold<T, B>(f: (T, B) -> T, x: T, bs: seq<B>): T {
    if bs == [] then x else f(Fold(f, x, bs[..|bs| - 1]), bs[|bs| - 1])
  }

  lemma {:induction false} FoldMore<T, B>(f: (T, B) -> T, x: T, a: seq<B>, b: seq<B>)
    ensures Fold(f, x, a + b) == Fold(f, Fold(f, x, a), b)
  {
    if b == [] {
      assert a + b == a;
    } else {
      assert (a + b)[..|a + b| - 1] == a + b[..|b| - 1];
      FoldMore(f, x, a, b[..|b| - 1]);
    }
  }

  lemma FoldFour<T, B>(f: (T, B) -> T, x: T, bs: seq<B>)
    requires |bs| == 4
    ensures Fold(f, x, bs) == f(f(f(f(x, bs[0]), bs[1]), bs[2]), bs[3])
  {
    assert bs[..3][..2] == bs[..2] && bs[..2][..1] == bs[..1] && bs[..1][..0] == bs[..0];
    assert Fold(f, x, bs[..0]) == x;
    assert Fold(f, x, bs[..1]) == f(x, bs[0]);
    assert Fold(f, x, bs[..2]) == f(Fold(f, x, bs[..1]), bs[1]);
    assert Fold(f, x, bs[..3]) == f(Fold(f, x, bs[..2]), bs[2]);
  }

  // Feeding the top bits of z one by one, or having z in the register from
  // the start, comes to the same.
  lemma {:induction false} StepsAtOnce<T(!new)>(shift: T -> T, step: (T, bool) -> T, plus: (T, T) -> T,
                                                move: T -> T, top: T -> bool, x: T, z: T, bits: seq<bool>)
    requires forall s, t :: shift(plus(s, t)) == plus(step(s, top(t)), move(t))
    requires forall j :: 0 <= j < |bits| ==> bits[j] == top(Iter(move, z, j))
    ensures Iter(shift, plus(x, z), |bits|) == plus(Fold(step, x, bits), Iter(move, z, |bits|))
  {
    if bits != [] {
      var n := |bits| - 1;
      StepsAtOnce(shift, step, plus, move, top, x, z, bits[..n]);
    }
  }
}

module Crc32 {
  import opened Iteration
  import opened Octets

  const POLY: bv32 := 0x04C11DB7
  const TOP: bv32 := 0x8000_0000

  // ---- The register of Annex A ----

  // One step of the shift register with a zero at its input: multiplication
  // by x modulo the generator polynomial.
  function Shift(c: bv32): bv32 {
    if c & TOP != 0 then (c << 1) ^ POLY else c << 1
  }

  function Xor(a: bv32, b: bv32): bv32 {
    a ^ b
  }

  function Shift8(c: bv32): bv32 {
    Iter(Shift, c, 8)
  }

  function AtTop(b: byte8): bv32 {
    (b as bv32) << 24
  }

  // One byte goes in at the top end.
  function Feed(c: bv32, b: byte8): bv32 {
    Shift8(Xor(c, AtTop(b)))
  }

  function FeedAll(c: bv32, data: seq<byte8>): bv32 {
    Fold(Feed, c, data)
  }

  const INIT: bv32 := 0xffff_ffff

  function Crc(data: seq<byte8>): bv32 {
    FeedAll(INIT, data)
  }

  // ---- Shifting is linear, and only zero is shifted to zero ----

  lemma ShiftLinear(a: bv32, b: bv32)
    ensures Shift(Xor(a, b)) == Xor(Shift(a), Shift(b))
  {
    if a & TOP != 0 {
      LinearTop(a, b);
    } else {
      LinearNoTop(a, b);
    }
  }

  lemma LinearTop(a: bv32, b: bv32)
    requires a & TOP != 0
    ensures Shift(a ^ b) == Shift(a) ^ Shift(b)
  {
    if b & TOP != 0 {
      assert (a ^ b) & TOP == 0;
    } else {
      assert (a ^ b) & TOP != 0;
    }
  }

  lemma LinearNoTop(a: bv32, b: bv32)
    requires a & TOP == 0
    ensures Shift(a ^ b) == Shift(a) ^ Shift(b)
  {
    if b & TOP != 0 {
      assert (a ^ b) & TOP != 0;
    } else {
      assert (a ^ b) & TOP == 0;
    }
  }

  lemma ShiftsLinear(a: bv32, b: bv32, n: nat)
    ensures Iter(Shift, Xor(a, b), n) == Xor(Iter(Shift, a, n), Iter(Shift, b, n))
  {
    forall x, y
      ensures Shift(Xor(x, y)) == Xor(Shift(x), Shift(y))
    {
      ShiftLinear(x, y);
    }
    IterLinear(Shift, Xor, a, b, n);
  }

  lemma ShiftKeeps(a: bv32)
    ensures Shift(a) == 0 <==> a == 0
  {
  }

  // The eight steps written out.
  function Eight(c: bv32): bv32 {
    Shift(Shift(Shift(Shift(Shift(Shift(Shift(Shift(c))))))))
  }

  lemma Unrolled(c: bv32)
    ensures Shift8(c) == Eight(c)
  {
    IterAdds(Shift, c, 4, 4);
    Unrolled4(c);
    Unrolled4(Iter(Shift, c, 4));
  }

  lemma Unrolled4(c: bv32)
    ensures Iter(Shift, c, 4) == Shift(Shift(Shift(Shift(c))))
  {
    assert Iter(Shift, c, 1) == Shift(c);
    assert Iter(Shift, c, 2) == Shift(Iter(Shift, c, 1));
    assert Iter(Shift, c, 3) == Shift(Iter(Shift, c, 2));
  }

  // ---- tssplitter_lite.c: bit by bit ----

  // The body of the inner loop of GetCrc32.
  function BitStep(crc: bv32, bit: bool): bv32 {
    if (crc & TOP != 0) != bit then (crc << 1) ^ POLY else crc << 1
  }

  function BitOf(x: byte8, j: nat): bool
    requires j < 8
  {
    (x >> (7 - j)) & 1 == 1
  }

  function BitsOf(x: byte8): (bits: seq<bool>)
    ensures |bits| == 8
  {
    seq(8, j requires 0 <= j < 8 => BitOf(x, j))
  }

  function Top(z: bv32): bool {
    z & TOP != 0
  }

  function Move(z: bv32): bv32 {
    z << 1
  }

  // One bit at the input is the same as that bit at the top of the register.
  lemma OneBit(s: bv32, z: bv32)
    ensures Shift(Xor(s, z)) == Xor(BitStep(s, Top(z)), Move(z))
  {
    ShiftLinear(s, z);
    if Top(z) {
      TopShifts(z);
      StepSet(s);
      XorMoves(Shift(s), Move(z), POLY);
    } else {
      StepClear(s);
    }
  }

  lemma TopShifts(z: bv32)
    requires Top(z)
    ensures Shift(z) == Xor(Move(z), POLY)
  {
  }

  lemma StepSet(s: bv32)
    ensures BitStep(s, true) == Xor(Shift(s), POLY)
  {
    if s & TOP != 0 {
      XorBack(s << 1, POLY);
    } else {
      XorIs(s << 1, POLY);
    }
  }

  lemma XorBack(x: bv32, p: bv32)
    ensures Xor(x ^ p, p) == x
  {
  }

  lemma StepClear(s: bv32)
    ensures BitStep(s, false) == Shift(s)
  {
  }

  lemma XorMoves(a: bv32, m: bv32, p: bv32)
    ensures Xor(a, Xor(m, p)) == Xor(Xor(a, p), m)
  {
  }

  lemma Moves(z: bv32)
    ensures Iter(Move, z, 0) == z && Iter(Move, z, 1) == z << 1 && Iter(Move, z, 2) == z << 2
    ensures Iter(Move, z, 3) == z << 3 && Iter(Move, z, 4) == z << 4 && Iter(Move, z, 5) == z << 5
    ensures Iter(Move, z, 6) == z << 6 && Iter(Move, z, 7) == z << 7 && Iter(Move, z, 8) == z << 8
  {
    MoveOn(z, 0, z);
    Shl2(z);
    MoveOn(z, 1, z << 1);
    Shl3(z);
    MoveOn(z, 2, z << 2);
    Shl4(z);
    MoveOn(z, 3, z << 3);
    Shl5(z);
    MoveOn(z, 4, z << 4);
    Shl6(z);
    MoveOn(z, 5, z << 5);
    Shl7(z);
    MoveOn(z, 6, z << 6);
    Shl8(z);
    MoveOn(z, 7, z << 7);
  }

  lemma MoveOn(z: bv32, n: nat, y: bv32)
    requires Iter(Move, z, n) == y
    ensures Iter(Move, z, n + 1) == Move(y)
  {
  }

  lemma Shl2(z: bv32)
    ensures Move(z << 1) == z << 2
  {
  }

  lemma Shl3(z: bv32)
    ensures Move(z << 2) == z << 3
  {
  }

  lemma Shl4(z: bv32)
    ensures Move(z << 3) == z << 4
  {
  }

  lemma Shl5(z: bv32)
    ensures Move(z << 4) == z << 5
  {
  }

  lemma Shl6(z: bv32)
    ensures Move(z << 5) == z << 6
  {
  }

  lemma Shl7(z: bv32)
    ensures Move(z << 6) == z << 7
  {
  }

  lemma Shl8(z: bv32)
    ensures Move(z << 7) == z << 8
  {
  }

  lemma BitsOnTop(x: byte8)
    ensures var z := AtTop(x);
      && Top(z) == BitOf(x, 0) && Top(z << 1) == BitOf(x, 1) && Top(z << 2) == BitOf(x, 2)
      && Top(z << 3) == BitOf(x, 3) && Top(z << 4) == BitOf(x, 4) && Top(z << 5) == BitOf(x, 5)
      && Top(z << 6) == BitOf(x, 6) && Top(z << 7) == BitOf(x, 7) && z << 8 == 0
  {
  }

  lemma BitsComeOut(x: byte8, j: nat)
    requires j < 8
    ensures BitsOf(x)[j] == Top(Iter(Move, AtTop(x), j))
  {
    Moves(AtTop(x));
    BitsOnTop(x);
    assert j == 0 || j == 1 || j == 2 || j == 3 || j == 4 || j == 5 || j == 6 || j == 7;
  }

  lemma EightBits(crc: bv32, x: byte8)
    ensures Fold(BitStep, crc, BitsOf(x)) == Feed(crc, x)
  {
    forall s, z
      ensures Shift(Xor(s, z)) == Xor(BitStep(s, Top(z)), Move(z))
    {
      OneBit(s, z);
    }
    forall j | 0 <= j < 8
      ensures BitsOf(x)[j] == Top(Iter(Move, AtTop(x), j))
    {
      BitsComeOut(x, j);
    }
    StepsAtOnce(Shift, BitStep, Xor, Move, Top, crc, AtTop(x), BitsOf(x));
    Moves(AtTop(x));
    BitsOnTop(x);
  }

  // One turn of the inner loop of GetCrc32.
  method Turn(crc0: bv32, bit: bool) returns (crc: bv32)
    ensures crc == BitStep(crc0, bit)
  {
    if (crc0 & TOP != 0) != bit {
      crc := (crc0 << 1) ^ POLY;
    } else {
      crc := crc0 << 1;
    }
  }

  lemma CrcMore(data: seq<byte8>, i: nat)
    requires i < |data|
    ensures Crc(data[..i + 1]) == Feed(Crc(data[..i]), data[i])
  {
    assert data[..i + 1][..i] == data[..i];
  }

  // The inner loop.
  method EightTurns(crc0: bv32, x: byte8) returns (crc: bv32)
    ensures crc == Feed(crc0, x)
  {
    crc := crc0;
    ghost var bits := BitsOf(x);
    for j := 0 to 8
      invariant crc == Fold(BitStep, crc0, bits[..j])
    {
      crc := Turn(crc, BitOf(x, j));
      assert bits[..j + 1][..j] == bits[..j];
    }
    assert bits[..8] == bits;
    EightBits(crc0, x);
  }

  method GetCrc32(data: seq<byte8>) returns (crc: bv32)
    ensures crc == Crc(data)
  {
    crc := INIT;
    for i := 0 to |data|
      invariant crc == Crc(data[..i])
    {
      CrcMore(data, i);
      crc := EightTurns(crc, data[i]);
    }
    assert data[..|data|] == data;
  }

  // ---- fixpat.c: by table ----

  const ROW0: seq<bv32> := [
    0x00000000, 0x04c11db7, 0x09823b6e, 0x0d4326d9, 0x130476dc, 0x17c56b6b, 0x1a864db2, 0x1e475005,
    0x2608edb8, 0x22c9f00f, 0x2f8ad6d6, 0x2b4bcb61, 0x350c9b64, 0x31cd86d3, 0x3c8ea00a, 0x384fbdbd]
  const ROW1: seq<bv32> := [
    0x4c11db70, 0x48d0c6c7, 0x4593e01e, 0x4152fda9, 0x5f15adac, 0x5bd4b01b, 0x569796c2, 0x52568b75,
    0x6a1936c8, 0x6ed82b7f, 0x639b0da6, 0x675a1011, 0x791d4014, 0x7ddc5da3, 0x709f7b7a, 0x745e66cd]
  const ROW2: seq<bv32> := [
    0x9823b6e0, 0x9ce2ab57, 0x91a18d8e, 0x95609039, 0x8b27c03c, 0x8fe6dd8b, 0x82a5fb52, 0x8664e6e5,
    0xbe2b5b58, 0xbaea46ef, 0xb7a96036, 0xb3687d81, 0xad2f2d84, 0xa9ee3033, 0xa4ad16ea, 0xa06c0b5d]
  const ROW3: seq<bv32> := [
    0xd4326d90, 0xd0f37027, 0xddb056fe, 0xd9714b49, 0xc7361b4c, 0xc3f706fb, 0xceb42022, 0xca753d95,
    0xf23a8028, 0xf6fb9d9f, 0xfbb8bb46, 0xff79a6f1, 0xe13ef6f4, 0xe5ffeb43, 0xe8bccd9a, 0xec7dd02d]
  const ROW4: seq<bv32> := [
    0x34867077, 0x30476dc0, 0x3d044b19, 0x39c556ae, 0x278206ab, 0x23431b1c, 0x2e003dc5, 0x2ac12072,
    0x128e9dcf, 0x164f8078, 0x1b0ca6a1, 0x1fcdbb16, 0x018aeb13, 0x054bf6a4, 0x0808d07d, 0x0cc9cdca]
  const ROW5: seq<bv32> := [
    0x7897ab07, 0x7c56b6b0, 0x71159069, 0x75d48dde, 0x6b93dddb, 0x6f52c06c, 0x6211e6b5, 0x66d0fb02,
    0x5e9f46bf, 0x5a5e5b08, 0x571d7dd1, 0x53dc6066, 0x4d9b3063, 0x495a2dd4, 0x44190b0d, 0x40d816ba]
  const ROW6: seq<bv32> := [
    0xaca5c697, 0xa864db20, 0xa527fdf9, 0xa1e6e04e, 0xbfa1b04b, 0xbb60adfc, 0xb6238b25, 0xb2e29692,
    0x8aad2b2f, 0x8e6c3698, 0x832f1041, 0x87ee0df6, 0x99a95df3, 0x9d684044, 0x902b669d, 0x94ea7b2a]
  const ROW7: seq<bv32> := [
    0xe0b41de7, 0xe4750050, 0xe9362689, 0xedf73b3e, 0xf3b06b3b, 0xf771768c, 0xfa325055, 0xfef34de2,
    0xc6bcf05f, 0xc27dede8, 0xcf3ecb31, 0xcbffd686, 0xd5b88683, 0xd1799b34, 0xdc3abded, 0xd8fba05a]
  const ROW8: seq<bv32> := [
    0x690ce0ee, 0x6dcdfd59, 0x608edb80, 0x644fc637, 0x7a089632, 0x7ec98b85, 0x738aad5c, 0x774bb0eb,
    0x4f040d56, 0x4bc510e1, 0x46863638, 0x42472b8f, 0x5c007b8a, 0x58c1663d, 0x558240e4, 0x51435d53]
  const ROW9: seq<bv32> := [
    0x251d3b9e, 0x21dc2629, 0x2c9f00f0, 0x285e1d47, 0x36194d42, 0x32d850f5, 0x3f9b762c, 0x3b5a6b9b,
    0x0315d626, 0x07d4cb91, 0x0a97ed48, 0x0e56f0ff, 0x1011a0fa, 0x14d0bd4d, 0x19939b94, 0x1d528623]
  const ROW10: seq<bv32> := [
    0xf12f560e, 0xf5ee4bb9, 0xf8ad6d60, 0xfc6c70d7, 0xe22b20d2, 0xe6ea3d65, 0xeba91bbc, 0xef68060b,
    0xd727bbb6, 0xd3e6a601, 0xdea580d8, 0xda649d6f, 0xc423cd6a, 0xc0e2d0dd, 0xcda1f604, 0xc960ebb3]
  const ROW11: seq<bv32> := [
    0xbd3e8d7e, 0xb9ff90c9, 0xb4bcb610, 0xb07daba7, 0xae3afba2, 0xaafbe615, 0xa7b8c0cc, 0xa379dd7b,
    0x9b3660c6, 0x9ff77d71, 0x92b45ba8, 0x9675461f, 0x8832161a, 0x8cf30bad, 0x81b02d74, 0x857130c3]
  const ROW12: seq<bv32> := [
    0x5d8a9099, 0x594b8d2e, 0x5408abf7, 0x50c9b640, 0x4e8ee645, 0x4a4ffbf2, 0x470cdd2b, 0x43cdc09c,
    0x7b827d21, 0x7f436096, 0x7200464f, 0x76c15bf8, 0x68860bfd, 0x6c47164a, 0x61043093, 0x65c52d24]
  const ROW13: seq<bv32> := [
    0x119b4be9, 0x155a565e, 0x18197087, 0x1cd86d30, 0x029f3d35, 0x065e2082, 0x0b1d065b, 0x0fdc1bec,
    0x3793a651, 0x3352bbe6, 0x3e119d3f, 0x3ad08088, 0x2497d08d, 0x2056cd3a, 0x2d15ebe3, 0x29d4f654]
  const ROW14: seq<bv32> := [
    0xc5a92679, 0xc1683bce, 0xcc2b1d17, 0xc8ea00a0, 0xd6ad50a5, 0xd26c4d12, 0xdf2f6bcb, 0xdbee767c,
    0xe3a1cbc1, 0xe760d676, 0xea23f0af, 0xeee2ed18, 0xf0a5bd1d, 0xf464a0aa, 0xf9278673, 0xfde69bc4]
  const ROW15: seq<bv32> := [
    0x89b8fd09, 0x8d79e0be, 0x803ac667, 0x84fbdbd0, 0x9abc8bd5, 0x9e7d9662, 0x933eb0bb, 0x97ffad0c,
    0xafb010b1, 0xab710d06, 0xa6322bdf, 0xa2f33668, 0xbcb4666d, 0xb8757bda, 0xb5365d03, 0xb1f740b4]

  // crc_tab, sixteen entries a row.
  const CRC_TAB: seq<seq<bv32>> := [ROW0, ROW1, ROW2, ROW3, ROW4, ROW5, ROW6, ROW7,
    ROW8, ROW9, ROW10, ROW11, ROW12, ROW13, ROW14, ROW15]

  function Table(i: byte8): bv32 {
    CRC_TAB[i as int / 16][i as int % 16]
  }

  // The table is linear: every row is row 0 combined with its own first
  // entry. So only row 0 and the first column have to be computed.
  // A row is the first one, combined with its own first entry.
  predicate LinearRow(row: seq<bv32>) {
    && |row| == 16
    && row[0] == Xor(row[0], ROW0[0]) && row[1] == Xor(row[0], ROW0[1]) && row[2] == Xor(row[0], ROW0[2])
    && row[3] == Xor(row[0], ROW0[3]) && row[4] == Xor(row[0], ROW0[4]) && row[5] == Xor(row[0], ROW0[5])
    && row[6] == Xor(row[0], ROW0[6]) && row[7] == Xor(row[0], ROW0[7]) && row[8] == Xor(row[0], ROW0[8])
    && row[9] == Xor(row[0], ROW0[9]) && row[10] == Xor(row[0], ROW0[10]) && row[11] == Xor(row[0], ROW0[11])
    && row[12] == Xor(row[0], ROW0[12]) && row[13] == Xor(row[0], ROW0[13]) && row[14] == Xor(row[0], ROW0[14])
    && row[15] == Xor(row[0], ROW0[15])
  }

  lemma Rows0To2()
    ensures LinearRow(ROW0) && LinearRow(ROW1) && LinearRow(ROW2)
  {
  }

  lemma Rows3To5()
    ensures LinearRow(ROW3) && LinearRow(ROW4) && LinearRow(ROW5)
  {
  }

  lemma Rows6To8()
    ensures LinearRow(ROW6) && LinearRow(ROW7) && LinearRow(ROW8)
  {
  }

  lemma Rows9To11()
    ensures LinearRow(ROW9) && LinearRow(ROW10) && LinearRow(ROW11)
  {
  }

  lemma Rows12To13()
    ensures LinearRow(ROW12) && LinearRow(ROW13)
  {
  }

  lemma Rows14To15()
    ensures LinearRow(ROW14) && LinearRow(ROW15)
  {
  }

  lemma RowIsLinear(r: nat)
    requires r < 16
    ensures LinearRow(CRC_TAB[r])
  {
    if r < 3 {
      Rows0To2();
    } else if r < 6 {
      Rows3To5();
    } else if r < 9 {
      Rows6To8();
    } else if r < 12 {
      Rows9To11();
    } else if r < 14 {
      Rows12To13();
    } else {
      Rows14To15();
    }
  }

  lemma Sixteen(k: nat)
    requires k < 16
    ensures k == 0 || k == 1 || k == 2 || k == 3 || k == 4 || k == 5 || k == 6 || k == 7
         || k == 8 || k == 9 || k == 10 || k == 11 || k == 12 || k == 13 || k == 14 || k == 15
  {
  }

  lemma EntryIsLinear(row: seq<bv32>, k: nat)
    requires LinearRow(row) && k < 16
    ensures row[k] == Xor(row[0], ROW0[k])
  {
    Sixteen(k);
  }

  lemma RowLinear(r: nat, k: nat)
    requires r < 16 && k < 16
    ensures CRC_TAB[r][k] == Xor(CRC_TAB[r][0], ROW0[k])
  {
    RowIsLinear(r);
    EntryIsLinear(CRC_TAB[r], k);
  }

  lemma LowEntries(k: byte8)
    requires k < 8
    ensures ROW0[k as int] == Eight((k as bv32) << 24)
  {
    assert k == 0 || k == 1 || k == 2 || k == 3 || k == 4 || k == 5 || k == 6 || k == 7;
  }

  lemma LowEntries8(k: byte8)
    requires 8 <= k < 16
    ensures ROW0[k as int] == Eight((k as bv32) << 24)
  {
    assert k == 8 || k == 9 || k == 10 || k == 11 || k == 12 || k == 13 || k == 14 || k == 15;
  }

  lemma HighEntries(k: byte8)
    requires k < 8
    ensures CRC_TAB[k as int][0] == Eight((k as bv32) << 28)
  {
    assert k == 0 || k == 1 || k == 2 || k == 3 || k == 4 || k == 5 || k == 6 || k == 7;
  }

  lemma HighEntries8(k: byte8)
    requires 8 <= k < 16
    ensures CRC_TAB[k as int][0] == Eight((k as bv32) << 28)
  {
    assert k == 8 || k == 9 || k == 10 || k == 11 || k == 12 || k == 13 || k == 14 || k == 15;
  }

  lemma Nibbles(i: byte8)
    ensures (i >> 4) as int == i as int / 16 && (i & 0x0f) as int == i as int % 16
    ensures i >> 4 < 16 && i & 0x0f < 16
  {
  }

  lemma NibblesAtTop(i: byte8)
    ensures AtTop(i) == Xor(((i >> 4) as bv32) << 28, ((i & 0x0f) as bv32) << 24)
  {
  }

  lemma TableSplits(i: byte8) returns (a: bv32, b: bv32)
    ensures Table(i) == Xor(a, b)
    ensures a == Shift8(((i >> 4) as bv32) << 28) && b == Shift8(((i & 0x0f) as bv32) << 24)
  {
    var hi, lo := i >> 4, i & 0x0f;
    Nibbles(i);
    a, b := CRC_TAB[hi as int][0], ROW0[lo as int];
    RowLinear(hi as int, lo as int);
    EntryOf(hi, lo);
  }

  lemma TableIsRight(i: byte8)
    ensures Table(i) == Shift8(AtTop(i))
  {
    var a, b := TableSplits(i);
    NibblesAtTop(i);
    Combined(AtTop(i), ((i >> 4) as bv32) << 28, ((i & 0x0f) as bv32) << 24, 8, a, b);
  }

  lemma Combined(x: bv32, h: bv32, l: bv32, n: nat, a: bv32, b: bv32)
    requires x == Xor(h, l) && a == Iter(Shift, h, n) && b == Iter(Shift, l, n)
    ensures Xor(a, b) == Iter(Shift, x, n)
  {
    ShiftsLinear(h, l, n);
  }

  lemma EntryOf(hi: byte8, lo: byte8)
    requires hi < 16 && lo < 16
    ensures CRC_TAB[hi as int][0] == Shift8((hi as bv32) << 28) && ROW0[lo as int] == Shift8((lo as bv32) << 24)
  {
    if hi < 8 { HighEntries(hi); } else { HighEntries8(hi); }
    if lo < 8 { LowEntries(lo); } else { LowEntries8(lo); }
    Unrolled((hi as bv32) << 28);
    Unrolled((lo as bv32) << 24);
  }

  function Index(crc: bv32, b: byte8): byte8 {
    (((crc >> 24) ^ (b as bv32)) & 0xff) as byte8
  }

  lemma RawParts(crc: bv32, b: byte8)
    ensures crc ^ ((b as bv32) << 24) == ((Index(crc, b) as bv32) << 24) ^ (crc & 0x00ff_ffff)
  {
  }

  lemma SameXor(a: bv32, b: bv32, c: bv32, d: bv32)
    requires a ^ b == c ^ d
    ensures Xor(a, b) == Xor(c, d)
  {
  }

  lemma LowPart(crc: bv32)
    ensures (crc & 0x00ff_ffff) << 8 == crc << 8
  {
  }

  lemma LowIsLow(crc: bv32)
    ensures (crc & 0x00ff_ffff) & 0xff00_0000 == 0
  {
  }

  lemma XorSwap(a: bv32, b: bv32)
    ensures Xor(a, b) == b ^ a
  {
  }

  // Nothing falls out of the register for eight steps.
  lemma Shift8Low(a: bv32)
    requires a & 0xff00_0000 == 0
    ensures Shift8(a) == a << 8
  {
    Unrolled(a);
    LowEight(a);
  }

  lemma LowEight(a: bv32)
    requires a & 0xff00_0000 == 0
    ensures Eight(a) == a << 8
  {
  }

  lemma LowPartShifted(crc: bv32)
    ensures Shift8(crc & 0x00ff_ffff) == crc << 8
  {
    LowIsLow(crc);
    LowPart(crc);
    Shift8Low(crc & 0x00ff_ffff);
  }

  // One turn of the loop of calc_crc32, whatever the table entry is called.
  lemma TableStep(crc: bv32, b: byte8, t: bv32)
    requires t == Shift8(AtTop(Index(crc, b)))
    ensures Xor(t, crc << 8) == Feed(crc, b)
  {
    assert Xor(crc, AtTop(b)) == Xor(AtTop(Index(crc, b)), crc & 0x00ff_ffff) by {
      RawParts(crc, b);
      SameXor(crc, (b as bv32) << 24, (Index(crc, b) as bv32) << 24, crc & 0x00ff_ffff);
    }
    LowPartShifted(crc);
    Combined(Xor(crc, AtTop(b)), AtTop(Index(crc, b)), crc & 0x00ff_ffff, 8, t, crc << 8);
  }

  // (crc << 8) ^ entry
  method Mix(crc: bv32, t: bv32) returns (r: bv32)
    ensures r == Xor(t, crc << 8)
  {
    XorSwap(t, crc << 8);
    r := (crc << 8) ^ t;
  }

  lemma TableFeed(crc: bv32, b: byte8, t: bv32)
    requires t == Table(Index(crc, b))
    ensures Xor(t, crc << 8) == Feed(crc, b)
  {
    TableIsRight(Index(crc, b));
    TableStep(crc, b, t);
  }

  method TableTurn(crc0: bv32, b: byte8) returns (crc: bv32)
    ensures crc == Feed(crc0, b)
  {
    var t := Table(Index(crc0, b));
    TableFeed(crc0, b, t);
    crc := Mix(crc0, t);
  }

  method CalcCrc32(data: seq<byte8>) returns (crc: bv32)
    ensures crc == Crc(data)
  {
    crc := INIT;
    for i := 0 to |data|
      invariant crc == Crc(data[..i])
    {
      CrcMore(data, i);
      crc := TableTurn(crc, data[i]);
    }
    assert data[..|data|] == data;
  }

  // ---- The residue ----

  // The register, most significant byte first.
  function BigEndian(c: bv32): (bs: seq<byte8>)
    ensures |bs| == 4
  {
    [((c >> 24) & 0xff) as byte8, ((c >> 16) & 0xff) as byte8, ((c >> 8) & 0xff) as byte8, (c & 0xff) as byte8]
  }

  // A byte that goes in n steps later could as well have been in the
  // register from the start, if y is what it comes from.
  lemma Delayed(x: bv32, b: byte8, n: nat, y: bv32)
    requires Iter(Shift, y, n) == AtTop(b)
    ensures Feed(Iter(Shift, x, n), b) == Iter(Shift, Xor(x, y), n + 8)
  {
    ShiftsLinear(x, y, n);
    IterAdds(Shift, Xor(x, y), n, 8);
  }

  lemma Second(b: byte8)
    ensures Iter(Shift, (b as bv32) << 16, 8) == AtTop(b)
  {
    Low16(b);
    Shift8Low((b as bv32) << 16);
    Up16(b);
  }

  lemma Third(b: byte8)
    ensures Iter(Shift, (b as bv32) << 8, 16) == AtTop(b)
  {
    IterAdds(Shift, (b as bv32) << 8, 8, 8);
    Low8(b);
    Shift8Low((b as bv32) << 8);
    Up8(b);
    Second(b);
  }

  lemma Fourth(b: byte8)
    ensures Iter(Shift, b as bv32, 24) == AtTop(b)
  {
    IterAdds(Shift, b as bv32, 8, 16);
    Low0(b);
    Shift8Low(b as bv32);
    Third(b);
  }

  lemma Low16(b: byte8)
    ensures ((b as bv32) << 16) & 0xff00_0000 == 0
  {
  }

  lemma Up16(b: byte8)
    ensures ((b as bv32) << 16) << 8 == (b as bv32) << 24
  {
  }

  lemma Low8(b: byte8)
    ensures ((b as bv32) << 8) & 0xff00_0000 == 0
  {
  }

  lemma Up8(b: byte8)
    ensures ((b as bv32) << 8) << 8 == (b as bv32) << 16
  {
  }

  lemma Low0(b: byte8)
    ensures (b as bv32) & 0xff00_0000 == 0
  {
  }

  // Four bytes shifted in are four words combined with the register first,
  // if each word comes out at the top when its byte is due.
  lemma FourWordsAt(c: bv32, t: seq<byte8>, w1: bv32, w2: bv32, w3: bv32, n1: nat, n2: nat, n3: nat, n4: nat)
    requires |t| == 4 && n1 == 8 && n2 == n1 + 8 && n3 == n2 + 8 && n4 == n3 + 8
    requires Iter(Shift, w1, n1) == AtTop(t[1])
    requires Iter(Shift, w2, n2) == AtTop(t[2]) && Iter(Shift, w3, n3) == AtTop(t[3])
    ensures FeedAll(c, t) == Iter(Shift, Xor(Xor(Xor(Xor(c, AtTop(t[0])), w1), w2), w3), n4)
  {
    FoldFour(Feed, c, t);
    var x1 := Xor(c, AtTop(t[0]));
    Delayed(x1, t[1], n1, w1);
    Delayed(Xor(x1, w1), t[2], n2, w2);
    Delayed(Xor(Xor(x1, w1), w2), t[3], n3, w3);
  }

  lemma FourWords(c: bv32, t: seq<byte8>, w1: bv32, w2: bv32, w3: bv32)
    requires |t| == 4 && Iter(Shift, w1, 8) == AtTop(t[1])
    requires Iter(Shift, w2, 16) == AtTop(t[2]) && Iter(Shift, w3, 24) == AtTop(t[3])
    ensures FeedAll(c, t) == Iter(Shift, Xor(Xor(Xor(Xor(c, AtTop(t[0])), w1), w2), w3), 32)
  {
    FourWordsAt(c, t, w1, w2, w3, 8, 16, 24, 32);
  }

  lemma FourBytes(c: bv32, t: seq<byte8>)
    requires |t| == 4
    ensures FeedAll(c, t) ==
      Iter(Shift, Xor(Xor(Xor(Xor(c, AtTop(t[0])), (t[1] as bv32) << 16), (t[2] as bv32) << 8), t[3] as bv32), 32)
  {
    Second(t[1]);
    Third(t[2]);
    Fourth(t[3]);
    FourWords(c, t, (t[1] as bv32) << 16, (t[2] as bv32) << 8, t[3] as bv32);
  }

  // The four bytes are those of the register.
  predicate Matches(c: bv32, t0: byte8, t1: byte8, t2: byte8, t3: byte8) {
    && t0 == ((c >> 24) & 0xff) as byte8 && t1 == ((c >> 16) & 0xff) as byte8
    && t2 == ((c >> 8) & 0xff) as byte8 && t3 == (c & 0xff) as byte8
  }

  lemma SumIsZero(sum: bv32, c: bv32, t0: byte8, t1: byte8, t2: byte8, t3: byte8)
    requires sum == c ^ ((t0 as bv32) << 24) ^ ((t1 as bv32) << 16) ^ ((t2 as bv32) << 8) ^ (t3 as bv32)
    ensures sum == 0 <==> Matches(c, t0, t1, t2, t3)
  {
  }

  lemma FlatXor(c: bv32, w0: bv32, w1: bv32, w2: bv32, w3: bv32)
    ensures Xor(Xor(Xor(Xor(c, w0), w1), w2), w3) == c ^ w0 ^ w1 ^ w2 ^ w3
  {
    XorIs(c, w0);
    XorIs(c ^ w0, w1);
    XorIs(c ^ w0 ^ w1, w2);
    XorIs(c ^ w0 ^ w1 ^ w2, w3);
  }

  lemma XorIs(a: bv32, b: bv32)
    ensures Xor(a, b) == a ^ b
  {
  }

  lemma IsBigEndian(c: bv32, t: seq<byte8>)
    requires |t| == 4
    ensures Matches(c, t[0], t[1], t[2], t[3]) <==> t == BigEndian(c)
  {
    assert t == [t[0], t[1], t[2], t[3]];
  }

  lemma FlatFour(c: bv32, t: seq<byte8>) returns (sum: bv32)
    requires |t| == 4
    ensures FeedAll(c, t) == Iter(Shift, sum, 32)
    ensures sum == c ^ ((t[0] as bv32) << 24) ^ ((t[1] as bv32) << 16) ^ ((t[2] as bv32) << 8) ^ (t[3] as bv32)
  {
    FourBytes(c, t);
    sum := Xor(Xor(Xor(Xor(c, AtTop(t[0])), (t[1] as bv32) << 16), (t[2] as bv32) << 8), t[3] as bv32);
    FlatXor(c, (t[0] as bv32) << 24, (t[1] as bv32) << 16, (t[2] as bv32) << 8, t[3] as bv32);
  }

  lemma SumTest(c: bv32, t: seq<byte8>) returns (sum: bv32)
    requires |t| == 4
    ensures FeedAll(c, t) == Iter(Shift, sum, 32)
    ensures sum == 0 <==> Matches(c, t[0], t[1], t[2], t[3])
  {
    sum := FlatFour(c, t);
    SumIsZero(sum, c, t[0], t[1], t[2], t[3]);
  }

  // The residue is zero if and only if the string ends in its own CRC.
  lemma Residue(data: seq<byte8>, t: seq<byte8>)
    requires |t| == 4
    ensures Crc(data + t) == 0 <==> t == BigEndian(Crc(data))
  {
    FoldMore(Feed, INIT, data, t);
    var sum := SumTest(Crc(data), t);
    IterKeepsShift(sum, 32);
    IsBigEndian(Crc(data), t);
  }

  lemma IterKeepsShift(a: bv32, n: nat)
    ensures Iter(Shift, a, n) == 0 <==> a == 0
  {
    forall x
      ensures Shift(x) == 0 <==> x == 0
    {
      ShiftKeeps(x);
    }
    IterKeeps(Shift, 0 as bv32, a, n);
  }

  // ---- The preset register ----

  function Complement(t: seq<byte8>): (r: seq<byte8>)
    ensures |r| == |t| && forall i :: 0 <= i < |t| ==> r[i] == t[i] ^ 0xff
  {
    seq(|t|, i requires 0 <= i < |t| => t[i] ^ 0xff)
  }

  lemma PresetSum(t0: byte8, t1: byte8, t2: byte8, t3: byte8)
    ensures 0xffff_ffff ^ ((t0 as bv32) << 24) ^ ((t1 as bv32) << 16) ^ ((t2 as bv32) << 8) ^ (t3 as bv32) ==
            0 ^ (((t0 ^ 0xff) as bv32) << 24) ^ (((t1 ^ 0xff) as bv32) << 16) ^ (((t2 ^ 0xff) as bv32) << 8)
              ^ ((t3 ^ 0xff) as bv32)
  {
  }

  lemma PresetFour(t: seq<byte8>)
    requires |t| == 4
    ensures FeedAll(0xffff_ffff, t) == FeedAll(0, Complement(t))
  {
    var a := FlatFour(0xffff_ffff, t);
    var b := FlatFour(0, Complement(t));
    PresetSum(t[0], t[1], t[2], t[3]);
  }

  // What the preset is for: the CRC of a string of four bytes or more is the
  // remainder, from an empty register, of the string with its first 32 bits
  // complemented. So leading zeros are not lost on it.
  lemma Preset(s: seq<byte8>)
    requires |s| >= 4
    ensures Crc(s) == FeedAll(0, Complement(s[..4]) + s[4..])
  {
    Cut(s, 4);
    FoldMore(Feed, INIT, s[..4], s[4..]);
    FoldMore(Feed, 0 as bv32, Complement(s[..4]), s[4..]);
    PresetFour(s[..4]);
  }

  lemma OnesShifted()
    ensures Eight(0xffff_ffff) == 0x4e08_bfb4 && Xor(0xffff_ffff, AtTop(0)) == 0xffff_ffff
  {
  }

  lemma KnownValue()
    ensures Crc([0]) == 0x4e08_bfb4
  {
    var none: seq<byte8> := [];
    OnesShifted();
    Unrolled(0xffff_ffff);
    FoldMore(Feed, INIT, none, [0]);
    CrcMore([0], 0);
    assert [0 as byte8][..0] == none && [0 as byte8][..1] == [0];
  }
}
