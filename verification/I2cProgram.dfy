// The I2C instruction stream of the PT3 board, four bits an instruction. Two
// drivers compile messages to it: the bus functions of
// drivers/video/pt3_dtv.c and pt3_i2c_xfr of drivers/media/pci/ptx/pt3_pci.c.
module I2cProgram {
  import opened Octets

  type nibble = x: int | 0 <= x < 16

  const END: nibble := 0
  const CLOCK_L: nibble := 2
  const CLOCK_H: nibble := 3
  const DATA_L: nibble := 4
  const DATA_H: nibble := 5
  const DATA_L_NOP: nibble := 8
  const DATA_H_NOP: nibble := 12
  const DATA_H_READ: nibble := 13
  const DATA_H_ACK0: nibble := 14

  type Program = seq<nibble>

  // One addressed transfer on the wire: the address byte, and the bytes
  // written or the number of bytes read.
  datatype Transfer = Transfer(addr: byte, written: seq<byte>, nread: nat) {
    predicate OneWay() {
      written == [] || nread == 0
    }
  }

  // ---- The encoding ----

  const START: Program := [DATA_H, CLOCK_H, DATA_L, CLOCK_L]
  const STOP: Program := [DATA_L, CLOCK_H, DATA_H]
  const READ8: Program := Fill(DATA_H_READ, 8)

  function BitInst(b: byte, weight: nat): nibble
    requires weight > 0
  {
    if b / weight % 2 == 1 then DATA_H_NOP else DATA_L_NOP
  }

  const WEIGHTS: seq<nat> := [128, 64, 32, 16, 8, 4, 2, 1]

  // The most significant bit first, then the acknowledge slot.
  function EncodeByte(b: byte): (p: Program)
    ensures |p| == 9
  {
    seq(9, j requires 0 <= j < 9 => if j < 8 then BitInst(b, WEIGHTS[j]) else DATA_H_ACK0)
  }

  function EncodeWrite(bs: seq<byte>): Program {
    if bs == [] then [] else EncodeByte(bs[0]) + EncodeWrite(bs[1..])
  }

  // Every byte read is acknowledged but the last.
  function EncodeRead(n: nat): Program {
    if n == 0 then []
    else if n == 1 then READ8 + [DATA_H_NOP]
    else READ8 + [DATA_L_NOP] + EncodeRead(n - 1)
  }

  function EncodeTransfer(t: Transfer): Program {
    START + (EncodeByte(t.addr) + (EncodeWrite(t.written) + EncodeRead(t.nread)))
  }

  function EncodeAll(ts: seq<Transfer>): Program {
    if ts == [] then [] else EncodeTransfer(ts[0]) + EncodeAll(ts[1..])
  }

  // A whole program, filled up to whole bytes.
  function Compile(ts: seq<Transfer>): (p: Program)
    ensures |p| % 2 == 0
  {
    Padded(EncodeAll(ts) + STOP + [END])
  }

  function Padded(p: Program): (q: Program)
    ensures |q| % 2 == 0 && |q| == |p| + |p| % 2
  {
    if |p| % 2 == 1 then p + [END] else p
  }

  function Pack(p: Program): (bs: seq<byte>)
    requires |p| % 2 == 0
    ensures |bs| == |p| / 2
  {
    if p == [] then [] else [p[0] as int + 16 * p[1] as int] + Pack(p[2..])
  }

  // ---- The decoding: what the board makes of the bytes ----

  function Unpack(bs: seq<byte>): Program {
    if bs == [] then [] else [bs[0] % 16, bs[0] / 16] + Unpack(bs[1..])
  }

  predicate IsBit(x: nibble) {
    x == DATA_L_NOP || x == DATA_H_NOP
  }

  function BitValue(x: nibble, weight: nat): nat {
    if x == DATA_H_NOP then weight else 0
  }

  function DecodeByte(p: Program): Option<byte>
    requires |p| >= 9
  {
    if (forall j :: 0 <= j < 8 ==> IsBit(p[j])) && p[8] == DATA_H_ACK0 then
      Some(BitValue(p[0], 128) + BitValue(p[1], 64) + BitValue(p[2], 32) + BitValue(p[3], 16)
           + BitValue(p[4], 8) + BitValue(p[5], 4) + BitValue(p[6], 2) + BitValue(p[7], 1))
    else
      None
  }

  datatype Body = Body(written: seq<byte>, nread: nat, rest: Program)

  // The bytes of a transfer, up to the next start or stop condition.
  function DecodeBody(p: Program): (r: Option<Body>)
    ensures r.Some? ==> |r.value.rest| <= |p|
    decreases |p|
  {
    if p == [] then
      None
    else if p[0] == DATA_H || p[0] == DATA_L then
      Some(Body([], 0, p))
    else if |p| < 9 then
      None
    else
      var r := DecodeBody(p[9..]);
      if r.None? then
        None
      else if IsBit(p[0]) then
        var b := DecodeByte(p);
        if b.None? then None else Some(Body([b.value] + r.value.written, r.value.nread, r.value.rest))
      else if p[..8] == READ8 && r.value.written == []
          && p[8] == (if r.value.nread == 0 then DATA_H_NOP else DATA_L_NOP) then
        Some(Body([], r.value.nread + 1, r.value.rest))
      else
        None
  }

  function DecodeProgram(p: Program): Option<seq<Transfer>>
    decreases |p|
  {
    if STOP <= p then
      if p[3..] == [END] || p[3..] == [END, END] then Some([]) else None
    else if START <= p && |p| >= 13 then
      var addr := DecodeByte(p[4..]);
      var body := DecodeBody(p[13..]);
      if addr.None? || body.None? then
        None
      else
        var more := DecodeProgram(body.value.rest);
        if more.None? then None
        else Some([Transfer(addr.value, body.value.written, body.value.nread)] + more.value)
    else
      None
  }

  // ---- The round trip ----

  lemma ByteRoundTrip(b: byte, rest: Program)
    ensures DecodeByte(EncodeByte(b) + rest) == Some(b)
  {
    var e, p := EncodeByte(b), EncodeByte(b) + rest;
    assert p[..9] == e;
    assert forall j :: 0 <= j < 9 ==> p[j] == p[..9][j];
    BitsAddUp(b);
  }

  // The weight of one bit of b, or nothing.
  function Part(b: byte, weight: nat): nat
    requires weight > 0
  {
    BitValue(BitInst(b, weight), weight)
  }

  lemma PartIs(b: byte, weight: nat)
    requires weight > 0
    ensures Part(b, weight) == b / weight % 2 * weight
  {
  }

  lemma BitsAddUp(b: byte)
    ensures b == Part(b, 128) + Part(b, 64) + Part(b, 32) + Part(b, 16)
               + Part(b, 8) + Part(b, 4) + Part(b, 2) + Part(b, 1)
  {
    SumOfBits(b);
    PartIs(b, 128);
    PartIs(b, 64);
    PartIs(b, 32);
    PartIs(b, 16);
    PartIs(b, 8);
    PartIs(b, 4);
    PartIs(b, 2);
    PartIs(b, 1);
  }

  lemma SumOfBits(x: int)
    requires 0 <= x < 256
    ensures x == x / 128 % 2 * 128 + x / 64 % 2 * 64 + x / 32 % 2 * 32 + x / 16 % 2 * 16
               + x / 8 % 2 * 8 + x / 4 % 2 * 4 + x / 2 % 2 * 2 + x / 1 % 2 * 1
  {
    Halvings(x);
    EightBits([x, x / 2, x / 4, x / 8, x / 16, x / 32, x / 64, x / 128]);
  }

  lemma Halvings(x: int)
    requires 0 <= x
    ensures x / 2 / 2 == x / 4 && x / 4 / 2 == x / 8 && x / 8 / 2 == x / 16
    ensures x / 16 / 2 == x / 32 && x / 32 / 2 == x / 64 && x / 64 / 2 == x / 128
  {
  }

  lemma EightBits(q: seq<int>)
    requires |q| == 8 && 0 <= q[0] < 256
    requires q[1] == q[0] / 2 && q[2] == q[1] / 2 && q[3] == q[2] / 2 && q[4] == q[3] / 2
    requires q[5] == q[4] / 2 && q[6] == q[5] / 2 && q[7] == q[6] / 2
    ensures q[0] == q[7] % 2 * 128 + q[6] % 2 * 64 + q[5] % 2 * 32 + q[4] % 2 * 16
                  + q[3] % 2 * 8 + q[2] % 2 * 4 + q[1] % 2 * 2 + q[0] % 2
  {
  }

  predicate Conditional(p: Program) {
    p != [] && (p[0] == DATA_H || p[0] == DATA_L)
  }

  lemma {:induction false} ReadRoundTrip(n: nat, rest: Program)
    requires Conditional(rest)
    ensures DecodeBody(EncodeRead(n) + rest) == Some(Body([], n, rest))
  {
    var p := EncodeRead(n) + rest;
    if n == 0 {
      assert p == rest;
    } else if n == 1 {
      assert p[9..] == rest && p[..8] == READ8 && p[8] == DATA_H_NOP;
    } else {
      ReadRoundTrip(n - 1, rest);
      assert p[9..] == EncodeRead(n - 1) + rest && p[..8] == READ8 && p[8] == DATA_L_NOP;
    }
    assert n > 0 ==> p[0] == p[..8][0];
  }

  lemma BodyStep(b: byte, tail: Program, body: Body)
    requires DecodeBody(tail) == Some(body)
    ensures DecodeBody(EncodeByte(b) + tail) == Some(body.(written := [b] + body.written))
  {
    var p := EncodeByte(b) + tail;
    ByteRoundTrip(b, tail);
    assert p[9..] == tail && p[0] == BitInst(b, 128);
  }

  lemma {:induction false} BodyRoundTrip(bs: seq<byte>, n: nat, rest: Program)
    requires Conditional(rest) && (bs == [] || n == 0)
    ensures DecodeBody(EncodeWrite(bs) + EncodeRead(n) + rest) == Some(Body(bs, n, rest))
    decreases |bs|
  {
    if bs == [] {
      assert EncodeWrite(bs) + EncodeRead(n) + rest == EncodeRead(n) + rest;
      ReadRoundTrip(n, rest);
    } else {
      BodyRoundTrip(bs[1..], n, rest);
      BodyStep(bs[0], EncodeWrite(bs[1..]) + EncodeRead(n) + rest, Body(bs[1..], n, rest));
      Assoc(EncodeByte(bs[0]), EncodeWrite(bs[1..]), EncodeRead(n));
      Assoc(EncodeByte(bs[0]), EncodeWrite(bs[1..]) + EncodeRead(n), rest);
      First(bs);
    }
  }

  lemma {:induction false} ProgramRoundTrip(ts: seq<Transfer>, pad: Program)
    requires forall i :: 0 <= i < |ts| ==> ts[i].OneWay()
    requires pad == [END] || pad == [END, END]
    ensures DecodeProgram(EncodeAll(ts) + STOP + pad) == Some(ts)
    decreases |ts|
  {
    if ts == [] {
      ProgramEnds(pad);
    } else {
      var t, rest := ts[0], EncodeAll(ts[1..]) + STOP + pad;
      ProgramRoundTrip(ts[1..], pad);
      Begins(ts[1..], pad);
      Assoc(EncodeTransfer(t), EncodeAll(ts[1..]), STOP);
      Assoc(EncodeTransfer(t), EncodeAll(ts[1..]) + STOP, pad);
      DecodeStep(t, rest, ts[1..]);
      First(ts);
    }
  }

  lemma ProgramEnds(pad: Program)
    requires pad == [END] || pad == [END, END]
    ensures DecodeProgram(EncodeAll([]) + STOP + pad) == Some([])
  {
    var p := EncodeAll([]) + STOP + pad;
    assert p == STOP + pad && p[3..] == pad;
  }

  lemma DecodeStep(t: Transfer, rest: Program, ts: seq<Transfer>)
    requires t.OneWay() && Conditional(rest) && DecodeProgram(rest) == Some(ts)
    ensures DecodeProgram(EncodeTransfer(t) + rest) == Some([t] + ts)
  {
    var p := EncodeTransfer(t) + rest;
    TransferRoundTrip(t, rest);
    assert p[0] == START[0];
  }

  // One transfer in front of the rest of a program.
  lemma TransferRoundTrip(t: Transfer, rest: Program)
    requires t.OneWay() && Conditional(rest)
    ensures var p := EncodeTransfer(t) + rest;
      && START <= p && |p| >= 13
      && DecodeByte(p[4..]) == Some(t.addr) && DecodeBody(p[13..]) == Some(Body(t.written, t.nread, rest))
  {
    var p := EncodeTransfer(t) + rest;
    var body := EncodeWrite(t.written) + EncodeRead(t.nread) + rest;
    var after := EncodeByte(t.addr) + body;
    assert p == START + after by {
      Assoc4(START, EncodeByte(t.addr), EncodeWrite(t.written) + EncodeRead(t.nread), rest);
    }
    assert p[4..] == after && after[9..] == body && p[13..] == after[9..];
    ByteRoundTrip(t.addr, body);
    BodyRoundTrip(t.written, t.nread, rest);
  }

  lemma Assoc4(a: Program, b: Program, c: Program, d: Program)
    ensures a + (b + c) + d == a + (b + (c + d))
    ensures a + b + c + d == a + (b + (c + d))
  {
  }

  lemma Begins(ts: seq<Transfer>, pad: Program)
    ensures Conditional(EncodeAll(ts) + STOP + pad)
  {
    var p := EncodeAll(ts) + STOP + pad;
    if ts != [] {
      assert p[0] == START[0];
    } else {
      assert p[0] == STOP[0];
    }
  }

  lemma {:induction false} PackRoundTrip(p: Program)
    requires |p| % 2 == 0
    ensures Unpack(Pack(p)) == p
    decreases |p|
  {
    if p != [] {
      PackRoundTrip(p[2..]);
      assert p == [p[0], p[1]] + p[2..];
    }
  }

  // Reading back the bytes of a compiled program gives the transfers.
  lemma RoundTrip(ts: seq<Transfer>)
    requires forall i :: 0 <= i < |ts| ==> ts[i].OneWay()
    ensures DecodeProgram(Unpack(Pack(Compile(ts)))) == Some(ts)
  {
    PackRoundTrip(Compile(ts));
    ProgramRoundTrip(ts, [END]);
    ProgramRoundTrip(ts, [END, END]);
    assert EncodeAll(ts) + STOP + [END] + [END] == EncodeAll(ts) + STOP + [END, END];
  }

  lemma {:induction false} PackAppend(p: Program, a: nibble, b: nibble)
    requires |p| % 2 == 0
    ensures Pack(p + [a, b]) == Pack(p) + [a as int + 16 * b as int]
    decreases |p|
  {
    if p == [] {
      assert p + [a, b] == [a, b] && [a, b][2..] == [];
    } else {
      assert (p + [a, b])[2..] == p[2..] + [a, b];
      PackAppend(p[2..], a, b);
    }
  }

  // ---- The encoder of drivers/video/pt3_dtv.c ----

  lemma Four(p: Program, a: nibble, b: nibble, c: nibble, d: nibble)
    ensures p + [a] + [b] + [c] + [d] == p + [a, b, c, d]
  {
  }

  lemma Grow(before: Program, p: Program, j: nat)
    requires j < |p|
    ensures before + p[..j + 1] == before + p[..j] + [p[j]]
  {
  }

  // Two more instructions in the odd case, none in the even one.
  lemma PackSteps(p: Program, n: nat, x: nibble)
    requires n == |p| / 2
    ensures |p| % 2 == 0 ==> (p + [x])[..2 * n] == p[..2 * n]
    ensures |p| % 2 == 1 ==>
      && 2 * (n + 1) == |p + [x]| && (p + [x])[..2 * (n + 1)] == p + [x]
      && (p + [x])[..2 * (n + 1)] == p[..2 * n] + [p[|p| - 1], x]
      && Pack((p + [x])[..2 * (n + 1)]) == Pack(p[..2 * n]) + [p[|p| - 1] as int + 16 * x as int]
  {
    if |p| % 2 == 1 {
      assert (p + [x])[..2 * (n + 1)] == p[..2 * n] + [p[|p| - 1], x];
      PackAppend(p[..2 * n], p[|p| - 1], x);
    }
  }

  // struct PT3_BUS; `prog` is what it holds, instruction by instruction.
  class Bus {
    const insts: array<byte>
    var tmpInst: int
    var instCount: nat
    var instPos: nat
    ghost var prog: Program

    ghost predicate Valid()
      reads this, insts
    {
      && instCount == |prog| < 2 * insts.Length
      && instPos == instCount / 2
      && insts[..instPos] == Pack(prog[..2 * instPos])
      && (instCount % 2 == 1 ==> tmpInst == prog[instCount - 1])
    }

    // create_pt3_bus
    constructor (size: nat)
      requires size > 0
      ensures Valid() && prog == [] && insts.Length == size && fresh(insts)
    {
      insts := new byte[size](_ => 0);
      tmpInst, instCount, instPos, prog := 0, 0, 0, [];
    }

    // A whole byte.
    method Store(x: byte)
      requires instPos < insts.Length
      modifies this`instPos, insts
      ensures if old(instPos) + 1 < insts.Length
              then instPos == old(instPos) + 1 && insts[..instPos] == old(insts[..instPos]) + [x]
              else instPos == 0 && insts[..] == old(insts[..instPos]) + [x]
    {
      ghost var packed := insts[..instPos];
      insts[instPos] := x;
      instPos := instPos + 1;
      Stored(packed, x);
      if instPos >= insts.Length {
        instPos := 0;
      }
    }

    // add_instruction. The instruction that fills the buffer is stored, but
    // sends inst_pos back to the start.
    method Add(instruction: nibble)
      requires Valid()
      modifies this, insts
      ensures prog == old(prog) + [instruction]
      ensures if |prog| < 2 * insts.Length then Valid() else instPos == 0 && insts[..] == Pack(prog)
    {
      if instCount % 2 == 0 {
        tmpInst := instruction;
      } else {
        tmpInst := tmpInst + 16 * instruction as int;
      }
      PackSteps(prog, instPos, instruction);
      if instCount % 2 == 1 {
        Store(tmpInst);
      }
      instCount := instCount + 1;
      prog := prog + [instruction];
    }

    lemma Stored(packed: seq<byte>, x: byte)
      requires 0 < instPos <= insts.Length && |packed| == instPos - 1
      requires insts[..instPos - 1] == packed && insts[instPos - 1] == x
      ensures insts[..instPos] == packed + [x]
      ensures instPos == insts.Length ==> insts[..] == packed + [x]
    {
    }

    // pt3_bus_start and pt3_bus_stop
    method Start()
      requires Valid() && |prog| + 4 < 2 * insts.Length
      modifies this, insts
      ensures Valid() && prog == old(prog) + START
    {
      ghost var was := prog;
      Add(DATA_H);
      Add(CLOCK_H);
      Add(DATA_L);
      Add(CLOCK_L);
      Four(was, DATA_H, CLOCK_H, DATA_L, CLOCK_L);
    }

    method Stop()
      requires Valid() && |prog| + 3 < 2 * insts.Length
      modifies this, insts
      ensures Valid() && prog == old(prog) + STOP
    {
      Add(DATA_L);
      Add(CLOCK_H);
      Add(DATA_H);
    }

    // One turn of the outer loop of pt3_bus_write.
    method WriteByte(b: byte)
      requires Valid() && |prog| + 9 < 2 * insts.Length
      modifies this, insts
      ensures Valid() && prog == old(prog) + EncodeByte(b)
    {
      ghost var e := EncodeByte(b);
      for j := 0 to 8
        invariant Valid() && prog == old(prog) + e[..j]
      {
        Grow(old(prog), e, j);
        Add(if b / WEIGHTS[j] % 2 == 1 then DATA_H_NOP else DATA_L_NOP);
      }
      Grow(old(prog), e, 8);
      Add(DATA_H_ACK0);
      assert e[..9] == e;
    }

    // pt3_bus_write
    method Write(data: seq<byte>)
      requires Valid() && |prog| + |EncodeWrite(data)| < 2 * insts.Length
      modifies this, insts
      ensures Valid() && prog == old(prog) + EncodeWrite(data)
    {
      for i := 0 to |data|
        invariant Valid() && prog + EncodeWrite(data[i..]) == old(prog) + EncodeWrite(data)
      {
        ghost var had := prog;
        assert data[i..][1..] == data[i + 1..];
        WriteByte(data[i]);
        Assoc(had, EncodeByte(data[i]), EncodeWrite(data[i + 1..]));
      }
      Unit(prog);
    }

    // The eight bits of a byte, and an acknowledgement unless it is the last.
    method ReadByte(last: bool)
      requires Valid() && |prog| + 9 < 2 * insts.Length
      modifies this, insts
      ensures Valid() && prog == old(prog) + (READ8 + [if last then DATA_H_NOP else DATA_L_NOP])
    {
      ghost var had := prog;
      for j := 0 to 8
        invariant Valid() && prog == had + READ8[..j]
      {
        Grow(had, READ8, j);
        Add(DATA_H_READ);
      }
      assert READ8[..8] == READ8;
      Assoc(had, READ8, [if last then DATA_H_NOP else DATA_L_NOP]);
      if last {
        Add(DATA_H_NOP);
      } else {
        Add(DATA_L_NOP);
      }
    }

    // pt3_bus_read, its instructions
    method Read(size: nat)
      requires Valid() && |prog| + |EncodeRead(size)| < 2 * insts.Length
      modifies this, insts
      ensures Valid() && prog == old(prog) + EncodeRead(size)
    {
      for i := 0 to size
        invariant Valid() && prog + EncodeRead(size - i) == old(prog) + EncodeRead(size)
      {
        ghost var had := prog;
        ReadByte(i == size - 1);
        if i == size - 1 {
          Unit(prog);
        } else {
          Assoc(had, READ8 + [DATA_L_NOP], EncodeRead(size - i - 1));
        }
      }
      Unit(prog);
    }

    // pt3_bus_end: one END, or two to fill the last byte.
    method End()
      requires Valid() && |prog| + 2 < 2 * insts.Length
      modifies this, insts
      ensures Valid() && instCount % 2 == 0
      ensures prog == Padded(old(prog) + [END])
    {
      Add(END);
      if instCount % 2 == 1 {
        Add(END);
      }
    }

    // The transfer of pt3_tc_write.
    method TcWrite(tcAddr: byte, addr: byte, data: seq<byte>)
      requires Valid()
      requires |prog| + |EncodeTransfer(TcWriteTransfer(tcAddr, addr, data)) + STOP| < 2 * insts.Length
      modifies this, insts
      ensures Valid()
      ensures prog == old(prog) + EncodeTransfer(TcWriteTransfer(tcAddr, addr, data)) + STOP
    {
      ghost var was := prog;
      WriteParts(Shifted(tcAddr), addr, data);
      Start();
      Write([Shifted(tcAddr)]);
      Write([addr]);
      Write(data);
      Assoc5(was, START, EncodeWrite([Shifted(tcAddr)]), EncodeWrite([addr]), EncodeWrite(data));
      Stop();
    }

    // The two transfers of tc_read.
    method TcRead(tcAddr: byte, addr: byte, size: nat)
      requires Valid()
      requires |prog| + |EncodeAll(TcReadTransfers(tcAddr, addr, size)) + STOP| < 2 * insts.Length
      modifies this, insts
      ensures Valid()
      ensures prog == old(prog) + EncodeAll(TcReadTransfers(tcAddr, addr, size)) + STOP
    {
      ghost var was := prog;
      var a := Shifted(tcAddr);
      ghost var t, u := Transfer(a, [addr], 0), Transfer(a as int + 1, [], size);
      AllTwo(t, u);
      SelectRegister(a, addr);
      ReadBack(a as int + 1, size);
      Assoc(was, EncodeTransfer(t), EncodeTransfer(u));
      Stop();
    }

    method SelectRegister(a: byte, addr: byte)
      requires Valid() && |prog| + |EncodeTransfer(Transfer(a, [addr], 0))| < 2 * insts.Length
      modifies this, insts
      ensures Valid() && prog == old(prog) + EncodeTransfer(Transfer(a, [addr], 0))
    {
      ghost var was := prog;
      WriteOne(a);
      Unit(EncodeWrite([addr]));
      Start();
      Write([a]);
      Write([addr]);
      Assoc4(was, START, EncodeWrite([a]), EncodeWrite([addr]));
    }

    method ReadBack(a: byte, size: nat)
      requires Valid() && |prog| + |EncodeTransfer(Transfer(a, [], size))| < 2 * insts.Length
      modifies this, insts
      ensures Valid() && prog == old(prog) + EncodeTransfer(Transfer(a, [], size))
    {
      ghost var was := prog;
      WriteOne(a);
      Unit(EncodeRead(size));
      Start();
      Write([a]);
      Read(size);
      Assoc4(was, START, EncodeWrite([a]), EncodeRead(size));
    }

    // pt3_bus_end on a program of whole transfers: the last byte is always
    // complete.
    method Finish(ghost ts: seq<Transfer>)
      requires Valid() && prog == EncodeAll(ts) + STOP && |prog| + 2 < 2 * insts.Length
      modifies this, insts
      ensures Valid() && insts[..instPos] == Pack(Compile(ts))
    {
      End();
      WholeSlice(prog, 2 * instPos);
    }

    // pt3_tc_write and tc_read on a bus of their own.
    method TcWriteAlone(tcAddr: byte, addr: byte, data: seq<byte>)
      requires Valid() && prog == []
      requires |Compile([TcWriteTransfer(tcAddr, addr, data)])| + 2 <= 2 * insts.Length
      modifies this, insts
      ensures Valid() && insts[..instPos] == Pack(Compile([TcWriteTransfer(tcAddr, addr, data)]))
    {
      ghost var t := TcWriteTransfer(tcAddr, addr, data);
      AllTwo(t, t);
      TcWrite(tcAddr, addr, data);
      Finish([t]);
    }

    method TcReadAlone(tcAddr: byte, addr: byte, size: nat)
      requires Valid() && prog == []
      requires |Compile(TcReadTransfers(tcAddr, addr, size))| + 2 <= 2 * insts.Length
      modifies this, insts
      ensures Valid() && insts[..instPos] == Pack(Compile(TcReadTransfers(tcAddr, addr, size)))
    {
      TcRead(tcAddr, addr, size);
      Finish(TcReadTransfers(tcAddr, addr, size));
    }
  }

  lemma WholeSlice(p: Program, n: int)
    requires n == |p|
    ensures p[..n] == p
  {
  }

  lemma AllTwo(t: Transfer, u: Transfer)
    ensures EncodeAll([t]) == EncodeTransfer(t)
    ensures EncodeAll([t, u]) == EncodeTransfer(t) + EncodeTransfer(u)
  {
    assert [t, u][1..] == [u] && [u][1..] == [] && [t][1..] == [];
    Unit(EncodeTransfer(u));
    Unit(EncodeTransfer(t));
  }

  // (u8)(a << 1)
  function Shifted(a: byte): byte {
    a as int * 2 % 256
  }

  function TcWriteTransfer(tcAddr: byte, addr: byte, data: seq<byte>): Transfer {
    Transfer(Shifted(tcAddr), [addr] + data, 0)
  }

  function TcReadTransfers(tcAddr: byte, addr: byte, size: nat): seq<Transfer> {
    [Transfer(Shifted(tcAddr), [addr], 0), Transfer(Shifted(tcAddr) as int + 1, [], size)]
  }

  lemma Byte0x34()
    ensures EncodeByte(0x34) == [8, 8, 12, 12, 8, 12, 8, 8, 14]
  {
  }

  lemma Byte0x35()
    ensures EncodeByte(0x35) == [8, 8, 12, 12, 8, 12, 8, 12, 14]
  {
  }

  lemma Byte0x01()
    ensures EncodeByte(0x01) == [8, 8, 8, 8, 8, 8, 8, 12, 14]
  {
  }

  lemma KnownRead()
    ensures EncodeRead(2) == [13, 13, 13, 13, 13, 13, 13, 13, 8, 13, 13, 13, 13, 13, 13, 13, 13, 12]
  {
    assert READ8 == [13, 13, 13, 13, 13, 13, 13, 13];
  }

  lemma Ending(p: Program)
    ensures Padded(p + STOP + [END]) == p + (if |p| % 2 == 1 then [4, 3, 5, 0, 0] else [4, 3, 5, 0])
  {
  }

  // What follows the two transfers of a register read, such as that of two
  // bytes from register 1 of the device at 0x1a.
  lemma KnownProgram(t: Transfer, u: Transfer)
    ensures var p := EncodeTransfer(t) + EncodeTransfer(u);
      Compile([t, u]) == p + (if |p| % 2 == 1 then [4, 3, 5, 0, 0] else [4, 3, 5, 0])
    ensures TcReadTransfers(0x1a, 1, 2) == [Transfer(0x34, [1], 0), Transfer(0x35, [], 2)]
  {
    AllTwo(t, u);
    Ending(EncodeTransfer(t) + EncodeTransfer(u));
  }

  // Its first transfer.
  lemma KnownSelect()
    ensures EncodeTransfer(Transfer(0x34, [1], 0)) ==
      [5, 3, 4, 2] + ([8, 8, 12, 12, 8, 12, 8, 8, 14] + [8, 8, 8, 8, 8, 8, 8, 12, 14])
  {
    Byte0x34();
    Byte0x01();
    WriteOne(1);
    Unit(EncodeWrite([1]));
  }

  // Its second one.
  lemma KnownReply()
    ensures EncodeTransfer(Transfer(0x35, [], 2)) ==
      [5, 3, 4, 2] + ([8, 8, 12, 12, 8, 12, 8, 12, 14]
      + [13, 13, 13, 13, 13, 13, 13, 13, 8, 13, 13, 13, 13, 13, 13, 13, 13, 12])
  {
    Byte0x35();
    KnownRead();
    Unit(EncodeRead(2));
  }

  // Of two instructions the first is in the lower half of the byte.
  lemma {:induction false} PackedAt(p: Program, k: nat)
    requires |p| % 2 == 0 && 2 * k < |p|
    ensures Pack(p)[k] == p[2 * k] as int + 16 * p[2 * k + 1] as int
    decreases k
  {
    if k > 0 {
      PackedAt(p[2..], k - 1);
    }
  }

  // The calls of pt3_bus_write lay a transfer down piece by piece.
  lemma WriteParts(a: byte, addr: byte, data: seq<byte>)
    ensures EncodeTransfer(Transfer(a, [addr] + data, 0)) ==
            START + (EncodeWrite([a]) + (EncodeWrite([addr]) + EncodeWrite(data)))
  {
    WriteOne(a);
    WriteOne(addr);
    assert ([addr] + data)[1..] == data;
    assert EncodeWrite([addr] + data) == EncodeByte(addr) + EncodeWrite(data);
    Unit(EncodeWrite([addr] + data));
  }

  lemma Assoc5(a: Program, b: Program, c: Program, d: Program, e: Program)
    ensures a + b + c + d + e == a + (b + (c + (d + e)))
  {
  }

  lemma WriteOne(b: byte)
    ensures EncodeWrite([b]) == EncodeByte(b)
  {
    assert [b][1..] == [];
    Unit(EncodeByte(b));
  }

  // ---- The encoder of drivers/media/pci/ptx/pt3_pci.c ----

  const I2C_M_RD := 1
  const EIO := 5
  const ENOTSUPP := 524

  // struct i2c_msg. For a read only the length of `buf` matters.
  datatype Message = Message(addr: nat, flags: nat, buf: seq<byte>)

  // What pt3_i2c_xfr puts on the wire for a message.
  function Wire(m: Message): Transfer {
    var first: byte := (m.addr * 2 + m.flags % 2) % 256;
    if m.flags == I2C_M_RD then Transfer(first, [], |m.buf|) else Transfer(first, m.buf, 0)
  }

  function Wires(ms: seq<Message>): (ts: seq<Transfer>)
    ensures |ts| == |ms| && forall i :: 0 <= i < |ms| ==> ts[i] == Wire(ms[i])
  {
    seq(|ms|, i requires 0 <= i < |ms| => Wire(ms[i]))
  }

  // What the sender of a message means by it, and what the bus makes of the
  // transfer: the low bit of the address byte tells reads from writes.
  datatype Meaning = MeansRead(addr: nat, len: nat) | MeansWrite(addr: nat, buf: seq<byte>)

  function Meant(m: Message): Meaning {
    if m.flags % 2 == 1 then MeansRead(m.addr, |m.buf|) else MeansWrite(m.addr, m.buf)
  }

  function Taken(t: Transfer): Meaning {
    if t.addr % 2 == 1 then MeansRead(t.addr / 2, t.nread) else MeansWrite(t.addr / 2, t.written)
  }

  // A message arrives as meant exactly when its address has seven bits and a
  // read carries no other flag (unless there is nothing to read).
  lemma MeaningKept(m: Message)
    ensures Taken(Wire(m)) == Meant(m) <==>
      m.addr < 128 && (m.flags % 2 == 1 ==> m.flags == I2C_M_RD || m.buf == [])
  {
    var x := m.addr * 2 + m.flags % 2;
    assert x % 256 % 2 == m.flags % 2;
    assert x % 256 / 2 == m.addr % 128;
  }

  // ---- What a caller gets back ----

  predicate Reads(m: Message) {
    m.flags == I2C_M_RD
  }

  predicate Enough(ms: seq<Message>, reply: seq<byte>) {
    forall i :: 0 <= i < |ms| && Reads(ms[i]) ==> |ms[i].buf| <= |reply|
  }

  // pt3_i2c_xfr copies from the start of the reply for every message.
  function GivenTo(m: Message, reply: seq<byte>): (r: Message)
    requires Reads(m) ==> |m.buf| <= |reply|
    ensures |r.buf| == |m.buf|
  {
    if Reads(m) then m.(buf := reply[..|m.buf|]) else m
  }

  function Given(ms: seq<Message>, reply: seq<byte>): (r: seq<Message>)
    requires Enough(ms, reply)
    ensures |r| == |ms|
  {
    seq(|ms|, i requires 0 <= i < |ms| => GivenTo(ms[i], reply))
  }

  // The bytes read for the first i messages: the board stores what it reads
  // one byte after the other.
  function ReadBefore(ms: seq<Message>, i: nat): nat
    requires i <= |ms|
  {
    if i == 0 then 0 else ReadBefore(ms, i - 1) + (if Reads(ms[i - 1]) then |ms[i - 1].buf| else 0)
  }

  lemma {:induction false} ReadGrows(ms: seq<Message>, i: nat, j: nat)
    requires i <= j <= |ms|
    ensures ReadBefore(ms, i) <= ReadBefore(ms, j)
    ensures i < j && Reads(ms[i]) ==> ReadBefore(ms, i) + |ms[i].buf| <= ReadBefore(ms, j)
    decreases j
  {
    if i < j {
      ReadGrows(ms, i, j - 1);
    }
  }

  lemma ReplyIsEnough(ms: seq<Message>, reply: seq<byte>)
    requires |reply| == ReadBefore(ms, |ms|)
    ensures Enough(ms, reply)
    ensures forall i :: 0 <= i < |ms| && Reads(ms[i]) ==> ReadBefore(ms, i) + |ms[i].buf| <= |reply|
  {
    forall i | 0 <= i < |ms| && Reads(ms[i])
      ensures ReadBefore(ms, i) + |ms[i].buf| <= |reply|
    {
      ReadGrows(ms, i, |ms|);
    }
  }

  // Message i was given the bytes that were read for it.
  predicate Served(ms: seq<Message>, reply: seq<byte>, i: nat)
    requires |reply| == ReadBefore(ms, |ms|) && i < |ms|
  {
    ReplyIsEnough(ms, reply);
    Reads(ms[i]) ==>
      Given(ms, reply)[i].buf == reply[ReadBefore(ms, i)..ReadBefore(ms, i) + |ms[i].buf|]
  }

  ghost predicate AlwaysServed(ms: seq<Message>) {
    forall reply: seq<byte>, i: nat :: |reply| == ReadBefore(ms, |ms|) && i < |ms| ==> Served(ms, reply, i)
  }

  predicate NonEmptyRead(m: Message) {
    Reads(m) && m.buf != []
  }

  predicate OneReadAtMost(ms: seq<Message>) {
    forall i, j :: 0 <= i < j < |ms| ==> !(NonEmptyRead(ms[i]) && NonEmptyRead(ms[j]))
  }

  lemma {:induction false} NoneBefore(ms: seq<Message>, i: nat)
    requires i <= |ms| && forall k :: 0 <= k < i ==> !NonEmptyRead(ms[k])
    ensures ReadBefore(ms, i) == 0
  {
    if i > 0 {
      NoneBefore(ms, i - 1);
    }
  }

  lemma SecondIsWrong(ms: seq<Message>, i: nat, j: nat) returns (reply: seq<byte>)
    requires i < j < |ms| && NonEmptyRead(ms[i]) && NonEmptyRead(ms[j])
    ensures |reply| == ReadBefore(ms, |ms|) && !Served(ms, reply, j)
  {
    ReadGrows(ms, i, j);
    ReadGrows(ms, j, |ms|);
    var at := ReadBefore(ms, j);
    reply := Fill(0 as byte, at) + Fill(1 as byte, ReadBefore(ms, |ms|) - at);
    ReplyIsEnough(ms, reply);
    assert Given(ms, reply)[j].buf[0] == reply[0] == 0;
    assert reply[at..at + |ms[j].buf|][0] == reply[at] == 1;
  }

  // Every message gets its own bytes, whatever is read, if and only if no
  // second message reads any.
  lemma ServesOneRead(ms: seq<Message>)
    ensures AlwaysServed(ms) <==> OneReadAtMost(ms)
  {
    if OneReadAtMost(ms) {
      forall reply: seq<byte>, i: nat | |reply| == ReadBefore(ms, |ms|) && i < |ms|
        ensures Served(ms, reply, i)
      {
        ReplyIsEnough(ms, reply);
        if NonEmptyRead(ms[i]) {
          NoneBefore(ms, i);
        }
      }
    } else {
      var i, j :| 0 <= i < j < |ms| && NonEmptyRead(ms[i]) && NonEmptyRead(ms[j]);
      var reply := SecondIsWrong(ms, i, j);
    }
  }

  // The locals of pt3_i2c_xfr, and the board's program memory.
  class Xfer {
    const mem: array<byte>
    var offset: nat
    var buf: int
    var filled: bool
    ghost var prog: Program

    ghost predicate Valid()
      reads this, mem
    {
      && |prog| == 2 * offset + (if filled then 1 else 0) <= 2 * mem.Length
      && mem[..offset] == Pack(prog[..2 * offset])
      && (filled ==> buf == prog[|prog| - 1])
    }

    constructor (mem: array<byte>)
      ensures Valid() && prog == [] && this.mem == mem
    {
      this.mem, offset, buf, filled, prog := mem, 0, 0, false, [];
    }

    // i2c_shoot
    method Shoot(dat: nibble)
      requires Valid() && |prog| < 2 * mem.Length
      modifies this, mem
      ensures Valid() && prog == old(prog) + [dat]
    {
      PackSteps(prog, offset, dat);
      if filled {
        buf := buf + 16 * dat as int;
        ghost var packed := mem[..offset];
        mem[offset] := buf;
        assert mem[..offset + 1] == packed + [buf];
        offset := offset + 1;
      } else {
        buf := dat;
      }
      filled := !filled;
      prog := prog + [dat];
    }

    // One turn of the outer loop of i2c_w.
    method WriteByte(b: byte)
      requires Valid() && |prog| + 9 <= 2 * mem.Length
      modifies this, mem
      ensures Valid() && prog == old(prog) + EncodeByte(b)
    {
      ghost var e := EncodeByte(b);
      for j := 0 to 8
        invariant Valid() && prog == old(prog) + e[..j]
      {
        Grow(old(prog), e, j);
        Shoot(if b / WEIGHTS[j] % 2 == 1 then DATA_H_NOP else DATA_L_NOP);
      }
      Grow(old(prog), e, 8);
      Shoot(DATA_H_ACK0);
      assert e[..9] == e;
    }

    // i2c_w
    method Write(dat: seq<byte>)
      requires Valid() && |prog| + |EncodeWrite(dat)| <= 2 * mem.Length
      modifies this, mem
      ensures Valid() && prog == old(prog) + EncodeWrite(dat)
    {
      for i := 0 to |dat|
        invariant Valid() && prog + EncodeWrite(dat[i..]) == old(prog) + EncodeWrite(dat)
      {
        ghost var had := prog;
        assert dat[i..][1..] == dat[i + 1..];
        WriteByte(dat[i]);
        Assoc(had, EncodeByte(dat[i]), EncodeWrite(dat[i + 1..]));
      }
      Unit(prog);
    }

    // The eight bits of a byte, and an acknowledgement unless it is the last.
    method ReadByte(last: bool)
      requires Valid() && |prog| + 9 <= 2 * mem.Length
      modifies this, mem
      ensures Valid() && prog == old(prog) + (READ8 + [if last then DATA_H_NOP else DATA_L_NOP])
    {
      ghost var had := prog;
      for j := 0 to 8
        invariant Valid() && prog == had + READ8[..j]
      {
        Grow(had, READ8, j);
        Shoot(DATA_H_READ);
      }
      assert READ8[..8] == READ8;
      Assoc(had, READ8, [if last then DATA_H_NOP else DATA_L_NOP]);
      if last {
        Shoot(DATA_H_NOP);
      } else {
        Shoot(DATA_L_NOP);
      }
    }

    // i2c_r
    method Read(size: nat)
      requires Valid() && |prog| + |EncodeRead(size)| <= 2 * mem.Length
      modifies this, mem
      ensures Valid() && prog == old(prog) + EncodeRead(size)
    {
      for i := 0 to size
        invariant Valid() && prog + EncodeRead(size - i) == old(prog) + EncodeRead(size)
      {
        ghost var had := prog;
        ReadByte(i == size - 1);
        if i == size - 1 {
          Unit(prog);
        } else {
          Assoc(had, READ8 + [DATA_L_NOP], EncodeRead(size - i - 1));
        }
      }
      Unit(prog);
    }

    method Start()
      requires Valid() && |prog| + 4 <= 2 * mem.Length
      modifies this, mem
      ensures Valid() && prog == old(prog) + START
    {
      ghost var was := prog;
      Shoot(DATA_H);
      Shoot(CLOCK_H);
      Shoot(DATA_L);
      Shoot(CLOCK_L);
      Four(was, DATA_H, CLOCK_H, DATA_L, CLOCK_L);
    }

    method Stop()
      requires Valid() && |prog| + 3 <= 2 * mem.Length
      modifies this, mem
      ensures Valid() && prog == old(prog) + STOP
    {
      Shoot(DATA_L);
      Shoot(CLOCK_H);
      Shoot(DATA_H);
    }

    method Payload(m: Message)
      requires Valid() && |prog| + |EncodeWrite(Wire(m).written) + EncodeRead(Wire(m).nread)| <= 2 * mem.Length
      modifies this, mem
      ensures Valid() && prog == old(prog) + (EncodeWrite(Wire(m).written) + EncodeRead(Wire(m).nread))
    {
      if m.flags == I2C_M_RD {
        Unit(EncodeRead(|m.buf|));
        Read(|m.buf|);
      } else {
        Unit(EncodeWrite(m.buf));
        Write(m.buf);
      }
    }

    method Address(first: byte)
      requires Valid() && |prog| + 13 <= 2 * mem.Length
      modifies this, mem
      ensures Valid() && prog == old(prog) + START + EncodeByte(first)
    {
      WriteOne(first);
      Start();
      Write([first]);
    }

    // One turn of the message loop.
    method Send(m: Message)
      requires Valid() && |prog| + |EncodeTransfer(Wire(m))| <= 2 * mem.Length
      modifies this, mem
      ensures Valid() && prog == old(prog) + EncodeTransfer(Wire(m))
    {
      ghost var was, t := prog, Wire(m);
      var first := (m.addr * 2 + m.flags % 2) % 256;
      Address(first);
      Payload(m);
      Assoc4(was, START, EncodeByte(first), EncodeWrite(t.written) + EncodeRead(t.nread));
    }

    method SendAll(msgs: seq<Message>)
      requires Valid() && prog == [] && |EncodeAll(Wires(msgs))| <= 2 * mem.Length
      modifies this, mem
      ensures Valid() && prog == EncodeAll(Wires(msgs))
    {
      ghost var ts := Wires(msgs);
      assert ts[0..] == ts;
      Unit(EncodeAll(ts));
      for i := 0 to |msgs|
        invariant Valid() && prog + EncodeAll(ts[i..]) == EncodeAll(ts)
      {
        ghost var had := prog;
        Advance(ts, i);
        Assoc(had, EncodeTransfer(ts[i]), EncodeAll(ts[i + 1..]));
        Send(msgs[i]);
      }
      Unit(prog);
    }

    // The loops after the flush: reply is what the board has read.
    method CopyBack(msgs: seq<Message>, reply: seq<byte>) returns (got: seq<Message>)
      requires msgs != [] && !Reads(msgs[0]) && Enough(msgs, reply)
      ensures got == Given(msgs, reply)
    {
      got := msgs;
      for i := 1 to |msgs|
        invariant |got| == |msgs| && got[i..] == msgs[i..]
        invariant forall k :: 0 <= k < i ==> got[k] == GivenTo(msgs[k], reply)
      {
        var m := msgs[i];
        if m.flags == I2C_M_RD {
          var buf := m.buf;
          for j := 0 to |m.buf|
            invariant |buf| == |m.buf| && buf[..j] == reply[..j]
          {
            buf := buf[j := reply[j]];
          }
          got := got[i := m.(buf := buf)];
        }
      }
    }

    // pt3_i2c_xfr; reply is what the board has read when the flush is over.
    method Run(msgs: seq<Message>, flushFails: bool, reply: seq<byte>) returns (ret: int, got: seq<Message>)
      requires Valid() && prog == [] && |Compile(Wires(msgs))| <= 2 * mem.Length && Enough(msgs, reply)
      modifies this, mem
      ensures Valid()
      ensures if |msgs| < 1 || |msgs| > 3 || msgs[0].flags != 0 then
                ret == -ENOTSUPP && prog == [] && got == msgs
              else
                && mem[..offset] == Pack(Compile(Wires(msgs)))
                && if flushFails then ret == -EIO && got == msgs else ret == |msgs| && got == Given(msgs, reply)
    {
      got := msgs;
      if |msgs| < 1 || |msgs| > 3 || msgs[0].flags != 0 {
        return -ENOTSUPP, got;
      }
      SendAll(msgs);
      Finish(Wires(msgs));
      if flushFails {
        ret := -EIO;
      } else {
        got := CopyBack(msgs, reply);
        ret := |msgs|;
      }
    }

    // The stop condition, END, and END again if a byte is half full.
    method Finish(ghost ts: seq<Transfer>)
      requires Valid() && prog == EncodeAll(ts) && |Compile(ts)| <= 2 * mem.Length
      modifies this, mem
      ensures Valid() && mem[..offset] == Pack(Compile(ts))
    {
      Stop();
      Pad();
      WholeSlice(prog, 2 * offset);
    }

    method Pad()
      requires Valid() && |Padded(prog + [END])| <= 2 * mem.Length
      modifies this, mem
      ensures Valid() && !filled && prog == Padded(old(prog) + [END])
    {
      Shoot(END);
      if filled {
        Shoot(END);
      }
    }
  }

  lemma Advance(ts: seq<Transfer>, i: nat)
    requires i < |ts|
    ensures EncodeAll(ts[i..]) == EncodeTransfer(ts[i]) + EncodeAll(ts[i + 1..])
  {
    assert ts[i..][1..] == ts[i + 1..];
  }

  // ---- Agreement ----

  // The same transfers make the same program in both drivers.
  lemma SameProgram(tcAddr: byte, addr: byte, data: seq<byte>, into: seq<byte>)
    ensures Compile(Wires([Message(tcAddr, 0, [addr] + data)])) == Compile([TcWriteTransfer(tcAddr, addr, data)])
    ensures Compile(Wires([Message(tcAddr, 0, [addr]), Message(tcAddr, I2C_M_RD, into)])) ==
            Compile(TcReadTransfers(tcAddr, addr, |into|))
  {
    assert Wires([Message(tcAddr, 0, [addr] + data)]) == [TcWriteTransfer(tcAddr, addr, data)];
    assert Wires([Message(tcAddr, 0, [addr]), Message(tcAddr, I2C_M_RD, into)]) ==
           TcReadTransfers(tcAddr, addr, |into|);
  }

  // A register write, by both drivers: what they leave in the buffer of the
  // one and in the board's memory, which the other writes, is the same.
  method WriteAgrees(bus: Bus, xfer: Xfer, tcAddr: byte, addr: byte, data: seq<byte>)
    requires bus.Valid() && bus.prog == [] && xfer.Valid() && xfer.prog == [] && bus.insts != xfer.mem
    requires |Compile([TcWriteTransfer(tcAddr, addr, data)])| + 2 <= 2 * bus.insts.Length
    requires |Compile([TcWriteTransfer(tcAddr, addr, data)])| <= 2 * xfer.mem.Length
    modifies bus, bus.insts, xfer, xfer.mem
    ensures bus.Valid() && xfer.Valid()
    ensures bus.insts[..bus.instPos] == xfer.mem[..xfer.offset] == Pack(Compile([TcWriteTransfer(tcAddr, addr, data)]))
  {
    bus.TcWriteAlone(tcAddr, addr, data);
    SameProgram(tcAddr, addr, data, []);
    var ret, got := xfer.Run([Message(tcAddr, 0, [addr] + data)], false, []);
  }

  // A register read.
  method ReadAgrees(bus: Bus, xfer: Xfer, tcAddr: byte, addr: byte, into: seq<byte>, reply: seq<byte>)
    requires bus.Valid() && bus.prog == [] && xfer.Valid() && xfer.prog == [] && bus.insts != xfer.mem
    requires |Compile(TcReadTransfers(tcAddr, addr, |into|))| + 2 <= 2 * bus.insts.Length
    requires |Compile(TcReadTransfers(tcAddr, addr, |into|))| <= 2 * xfer.mem.Length && |into| <= |reply|
    modifies bus, bus.insts, xfer, xfer.mem
    ensures bus.Valid() && xfer.Valid()
    ensures bus.insts[..bus.instPos] == xfer.mem[..xfer.offset] == Pack(Compile(TcReadTransfers(tcAddr, addr, |into|)))
  {
    bus.TcReadAlone(tcAddr, addr, |into|);
    SameProgram(tcAddr, addr, [], into);
    var ret, got := xfer.Run([Message(tcAddr, 0, [addr]), Message(tcAddr, I2C_M_RD, into)], false, reply);
  }

  // What either driver writes reads back as the messages it was given.
  lemma MessagesRoundTrip(ms: seq<Message>)
    ensures DecodeProgram(Unpack(Pack(Compile(Wires(ms))))) == Some(Wires(ms))
  {
    RoundTrip(Wires(ms));
  }
}
