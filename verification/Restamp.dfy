// restamp.c: the time stamps of a stream are moved by an offset, and when they
// jump the offset is changed so that they go on.
module Restamp {
  import opened Arith
  import opened Octets

  // Time stamps are unsigned 64-bit numbers of 27 MHz ticks; a programme
  // clock reference counts them modulo 2^33 * 300.
  const W: nat := 0x1_0000_0000_0000_0000
  const M: nat := 0x2_0000_0000 * 300
  const PTS_THRESHOLD: nat := 45000 * 300
  const REPAIR: nat := 4500 * 300
  const START_PTS: nat := 54000000

  type u64 = x: int | 0 <= x < 0x1_0000_0000_0000_0000

  // pts_diff
  function PtsDiff(a: u64, b: u64): u64 {
    ((if a < b then (a + M) % W else a) - b) % W
  }

  lemma PtsDiffIs(a: u64, b: u64)
    ensures b <= a ==> PtsDiff(a, b) == a - b
    ensures a < b <= a + M ==> PtsDiff(a, b) == a + M - b
    ensures a + M < b ==> PtsDiff(a, b) == a + M - b + W
  {
  }

  // Distance on the circle of M ticks.
  ghost predicate Close(a: int, b: int, limit: nat) {
    (a - b) % M <= limit || (b - a) % M <= limit
  }

  lemma ModIs(x: int, k: int, r: int)
    requires x == k * M + r && 0 <= r < M
    ensures x % M == r
  {
  }

  lemma ModOfMods(a: int, b: int)
    ensures (a % M - b % M) % M == (a - b) % M
  {
    var q := a / M - b / M;
    var d := a % M - b % M;
    assert a - b == q * M + d;
    if d >= 0 {
      ModIs(a - b, q, d);
      ModIs(d, 0, d);
    } else {
      ModIs(a - b, q - 1, d + M);
      ModIs(d, -1, d + M);
    }
  }

  // Only the place on the circle counts.
  lemma CloseOnCircle(a: int, b: int, limit: nat)
    ensures Close(a % M, b % M, limit) <==> Close(a, b, limit)
  {
    ModOfMods(a, b);
    ModOfMods(b, a);
  }

  predicate Far(a: u64, b: u64, limit: nat) {
    PtsDiff(a, b) > limit && PtsDiff(b, a) > limit
  }

  lemma NotFarIsClose(a: u64, b: u64, limit: nat)
    requires !Far(a, b, limit) && limit < M
    ensures Close(a, b, limit)
  {
    if PtsDiff(a, b) <= limit {
      DiffIsClose(a, b, limit);
    } else {
      DiffIsClose(b, a, limit);
    }
  }

  lemma DiffIsClose(a: u64, b: u64, limit: nat)
    requires PtsDiff(a, b) <= limit && limit < M
    ensures (a - b) % M <= limit
  {
    PtsDiffIs(a, b);
    if b <= a {
      ModIs(a - b, 0, a - b);
    } else {
      ModIs(a - b, -1, a - b + M);
    }
  }

  // One time stamp

  datatype Timed = Timed(value: u64, offset: u64, jumped: bool)

  // The new value of a stamp, the offset from here on, and whether there was
  // a jump: further than limit from the previous stamp in both directions.
  // A jump is repaired by going on one step after the previous stamp.
  function Retime(base: u64, offset: u64, prev: u64, limit: nat, step: u64, check: bool): Timed {
    var value := PtsDiff(base, offset);
    if check && Far(value, prev, limit) then
      var repaired := (prev + step) % W;
      Timed(repaired, PtsDiff(base, repaired), true)
    else
      Timed(value, offset, false)
  }

  // The repaired value leaves the word.
  predicate Wraps(prev: u64, step: u64) {
    prev + step >= W
  }

  lemma RepairIsClose(prev: u64)
    ensures Close((prev + REPAIR) % W, prev, PTS_THRESHOLD) <==> !Wraps(prev, REPAIR)
  {
    if Wraps(prev, REPAIR) {
      assert (prev + REPAIR) % W - prev == REPAIR - W;
      assert (REPAIR - W) % M > PTS_THRESHOLD && (W - REPAIR) % M > PTS_THRESHOLD;
    } else {
      assert (prev + REPAIR) % W - prev == REPAIR;
    }
  }

  // A reference stays within the threshold of the previous one exactly when
  // no repair leaves the word.
  lemma PcrIsClose(base: u64, offset: u64, prev: u64)
    ensures var t := Retime(base, offset, prev, PTS_THRESHOLD, REPAIR, true);
      Close(t.value % M, prev % M, PTS_THRESHOLD) <==> !(t.jumped && Wraps(prev, REPAIR))
  {
    var t := Retime(base, offset, prev, PTS_THRESHOLD, REPAIR, true);
    CloseOnCircle(t.value, prev, PTS_THRESHOLD);
    if t.jumped {
      RepairIsClose(prev);
    } else {
      NotFarIsClose(t.value, prev, PTS_THRESHOLD);
    }
  }

  // The offset of a repair maps the stamp to its repaired place.
  lemma OffsetMaps(base: u64, value: u64)
    requires base + M < W
    ensures PtsDiff(base, PtsDiff(base, value)) % M == value % M
  {
    var offset := PtsDiff(base, value);
    PtsDiffIs(base, value);
    PtsDiffIs(base, offset);
    var v := PtsDiff(base, offset);
    assert v == value || v == value - M;
    ModOfMods(value, v);
    if v == value - M {
      ModIs(value, value / M, value % M);
      ModIs(v, value / M - 1, value % M);
    }
  }

  // With the same offset two stamps keep their distance, if and only if the
  // subtraction leaves the word for both or for neither.
  lemma Steady(a: u64, b: u64, offset: u64)
    requires a + M < W && b + M < W
    ensures (PtsDiff(b, offset) - PtsDiff(a, offset)) % M == (b - a) % M
      <==> (offset <= a + M <==> offset <= b + M)
  {
    PtsDiffIs(a, offset);
    PtsDiffIs(b, offset);
    var d := PtsDiff(b, offset) - PtsDiff(a, offset);
    var e := d - (b - a);
    assert e == 0 || e == M || e == 0 - M || e == W || e == W + M || e == 0 - W || e == 0 - W - M;
    Shifted(b - a, e);
  }

  lemma Shifted(x: int, e: int)
    requires e == 0 || e == M || e == 0 - M || e == W || e == W + M || e == 0 - W || e == 0 - W - M
    ensures (x + e) % M == x % M <==> e == 0 || e == M || e == 0 - M
  {
    ModOfMods(x + e, x);
    assert (x + e) - x == e;
    assert e % M == 0 <==> e == 0 || e == M || e == 0 - M;
    ModIs(0, 0, 0);
    if e % M == 0 {
      ModIs(x + e, x / M + e / M, x % M);
    }
  }

  // Runs

  const STREAMS: nat := 51

  // The offset, the previous reference, and for every PES stream the previous
  // stamp and the step.
  datatype State = State(offset: u64, pcr: u64, pes: seq<u64>, step: seq<u64>) {
    predicate Valid() {
      |pes| == |step| == STREAMS
    }
  }

  // A reference, a stamp of a PES stream, checked for jumps or not, or a new
  // step for a stream.
  datatype Op = Pcr(base: u64) | Stamp(st: nat, base: u64, check: bool) | Pace(st: nat, ticks: u64) {
    predicate Valid() {
      Pcr? || st < STREAMS
    }
  }

  predicate AllValid(ops: seq<Op>) {
    forall op <- ops :: op.Valid()
  }

  function PcrTimed(s: State, base: u64): Timed {
    Retime(base, s.offset, s.pcr, PTS_THRESHOLD, REPAIR, true)
  }

  function StampTimed(s: State, st: nat, base: u64, check: bool): Timed
    requires s.Valid() && st < STREAMS
  {
    Retime(base, s.offset, s.pes[st], 2 * PTS_THRESHOLD, s.step[st], check)
  }

  function Do(s: State, op: Op): (t: State)
    requires s.Valid() && op.Valid()
    ensures t.Valid()
  {
    match op
    case Pcr(base) =>
      var timed := PcrTimed(s, base);
      s.(offset := timed.offset, pcr := timed.value)
    case Stamp(st, base, check) =>
      var timed := StampTimed(s, st, base, check);
      s.(offset := timed.offset, pes := s.pes[st := timed.value])
    case Pace(st, ticks) => s.(step := s.step[st := ticks])
  }

  // The references put out.
  function Emitted(s: State, ops: seq<Op>): seq<nat>
    requires s.Valid() && AllValid(ops)
    decreases |ops|
  {
    if ops == [] then []
    else
      assert ops[0] in ops;
      var t := Do(s, ops[0]);
      (if ops[0].Pcr? then [t.pcr % M] else []) + Emitted(t, ops[1..])
  }

  // No repair of a reference leaves the word.
  ghost predicate NoWrap(s: State, ops: seq<Op>)
    requires s.Valid() && AllValid(ops)
    decreases |ops|
  {
    ops == [] ||
    (assert ops[0] in ops;
     && (ops[0].Pcr? && PcrTimed(s, ops[0].base).jumped ==> !Wraps(s.pcr, REPAIR))
     && NoWrap(Do(s, ops[0]), ops[1..]))
  }

  // Every reference is close to the one before it, the first to prev.
  ghost predicate Smooth(prev: nat, pcrs: seq<nat>) {
    forall k :: 0 <= k < |pcrs| ==> SmoothAt(prev, pcrs, k)
  }

  ghost predicate SmoothAt(prev: nat, pcrs: seq<nat>, k: nat)
    requires k < |pcrs|
  {
    Close(pcrs[k], if k == 0 then prev else pcrs[k - 1], PTS_THRESHOLD)
  }

  lemma SmoothMore(prev: nat, pcr: nat, pcrs: seq<nat>)
    ensures Smooth(prev, [pcr] + pcrs) <==> Close(pcr, prev, PTS_THRESHOLD) && Smooth(pcr, pcrs)
  {
    var all := [pcr] + pcrs;
    assert SmoothAt(prev, all, 0) <==> Close(pcr, prev, PTS_THRESHOLD);
    forall k | 0 <= k < |pcrs|
      ensures SmoothAt(prev, all, k + 1) <==> SmoothAt(pcr, pcrs, k)
    {
      assert all[k + 1] == pcrs[k];
    }
    if Close(pcr, prev, PTS_THRESHOLD) && Smooth(pcr, pcrs) {
      forall k | 0 <= k < |all|
        ensures SmoothAt(prev, all, k)
      {
        if k > 0 {
          assert SmoothAt(pcr, pcrs, k - 1);
        }
      }
    }
  }

  // Over a whole run, whatever the stamps of the input are, the references
  // put out never jump, if and only if no repair leaves the word.
  lemma {:induction false} RunIsSmooth(s: State, ops: seq<Op>)
    requires s.Valid() && AllValid(ops)
    ensures Smooth(s.pcr % M, Emitted(s, ops)) <==> NoWrap(s, ops)
    decreases |ops|
  {
    if ops != [] {
      assert ops[0] in ops;
      var t := Do(s, ops[0]);
      RunIsSmooth(t, ops[1..]);
      if ops[0].Pcr? {
        PcrIsClose(ops[0].base, s.offset, s.pcr);
        SmoothMore(s.pcr % M, t.pcr % M, Emitted(t, ops[1..]));
      } else {
        Unit(Emitted(t, ops[1..]));
      }
    }
  }

  // How many stamps it takes to get there

  // The largest value get_pcr returns, and the longest step.
  const MAX_PCR: nat := 0x1_ffff_ffff * 300 + 511
  const MAX_STEP: nat := 27000000 * 1024 / 8000
  const GROWTH: nat := MAX_PCR + MAX_STEP

  // The values of the two decoders and the step tables; the streams below 3
  // are never checked.
  predicate Decoded(op: Op) {
    match op
    case Pcr(base) => base <= MAX_PCR
    case Stamp(st, base, check) => base < M && (check ==> st >= 3)
    case Pace(st, ticks) => ticks <= MAX_STEP
  }

  // Nothing has got beyond v; an offset is one that was subtracted on the
  // circle or one that makes up for a value beyond it.
  ghost predicate Below(s: State, v: nat)
    requires s.Valid()
  {
    && (s.offset <= M || s.offset >= W - v + M) && s.pcr <= v
    && (forall st :: 3 <= st < STREAMS ==> s.pes[st] <= v)
    && forall st :: 0 <= st < STREAMS ==> s.step[st] <= MAX_STEP
  }

  lemma RetimeBelow(base: u64, offset: u64, prev: u64, limit: nat, step: u64, check: bool, v: nat)
    requires v >= M && v + GROWTH < W
    requires base <= MAX_PCR && (offset <= M || offset >= W - v + M)
    requires check ==> prev <= v && step <= MAX_STEP && (base < M || step == REPAIR)
    ensures var t := Retime(base, offset, prev, limit, step, check);
      && t.value <= v + GROWTH && (t.offset <= M || t.offset >= W - (v + GROWTH) + M)
  {
    var t := Retime(base, offset, prev, limit, step, check);
    PtsDiffIs(base, offset);
    if t.jumped {
      PtsDiffIs(base, t.value);
    }
  }

  lemma DoBelow(s: State, op: Op, v: nat)
    requires s.Valid() && op.Valid() && Decoded(op) && Below(s, v)
    requires v >= M && v + GROWTH < W
    ensures Below(Do(s, op), v + GROWTH)
    ensures op.Pcr? && PcrTimed(s, op.base).jumped ==> !Wraps(s.pcr, REPAIR)
  {
    match op
    case Pcr(base) => RetimeBelow(base, s.offset, s.pcr, PTS_THRESHOLD, REPAIR, true, v);
    case Stamp(st, base, check) => RetimeBelow(base, s.offset, s.pes[st], 2 * PTS_THRESHOLD, s.step[st], check, v);
    case Pace(st, ticks) =>
  }

  // The references and stamps of a run.
  function Count(ops: seq<Op>): (n: nat)
    ensures n <= |ops|
  {
    if ops == [] then 0 else (if ops[0].Pace? then 0 else 1) + Count(ops[1..])
  }

  lemma {:induction false} RunBelow(s: State, ops: seq<Op>, v: nat)
    requires s.Valid() && AllValid(ops) && (forall op <- ops :: Decoded(op)) && Below(s, v)
    requires v >= M && v + Count(ops) * GROWTH < W
    ensures NoWrap(s, ops)
    decreases |ops|
  {
    if ops != [] {
      assert ops[0] in ops;
      if ops[0].Pace? {
        RunBelow(Do(s, ops[0]), ops[1..], v);
      } else {
        assert v + GROWTH + Count(ops[1..]) * GROWTH == v + Count(ops) * GROWTH;
        DoBelow(s, ops[0], v);
        RunBelow(Do(s, ops[0]), ops[1..], v + GROWTH);
      }
    }
  }

  // What main starts with; the streams below 3 are not initialised.
  ghost predicate Start(s: State) {
    && s.Valid() && s.offset == 0 && s.pcr == START_PTS
    && (forall st :: 3 <= st < STREAMS ==> s.pes[st] <= START_PTS)
    && forall st :: 0 <= st < STREAMS ==> s.step[st] <= MAX_STEP
  }

  lemma SevenMillion(n: nat)
    requires n <= 7_000_000
    ensures M + n * GROWTH < W
  {
    assert n * GROWTH <= 7_000_000 * GROWTH;
  }

  // From the start, up to seven million references and stamps, whatever they
  // are, put out references that never jump.
  lemma ShortRunIsSmooth(s: State, ops: seq<Op>)
    requires Start(s) && AllValid(ops) && (forall op <- ops :: Decoded(op))
    requires Count(ops) <= 7_000_000
    ensures Smooth(START_PTS, Emitted(s, ops))
  {
    SevenMillion(Count(ops));
    RunBelow(s, ops, M);
    RunIsSmooth(s, ops);
    ModIs(START_PTS, 0, START_PTS);
  }

  // Stamps in bytes.  The fields of a stamp do not overlap, so the | of the C
  // code is a sum here and a mask with a shift is a quotient and a remainder.

  const PTS_RANGE: nat := 0x2_0000_0000

  function GetPcr(p: seq<byte>): (v: u64)
    requires |p| >= 6
    ensures v <= MAX_PCR
  {
    var base := p[0] as int * 0x200_0000 + p[1] as int * 0x2_0000 + p[2] as int * 0x200 + p[3] as int * 2
      + p[4] as int / 0x80;
    var ext := p[4] as int % 2 * 0x100 + p[5] as int;
    base * 300 + ext
  }

  function PcrBytes(v: u64): (p: seq<byte>)
    ensures |p| == 6
  {
    var base, ext := v / 300, v % 300;
    [base / 0x200_0000 % 0x100, base / 0x2_0000 % 0x100, base / 0x200 % 0x100, base / 2 % 0x100,
     base % 2 * 0x80 + 0x3e + ext / 0x100, ext % 0x100]
  }

  lemma RangeRest(v: nat, k: nat, r: nat)
    requires v == k * PTS_RANGE + r && r < PTS_RANGE
    ensures v % PTS_RANGE == r
  {
  }

  lemma PutTogether(q: seq<nat>)
    requires |q| == 6 && q[0] / 2 == q[1] && q[1] / 0x100 == q[2] && q[2] / 0x100 == q[3]
    requires q[3] / 0x100 == q[4] && q[4] / 0x100 == q[5]
    ensures q[0] == q[5] * PTS_RANGE + (q[4] % 0x100 * 0x200_0000 + q[3] % 0x100 * 0x2_0000
      + q[2] % 0x100 * 0x200 + q[1] % 0x100 * 2 + q[0] % 2)
  {
    assert q[0] == 2 * q[1] + q[0] % 2;
    assert q[1] == 0x100 * q[2] + q[1] % 0x100;
    assert q[2] == 0x100 * q[3] + q[2] % 0x100;
    assert q[3] == 0x100 * q[4] + q[3] % 0x100;
    assert q[4] == 0x100 * q[5] + q[4] % 0x100;
  }

  lemma BasePieces(base: nat)
    ensures base % PTS_RANGE == base / 0x200_0000 % 0x100 * 0x200_0000 + base / 0x2_0000 % 0x100 * 0x2_0000
      + base / 0x200 % 0x100 * 0x200 + base / 2 % 0x100 * 2 + base % 2
  {
    DivDiv(base, 2, 0x100, 0x200);
    DivDiv(base, 0x200, 0x100, 0x2_0000);
    DivDiv(base, 0x2_0000, 0x100, 0x200_0000);
    var q := [base, base / 2, base / 0x200, base / 0x2_0000, base / 0x200_0000, base / 0x200_0000 / 0x100];
    PutTogether(q);
    RangeRest(base, q[5], q[4] % 0x100 * 0x200_0000 + q[3] % 0x100 * 0x2_0000
      + q[2] % 0x100 * 0x200 + q[1] % 0x100 * 2 + q[0] % 2);
  }

  lemma BaseAndExt(v: nat)
    ensures v % M == v / 300 % PTS_RANGE * 300 + v % 300
  {
    ModIs(v, v / 300 / PTS_RANGE, v / 300 % PTS_RANGE * 300 + v % 300);
  }

  // The byte that holds the last bit of the base and the first of the
  // extension.
  lemma MixedByte(bit: nat, ext: nat)
    requires bit < 2 && ext < 300
    ensures var b := bit * 0x80 + 0x3e + ext / 0x100;
      b < 256 && b / 0x80 == bit && b % 2 * 0x100 + ext % 0x100 == ext && b / 2 % 64 == 31
  {
  }

  // A reference reads back as the value it was written for, on the circle.
  // Five of the six reserved bits are set.
  lemma PcrReadsBack(v: u64)
    ensures GetPcr(PcrBytes(v)) == v % M && PcrBytes(v)[4] as int / 2 % 64 == 31
  {
    BasePieces(v / 300);
    BaseAndExt(v);
    MixedByte(v / 300 % 2, v % 300);
  }

  function GetPts(p: seq<byte>): (v: nat)
    requires |p| >= 5
    ensures v < PTS_RANGE
  {
    p[0] as int / 2 % 8 * 0x4000_0000 + p[1] as int * 0x40_0000 + p[2] as int / 2 * 0x8000 + p[3] as int * 0x80
      + p[4] as int / 2
  }

  // set_pts, over a first byte of p0.
  function PtsBytes(p0: byte, v: u64): (p: seq<byte>)
    ensures |p| == 5
  {
    [p0 as int - p0 as int / 2 % 8 * 2 + v / 0x4000_0000 % 8 * 2, v / 0x40_0000 % 0x100, v / 0x8000 % 0x80 * 2 + 1,
     v / 0x80 % 0x100, v % 0x80 * 2 + 1]
  }

  lemma PutPtsTogether(q: seq<nat>)
    requires |q| == 6 && q[0] / 0x80 == q[1] && q[1] / 0x100 == q[2] && q[2] / 0x80 == q[3]
    requires q[3] / 0x100 == q[4] && q[4] / 8 == q[5]
    ensures q[0] == q[5] * PTS_RANGE + (q[4] % 8 * 0x4000_0000 + q[3] % 0x100 * 0x40_0000
      + q[2] % 0x80 * 0x8000 + q[1] % 0x100 * 0x80 + q[0] % 0x80)
  {
    assert q[0] == 0x80 * q[1] + q[0] % 0x80;
    assert q[1] == 0x100 * q[2] + q[1] % 0x100;
    assert q[2] == 0x80 * q[3] + q[2] % 0x80;
    assert q[3] == 0x100 * q[4] + q[3] % 0x100;
    assert q[4] == 8 * q[5] + q[4] % 8;
  }

  lemma PtsPieces(v: nat)
    ensures v % PTS_RANGE == v / 0x4000_0000 % 8 * 0x4000_0000 + v / 0x40_0000 % 0x100 * 0x40_0000
      + v / 0x8000 % 0x80 * 0x8000 + v / 0x80 % 0x100 * 0x80 + v % 0x80
  {
    DivDiv(v, 0x80, 0x100, 0x8000);
    DivDiv(v, 0x8000, 0x80, 0x40_0000);
    DivDiv(v, 0x40_0000, 0x100, 0x4000_0000);
    var q := [v, v / 0x80, v / 0x8000, v / 0x40_0000, v / 0x4000_0000, v / 0x4000_0000 / 8];
    PutPtsTogether(q);
    RangeRest(v, q[5], q[4] % 8 * 0x4000_0000 + q[3] % 0x100 * 0x40_0000
      + q[2] % 0x80 * 0x8000 + q[1] % 0x100 * 0x80 + q[0] % 0x80);
  }

  lemma ThreeFields(high: nat, middle: nat, low: nat)
    requires middle < 8 && low < 2
    ensures var b := high * 16 + middle * 2 + low; b / 2 % 8 == middle && b / 16 == high && b % 2 == low
  {
    assert (high * 16 + middle * 2 + low) / 2 == high * 8 + middle;
  }

  lemma FirstByte(p0: byte, top: nat)
    requires top < 8
    ensures var b := p0 as int - p0 as int / 2 % 8 * 2 + top * 2;
      0 <= b < 256 && b / 2 % 8 == top && b / 16 == p0 as int / 16 && b % 2 == p0 as int % 2
  {
    var high, low := p0 as int / 16, p0 as int % 2;
    assert p0 as int == high * 16 + p0 as int / 2 % 8 * 2 + low;
    ThreeFields(high, top, low);
  }

  // A stamp reads back modulo 2^33; the other bits of its first byte stay and
  // its marker bits are set.
  lemma PtsReadsBack(p0: byte, v: u64)
    ensures var p := PtsBytes(p0, v);
      && GetPts(p) == v % PTS_RANGE
      && p[0] as int / 16 == p0 as int / 16 && p[0] as int % 2 == p0 as int % 2
      && p[2] as int % 2 == 1 && p[4] as int % 2 == 1
  {
    PtsPieces(v);
    FirstByte(p0, v / 0x4000_0000 % 8);
  }

  // Where the bits of a stamp are: its bytes are one number, the first one the
  // highest.

  function Number(p: seq<byte>): (n: nat) {
    if p == [] then 0 else Number(p[..|p| - 1]) * 0x100 + p[|p| - 1] as int
  }

  lemma NumberTakes(p: seq<byte>, k: nat)
    requires k < |p|
    ensures Number(p[..k + 1]) == Number(p[..k]) * 0x100 + p[k] as int
  {
    var q := p[..k + 1];
    assert q != [] && |q| - 1 == k && q[..k] == p[..k] && q[k] == p[k];
  }

  lemma NumberOf5(p: seq<byte>)
    requires |p| >= 5
    ensures Number(p[..5]) == p[0] as int * 0x1_0000_0000 + p[1] as int * 0x100_0000 + p[2] as int * 0x1_0000
      + p[3] as int * 0x100 + p[4] as int
  {
    NumberTakes(p, 0);
    NumberTakes(p, 1);
    NumberTakes(p, 2);
    NumberTakes(p, 3);
    NumberTakes(p, 4);
    assert p[..0] == [];
  }

  lemma PcrFields(n: nat, b0: nat, b1: nat, b2: nat, b3: nat, b4: nat, b5: nat)
    requires b0 < 0x100 && b1 < 0x100 && b2 < 0x100 && b3 < 0x100 && b4 < 0x100 && b5 < 0x100
    requires n == (b0 * 0x1_0000_0000 + b1 * 0x100_0000 + b2 * 0x1_0000 + b3 * 0x100 + b4) * 0x100 + b5
    ensures n / 0x8000 == b0 * 0x200_0000 + b1 * 0x2_0000 + b2 * 0x200 + b3 * 2 + b4 / 0x80
    ensures n % 0x200 == b4 % 2 * 0x100 + b5
  {
    var q := b0 * 0x200_0000 + b1 * 0x2_0000 + b2 * 0x200 + b3 * 2 + b4 / 0x80;
    QuotientIs(n, 0x8000, q, b4 % 0x80 * 0x100 + b5);
    RemainderIs(n, 0x200, b0 * 0x8000_0000 + b1 * 0x80_0000 + b2 * 0x8000 + b3 * 0x80 + b4 / 2, b4 % 2 * 0x100 + b5);
  }

  // The base is the first 33 bits, the extension the last nine.
  lemma PcrLayout(p: seq<byte>)
    requires |p| >= 6
    ensures var n := Number(p[..6]); GetPcr(p) == n / 0x8000 * 300 + n % 0x200
  {
    NumberOf5(p);
    NumberTakes(p, 5);
    PcrFields(Number(p[..6]), p[0] as int, p[1] as int, p[2] as int, p[3] as int, p[4] as int, p[5] as int);
  }

  lemma PtsFields(n: nat, b0: nat, b1: nat, b2: nat, b3: nat, b4: nat)
    requires b0 < 0x100 && b1 < 0x100 && b2 < 0x100 && b3 < 0x100 && b4 < 0x100
    requires n == b0 * 0x1_0000_0000 + b1 * 0x100_0000 + b2 * 0x1_0000 + b3 * 0x100 + b4
    ensures n / 0x2_0000_0000 == b0 / 2
    ensures n / 0x2_0000 % 0x8000 == b1 * 0x80 + b2 / 2
    ensures n / 2 % 0x8000 == b3 * 0x80 + b4 / 2
  {
    QuotientIs(n, 0x2_0000_0000, b0 / 2, b0 % 2 * 0x1_0000_0000 + b1 * 0x100_0000 + b2 * 0x1_0000 + b3 * 0x100 + b4);
    var q := b0 * 0x8000 + b1 * 0x80 + b2 / 2;
    QuotientIs(n, 0x2_0000, q, b2 % 2 * 0x1_0000 + b3 * 0x100 + b4);
    RemainderIs(q, 0x8000, b0, b1 * 0x80 + b2 / 2);
    var h := (b0 * 0x1_0000 + b1 * 0x100 + b2) * 0x8000 + b3 * 0x80 + b4 / 2;
    QuotientIs(n, 2, h, b4 % 2);
    RemainderIs(h, 0x8000, b0 * 0x1_0000 + b1 * 0x100 + b2, b3 * 0x80 + b4 / 2);
  }

  // Three bits, fifteen bits and fifteen bits, each with a marker bit behind.
  lemma PtsLayout(p: seq<byte>)
    requires |p| >= 5
    ensures var n := Number(p[..5]);
      GetPts(p) == n / 0x2_0000_0000 % 8 * 0x4000_0000 + n / 0x2_0000 % 0x8000 * 0x8000 + n / 2 % 0x8000
  {
    NumberOf5(p);
    PtsFields(Number(p[..5]), p[0] as int, p[1] as int, p[2] as int, p[3] as int, p[4] as int);
  }

  // Packets

  function Pid(buf: seq<byte>): nat
    requires |buf| == PACKET
  {
    buf[1] as int % 0x20 * 0x100 + buf[2] as int
  }

  // A reference in the adaptation field.
  predicate HasPcr(buf: seq<byte>)
    requires |buf| == PACKET
  {
    Bit(buf[3], 5) && buf[4] >= 7 && Bit(buf[5], 4)
  }

  // Where it is read: with an original reference in the field, from the byte
  // after the start of that one.
  function PcrPlace(buf: seq<byte>): nat
    requires |buf| == PACKET
  {
    if buf[4] >= 12 && Bit(buf[5], 3) then 13 else 6
  }

  function PcrRead(buf: seq<byte>): u64
    requires |buf| == PACKET
  {
    GetPcr(buf[PcrPlace(buf)..])
  }

  function StampRead(buf: seq<byte>, at: nat): u64
    requires at + 5 <= |buf|
  {
    GetPts(buf[at..]) * 300
  }

  function RunState(s: State, ops: seq<Op>): (t: State)
    requires s.Valid() && AllValid(ops)
    ensures t.Valid()
    decreases |ops|
  {
    if ops == [] then s else assert ops[0] in ops; RunState(Do(s, ops[0]), ops[1..])
  }

  lemma {:induction false} RunAppend(s: State, a: seq<Op>, b: seq<Op>)
    requires s.Valid() && AllValid(a) && AllValid(b)
    ensures AllValid(a + b) && RunState(s, a + b) == RunState(RunState(s, a), b)
    ensures Emitted(s, a + b) == Emitted(s, a) + Emitted(RunState(s, a), b)
    decreases |a|
  {
    if a == [] {
      Unit(b);
      Unit(Emitted(s, b));
    } else {
      assert a[0] in a && (a + b)[0] == a[0] && (a + b)[1..] == a[1..] + b;
      var t := Do(s, a[0]);
      RunAppend(t, a[1..], b);
      Assoc(if a[0].Pcr? then [t.pcr % M] else [], Emitted(t, a[1..]), Emitted(RunState(t, a[1..]), b));
    }
  }

  lemma OneOp(s: State, a: Op, ops: seq<Op>)
    requires s.Valid() && a.Valid() && AllValid(ops)
    ensures AllValid([a] + ops) && RunState(s, [a] + ops) == RunState(Do(s, a), ops)
  {
    assert ([a] + ops)[0] == a && ([a] + ops)[1..] == ops;
  }

  lemma TwoOps(s: State, a: Op, b: Op)
    requires s.Valid() && a.Valid() && b.Valid()
    ensures AllValid([a, b]) && RunState(s, [a, b]) == Do(Do(s, a), b)
  {
    OneOp(s, a, [b]);
    OneOp(Do(s, a), b, []);
    assert [a, b] == [a] + [b] && [b] == [b] + [];
  }

  // The stamps of a PES header at p: a decoding stamp at 14, a presentation
  // stamp at 9.  Both lie in the packet if they are there at all.
  predicate StampsFit(buf: seq<byte>, p: nat) {
    p + 14 <= |buf| && (Bit(buf[p + 7], 6) ==> p + 19 <= |buf|)
  }

  function DtsOp(buf: seq<byte>, p: nat, st: nat): Op
    requires p + 19 <= |buf|
  {
    Stamp(st, StampRead(buf, p + 14), st >= 3)
  }

  // The presentation stamp is checked when it is alone.
  function PtsOp(buf: seq<byte>, p: nat, st: nat): Op
    requires p + 14 <= |buf|
  {
    Stamp(st, StampRead(buf, p + 9), st >= 3 && !Bit(buf[p + 7], 6))
  }

  // paces are the steps found after each.
  function DtsOps(buf: seq<byte>, p: nat, st: nat, pace: u64): (ops: seq<Op>)
    requires StampsFit(buf, p) && st < STREAMS
    ensures AllValid(ops)
  {
    if Bit(buf[p + 7], 6) then [DtsOp(buf, p, st), Pace(st, pace)] else []
  }

  function PtsOps(buf: seq<byte>, p: nat, st: nat, pace: u64): (ops: seq<Op>)
    requires StampsFit(buf, p) && st < STREAMS
    ensures AllValid(ops)
  {
    if Bit(buf[p + 7], 7) then [PtsOp(buf, p, st), Pace(st, pace)] else []
  }

  function Put(buf: seq<byte>, at: nat, bytes: seq<byte>): (out: seq<byte>)
    requires at + |bytes| <= |buf|
    ensures |out| == |buf|
  {
    buf[..at] + bytes + buf[at + |bytes|..]
  }

  // The stamp at a place after an operation on its stream.
  function Stamped(buf: seq<byte>, at: nat, s: State, op: Op): (out: seq<byte>)
    requires at + 5 <= |buf| && s.Valid() && op.Valid() && op.Stamp?
    ensures |out| == |buf|
  {
    Put(buf, at, PtsBytes(buf[at], Do(s, op).pes[op.st] / 300))
  }

  function DtsOut(buf: seq<byte>, p: nat, st: nat, s: State): (out: seq<byte>)
    requires StampsFit(buf, p) && st < STREAMS && s.Valid()
    ensures |out| == |buf|
  {
    if Bit(buf[p + 7], 6) then Stamped(buf, p + 14, s, DtsOp(buf, p, st)) else buf
  }

  function PtsOut(buf: seq<byte>, p: nat, st: nat, s: State): (out: seq<byte>)
    requires StampsFit(buf, p) && st < STREAMS && s.Valid()
    ensures |out| == |buf|
  {
    if Bit(buf[p + 7], 7) then Stamped(buf, p + 9, s, PtsOp(buf, p, st)) else buf
  }

  // Writing the one stamp does not disturb reading the other.
  lemma DtsOutKeeps(buf: seq<byte>, p: nat, st: nat, s: State, pace: u64)
    requires StampsFit(buf, p) && st < STREAMS && s.Valid()
    ensures var out := DtsOut(buf, p, st, s);
      StampsFit(out, p) && PtsOps(out, p, st, pace) == PtsOps(buf, p, st, pace) && out[p..p + 14] == buf[p..p + 14]
  {
    if Bit(buf[p + 7], 6) {
      var out := DtsOut(buf, p, st, s);
      assert out[p + 7] == buf[p + 7];
      assert out[p + 9..][..5] == buf[p + 9..][..5];
      SamePts(out[p + 9..], buf[p + 9..]);
    }
  }

  lemma SamePts(a: seq<byte>, b: seq<byte>)
    requires |a| >= 5 && |b| >= 5 && a[..5] == b[..5]
    ensures GetPts(a) == GetPts(b)
  {
    assert forall k :: 0 <= k < 5 ==> a[k] == a[..5][k] && b[k] == b[..5][k];
  }

  // A packet that is passed on as it is.
  predicate Skipped(buf: seq<byte>)
    requires |buf| == PACKET
  {
    Pid(buf) < 0x30 || Pid(buf) == 0x1fff || Bit(buf[1], 7)
  }

  // Where the payload starts.
  function Payload(buf: seq<byte>): nat
    requires |buf| == PACKET
  {
    if Bit(buf[3], 5) then 4 + buf[4] as int + 1 else 4
  }

  // A PES header with stamps starts there.
  predicate HasPes(buf: seq<byte>)
    requires |buf| == PACKET
  {
    var p := Payload(buf);
    && Bit(buf[1], 6) && Bit(buf[3], 4) && p + 14 < PACKET
    && buf[p] == 0 && buf[p + 1] == 0 && buf[p + 2] == 1
    && (buf[p + 3] == 0xbd || 0xbf <= buf[p + 3] <= 0xef)
  }

  function Stream(buf: seq<byte>): (st: nat)
    requires |buf| == PACKET && HasPes(buf)
    ensures st < STREAMS
  {
    buf[Payload(buf) + 3] as int - 0xbd
  }

  function PcrOps(buf: seq<byte>): (ops: seq<Op>)
    requires |buf| == PACKET
    ensures AllValid(ops)
  {
    if HasPcr(buf) then [Pcr(PcrRead(buf))] else []
  }

  function PesOps(buf: seq<byte>, pace1: u64, pace2: u64): (ops: seq<Op>)
    requires |buf| == PACKET && (HasPes(buf) ==> StampsFit(buf, Payload(buf)))
    ensures AllValid(ops)
  {
    if HasPes(buf) then
      DtsOps(buf, Payload(buf), Stream(buf), pace1) + PtsOps(buf, Payload(buf), Stream(buf), pace2)
    else []
  }

  function PesOut(buf: seq<byte>, s: State, pace1: u64): (out: seq<byte>)
    requires |buf| == PACKET && (HasPes(buf) ==> StampsFit(buf, Payload(buf))) && s.Valid()
    ensures |out| == |buf|
  {
    if HasPes(buf) then
      var p, st := Payload(buf), Stream(buf);
      DtsOutKeeps(buf, p, st, s, pace1);
      PtsOut(DtsOut(buf, p, st, s), p, st, RunState(s, DtsOps(buf, p, st, pace1)))
    else buf
  }

  function PcrOut(buf: seq<byte>, s: State): (out: seq<byte>)
    requires |buf| == PACKET && s.Valid()
    ensures |out| == PACKET
  {
    if HasPcr(buf) then Put(buf, 6, PcrBytes(Do(s, Pcr(PcrRead(buf))).pcr)) else buf
  }

  // Writing a reference leaves the header and the payload alone.
  lemma PcrOutKeeps(buf: seq<byte>, s: State)
    requires |buf| == PACKET && s.Valid()
    ensures var out := PcrOut(buf, s);
      && out[..6] == buf[..6] && Payload(out) == Payload(buf)
      && forall i :: Payload(buf) <= i < PACKET ==> out[i] == buf[i]
  {
    if HasPcr(buf) {
      var out := PcrOut(buf, s);
      assert forall i :: 0 <= i < 6 ==> out[i] == buf[i];
    }
  }

  lemma SameRead(a: seq<byte>, b: seq<byte>, from: nat, at: nat)
    requires |a| == |b| && from <= at && at + 5 <= |b|
    requires forall i :: from <= i < |b| ==> a[i] == b[i]
    ensures StampRead(a, at) == StampRead(b, at)
  {
    assert a[at..][..5] == b[at..][..5];
    SamePts(a[at..], b[at..]);
  }

  lemma SameHeader(a: seq<byte>, b: seq<byte>)
    requires |a| == |b| == PACKET && a[..6] == b[..6] && Payload(a) == Payload(b)
    requires forall i :: Payload(b) <= i < PACKET ==> a[i] == b[i]
    ensures HasPes(a) == HasPes(b) && (HasPes(b) ==> Stream(a) == Stream(b))
  {
    assert a[1] == a[..6][1] == b[..6][1] == b[1] && a[3] == a[..6][3] == b[..6][3] == b[3];
  }

  // So the stamps of the payload are those of the original.
  lemma SamePes(a: seq<byte>, b: seq<byte>, pace1: u64, pace2: u64)
    requires |a| == |b| == PACKET && a[..6] == b[..6] && Payload(a) == Payload(b)
    requires forall i :: Payload(b) <= i < PACKET ==> a[i] == b[i]
    requires HasPes(b) ==> StampsFit(b, Payload(b))
    ensures HasPes(a) == HasPes(b) && (HasPes(a) ==> StampsFit(a, Payload(a)))
    ensures PesOps(a, pace1, pace2) == PesOps(b, pace1, pace2)
  {
    SameHeader(a, b);
    if HasPes(b) {
      SameStamps(a, b, Payload(b), Stream(b), pace1, pace2);
    }
  }

  lemma SameStamps(a: seq<byte>, b: seq<byte>, p: nat, st: nat, pace1: u64, pace2: u64)
    requires |a| == |b| && StampsFit(b, p) && st < STREAMS
    requires forall i :: p <= i < |b| ==> a[i] == b[i]
    ensures StampsFit(a, p)
    ensures DtsOps(a, p, st, pace1) == DtsOps(b, p, st, pace1) && PtsOps(a, p, st, pace2) == PtsOps(b, p, st, pace2)
  {
    if Bit(b[p + 7], 6) {
      SameRead(a, b, p, p + 14);
    }
    SameRead(a, b, p, p + 9);
  }

  function PacketOps(buf: seq<byte>, pace1: u64, pace2: u64): (ops: seq<Op>)
    requires |buf| == PACKET && (HasPes(buf) ==> StampsFit(buf, Payload(buf)))
    ensures AllValid(ops)
  {
    if Skipped(buf) then [] else PcrOps(buf) + PesOps(buf, pace1, pace2)
  }

  function PacketOut(buf: seq<byte>, s: State, pace1: u64): (out: seq<byte>)
    requires |buf| == PACKET && (HasPes(buf) ==> StampsFit(buf, Payload(buf))) && s.Valid()
    ensures |out| == PACKET
  {
    if Skipped(buf) then buf
    else
      PcrOutKeeps(buf, s);
      SamePes(PcrOut(buf, s), buf, pace1, pace1);
      PesOut(PcrOut(buf, s), RunState(s, PcrOps(buf)), pace1)
  }

  lemma OnePcr(s: State, buf: seq<byte>)
    requires |buf| == PACKET && s.Valid()
    ensures RunState(s, PcrOps(buf)) == if HasPcr(buf) then Do(s, Pcr(PcrRead(buf))) else s
    ensures Emitted(s, PcrOps(buf)) == if HasPcr(buf) then [Do(s, Pcr(PcrRead(buf))).pcr % M] else []
  {
    if HasPcr(buf) {
      var ops := PcrOps(buf);
      assert ops[0] == Pcr(PcrRead(buf)) && ops[1..] == [];
      Unit([Do(s, ops[0]).pcr % M]);
    }
  }

  class Restamper {
    var offset: u64
    var pcr: u64
    const pes: array<u64>
    const step: array<u64>
    var pcrPid: nat
    const force: bool

    ghost predicate Valid() {
      pes != step && pes.Length == step.Length == STREAMS
    }

    ghost predicate Apart(buf: object) {
      buf != pes && buf != step
    }

    ghost function Now(): (s: State)
      requires Valid()
      reads this`offset, this`pcr, pes, step
      ensures s.Valid()
    {
      State(offset, pcr, pes[..], step[..])
    }

    constructor (multi: bool)
      ensures Valid() && fresh(pes) && fresh(step)
      ensures Start(Now()) && pcrPid == 0x2000 && force == multi
      ensures forall st :: 0 <= st < STREAMS ==>
        step[st] == (if st < 35 then 576_000 else 900_900) && pes[st] == 54_000_000 - step[st]
    {
      force := multi;
      offset := 0;
      pcr := START_PTS;
      step := new u64[STREAMS](i => if i < 35 then 1920 * 300 else 3003 * 300);
      pes := new u64[STREAMS](i => START_PTS - if i < 35 then 1920 * 300 else 3003 * 300);
      pcrPid := 0x2000;
    }

    // The arithmetic both kinds of stamps share, with the new offset.
    method Adjust(base: u64, prev: u64, limit: nat, ticks: u64, check: bool) returns (newpts: u64)
      modifies this`offset
      ensures var t := Retime(base, old(offset), prev, limit, ticks, check); newpts == t.value && offset == t.offset
    {
      newpts := PtsDiff(base, offset);
      var diff := PtsDiff(newpts, prev);
      if check && diff > limit && PtsDiff(prev, newpts) > limit {
        newpts := (prev + ticks) % W;
        offset := PtsDiff(base, newpts);
      }
    }

    method PutBytes(buf: array<byte>, at: nat, bytes: seq<byte>)
      requires at + |bytes| <= buf.Length
      modifies buf
      ensures buf[..] == Put(old(buf[..]), at, bytes)
    {
      forall i | 0 <= i < |bytes| {
        buf[at + i] := bytes[i];
      }
    }

    // The reference of a packet; false if it belongs to a second programme.
    method PcrPart(buf: array<byte>) returns (go: bool)
      requires Valid() && buf.Length == PACKET && Apart(buf)
      modifies this`offset, this`pcr, this`pcrPid, buf
      ensures go <==> !HasPcr(old(buf[..])) || old(pcrPid) == 0x2000 || old(pcrPid) == Pid(old(buf[..])) || force
      ensures if go && HasPcr(old(buf[..])) then
          && pcrPid == Pid(old(buf[..]))
          && Now() == Do(old(Now()), Pcr(PcrRead(old(buf[..]))))
          && buf[..] == Put(old(buf[..]), 6, PcrBytes(pcr))
        else
          pcrPid == old(pcrPid) && Now() == old(Now()) && buf[..] == old(buf[..])
    {
      if !HasPcr(buf[..]) {
        return true;
      }
      var pid := Pid(buf[..]);
      if pcrPid != 0x2000 && pid != pcrPid && !force {
        return false;
      }
      pcrPid := pid;
      var base := GetPcr(buf[PcrPlace(buf[..])..]);
      pcr := Adjust(base, pcr, PTS_THRESHOLD, REPAIR, true);
      PutBytes(buf, 6, PcrBytes(pcr));
      return true;
    }

    // One stamp of a PES stream, and the step found in its data.
    method StampPart(buf: array<byte>, at: nat, st: nat, check: bool, pace: u64)
      requires Valid() && at + 5 <= buf.Length && st < STREAMS && Apart(buf)
      modifies this`offset, pes, step, buf
      ensures AllValid([Stamp(st, StampRead(old(buf[..]), at), check), Pace(st, pace)])
      ensures Now() == RunState(old(Now()), [Stamp(st, StampRead(old(buf[..]), at), check), Pace(st, pace)])
      ensures buf[..] == Stamped(old(buf[..]), at, old(Now()), Stamp(st, StampRead(old(buf[..]), at), check))
    {
      var base := GetPts(buf[at..]) * 300;
      assert buf[at..] == buf[..][at..];
      var newpts := Adjust(base, pes[st], 2 * PTS_THRESHOLD, step[st], check);
      PutBytes(buf, at, PtsBytes(buf[at], newpts / 300));
      pes[st] := newpts;
      step[st] := pace;
      TwoOps(old(Now()), Stamp(st, base, check), Pace(st, pace));
      assert pes[..] == old(pes[..])[st := newpts] && step[..] == old(step[..])[st := pace];
    }

    method DtsPart(buf: array<byte>, p: nat, st: nat, pace: u64)
      requires Valid() && Apart(buf) && StampsFit(buf[..], p) && st < STREAMS
      modifies this`offset, pes, step, buf
      ensures Now() == RunState(old(Now()), DtsOps(old(buf[..]), p, st, pace))
      ensures buf[..] == DtsOut(old(buf[..]), p, st, old(Now()))
    {
      if Bit(buf[p + 7], 6) {
        StampPart(buf, p + 14, st, st >= 3, pace);
      }
    }

    method PtsPart(buf: array<byte>, p: nat, st: nat, pace: u64)
      requires Valid() && Apart(buf) && StampsFit(buf[..], p) && st < STREAMS
      modifies this`offset, pes, step, buf
      ensures Now() == RunState(old(Now()), PtsOps(old(buf[..]), p, st, pace))
      ensures buf[..] == PtsOut(old(buf[..]), p, st, old(Now()))
    {
      if Bit(buf[p + 7], 7) {
        StampPart(buf, p + 9, st, st >= 3 && !Bit(buf[p + 7], 6), pace);
      }
    }

    method PesPart(buf: array<byte>, pace1: u64, pace2: u64)
      requires Valid() && Apart(buf) && buf.Length == PACKET
      requires HasPes(buf[..]) ==> StampsFit(buf[..], Payload(buf[..]))
      modifies this`offset, pes, step, buf
      ensures Now() == RunState(old(Now()), PesOps(old(buf[..]), pace1, pace2))
      ensures buf[..] == PesOut(old(buf[..]), old(Now()), pace1)
    {
      if !HasPes(buf[..]) {
        return;
      }
      var p, st := Payload(buf[..]), Stream(buf[..]);
      ghost var b, s := buf[..], Now();
      DtsOutKeeps(b, p, st, s, pace2);
      RunAppend(s, DtsOps(b, p, st, pace1), PtsOps(b, p, st, pace2));
      DtsPart(buf, p, st, pace1);
      PtsPart(buf, p, st, pace2);
    }

    // One turn of the main loop; false if the program gives up.
    method Packet(buf: array<byte>, pace1: u64, pace2: u64) returns (go: bool)
      requires Valid() && Apart(buf) && buf.Length == PACKET
      requires HasPes(buf[..]) ==> StampsFit(buf[..], Payload(buf[..]))
      modifies this`offset, this`pcr, this`pcrPid, pes, step, buf
      ensures go == (Skipped(old(buf[..])) || !HasPcr(old(buf[..])) || force
        || old(pcrPid) == 0x2000 || old(pcrPid) == Pid(old(buf[..])))
      ensures go ==> Now() == RunState(old(Now()), PacketOps(old(buf[..]), pace1, pace2))
      ensures go ==> buf[..] == PacketOut(old(buf[..]), old(Now()), pace1)
    {
      if Skipped(buf[..]) {
        return true;
      }
      ghost var b, s := buf[..], Now();
      PcrOutKeeps(b, s);
      SamePes(PcrOut(b, s), b, pace1, pace2);
      RunAppend(s, PcrOps(b), PesOps(b, pace1, pace2));
      go := PcrPart(buf);
      if go {
        OnePcr(s, b);
        PesPart(buf, pace1, pace2);
      }
    }
  }

  // A whole stream

  // A packet and the steps found in it.
  datatype Input = Input(buf: seq<byte>, pace1: u64, pace2: u64) {
    predicate Valid() {
      |buf| == PACKET && (HasPes(buf) ==> StampsFit(buf, Payload(buf)))
    }
  }

  ghost predicate AllInputs(ins: seq<Input>) {
    forall i <- ins :: i.Valid()
  }

  ghost function StreamOps(ins: seq<Input>): (ops: seq<Op>)
    requires AllInputs(ins)
    ensures AllValid(ops)
    decreases |ins|
  {
    if ins == [] then []
    else
      assert ins[0] in ins;
      PacketOps(ins[0].buf, ins[0].pace1, ins[0].pace2) + StreamOps(ins[1..])
  }

  ghost function StreamOut(ins: seq<Input>, s: State): (outs: seq<seq<byte>>)
    requires AllInputs(ins) && s.Valid()
    ensures |outs| == |ins| && forall out <- outs :: |out| == PACKET
    decreases |ins|
  {
    if ins == [] then []
    else
      assert ins[0] in ins;
      var t := RunState(s, PacketOps(ins[0].buf, ins[0].pace1, ins[0].pace2));
      [PacketOut(ins[0].buf, s, ins[0].pace1)] + StreamOut(ins[1..], t)
  }

  // The references a reader of the output finds.
  ghost function References(outs: seq<seq<byte>>): seq<nat>
    requires forall out <- outs :: |out| == PACKET
    decreases |outs|
  {
    if outs == [] then []
    else
      assert outs[0] in outs;
      (if !Skipped(outs[0]) && HasPcr(outs[0]) then [GetPcr(outs[0][6..])] else []) + References(outs[1..])
  }

  lemma PesOutKeeps(buf: seq<byte>, s: State, pace1: u64)
    requires |buf| == PACKET && (HasPes(buf) ==> StampsFit(buf, Payload(buf))) && s.Valid()
    ensures PesOut(buf, s, pace1)[..13] == buf[..13]
  {
    if HasPes(buf) {
      DtsOutKeeps(buf, Payload(buf), Stream(buf), s, pace1);
    }
  }

  lemma SamePcr(a: seq<byte>, b: seq<byte>)
    requires |a| == |b| == PACKET && a[..13] == b[..13]
    ensures Skipped(a) == Skipped(b) && HasPcr(a) == HasPcr(b) && GetPcr(a[6..]) == GetPcr(b[6..])
  {
    assert forall i :: 0 <= i < 13 ==> a[i] == a[..13][i] && b[i] == b[..13][i];
  }

  lemma PcrOutReads(buf: seq<byte>, s: State)
    requires |buf| == PACKET && s.Valid() && HasPcr(buf)
    ensures GetPcr(PcrOut(buf, s)[6..]) == Do(s, Pcr(PcrRead(buf))).pcr % M
  {
    var v := Do(s, Pcr(PcrRead(buf))).pcr;
    PcrReadsBack(v);
    assert forall i :: 0 <= i < 6 ==> PcrOut(buf, s)[6..][i] == PcrBytes(v)[i];
  }

  lemma {:induction false} NoPcr(s: State, ops: seq<Op>)
    requires s.Valid() && AllValid(ops) && forall op <- ops :: !op.Pcr?
    ensures Emitted(s, ops) == []
    decreases |ops|
  {
    if ops != [] {
      assert ops[0] in ops;
      NoPcr(Do(s, ops[0]), ops[1..]);
    }
  }

  ghost function Reference(out: seq<byte>): seq<nat>
    requires |out| == PACKET
  {
    if !Skipped(out) && HasPcr(out) then [GetPcr(out[6..])] else []
  }

  lemma HeaderSame(a: seq<byte>, b: seq<byte>)
    requires |a| == |b| == PACKET && a[..6] == b[..6]
    ensures Skipped(a) == Skipped(b) && HasPcr(a) == HasPcr(b)
  {
    assert forall i :: 0 <= i < 6 ==> a[i] == a[..6][i] && b[i] == b[..6][i];
  }

  lemma PcrReference(s: State, buf: seq<byte>)
    requires s.Valid() && |buf| == PACKET && !Skipped(buf)
    ensures Reference(PcrOut(buf, s)) == Emitted(s, PcrOps(buf))
  {
    PcrOutKeeps(buf, s);
    HeaderSame(PcrOut(buf, s), buf);
    OnePcr(s, buf);
    if HasPcr(buf) {
      PcrOutReads(buf, s);
    }
  }

  lemma PesReference(buf: seq<byte>, s: State, pace1: u64)
    requires |buf| == PACKET && (HasPes(buf) ==> StampsFit(buf, Payload(buf))) && s.Valid()
    ensures Reference(PesOut(buf, s, pace1)) == Reference(buf)
  {
    PesOutKeeps(buf, s, pace1);
    SamePcr(PesOut(buf, s, pace1), buf);
  }

  lemma PesOpsArePes(buf: seq<byte>, pace1: u64, pace2: u64)
    requires |buf| == PACKET && (HasPes(buf) ==> StampsFit(buf, Payload(buf)))
    ensures forall op <- PesOps(buf, pace1, pace2) :: !op.Pcr?
  {
  }

  lemma EmittedFirst(s: State, a: seq<Op>, b: seq<Op>)
    requires s.Valid() && AllValid(a) && AllValid(b) && forall op <- b :: !op.Pcr?
    ensures AllValid(a + b) && Emitted(s, a + b) == Emitted(s, a)
  {
    RunAppend(s, a, b);
    NoPcr(RunState(s, a), b);
    Unit(Emitted(s, a));
  }

  // The reference in a packet put out is the one the arithmetic gave.
  lemma PacketReads(s: State, i: Input)
    requires s.Valid() && i.Valid()
    ensures Reference(PacketOut(i.buf, s, i.pace1)) == Emitted(s, PacketOps(i.buf, i.pace1, i.pace2))
  {
    if !Skipped(i.buf) {
      var t := RunState(s, PcrOps(i.buf));
      PcrOutKeeps(i.buf, s);
      SamePes(PcrOut(i.buf, s), i.buf, i.pace1, i.pace2);
      PesReference(PcrOut(i.buf, s), t, i.pace1);
      PcrReference(s, i.buf);
      PesOpsArePes(i.buf, i.pace1, i.pace2);
      EmittedFirst(s, PcrOps(i.buf), PesOps(i.buf, i.pace1, i.pace2));
    }
  }

  lemma {:induction false} StreamReads(s: State, ins: seq<Input>)
    requires s.Valid() && AllInputs(ins)
    ensures References(StreamOut(ins, s)) == Emitted(s, StreamOps(ins))
    decreases |ins|
  {
    if ins != [] {
      assert ins[0] in ins;
      var i := ins[0];
      var ops := PacketOps(i.buf, i.pace1, i.pace2);
      var t := RunState(s, ops);
      PacketReads(s, i);
      StreamReads(t, ins[1..]);
      RunAppend(s, ops, StreamOps(ins[1..]));
      assert StreamOut(ins, s)[1..] == StreamOut(ins[1..], t);
    }
  }

  // The references read from the output stream never jump, whatever the
  // input, exactly if no repair leaves the word.
  lemma StreamIsSmooth(s: State, ins: seq<Input>)
    requires s.Valid() && AllInputs(ins)
    ensures Smooth(s.pcr % M, References(StreamOut(ins, s))) <==> NoWrap(s, StreamOps(ins))
  {
    StreamReads(s, ins);
    RunIsSmooth(s, StreamOps(ins));
  }

  lemma PesDecoded(buf: seq<byte>, pace1: u64, pace2: u64)
    requires |buf| == PACKET && (HasPes(buf) ==> StampsFit(buf, Payload(buf)))
    requires pace1 <= MAX_STEP && pace2 <= MAX_STEP
    ensures forall op <- PesOps(buf, pace1, pace2) :: Decoded(op)
  {
  }

  lemma PacketDecoded(i: Input)
    requires i.Valid() && i.pace1 <= MAX_STEP && i.pace2 <= MAX_STEP
    ensures forall op <- PacketOps(i.buf, i.pace1, i.pace2) :: Decoded(op)
  {
    PesDecoded(i.buf, i.pace1, i.pace2);
    assert forall op <- PcrOps(i.buf) :: Decoded(op);
  }

  lemma {:induction false} StreamDecoded(ins: seq<Input>)
    requires AllInputs(ins) && forall i <- ins :: i.pace1 <= MAX_STEP && i.pace2 <= MAX_STEP
    ensures forall op <- StreamOps(ins) :: Decoded(op)
    decreases |ins|
  {
    if ins != [] {
      assert ins[0] in ins;
      PacketDecoded(ins[0]);
      StreamDecoded(ins[1..]);
    }
  }

  // For a stream with up to seven million references and stamps, however many
  // packets there are, that is always so.
  lemma ShortStreamIsSmooth(s: State, ins: seq<Input>)
    requires Start(s) && AllInputs(ins) && Count(StreamOps(ins)) <= 7_000_000
    requires forall i <- ins :: i.pace1 <= MAX_STEP && i.pace2 <= MAX_STEP
    ensures Smooth(START_PTS, References(StreamOut(ins, s)))
  {
    StreamReads(s, ins);
    StreamDecoded(ins);
    ShortRunIsSmooth(s, StreamOps(ins));
  }
}
