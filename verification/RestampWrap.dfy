// A stream whose repairs leave the 64-bit word.  restamp.c adds a step to the
// previous value without taking it back to the circle, so references that go
// round the wrong way raise it by almost a whole turn each time.
module RestampWrap {
  import opened Arith
  import opened Octets
  import opened Restamp

  // A reference half a turn from 0, and the last one before 0.
  const HALF: nat := M / 2
  const TOP: nat := M - 1

  // The offset maps b to the previous reference, which is more than a turn
  // above it.
  ghost predicate Mapped(s: State, b: nat) {
    s.Valid() && b < M && b + M < s.pcr && s.offset == W + b + M - s.pcr
  }

  // Where reference c comes to.
  lemma Lands(s: State, b: nat, c: nat)
    requires Mapped(s, b) && c < M
    ensures PtsDiff(c, s.offset) == if s.pcr + c - b < W then s.pcr + c - b else s.pcr + c - b - W
  {
    PtsDiffIs(c, s.offset);
  }

  // Half a turn is far either way, even if it leaves the word.
  lemma FarAway(value: u64, prev: u64, d: nat)
    requires 2 * PTS_THRESHOLD < d < M - 2 * PTS_THRESHOLD && 2 * M <= prev
    requires value == prev + d || value == prev - d || value == prev + d - W
    ensures Far(value, prev, PTS_THRESHOLD)
  {
    PtsDiffIs(value, prev);
    PtsDiffIs(prev, value);
  }

  lemma HalfIsFar(s: State, b: nat, c: nat)
    requires Mapped(s, b) && c < M && 2 * M <= s.pcr
    requires c == b + HALF || b == c + HALF || b == c + HALF - 1
    ensures PcrTimed(s, c).jumped
    ensures s.pcr + REPAIR < W ==> Mapped(Do(s, Pcr(c)), c) && Do(s, Pcr(c)).pcr == s.pcr + REPAIR
  {
    Lands(s, b, c);
    FarAway(PtsDiff(c, s.offset), s.pcr, if c > b then c - b else b - c);
    if s.pcr + REPAIR < W {
      Repairs(s, c);
    }
  }

  // A repair of a value that high maps the reference to the repaired one.
  lemma Repairs(s: State, c: nat)
    requires s.Valid() && c < M && c + M < s.pcr + REPAIR < W && Far(PtsDiff(c, s.offset), s.pcr, PTS_THRESHOLD)
    ensures Mapped(Do(s, Pcr(c)), c) && Do(s, Pcr(c)).pcr == s.pcr + REPAIR
  {
    PtsDiffIs(c, s.pcr + REPAIR);
  }

  // From 0 back to the top the code sees one tick, and goes up by a turn.
  lemma TurnIsNear(s: State)
    requires Mapped(s, 0) && 2 * M <= s.pcr && s.pcr + TOP < W
    ensures Mapped(Do(s, Pcr(TOP)), TOP) && Do(s, Pcr(TOP)).pcr == s.pcr + TOP
  {
    Lands(s, 0, TOP);
    PtsDiffIs(s.pcr, s.pcr + TOP);
  }

  lemma Prepend(s: State, op: Op, ops: seq<Op>)
    requires s.Valid() && op.Valid() && AllValid(ops) && !NoWrap(Do(s, op), ops)
    ensures AllValid([op] + ops) && !NoWrap(s, [op] + ops)
  {
    assert ([op] + ops)[0] == op && ([op] + ops)[1..] == ops;
  }

  ghost predicate Plain(ops: seq<Op>) {
    forall op <- ops :: op.Pcr? && op.base < M
  }

  // Half turns to and fro: every one is repaired and adds a repair, until one
  // leaves the word.
  lemma {:induction false} ToAndFro(s: State, b: nat) returns (ops: seq<Op>)
    requires Mapped(s, b) && 2 * M <= s.pcr && (b == 0 || b == HALF || b == TOP)
    ensures AllValid(ops) && Plain(ops) && !NoWrap(s, ops)
    ensures |ops| * REPAIR <= W - s.pcr + REPAIR
    decreases W - s.pcr
  {
    var c := if b == HALF then 0 else HALF;
    HalfIsFar(s, b, c);
    if s.pcr + REPAIR >= W {
      ops := [Pcr(c)];
      assert ops[0] == Pcr(c);
    } else {
      var t := Do(s, Pcr(c));
      var rest := ToAndFro(t, c);
      ops := [Pcr(c)] + rest;
      Prepend(s, Pcr(c), rest);
    }
  }

  // What three references HALF, 0, TOP add.
  const CYCLE: nat := 2 * REPAIR + TOP
  const LAST: nat := 1_908_880

  // Every cycle of the three adds almost a turn.
  lemma Cycle(s: State) returns (t: State, u: State, v: State)
    requires Mapped(s, TOP) && 2 * M <= s.pcr && s.pcr + CYCLE < W
    ensures t == Do(s, Pcr(HALF)) && u == Do(t, Pcr(0)) && v == Do(u, Pcr(TOP))
    ensures Mapped(v, TOP) && v.pcr == s.pcr + CYCLE
  {
    HalfIsFar(s, TOP, HALF);
    t := Do(s, Pcr(HALF));
    HalfIsFar(t, HALF, 0);
    u := Do(t, Pcr(0));
    TurnIsNear(u);
    v := Do(u, Pcr(TOP));
  }

  lemma CycleAnd(s: State, t: State, u: State, rest: seq<Op>) returns (ops: seq<Op>)
    requires s.Valid() && t == Do(s, Pcr(HALF)) && u == Do(t, Pcr(0))
    requires AllValid(rest) && Plain(rest) && !NoWrap(Do(u, Pcr(TOP)), rest)
    ensures AllValid(ops) && Plain(ops) && !NoWrap(s, ops) && |ops| == 3 + |rest|
  {
    var two := [Pcr(TOP)] + rest;
    Prepend(u, Pcr(TOP), rest);
    var one := [Pcr(0)] + two;
    Prepend(t, Pcr(0), two);
    Prepend(s, Pcr(HALF), one);
    ops := [Pcr(HALF)] + one;
  }

  lemma LongerPart(n: nat, left: nat, more: nat)
    requires n * CYCLE <= 3 * left + LAST * CYCLE && more == left + CYCLE
    ensures (3 + n) * CYCLE <= 3 * more + LAST * CYCLE
  {
  }

  lemma {:induction false} Round(s: State) returns (ops: seq<Op>)
    requires Mapped(s, TOP) && 2 * M <= s.pcr
    ensures AllValid(ops) && Plain(ops) && !NoWrap(s, ops)
    ensures |ops| * CYCLE <= 3 * (W - s.pcr) + LAST * CYCLE
    decreases W - s.pcr
  {
    if s.pcr + CYCLE < W {
      var t, u, v := Cycle(s);
      var rest := Round(v);
      ops := CycleAnd(s, t, u, rest);
      LongerPart(|rest|, W - v.pcr, W - s.pcr);
    } else {
      ops := ToAndFro(s, TOP);
      LastPart(|ops|, W - s.pcr);
    }
  }

  lemma LastPart(n: nat, left: nat)
    requires n * REPAIR <= left + REPAIR && left <= CYCLE
    ensures n * CYCLE <= 3 * left + LAST * CYCLE
  {
    assert n <= LAST;
    MulLe(n, LAST, CYCLE);
  }

  // Down from the start past 0 to the top, and one cycle.

  lemma StepsDown(s: State, c: nat)
    requires s.Valid() && s.offset == 0 && s.pcr == c + PTS_THRESHOLD && c < M
    ensures Do(s, Pcr(c)) == s.(pcr := c)
  {
    PtsDiffIs(c, 0);
    PtsDiffIs(c, s.pcr);
    PtsDiffIs(s.pcr, c);
  }

  lemma OverZero(s: State)
    requires s.Valid() && s.offset == 0 && s.pcr == 0
    ensures Do(s, Pcr(TOP)) == s.(pcr := TOP)
  {
  }

  // The first repair still subtracts within the circle.
  lemma FirstHalf(s: State)
    requires s.Valid() && s.offset == 0 && s.pcr == TOP
    ensures Do(s, Pcr(HALF)) == s.(offset := HALF + M - (TOP + REPAIR), pcr := TOP + REPAIR)
  {
    PtsDiffIs(HALF, 0);
    PtsDiffIs(HALF, TOP);
    PtsDiffIs(TOP, HALF);
    PtsDiffIs(HALF, TOP + REPAIR);
  }

  lemma FirstZero(t: State)
    requires t.Valid() && t.offset == HALF + M - (TOP + REPAIR) && t.pcr == TOP + REPAIR
    ensures Mapped(Do(t, Pcr(0)), 0) && Do(t, Pcr(0)).pcr == TOP + 2 * REPAIR
  {
    PtsDiffIs(0, t.offset);
    var value := PtsDiff(0, t.offset);
    PtsDiffIs(value, t.pcr);
    PtsDiffIs(t.pcr, value);
    Repairs(t, 0);
  }

  lemma FirstTurn(u: State)
    requires Mapped(u, 0) && u.pcr == TOP + 2 * REPAIR
    ensures Mapped(Do(u, Pcr(TOP)), TOP) && Do(u, Pcr(TOP)).pcr == u.pcr + TOP
  {
    Lands(u, 0, TOP);
    PtsDiffIs(u.pcr, u.pcr + TOP);
  }

  lemma FirstCycle(s: State) returns (t: State, u: State, v: State)
    requires s.Valid() && s.offset == 0 && s.pcr == TOP
    ensures t == Do(s, Pcr(HALF)) && u == Do(t, Pcr(0)) && v == Do(u, Pcr(TOP))
    ensures Mapped(v, TOP) && v.pcr == TOP + CYCLE
  {
    FirstHalf(s);
    t := Do(s, Pcr(HALF));
    FirstZero(t);
    u := Do(t, Pcr(0));
    FirstTurn(u);
    v := Do(u, Pcr(TOP));
  }

  // References that leave the word, and from there on jump in the output,
  // from the state after the way down.
  lemma FromTop(s: State) returns (ops: seq<Op>)
    requires s.Valid() && s.offset == 0 && s.pcr == TOP
    ensures AllValid(ops) && Plain(ops) && !NoWrap(s, ops) && |ops| <= 23_390_000
  {
    var t, u, v := FirstCycle(s);
    var rest := Round(v);
    Prepend(u, Pcr(TOP), rest);
    Prepend(t, Pcr(0), [Pcr(TOP)] + rest);
    Prepend(s, Pcr(HALF), [Pcr(0)] + ([Pcr(TOP)] + rest));
    ops := [Pcr(HALF)] + ([Pcr(0)] + ([Pcr(TOP)] + rest));
    CountIs(|rest|);
    assert |ops| == 3 + |rest|;
  }

  lemma CountIs(n: nat)
    requires n * CYCLE <= 3 * W + LAST * CYCLE
    ensures n <= 23_389_000
  {
  }

  // From the start of the program some run of legal references, fewer than 24
  // million of them, makes a repair leave the word; the references put out
  // then jump.
  lemma WrapIsReached(s: State) returns (ops: seq<Op>)
    requires Start(s)
    ensures AllValid(ops) && Plain(ops) && |ops| < 24_000_000
    ensures !NoWrap(s, ops) && !Smooth(START_PTS, Emitted(s, ops))
  {
    StepsDown(s, 40_500_000);
    var s1 := s.(pcr := 40_500_000);
    StepsDown(s1, 27_000_000);
    var s2 := s.(pcr := 27_000_000);
    StepsDown(s2, 13_500_000);
    var s3 := s.(pcr := 13_500_000);
    StepsDown(s3, 0);
    var s4 := s.(pcr := 0);
    OverZero(s4);
    var rest := FromTop(s.(pcr := TOP));
    Prepend(s4, Pcr(TOP), rest);
    var r4 := [Pcr(TOP)] + rest;
    Prepend(s3, Pcr(0), r4);
    var r3 := [Pcr(0)] + r4;
    Prepend(s2, Pcr(13_500_000), r3);
    var r2 := [Pcr(13_500_000)] + r3;
    Prepend(s1, Pcr(27_000_000), r2);
    var r1 := [Pcr(27_000_000)] + r2;
    Prepend(s, Pcr(40_500_000), r1);
    ops := [Pcr(40_500_000)] + r1;
    RunIsSmooth(s, ops);
    ModIs(START_PTS, 0, START_PTS);
  }

  // Packets

  // A packet with nothing but reference b.
  function PacketFor(b: nat): (buf: seq<byte>)
    requires b < M
    ensures |buf| == PACKET
  {
    [0x47, 0x00, 0x30, 0x20, 183, 0x10] + PcrBytes(b) + Fill(0xff, PACKET - 12)
  }

  lemma PacketSays(b: nat)
    requires b < M
    ensures Input(PacketFor(b), 0, 0).Valid() && PacketOps(PacketFor(b), 0, 0) == [Pcr(b)]
  {
    var buf := PacketFor(b);
    assert buf[1] == 0 && buf[2] == 0x30 && buf[3] == 0x20 && buf[4] == 183 && buf[5] == 0x10;
    HeaderSays(buf);
    assert forall k :: 0 <= k < 6 ==> buf[6..][k] == PcrBytes(b)[k];
    PcrReadsBack(b);
    ModIs(b, 0, b);
    Unit([Pcr(b)]);
  }

  lemma HeaderSays(buf: seq<byte>)
    requires |buf| == PACKET && buf[1] == 0 && buf[2] == 0x30 && buf[3] == 0x20 && buf[4] == 183 && buf[5] == 0x10
    ensures !Skipped(buf) && HasPcr(buf) && !HasPes(buf) && PcrPlace(buf) == 6
  {
  }

  // A stream of packets for a list of references.
  lemma {:induction false} StreamFor(ops: seq<Op>) returns (ins: seq<Input>)
    requires AllValid(ops) && Plain(ops)
    ensures AllInputs(ins) && |ins| == |ops| && StreamOps(ins) == ops
    ensures forall i <- ins :: i.pace1 == i.pace2 == 0
  {
    if ops == [] {
      ins := [];
    } else {
      assert ops[0] in ops;
      var rest := StreamFor(ops[1..]);
      PacketSays(ops[0].base);
      ins := [Input(PacketFor(ops[0].base), 0, 0)] + rest;
      First(ops);
    }
  }

  // So there is a stream whose output references jump.
  lemma SomeStreamJumps(s: State) returns (ins: seq<Input>)
    requires Start(s)
    ensures AllInputs(ins) && |ins| < 24_000_000
    ensures !Smooth(START_PTS, References(StreamOut(ins, s)))
  {
    var ops := WrapIsReached(s);
    ins := StreamFor(ops);
    StreamReads(s, ins);
  }
}
