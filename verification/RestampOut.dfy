// What restamp.c puts out, in terms of the stamps a reader finds in the input
// and in the output: where each of them goes, and that nothing else changes.
module RestampOut {
  import opened Octets
  import opened Restamp

  // A value of 27 MHz ticks is moved by the offset to w; or, if it is checked
  // and that is further than limit from the previous one either way, it goes
  // one step after that one, and the offset is changed accordingly.
  predicate Moves(base: u64, offset: u64, prev: u64, limit: nat, step: u64, checked: bool, w: u64, newOffset: u64) {
    var v := PtsDiff(base, offset);
    if checked && PtsDiff(v, prev) > limit && PtsDiff(prev, v) > limit then
      w == (prev + step) % 0x1_0000_0000_0000_0000 && newOffset == PtsDiff(base, w)
    else
      w == v && newOffset == offset
  }

  // The clock reference of a packet: half a second is a jump, and a twentieth
  // of a second the step of its repair.
  ghost predicate ReferenceGoes(s: State, buf: seq<byte>, out: seq<byte>, t: State)
    requires |buf| == |out| == PACKET
  {
    if HasPcr(buf) then
      && Moves(GetPcr(buf[PcrPlace(buf)..]), s.offset, s.pcr, 13_500_000, 1_350_000, true, t.pcr, t.offset)
      && t.pes == s.pes && t.step == s.step
      && GetPcr(out[6..]) == t.pcr % (0x2_0000_0000 * 300)
    else
      t == s
  }

  // A stamp of a PES stream: a whole second is a jump.
  ghost predicate StampGoes(s: State, buf: seq<byte>, out: seq<byte>, at: nat, st: nat, checked: bool, pace: u64,
                            t: State)
    requires s.Valid() && t.Valid() && st < 51 && |buf| == |out| && at + 5 <= |buf|
  {
    && Moves(300 * GetPts(buf[at..]), s.offset, s.pes[st], 27_000_000, s.step[st], checked, t.pes[st], t.offset)
    && t.pcr == s.pcr && t.pes == s.pes[st := t.pes[st]] && t.step == s.step[st := pace]
    && GetPts(out[at..]) == t.pes[st] / 300 % 0x2_0000_0000
  }

  // Both stamps of a header at p, the decoding stamp first. The presentation
  // stamp is checked when it is alone; streams below 3 never are.
  ghost predicate HeaderGoes(s: State, u: State, t: State, buf: seq<byte>, out: seq<byte>, p: nat, st: nat,
                             pace1: u64, pace2: u64)
    requires s.Valid() && u.Valid() && t.Valid() && st < 51 && |buf| == |out| && StampsFit(buf, p)
  {
    && (if Bit(buf[p + 7], 6) then StampGoes(s, buf, out, p + 14, st, st >= 3, pace1, u) else u == s)
    && (if Bit(buf[p + 7], 7) then StampGoes(u, buf, out, p + 9, st, st >= 3 && !Bit(buf[p + 7], 6), pace2, t)
        else t == u)
  }

  // Byte k belongs to no stamp.
  predicate Elsewhere(buf: seq<byte>, k: nat)
    requires |buf| == PACKET && (HasPes(buf) ==> StampsFit(buf, Payload(buf)))
  {
    var p := Payload(buf);
    && (HasPcr(buf) ==> k < 6 || 12 <= k)
    && (HasPes(buf) && Bit(buf[p + 7], 6) ==> k < p + 14 || p + 19 <= k)
    && (HasPes(buf) && Bit(buf[p + 7], 7) ==> k < p + 9 || p + 14 <= k)
  }

  // A whole packet, with the states after its reference and after its first
  // stamp.
  ghost predicate PacketGoes(s: State, a: State, u: State, t: State, i: Input, out: seq<byte>)
    requires i.Valid() && |out| == PACKET && s.Valid() && a.Valid() && u.Valid() && t.Valid()
  {
    if Skipped(i.buf) then
      t == s && out == i.buf
    else
      && ReferenceGoes(s, i.buf, out, a)
      && (if HasPes(i.buf) then
            HeaderGoes(a, u, t, i.buf, out, Payload(i.buf), Stream(i.buf), i.pace1, i.pace2)
          else
            t == a)
      && forall k :: 0 <= k < PACKET && Elsewhere(i.buf, k) ==> out[k] == i.buf[k]
  }

  // ---- One stamp ----

  lemma StampMoves(s: State, st: nat, base: u64, checked: bool, pace: u64, t: State)
    requires s.Valid() && st < STREAMS
    requires t == Do(Do(s, Stamp(st, base, checked)), Pace(st, pace))
    ensures Moves(base, s.offset, s.pes[st], 27_000_000, s.step[st], checked, t.pes[st], t.offset)
    ensures t.pcr == s.pcr && t.pes == s.pes[st := t.pes[st]] && t.step == s.step[st := pace]
    ensures t.pes[st] == Do(s, Stamp(st, base, checked)).pes[st]
  {
  }

  // Outside a stamp at a place nothing changes.
  ghost predicate KeptBut(a: seq<byte>, b: seq<byte>, at: nat)
    requires |a| == |b|
  {
    forall k :: 0 <= k < |a| && (k < at || at + 5 <= k) ==> a[k] == b[k]
  }

  lemma PutShows(buf: seq<byte>, at: nat, bytes: seq<byte>)
    requires at + |bytes| <= |buf|
    ensures var out := Put(buf, at, bytes);
      out[at..][..|bytes|] == bytes && forall k :: 0 <= k < |buf| && (k < at || at + |bytes| <= k) ==> out[k] == buf[k]
  {
  }

  lemma StampWritten(buf: seq<byte>, at: nat, s: State, op: Op)
    requires at + 5 <= |buf| && s.Valid() && op.Valid() && op.Stamp?
    ensures var out := Stamped(buf, at, s, op);
      GetPts(out[at..]) == Do(s, op).pes[op.st] / 300 % PTS_RANGE && KeptBut(buf, out, at)
  {
    var v := Do(s, op).pes[op.st] / 300;
    var bytes := PtsBytes(buf[at], v);
    var out := Put(buf, at, bytes);
    PtsReadsBack(buf[at], v);
    PutShows(buf, at, bytes);
    assert bytes[..5] == bytes;
    SamePts(out[at..], bytes);
  }

  lemma SamePtsAt(a: seq<byte>, b: seq<byte>, at: nat)
    requires |a| == |b| && at + 5 <= |a| && forall k :: at <= k < at + 5 ==> a[k] == b[k]
    ensures GetPts(a[at..]) == GetPts(b[at..])
  {
    assert a[at..][..5] == b[at..][..5];
    SamePts(a[at..], b[at..]);
  }

  lemma OneGoes(c: seq<byte>, out: seq<byte>, at: nat, st: nat, s: State, op: Op, pace: u64) returns (t: State)
    requires |c| == |out| && at + 5 <= |c| && st < STREAMS && s.Valid()
    requires op.Stamp? && op.st == st && op.base == StampRead(c, at)
    requires GetPts(out[at..]) == Do(s, op).pes[st] / 300 % PTS_RANGE
    ensures t == RunState(s, [op, Pace(st, pace)]) && StampGoes(s, c, out, at, st, op.check, pace, t)
  {
    TwoOps(s, op, Pace(st, pace));
    t := Do(Do(s, op), Pace(st, pace));
    StampMoves(s, st, op.base, op.check, pace, t);
  }

  // The same with the bytes of other packets that show the same there.
  lemma GoesAlike(s: State, a: seq<byte>, b: seq<byte>, x: seq<byte>, y: seq<byte>,
                  at: nat, st: nat, checked: bool, pace: u64, t: State)
    requires s.Valid() && t.Valid() && st < 51 && |a| == |x| == |b| == |y| && at + 5 <= |a|
    requires StampGoes(s, a, x, at, st, checked, pace, t)
    requires forall k :: at <= k < at + 5 ==> a[k] == b[k] && x[k] == y[k]
    ensures StampGoes(s, b, y, at, st, checked, pace, t)
  {
    SamePtsAt(a, b, at);
    SamePtsAt(x, y, at);
  }

  // ---- A PES header ----

  lemma DtsGoes(c: seq<byte>, p: nat, st: nat, s: State, pace: u64) returns (u: State)
    requires StampsFit(c, p) && st < STREAMS && s.Valid()
    ensures u == RunState(s, DtsOps(c, p, st, pace))
    ensures var out := DtsOut(c, p, st, s);
      if Bit(c[p + 7], 6) then StampGoes(s, c, out, p + 14, st, st >= 3, pace, u) && KeptBut(c, out, p + 14)
      else u == s && out == c
  {
    u := s;
    if Bit(c[p + 7], 6) {
      var op := DtsOp(c, p, st);
      StampWritten(c, p + 14, s, op);
      u := OneGoes(c, Stamped(c, p + 14, s, op), p + 14, st, s, op, pace);
    }
  }

  lemma PtsGoes(c: seq<byte>, p: nat, st: nat, s: State, pace: u64) returns (t: State)
    requires StampsFit(c, p) && st < STREAMS && s.Valid()
    ensures t == RunState(s, PtsOps(c, p, st, pace))
    ensures var out := PtsOut(c, p, st, s);
      if Bit(c[p + 7], 7) then
        StampGoes(s, c, out, p + 9, st, st >= 3 && !Bit(c[p + 7], 6), pace, t) && KeptBut(c, out, p + 9)
      else t == s && out == c
  {
    t := s;
    if Bit(c[p + 7], 7) {
      var op := PtsOp(c, p, st);
      StampWritten(c, p + 9, s, op);
      t := OneGoes(c, Stamped(c, p + 9, s, op), p + 9, st, s, op, pace);
    }
  }

  // What lies at neither stamp.
  predicate NoStamp(buf: seq<byte>, p: nat, k: nat)
    requires StampsFit(buf, p)
  {
    && (Bit(buf[p + 7], 6) ==> k < p + 14 || p + 19 <= k)
    && (Bit(buf[p + 7], 7) ==> k < p + 9 || p + 14 <= k)
  }

  lemma HeaderMoves(c: seq<byte>, p: nat, st: nat, s: State, pace1: u64, pace2: u64, out: seq<byte>)
    returns (u: State, t: State)
    requires StampsFit(c, p) && st < STREAMS && s.Valid()
    requires out == PtsOut(DtsOut(c, p, st, s), p, st, RunState(s, DtsOps(c, p, st, pace1)))
    ensures t == RunState(s, DtsOps(c, p, st, pace1) + PtsOps(c, p, st, pace2))
    ensures u.Valid() && HeaderGoes(s, u, t, c, out, p, st, pace1, pace2)
    ensures forall k :: 0 <= k < |c| && NoStamp(c, p, k) ==> out[k] == c[k]
  {
    var d := DtsOut(c, p, st, s);
    u := DtsGoes(c, p, st, s, pace1);
    DtsOutKeeps(c, p, st, s, pace2);
    t := PtsGoes(d, p, st, u, pace2);
    RunAppend(s, DtsOps(c, p, st, pace1), PtsOps(c, p, st, pace2));
    SameInside(c, d, p);
    if Bit(c[p + 7], 6) {
      GoesAlike(s, c, c, d, out, p + 14, st, st >= 3, pace1, u);
    }
    if Bit(c[p + 7], 7) {
      GoesAlike(u, d, c, out, out, p + 9, st, st >= 3 && !Bit(c[p + 7], 6), pace2, t);
    }
  }

  lemma SameInside(a: seq<byte>, b: seq<byte>, p: nat)
    requires |a| == |b| && p + 14 <= |a| && a[p..p + 14] == b[p..p + 14]
    ensures forall k :: p <= k < p + 14 ==> a[k] == b[k]
  {
    forall k | p <= k < p + 14
      ensures a[k] == b[k]
    {
      assert a[k] == a[p..p + 14][k - p] && b[k] == b[p..p + 14][k - p];
    }
  }

  // ---- A packet ----

  lemma HeaderAlike(s: State, u: State, t: State, a: seq<byte>, b: seq<byte>, out: seq<byte>, p: nat, st: nat,
                    pace1: u64, pace2: u64)
    requires s.Valid() && u.Valid() && t.Valid() && st < 51 && |a| == |b| == |out| && StampsFit(a, p) && StampsFit(b, p)
    requires forall k :: p <= k < |a| ==> a[k] == b[k]
    requires HeaderGoes(s, u, t, a, out, p, st, pace1, pace2)
    ensures HeaderGoes(s, u, t, b, out, p, st, pace1, pace2)
  {
    if Bit(a[p + 7], 6) {
      GoesAlike(s, a, b, out, out, p + 14, st, st >= 3, pace1, u);
    }
    if Bit(a[p + 7], 7) {
      GoesAlike(u, a, b, out, out, p + 9, st, st >= 3 && !Bit(a[p + 7], 6), pace2, t);
    }
  }

  lemma ReferenceMoves(s: State, buf: seq<byte>, pace1: u64) returns (a: State)
    requires s.Valid() && |buf| == PACKET && (HasPes(buf) ==> StampsFit(buf, Payload(buf)))
    ensures a == RunState(s, PcrOps(buf))
    ensures var c := PcrOut(buf, s);
      (HasPes(c) ==> StampsFit(c, Payload(c))) && ReferenceGoes(s, buf, PesOut(c, a, pace1), a)
  {
    OnePcr(s, buf);
    a := RunState(s, PcrOps(buf));
    var c := PcrOut(buf, s);
    PcrOutKeeps(buf, s);
    SamePes(c, buf, pace1, pace1);
    if HasPcr(buf) {
      PcrOutReads(buf, s);
      PesOutKeeps(c, a, pace1);
      SamePcr(PesOut(c, a, pace1), c);
    }
  }

  lemma KeepsElsewhere(s: State, buf: seq<byte>)
    requires s.Valid() && |buf| == PACKET
    ensures forall k :: 0 <= k < PACKET && (HasPcr(buf) ==> k < 6 || 12 <= k) ==> PcrOut(buf, s)[k] == buf[k]
  {
  }

  lemma PesMoves(s: State, a: State, buf: seq<byte>, pace1: u64, pace2: u64) returns (u: State, t: State)
    requires s.Valid() && |buf| == PACKET && a == RunState(s, PcrOps(buf))
    requires HasPes(buf) && StampsFit(buf, Payload(buf))
    ensures u.Valid() && t == RunState(a, PesOps(buf, pace1, pace2))
    ensures var c := PcrOut(buf, s);
      && HasPes(c) && StampsFit(c, Payload(c))
      && HeaderGoes(a, u, t, buf, PesOut(c, a, pace1), Payload(buf), Stream(buf), pace1, pace2)
      && forall k :: 0 <= k < PACKET && Elsewhere(buf, k) ==> PesOut(c, a, pace1)[k] == buf[k]
  {
    var c, p, st := PcrOut(buf, s), Payload(buf), Stream(buf);
    PcrOutKeeps(buf, s);
    SameHeader(c, buf);
    SamePes(c, buf, pace1, pace2);
    u, t := HeaderMoves(c, p, st, a, pace1, pace2, PesOut(c, a, pace1));
    HeaderAlike(a, u, t, c, buf, PesOut(c, a, pace1), p, st, pace1, pace2);
    KeepsElsewhere(s, buf);
  }

  // What becomes of a packet.
  lemma PacketMoves(s: State, i: Input) returns (a: State, u: State, t: State)
    requires s.Valid() && i.Valid()
    ensures a.Valid() && u.Valid() && t == RunState(s, PacketOps(i.buf, i.pace1, i.pace2))
    ensures PacketGoes(s, a, u, t, i, PacketOut(i.buf, s, i.pace1))
  {
    a, u, t := s, s, s;
    if !Skipped(i.buf) {
      a := ReferenceMoves(s, i.buf, i.pace1);
      RunAppend(s, PcrOps(i.buf), PesOps(i.buf, i.pace1, i.pace2));
      t := RunState(a, PesOps(i.buf, i.pace1, i.pace2));
      u := a;
      if HasPes(i.buf) {
        u, t := PesMoves(s, a, i.buf, i.pace1, i.pace2);
      } else {
        PcrOutKeeps(i.buf, s);
        SamePes(PcrOut(i.buf, s), i.buf, i.pace1, i.pace2);
        KeepsElsewhere(s, i.buf);
      }
    }
  }

  // ---- A stream ----

  ghost predicate PacketMay(s: State, t: State, i: Input, out: seq<byte>)
    requires i.Valid() && |out| == PACKET && s.Valid() && t.Valid()
  {
    exists a: State, u: State :: a.Valid() && u.Valid() && PacketGoes(s, a, u, t, i, out)
  }

  // From one state to the next, packet after packet.
  ghost predicate StreamGoes(states: seq<State>, ins: seq<Input>, outs: seq<seq<byte>>) {
    && |states| == |ins| + 1 && |outs| == |ins|
    && (forall k :: 0 <= k < |states| ==> states[k].Valid())
    && forall k :: 0 <= k < |ins| ==>
      ins[k].Valid() && |outs[k]| == PACKET && PacketMay(states[k], states[k + 1], ins[k], outs[k])
  }

  lemma StreamGoesFirst(s: State, i: Input, out: seq<byte>, states: seq<State>, ins: seq<Input>, outs: seq<seq<byte>>)
    requires s.Valid() && i.Valid() && |out| == PACKET && StreamGoes(states, ins, outs)
    requires PacketMay(s, states[0], i, out)
    ensures StreamGoes([s] + states, [i] + ins, [out] + outs)
  {
    var more, inputs, all := [s] + states, [i] + ins, [out] + outs;
    forall k | 0 <= k < |inputs|
      ensures PacketMay(more[k], more[k + 1], inputs[k], all[k])
    {
      if k > 0 {
        assert PacketMay(states[k - 1], states[k], ins[k - 1], outs[k - 1]);
      }
    }
  }

  // Packet after packet, every reference and every stamp of the output is the
  // one of the input, moved by the offset or one step after the last.
  lemma {:induction false} StreamMoves(s: State, ins: seq<Input>) returns (states: seq<State>)
    requires s.Valid() && AllInputs(ins)
    ensures states != [] && states[0] == s && StreamGoes(states, ins, StreamOut(ins, s))
    decreases |ins|
  {
    if ins == [] {
      states := [s];
    } else {
      assert ins[0] in ins;
      var i := ins[0];
      var a, u, t := PacketMoves(s, i);
      states := StreamMoves(t, ins[1..]);
      StreamGoesFirst(s, i, PacketOut(i.buf, s, i.pace1), states, ins[1..], StreamOut(ins[1..], t));
      First(ins);
      states := [s] + states;
    }
  }
}
