// What apps/dvb/cmds/section.c does when packets are lost, and what becomes of
// a section that starts in the last two bytes of a packet.
module SectionLoss {
  import opened Octets
  import opened SectionDecoder
  import opened SectionStream

  // ---- Lost packets ----

  // Nothing is being collected: the continuity was found broken.
  predicate Broken(st: State) {
    st.Ok() && (st.cur == 0 || st.cur >= 3) && (st.len == 0 || st.cc > 15)
  }

  // A gap in the continuity counters inside a section is always noticed:
  // the packet delivers nothing and the unfinished section is given up.
  lemma GapIsNoticed(st: State, m: Sender, p: Packet)
    requires Follows(st, m) && m.sent < |m.cur|
    requires WellFramed(p) && Carries(p) && Head(p) != []
    requires Continuity(p) != (m.cc + 1) % 16
    ensures var o := Step(st, p);
      o.refused && o.out == [] && Broken(o.st) && o.st.buf == st.buf
  {
  }

  // Sections that start after a gap are taken whatever was there before.
  lemma Restarted(st: State, m: Sender, p: Packet, starts: nat)
    requires st.Ok() && (st.cur == 0 || st.cur >= 3) && m.Ok(st.max)
    requires Sends(m, p, starts) && Carries(p) && starts > 0 && !TailStart(m, p, starts)
    ensures var s := StartSections(st, Area(p), Continuity(p));
      Follows(s.st, Next(m, p, starts)) && m.todo == s.out + Next(m, p, starts).Due()
  {
    var s := StartSections(st, Area(p), Continuity(p));
    StartArea(st, m.todo[..starts], Area(p), Continuity(p));
    StartedTodo(m, p, starts, s.out);
    StartedFollows(m, p, starts, st, s.st);
  }

  lemma Restart(st: State, m: Sender, p: Packet, starts: nat)
    requires Broken(st) && m.Ok(st.max)
    requires Sends(m, p, starts) && !(Carries(p) && TailStart(m, p, starts))
    ensures var o := Step(st, p);
      var n := Next(m, p, starts);
      if Carries(p) && starts > 0 then
        Follows(o.st, n) && m.todo == o.out + n.Due()
      else
        o == Outcome(st, [], false) && n.todo == m.todo
  {
    if Carries(p) {
      assert FillSection(st, Head(p), Continuity(p)) == Outcome(st, [], false);
      if starts > 0 {
        Unit(StartSections(st, Area(p), Continuity(p)).out);
        Restarted(st, m, p, starts);
      }
    }
  }

  predicate NoneStart(starts: seq<nat>) {
    starts != [] ==> starts[0] == 0 && NoneStart(starts[1..])
  }

  // After a loss, reception resumes at the next packet in which a section
  // starts, and from there on nothing is missing, repeated or damaged.
  lemma {:induction false} Recovers(st: State, m: Sender, ps: seq<Packet>, starts: seq<nat>)
    requires Broken(st) && m.Ok(st.max) && Stream(m, ps, starts) && NoTailStart(m, ps, starts)
    requires forall p :: p in ps ==> WellFramed(p)
    ensures var r := Run(st, ps);
      var n := Final(m, ps, starts);
      if NoneStart(starts) then
        r == (st, []) && n.todo == m.todo
      else
        Follows(r.0, n) && m.todo == r.1 + n.Due()
    decreases |ps|
  {
    if ps != [] {
      Restart(st, m, ps[0], starts[0]);
      var o, n := Step(st, ps[0]), Next(m, ps[0], starts[0]);
      if starts[0] > 0 {
        RoundTrip(o.st, n, ps[1..], starts[1..]);
        Assoc(o.out, Run(o.st, ps[1..]).1, Final(m, ps, starts).Due());
      } else {
        Recovers(st, n, ps[1..], starts[1..]);
        Unit(Run(st, ps[1..]).1);
      }
    }
  }

  // ---- Any pattern of losses ----

  // The sections of a, in their order, are among those of b.
  predicate Picks<T(==)>(a: seq<T>, b: seq<T>) {
    a == [] || (b != [] && ((a[0] == b[0] && Picks(a[1..], b[1..])) || Picks(a, b[1..])))
  }

  lemma {:induction false} PicksLater<T>(pre: seq<T>, a: seq<T>, b: seq<T>)
    requires Picks(a, b)
    ensures Picks(a, pre + b)
  {
    if pre == [] {
      Unit(b);
    } else {
      PicksLater(pre[1..], a, b);
      assert (pre + b)[1..] == pre[1..] + b;
    }
  }

  lemma {:induction false} PicksBoth<T>(pre: seq<T>, a: seq<T>, b: seq<T>)
    requires Picks(a, b)
    ensures Picks(pre + a, pre + b)
  {
    if pre == [] {
      Unit(a);
      Unit(b);
    } else {
      PicksBoth(pre[1..], a, b);
      assert (pre + a)[1..] == pre[1..] + a && (pre + b)[1..] == pre[1..] + b;
    }
  }

  // The receiver has missed `gap` carrying packets, or waits for a start.
  predicate Behind(st: State, m: Sender, gap: nat) {
    && st.Ok() && m.Ok(st.max)
    && (st.cur == 0 || st.cur >= 3)
    && (st.len == 0 || st.cc > 15
        || if gap == 0 then st.cc == m.cc && Follows(st, m) else (st.cc + gap) % 16 == m.cc)
  }

  lemma {:induction false} StartKeepsCounter(st: State, a: seq<byte>, cc: nat)
    requires st.Ok() && |a| >= 3 && a[0] != 0xff
    ensures StartSections(st, a, cc).st.cc == cc
    decreases |a|
  {
    var n := SectionLength(a);
    if n <= st.max && n <= |a| {
      var st1 := State(st.max, 0, n, cc, a[..n] + st.buf[n..]);
      if |a[n..]| >= 3 && a[n..][0] != 0xff {
        StartKeepsCounter(st1, a[n..], cc);
      }
    }
  }

  lemma CounterIs(st: State, m: Sender, p: Packet, starts: nat)
    requires st.Ok() && m.Ok(st.max)
    requires Sends(m, p, starts) && Carries(p) && starts > 0 && !TailStart(m, p, starts)
    ensures StartSections(st, Area(p), Continuity(p)).st.cc == Next(m, p, starts).cc
  {
    var ss := m.todo[..starts];
    assert ss[0] in m.todo && ss[starts - 1] in m.todo;
    FlattenFirst(ss);
    assert |Area(p)| >= 3 && Area(p)[0] == Flatten(ss)[0] == ss[0][0];
    StartKeepsCounter(st, Area(p), Continuity(p));
  }

  // What is due after a packet is the end of what was due before it.
  lemma DueShrinks(m: Sender, p: Packet, starts: nat, max: nat) returns (pre: seq<Section>)
    requires m.Ok(max) && Sends(m, p, starts)
    ensures m.Due() == pre + Next(m, p, starts).Due()
  {
    var n := Next(m, p, starts);
    if Carries(p) && starts > 0 {
      var before: seq<Section> := if m.Rest() == [] then [] else [m.cur];
      var out := Ended(m.todo[..starts], |Area(p)|);
      StartedDue(m, p, starts, before, out);
      pre := before + out;
    } else {
      pre := if n.Due() == m.Due() then [] else [m.cur];
      Unit(m.Due());
    }
  }

  // A packet gets through and no packet was missed before it.
  lemma HeardInStep(st: State, m: Sender, p: Packet, starts: nat)
    requires Follows(st, m) && st.cc == m.cc && st.len > 0
    requires Sends(m, p, starts) && Carries(p) && !TailStart(m, p, starts)
    ensures var o := Step(st, p);
      var n := Next(m, p, starts);
      Follows(o.st, n) && o.st.cc == n.cc && m.Due() == o.out + n.Due()
  {
    if starts == 0 {
      Continued(st, m, p);
      NoStart(st, p);
    } else {
      Started(st, m, p, starts);
      CounterIs(FillSection(st, Head(p), Continuity(p)).st, m, p, starts);
    }
  }

  // A packet gets through while the receiver waits for a start.
  lemma HeardWaiting(st: State, m: Sender, p: Packet, starts: nat)
    requires Broken(st) && m.Ok(st.max)
    requires Sends(m, p, starts) && Carries(p) && !TailStart(m, p, starts)
    ensures var o := Step(st, p);
      var n := Next(m, p, starts);
      if starts > 0 then
        Follows(o.st, n) && o.st.cc == n.cc && m.todo == o.out + n.Due()
      else
        o == Outcome(st, [], false)
  {
    Restart(st, m, p, starts);
    if starts > 0 {
      assert FillSection(st, Head(p), Continuity(p)) == Outcome(st, [], false);
      CounterIs(st, m, p, starts);
    }
  }

  // A packet behind a gap that carries on a section is refused.
  lemma HeardGap(st: State, m: Sender, p: Packet, gap: nat)
    requires Behind(st, m, gap) && 0 < gap < 16 && st.len > 0 && st.cc <= 15
    requires WellFramed(p) && Carries(p) && Head(p) != [] && Continuity(p) == (m.cc + 1) % 16
    ensures Step(st, p) == Outcome(st.(cc := BROKEN_CC), [], true)
  {
    assert (m.cc + 1) % 16 != (st.cc + 1) % 16;
  }

  // A packet behind a gap that begins with a section start is taken.
  lemma HeardStart(st: State, m: Sender, p: Packet, starts: nat)
    requires st.Ok() && (st.cur == 0 || st.cur >= 3) && m.Ok(st.max)
    requires Sends(m, p, starts) && Carries(p) && !TailStart(m, p, starts) && Head(p) == []
    ensures var o := Step(st, p);
      var n := Next(m, p, starts);
      Follows(o.st, n) && o.st.cc == n.cc && m.todo == o.out + n.Due()
  {
    var s := StartSections(st, Area(p), Continuity(p));
    assert starts > 0;
    assert FillSection(st, Head(p), Continuity(p)) == Outcome(st, [], false);
    Unit(s.out);
    Restarted(st, m, p, starts);
    CounterIs(st, m, p, starts);
  }

  // The first packet that gets through after a loss, wherever the loss fell:
  // either its counter gives the loss away and the receiver waits for a start,
  // or a section starts at once and the receiver is in step again.
  lemma HeardAfterLoss(st: State, m: Sender, p: Packet, starts: nat, gap: nat)
    requires Behind(st, m, gap) && 0 < gap < 16 && st.len > 0 && st.cc <= 15
    requires Sends(m, p, starts) && Carries(p) && !TailStart(m, p, starts)
    ensures var o := Step(st, p);
      var n := Next(m, p, starts);
      if Head(p) == [] then
        Follows(o.st, n) && o.st.cc == n.cc && m.todo == o.out + n.Due()
      else
        o.refused && o.out == [] && Broken(o.st)
  {
    if Head(p) == [] {
      HeardStart(st, m, p, starts);
    } else {
      HeardGap(st, m, p, gap);
    }
  }

  // Any packet that gets through.
  lemma Heard(st: State, m: Sender, p: Packet, starts: nat, gap: nat)
    requires Behind(st, m, gap) && gap < 16
    requires Sends(m, p, starts) && Carries(p) && !TailStart(m, p, starts)
    ensures var o := Step(st, p);
      var n := Next(m, p, starts);
      && Behind(o.st, n, 0)
      && (o.out == [] || m.Due() == o.out + n.Due() || m.todo == o.out + n.Due())
  {
    if st.len == 0 || st.cc > 15 {
      HeardWaiting(st, m, p, starts);
    } else if gap == 0 {
      HeardInStep(st, m, p, starts);
    } else {
      HeardAfterLoss(st, m, p, starts, gap);
    }
  }

  lemma Adds(m: Sender, pre: seq<Section>, out: seq<Section>, rest: seq<Section>, due: seq<Section>)
    requires m.sent <= |m.cur| && m.Due() == pre + due && Picks(rest, due)
    requires out == [] || m.Due() == out + due || m.todo == out + due
    ensures Picks(out + rest, m.Due())
  {
    if out == [] {
      Unit(rest);
      PicksLater(pre, rest, due);
    } else {
      PicksBoth(out, rest, due);
      if m.Due() != out + due {
        PicksLater([m.cur], out + rest, m.todo);
      }
    }
  }

  // The packets that get through.
  function Kept(ps: seq<Packet>, kept: seq<bool>): seq<Packet>
    requires |kept| == |ps|
  {
    if ps == [] then [] else (if kept[0] then [ps[0]] else []) + Kept(ps[1..], kept[1..])
  }

  lemma {:induction false} KeptIsFramed(ps: seq<Packet>, kept: seq<bool>)
    requires |kept| == |ps| && forall p :: p in ps ==> WellFramed(p)
    ensures forall p :: p in Kept(ps, kept) ==> WellFramed(p)
  {
    if ps != [] {
      KeptIsFramed(ps[1..], kept[1..]);
    }
  }

  // Never are 16 packets that carry a payload lost in a row, `gap` of them
  // just before.
  predicate ShortGaps(gap: nat, ps: seq<Packet>, kept: seq<bool>)
    requires |kept| == |ps| && forall p :: p in ps ==> WellFramed(p)
    decreases |ps|
  {
    && gap < 16
    && (ps != [] ==> ShortGaps(GapAfter(gap, ps[0], kept[0]), ps[1..], kept[1..]))
  }

  function GapAfter(gap: nat, p: Packet, kept: bool): nat
    requires WellFramed(p)
  {
    if !Carries(p) then gap else if kept then 0 else gap + 1
  }

  lemma OneMoreMissed(held: int, gap: nat, sent: nat)
    requires sent < 16 && if gap == 0 then held == sent else (held + gap) % 16 == sent
    ensures (held + (gap + 1)) % 16 == (sent + 1) % 16
  {
  }

  lemma BehindMore(st: State, m: Sender, n: Sender, gap: nat)
    requires Behind(st, m, gap) && n.Ok(st.max) && n.cc == (m.cc + 1) % 16
    ensures Behind(st, n, gap + 1)
  {
    if st.len > 0 && st.cc <= 15 {
      OneMoreMissed(st.cc, gap, m.cc);
    }
  }

  lemma Missed(st: State, m: Sender, p: Packet, starts: nat, gap: nat)
    requires Behind(st, m, gap) && Sends(m, p, starts) && Carries(p)
    ensures Behind(st, Next(m, p, starts), gap + 1)
  {
    var n := Next(m, p, starts);
    assert n.Ok(st.max);
    assert n.cc == (m.cc + 1) % 16;
    BehindMore(st, m, n, gap);
  }

  lemma RunOne(st: State, p: Packet, ps: seq<Packet>)
    requires st.Ok() && WellFramed(p) && forall q :: q in ps ==> WellFramed(q)
    ensures forall q :: q in [p] + ps ==> WellFramed(q)
    ensures Run(st, [p] + ps) == (Run(Step(st, p).st, ps).0, Step(st, p).out + Run(Step(st, p).st, ps).1)
  {
    assert ([p] + ps)[1..] == ps;
  }

  // Whichever packets are lost, if fewer than 16 in a row, the callback sees
  // only sections that were sent, undamaged, in order and at most once each.
  lemma {:induction false} LossOnlyOmits(st: State, m: Sender, ps: seq<Packet>, starts: seq<nat>,
                                         kept: seq<bool>, gap: nat)
    requires Behind(st, m, gap) && Stream(m, ps, starts) && NoTailStart(m, ps, starts)
    requires |kept| == |ps| && forall p :: p in ps ==> WellFramed(p)
    requires ShortGaps(gap, ps, kept)
    ensures forall p :: p in Kept(ps, kept) ==> WellFramed(p)
    ensures Picks(Run(st, Kept(ps, kept)).1, m.Due())
    decreases |ps|
  {
    KeptIsFramed(ps, kept);
    if ps != [] {
      var p, n := ps[0], Next(m, ps[0], starts[0]);
      var later := Kept(ps[1..], kept[1..]);
      KeptIsFramed(ps[1..], kept[1..]);
      var next := GapAfter(gap, p, kept[0]);
      var pre := DueShrinks(m, p, starts[0], st.max);
      if kept[0] {
        RunOne(st, p, later);
        var o := Step(st, p);
        if Carries(p) {
          Heard(st, m, p, starts[0], gap);
        }
        LossOnlyOmits(o.st, n, ps[1..], starts[1..], kept[1..], next);
        Adds(m, pre, o.out, Run(o.st, later).1, n.Due());
      } else {
        Unit(later);
        if Carries(p) {
          Missed(st, m, p, starts[0], gap);
        }
        LossOnlyOmits(st, n, ps[1..], starts[1..], kept[1..], next);
        PicksLater(pre, Run(st, later).1, n.Due());
      }
    }
  }

  // ---- A section that starts in the last byte of a packet is lost ----

  const LONG: Section := [0, 0, 179] + Fill(0, 179)
  const SHORT: Section := [0, 0, 0]
  const FIRST: Packet := [0x47, 0x40, 0, 0x10, 0] + LONG + [0]
  const SECOND: Packet := [0x47, 0, 0, 0x11] + ([0, 0] + Fill(STUFFING, 182))

  lemma FirstPacket(m: Sender, st: State)
    requires m == Sender(15, [], 0, [LONG, SHORT])
    requires st == State(4096, 0, 0, 0, Fill(0, 4096))
    ensures Follows(st, m) && Sends(m, FIRST, 2) && Next(m, FIRST, 2) == Sender(0, SHORT, 1, [])
    ensures Step(st, FIRST) == Outcome(State(4096, 0, 182, 0, LONG + st.buf[182..]), [LONG], false)
  {
    assert Head(FIRST) == [] && Area(FIRST) == LONG + [0];
    assert m.todo[..2] == [LONG, SHORT] && [LONG, SHORT][..1] == [LONG];
    FlattenOne(LONG);
    FlattenOne(SHORT);
    assert [LONG, SHORT][1..] == [SHORT];
    assert (LONG + SHORT)[..183] == LONG + [0];
    var st1 := StartWhole(st, LONG, Area(FIRST), 0);
    assert Area(FIRST)[182..] == [0];
    Unit([LONG]);
  }

  lemma SecondPacket(m: Sender, st: State)
    requires m == Sender(0, SHORT, 1, [])
    requires st.Ok() && st.max == 4096 && st.cur == 0 && st.len == 182 && st.cc == 0
    ensures Sends(m, SECOND, 0) && Next(m, SECOND, 0) == Sender(1, SHORT, 3, [])
    ensures WellFramed(SECOND) && |Step(st, SECOND).out| == 1 && Step(st, SECOND).out[0] != SHORT
  {
    assert Head(SECOND) == [0, 0] + Fill(STUFFING, 182);
    assert m.Rest() == [0, 0];
    var f := FillSection(st, Head(SECOND), 1);
    Unit(f.out);
    assert |f.out[0]| == 182;
  }

  // A run and its stream, one packet longer.
  lemma OneMore(st: State, m: Sender, p: Packet, starts: nat, ps: seq<Packet>, ss: seq<nat>)
    requires st.Ok() && m.sent <= |m.cur| && Sends(m, p, starts) && Stream(Next(m, p, starts), ps, ss)
    requires forall q :: q in ps ==> WellFramed(q)
    ensures forall q :: q in [p] + ps ==> WellFramed(q)
    ensures Run(st, [p] + ps).1 == Step(st, p).out + Run(Step(st, p).st, ps).1
    ensures Stream(m, [p] + ps, [starts] + ss)
    ensures Final(m, [p] + ps, [starts] + ss) == Final(Next(m, p, starts), ps, ss)
    ensures NoTailStart(m, [p] + ps, [starts] + ss) <==>
              !TailStart(m, p, starts) && NoTailStart(Next(m, p, starts), ps, ss)
  {
    RunOne(st, p, ps);
    assert ([p] + ps)[1..] == ps && ([starts] + ss)[1..] == ss;
  }

  lemma OnePacket(m: Sender, st: State, p: Packet, starts: nat)
    requires m.sent <= |m.cur| && Sends(m, p, starts) && st.Ok()
    ensures Stream(m, [p], [starts]) && Final(m, [p], [starts]) == Next(m, p, starts)
    ensures WellFramed(p) && Run(st, [p]).1 == Step(st, p).out
  {
    assert [p][1..] == [] && [starts][1..] == [];
    Unit(Step(st, p).out);
  }

  lemma TailStartLoses()
    returns (st: State, m: Sender, ps: seq<Packet>, starts: seq<nat>)
    ensures Follows(st, m) && Stream(m, ps, starts)
    ensures Final(m, ps, starts).Due() == []
    ensures forall p :: p in ps ==> WellFramed(p)
    ensures Run(st, ps).1 != m.Due()
  {
    st, m := State(4096, 0, 0, 0, Fill(0, 4096)), Sender(15, [], 0, [LONG, SHORT]);
    FirstPacket(m, st);
    var n, st1 := Next(m, FIRST, 2), Step(st, FIRST).st;
    SecondPacket(n, st1);
    OnePacket(n, st1, SECOND, 0);
    OneMore(st, m, FIRST, 2, [SECOND], [0]);
    ps, starts := [FIRST] + [SECOND], [2] + [0];
    assert Run(st, ps).1[1] != m.Due()[1];
  }

  // ---- and may by chance be made good ----

  const EARLY: Section := [0, 0, 1, 5]
  const LATE: Section := [0, 0, 1, 0]

  // A packet with nothing but `payload`, which is shorter than the packet.
  function Short(flags: byte, cc: nat, payload: seq<byte>): (p: Packet)
    requires cc < 16 && |payload| < 100
    ensures |p| == PACKET && p[1] == flags && p[3] == 0x30 + cc && p[4] == 183 - |payload|
    ensures PayloadAt(p) == PACKET - |payload| && p[PACKET - |payload|..] == payload
  {
    [0x47, flags, 0, 0x30 + cc, 183 - |payload|] + Fill(0xff, 183 - |payload|) + payload
  }

  // Where the pieces of a payload with a pointer field lie in the packet.
  lemma Pieces(p: Packet, at: nat, head: seq<byte>, area: seq<byte>, payload: seq<byte>)
    requires |head| < 256 && payload == [|head|] + (head + area)
    requires at + |payload| == |p| && p[at..] == payload
    ensures p[at] == |head| && p[at + 1..at + 1 + |head|] == head && p[at + 1 + |head|..] == area
  {
    assert p[at] == payload[0];
    assert p[at + 1..] == payload[1..] == head + area;
    assert p[at + 1..at + 1 + |head|] == p[at + 1..][..|head|];
    assert p[at + 1 + |head|..] == p[at + 1..][|head|..];
  }

  lemma ShortStart(cc: nat, head: seq<byte>, area: seq<byte>)
    requires cc < 16 && |head| + |area| < 50
    ensures var p := Short(0x40, cc, [|head|] + (head + area));
      WellFramed(p) && Carries(p) && UnitStart(p) && Continuity(p) == cc && Head(p) == head && Area(p) == area
  {
    var payload := [|head|] + (head + area);
    var p := Short(0x40, cc, payload);
    Pieces(p, PayloadAt(p), head, area, payload);
  }

  lemma ShortRest(cc: nat, head: seq<byte>)
    requires cc < 16 && 0 < |head| < 50
    ensures var p := Short(0, cc, head);
      WellFramed(p) && Carries(p) && !UnitStart(p) && Continuity(p) == cc && Head(p) == head && Area(p) == []
  {
  }

  lemma BothSections(st: State)
    requires st.Ok() && st.max == 4096 && st.cur == 0
    ensures Follows(st, Sender(15, [], 0, [EARLY, LATE]))
  {
    assert IsSection(EARLY, 4096) && IsSection(LATE, 4096);
  }

  lemma FirstChance(st: State) returns (p: Packet, st1: State)
    requires st.Ok() && st.max == 4096 && st.cur == 0 && st.len == 0
    ensures var m := Sender(15, [], 0, [EARLY, LATE]);
      Sends(m, p, 1) && Next(m, p, 1) == Sender(0, EARLY, 3, [LATE])
    ensures st1.Ok() && st1.max == 4096 && st1.cur == 3 && st1.len == 4 && st1.cc == 0
    ensures st1.buf[..3] == [0, 0, 1]
    ensures Step(st, p) == Outcome(st1, [], false)
  {
    var m := Sender(15, [], 0, [EARLY, LATE]);
    var none: seq<byte>, area: seq<byte> := [], [0, 0, 1];
    ShortStart(0, none, area);
    p := Short(0x40, 0, [|none|] + (none + area));
    st1 := State(4096, 3, 4, 0, area + st.buf[3..]);
    assert m.todo[..1] == [EARLY] && [EARLY][..0] == [] && m.todo[1..] == [LATE];
    FlattenOne(EARLY);
    assert EARLY[..3] == area;
    assert Step(st, p) == Outcome(st1, [], false);
  }

  lemma SecondChance(st: State) returns (p: Packet, st1: State)
    requires st.Ok() && st.max == 4096 && st.cur == 3 && st.len == 4 && st.cc == 0
    requires st.buf[..3] == [0, 0, 1]
    ensures var m := Sender(0, EARLY, 3, [LATE]);
      && Sends(m, p, 1) && TailStart(m, p, 1)
      && Next(m, p, 1) == Sender(1, LATE, 1, [])
    ensures st1.Ok() && st1.max == 4096 && st1.cur == 3 && st1.len == 4 && st1.cc == 1
    ensures st1.buf[..3] == [0, 0, 1]
    ensures Step(st, p) == Outcome(st1, [EARLY], false)
  {
    var m := Sender(0, EARLY, 3, [LATE]);
    var head: seq<byte>, area: seq<byte> := [5], [0];
    ShortStart(1, head, area);
    p := Short(0x40, 1, [|head|] + (head + area));
    assert m.Rest() == head;
    assert m.todo[..1] == [LATE] && [LATE][..0] == [] && m.todo[1..] == [];
    FlattenOne(LATE);
    assert LATE[..1] == area;
    var full := st.buf[..3] + head[..1] + st.buf[4..];
    assert full[..4] == EARLY;
    st1 := st.(cc := 1, buf := full);
    Unit([EARLY]);
  }

  lemma ThirdChance(st: State) returns (p: Packet)
    requires st.Ok() && st.max == 4096 && st.cur == 3 && st.len == 4 && st.cc == 1
    requires st.buf[..3] == [0, 0, 1]
    ensures var m := Sender(1, LATE, 1, []);
      Sends(m, p, 0) && Next(m, p, 0) == Sender(2, LATE, 4, [])
    ensures Step(st, p).out == [LATE]
  {
    var m := Sender(1, LATE, 1, []);
    var head: seq<byte> := [0, 1, 0];
    ShortRest(2, head);
    p := Short(0, 2, head);
    assert m.Rest() == head;
    var full := st.buf[..3] + head[..1] + st.buf[4..];
    assert full[..4] == LATE;
    NoStart(st, p);
  }

  // A packet that ends no section, and the run after it.
  lemma SilentFirst(st: State, m: Sender, p: Packet, st1: State, rest: seq<Packet>, more: seq<nat>)
    returns (ps: seq<Packet>, starts: seq<nat>)
    requires st.Ok() && m.sent <= |m.cur| && Sends(m, p, 1) && Step(st, p) == Outcome(st1, [], false)
    requires Stream(Next(m, p, 1), rest, more) && !NoTailStart(Next(m, p, 1), rest, more)
    requires forall q :: q in rest ==> WellFramed(q)
    ensures forall q :: q in ps ==> WellFramed(q)
    ensures Stream(m, ps, starts) && !NoTailStart(m, ps, starts)
    ensures Final(m, ps, starts) == Final(Next(m, p, 1), rest, more)
    ensures Run(st, ps).1 == Run(st1, rest).1
  {
    ps, starts := [p] + rest, [1] + more;
    OneMore(st, m, p, 1, rest, more);
    Unit(Run(st1, rest).1);
  }

  lemma LastChances(st: State) returns (ps: seq<Packet>, starts: seq<nat>)
    requires st.Ok() && st.max == 4096 && st.cur == 3 && st.len == 4 && st.cc == 0
    requires st.buf[..3] == [0, 0, 1]
    ensures forall p :: p in ps ==> WellFramed(p)
    ensures var m := Sender(0, EARLY, 3, [LATE]);
      Stream(m, ps, starts) && !NoTailStart(m, ps, starts) && Final(m, ps, starts).Due() == []
    ensures Run(st, ps).1 == [EARLY] + [LATE]
  {
    var p1, st1 := SecondChance(st);
    var p2 := ThirdChance(st1);
    OnePacket(Sender(1, LATE, 1, []), st1, p2, 0);
    OneMore(st, Sender(0, EARLY, 3, [LATE]), p1, 1, [p2], [0]);
    ps, starts := [p1] + [p2], [1] + [0];
  }

  lemma AllChances(st: State) returns (ps: seq<Packet>, starts: seq<nat>)
    requires st.Ok() && st.max == 4096 && st.cur == 0 && st.len == 0
    ensures forall p :: p in ps ==> WellFramed(p)
    ensures var m := Sender(15, [], 0, [EARLY, LATE]);
      Stream(m, ps, starts) && !NoTailStart(m, ps, starts) && Final(m, ps, starts).Due() == []
    ensures Run(st, ps).1 == [EARLY] + [LATE]
  {
    var p, st1 := FirstChance(st);
    var rest, more := LastChances(st1);
    ps, starts := SilentFirst(st, Sender(15, [], 0, [EARLY, LATE]), p, st1, rest, more);
  }

  // A stale buffer may hold the first bytes of a section lost to a tail start,
  // and so deliver it after all: out of step, yet with nothing missing.
  lemma TailStartMadeGood()
    returns (st: State, m: Sender, ps: seq<Packet>, starts: seq<nat>)
    ensures Follows(st, m) && Stream(m, ps, starts) && !NoTailStart(m, ps, starts)
    ensures Final(m, ps, starts).Due() == []
    ensures forall p :: p in ps ==> WellFramed(p)
    ensures Run(st, ps).1 == m.Due()
  {
    st, m := State(4096, 0, 0, 0, Fill(0, 4096)), Sender(15, [], 0, [EARLY, LATE]);
    BothSections(st);
    ps, starts := AllChances(st);
    assert m.Due() == [EARLY] + [LATE];
  }
}
