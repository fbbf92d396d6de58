// The sending side of section 2.4.4 of ISO/IEC 13818-1: which packets carry a
// list of sections, and what apps/dvb/cmds/section.c makes of them.
module SectionStream {
  import opened Octets
  import opened SectionDecoder

  type Section = seq<byte>

  const STUFFING: byte := 0xff

  // A section a receiver with a `max`-byte buffer can take.
  predicate IsSection(s: Section, max: nat) {
    3 <= |s| <= max && s[0] != 0xff && SectionLength(s) == |s|
  }

  // A sender in mid-stream: the continuity counter of its last packet, the
  // section it last started, how much of it is out, and what comes after.
  datatype Sender = Sender(cc: nat, cur: Section, sent: nat, todo: seq<Section>) {
    predicate Ok(max: nat) {
      && cc < 16 && sent <= |cur|
      && (sent < |cur| ==> sent > 0 && IsSection(cur, max))
      && forall s :: s in todo ==> IsSection(s, max)
    }

    function Rest(): seq<byte>
      requires sent <= |cur|
    {
      cur[sent..]
    }

    // The sections that a receiver still has to get.
    function Due(): seq<Section> {
      if sent < |cur| then [cur] + todo else todo
    }
  }

  // `a` shows the start of `data`, and stuffing once `data` has run out.
  predicate Shows(a: seq<byte>, data: seq<byte>) {
    if |a| <= |data| then
      a == data[..|a|]
    else
      a == data + Fill(STUFFING, |a| - |data|)
  }

  // How many bytes of the last of `ss` an area of `room` bytes shows.
  function Shown(ss: seq<Section>, room: nat): int
    requires ss != []
  {
    Min(room - |Flatten(ss[..|ss| - 1])|, |ss[|ss| - 1]|)
  }

  // Packet p is a legal next packet in which `starts` sections start.
  predicate Sends(m: Sender, p: Packet, starts: nat)
    requires m.sent <= |m.cur|
  {
    && WellFramed(p)
    && starts <= |m.todo|
    && if !Carries(p) then
         starts == 0
       else
         && Continuity(p) == (m.cc + 1) % 16
         && PayloadAt(p) < PACKET
         && if starts == 0 then
              !UnitStart(p) && m.Rest() != [] && Shows(Head(p), m.Rest())
            else
              && UnitStart(p) && Head(p) == m.Rest()
              && Shown(m.todo[..starts], |Area(p)|) > 0
              && Shows(Area(p), Flatten(m.todo[..starts]))
  }

  function Next(m: Sender, p: Packet, starts: nat): (n: Sender)
    requires m.sent <= |m.cur| && Sends(m, p, starts)
    ensures n.sent <= |n.cur|
    ensures forall max | m.Ok(max) :: n.Ok(max)
  {
    if !Carries(p) then
      m
    else if starts == 0 then
      m.(cc := Continuity(p), sent := m.sent + Min(|Head(p)|, |m.Rest()|))
    else
      Sender(Continuity(p), m.todo[starts - 1],
             Shown(m.todo[..starts], |Area(p)|), m.todo[starts..])
  }

  // A section starts in the last two bytes of the packet.
  predicate TailStart(m: Sender, p: Packet, starts: nat)
    requires m.sent <= |m.cur| && Sends(m, p, starts)
  {
    Carries(p) && starts > 0 && Shown(m.todo[..starts], |Area(p)|) < 3
  }

  // The receiver holds exactly what has been sent of an unfinished section.
  // Between sections it may hold anything: len stays stale there.
  predicate Follows(st: State, m: Sender) {
    && st.Ok() && m.Ok(st.max)
    && (st.cur == 0 || st.cur >= 3)
    && (m.sent < |m.cur| ==>
          && st.len == |m.cur| && st.cur == m.sent && st.cc == m.cc
          && st.buf[..m.sent] == m.cur[..m.sent])
  }

  // ---- One packet ----

  lemma FlattenFirst(ss: seq<Section>)
    requires ss != []
    ensures |ss[0]| <= |Flatten(ss)| && Flatten(ss)[..|ss[0]|] == ss[0] && Flatten(ss)[|ss[0]|..] == Flatten(ss[1..])
  {
  }

  lemma ShowsPart(a: seq<byte>, data: seq<byte>, n: nat)
    requires Shows(a, data) && n <= |data| && n <= |a|
    ensures a[..n] == data[..n] && Shows(a[n..], data[n..])
  {
    if |a| > |data| {
      assert a[n..] == data[n..] + Fill(STUFFING, |a| - |data|);
    }
  }

  lemma ShownTail(ss: seq<Section>, room: nat)
    requires |ss| > 1 && Shown(ss, room) > 0
    ensures |ss[0]| <= room && Shown(ss[1..], room - |ss[0]|) == Shown(ss, room)
  {
    var init := ss[..|ss| - 1];
    assert init[0] == ss[0] && init[1..] == ss[1..][..|ss[1..]| - 1];
    FlattenFirst(init);
  }

  // The first of several sections is shown whole; the others follow it.
  lemma ShowsTail(ss: seq<Section>, a: seq<byte>)
    requires |ss| > 1 && Shown(ss, |a|) > 0 && Shows(a, Flatten(ss))
    ensures |ss[0]| <= |a| && a[..|ss[0]|] == ss[0]
    ensures Shown(ss[1..], |a| - |ss[0]|) == Shown(ss, |a|)
    ensures Shows(a[|ss[0]|..], Flatten(ss[1..]))
  {
    ShownTail(ss, |a|);
    FlattenFirst(ss);
    ShowsPart(a, Flatten(ss), |ss[0]|);
  }

  // Which of the sections started in a packet also end there.
  function Ended(ss: seq<Section>, room: nat): seq<Section>
    requires ss != []
  {
    if Shown(ss, room) == |ss[|ss| - 1]| then ss else ss[..|ss| - 1]
  }

  lemma EndedTail(ss: seq<Section>, room: nat)
    requires |ss| > 1 && |ss[0]| <= room
    requires Shown(ss[1..], room - |ss[0]|) == Shown(ss, room)
    ensures Ended(ss, room) == [ss[0]] + Ended(ss[1..], room - |ss[0]|)
  {
  }

  // The receiver after k bytes of a section have been shown to it.
  predicate TookUp(st: State, was: nat, s: Section, k: int, cc: nat) {
    && (k < 3 ==> st.cur == was)
    && (k == |s| ==> st.cur == 0)
    && (3 <= k < |s| ==>
          st.Ok() && st.len == |s| && st.cur == k && st.cc == cc && st.buf[..k] == s[..k])
  }

  lemma StartWhole(st: State, s: Section, a: seq<byte>, cc: nat) returns (st1: State)
    requires st.Ok() && IsSection(s, st.max) && |s| <= |a| && a[..|s|] == s
    ensures st1 == State(st.max, 0, |s|, cc, s + st.buf[|s|..])
    ensures var o := StartSections(st, a, cc);
      var r := StartSections(st1, a[|s|..], cc);
      o.st == r.st && o.out == [s] + r.out
  {
    assert a[0] == s[0] && a[1] == s[1] && a[2] == s[2];
    st1 := State(st.max, 0, |s|, cc, s + st.buf[|s|..]);
  }

  lemma StartLast(st: State, s: Section, a: seq<byte>, cc: nat)
    requires st.Ok() && IsSection(s, st.max) && a != [] && Shows(a, s)
    ensures var o := StartSections(st, a, cc);
      var k := Min(|a|, |s|);
      o.out == (if k == |s| then [s] else []) && TookUp(o.st, st.cur, s, k, cc)
  {
    if |a| >= 3 {
      assert a[0] == s[0] && a[1] == s[1] && a[2] == s[2];
      if |a| >= |s| {
        assert a[..|s|] == s;
        var rest := a[|s|..];
        assert |rest| >= 1 ==> rest[0] == STUFFING;
        assert [s] + [] == [s];
      }
    }
  }

  lemma StartSingle(st: State, ss: seq<Section>, a: seq<byte>, cc: nat)
    requires st.Ok() && |ss| == 1 && IsSection(ss[0], st.max)
    requires Shown(ss, |a|) > 0 && Shows(a, Flatten(ss))
    ensures var o := StartSections(st, a, cc);
      o.out == Ended(ss, |a|) && TookUp(o.st, st.cur, ss[0], Shown(ss, |a|), cc)
  {
    FlattenOne(ss[0]);
    assert ss == [ss[0]] && ss[..0] == [];
    assert Flatten(ss[..0]) == [];
    StartLast(st, ss[0], a, cc);
  }

  lemma StartMore(ss: seq<Section>, a: seq<byte>, cc: nat, o: Outcome, r: Outcome)
    requires |ss| > 1 && |ss[0]| <= |a| && Shown(ss[1..], |a| - |ss[0]|) == Shown(ss, |a|)
    requires r.out == Ended(ss[1..], |a| - |ss[0]|)
    requires TookUp(r.st, 0, ss[|ss| - 1], Shown(ss, |a|), cc)
    requires o.st == r.st && o.out == [ss[0]] + r.out
    ensures o.out == Ended(ss, |a|) && TookUp(o.st, 0, ss[|ss| - 1], Shown(ss, |a|), cc)
  {
    EndedTail(ss, |a|);
  }

  // The sections started in one packet: all that end are delivered, and the
  // last one is taken up exactly when at least three bytes of it are there.
  lemma {:induction false} StartArea(st: State, ss: seq<Section>, a: seq<byte>, cc: nat)
    requires st.Ok() && ss != [] && forall s :: s in ss ==> IsSection(s, st.max)
    requires Shown(ss, |a|) > 0 && Shows(a, Flatten(ss))
    ensures var o := StartSections(st, a, cc);
      && o.out == Ended(ss, |a|)
      && TookUp(o.st, if |ss| == 1 then st.cur else 0, ss[|ss| - 1], Shown(ss, |a|), cc)
    decreases |ss|
  {
    if |ss| == 1 {
      StartSingle(st, ss, a, cc);
    } else {
      var rest, area := ss[1..], a[|ss[0]|..];
      ShowsTail(ss, a);
      var st1 := StartWhole(st, ss[0], a, cc);
      assert rest[|rest| - 1] == ss[|ss| - 1];
      StartArea(st1, rest, area, cc);
      StartMore(ss, a, cc, StartSections(st, a, cc), StartSections(st1, area, cc));
    }
  }

  // The rest of the unfinished section completes it.
  lemma Finished(st: State, m: Sender, head: seq<byte>, cc: nat)
    requires Follows(st, m) && m.sent < |m.cur|
    requires |head| >= |m.Rest()| && head[..|m.Rest()|] == m.Rest() && cc == (m.cc + 1) % 16
    ensures var f := FillSection(st, head, cc);
      && !f.refused && f.out == [m.cur] && f.st.cur == m.sent
  {
    var full := st.buf[..st.cur] + head[..st.len - st.cur] + st.buf[st.len..];
    assert full[..st.len] == m.cur[..m.sent] + m.Rest() == m.cur;
  }

  // More of the unfinished section, but not its end.
  lemma ContinuedPart(st: State, m: Sender, p: Packet)
    requires Follows(st, m) && Sends(m, p, 0) && Carries(p) && |Head(p)| < |m.Rest()|
    ensures var f := FillSection(st, Head(p), Continuity(p));
      !f.refused && f.out == [] && Follows(f.st, Next(m, p, 0))
  {
    var head := Head(p);
    assert head != [];
    var f := FillSection(st, head, Continuity(p));
    assert f.st.buf[..m.sent + |head|] == m.cur[..m.sent + |head|];
  }

  lemma ContinuedEnd(st: State, m: Sender, p: Packet)
    requires Follows(st, m) && Sends(m, p, 0) && Carries(p) && |Head(p)| >= |m.Rest()|
    ensures var f := FillSection(st, Head(p), Continuity(p));
      !f.refused && f.out == [m.cur] && Follows(f.st, Next(m, p, 0))
  {
    assert Head(p)[..|m.Rest()|] == m.Rest();
    Finished(st, m, Head(p), Continuity(p));
  }

  lemma NoStart(st: State, p: Packet)
    requires st.Ok() && WellFramed(p) && Carries(p) && Area(p) == []
    requires !FillSection(st, Head(p), Continuity(p)).refused
    ensures Step(st, p) == FillSection(st, Head(p), Continuity(p))
  {
    Unit(FillSection(st, Head(p), Continuity(p)).out);
  }

  // A packet in which no section starts.
  lemma Continued(st: State, m: Sender, p: Packet)
    requires Follows(st, m) && Sends(m, p, 0) && Carries(p)
    ensures var o := Step(st, p);
      var n := Next(m, p, 0);
      !o.refused && Follows(o.st, n) && m.Due() == o.out + n.Due()
  {
    if |Head(p)| < |m.Rest()| {
      ContinuedPart(st, m, p);
      Unit(m.Due());
    } else {
      ContinuedEnd(st, m, p);
    }
    NoStart(st, p);
  }

  // A packet in which sections start. The receiver is in step with the
  // sender afterwards if and only if none starts in the last two bytes.
  lemma Started(st: State, m: Sender, p: Packet, starts: nat)
    requires Follows(st, m) && Sends(m, p, starts) && Carries(p) && starts > 0
    ensures var o := Step(st, p);
      var n := Next(m, p, starts);
      && !o.refused && m.Due() == o.out + n.Due()
      && (Follows(o.st, n) <==> !TailStart(m, p, starts))
  {
    var ss := m.todo[..starts];
    var before := if m.Rest() == [] then [] else [m.cur];
    var f := BeforeStart(st, m, p, before);
    var s := StartSections(f.st, Area(p), Continuity(p));
    assert Step(st, p) == Outcome(s.st, before + s.out, false);
    StartArea(f.st, ss, Area(p), Continuity(p));
    StartedDue(m, p, starts, before, s.out);
    StartedFollows(m, p, starts, f.st, s.st);
  }

  lemma StartedFollows(m: Sender, p: Packet, starts: nat, was: State, st: State)
    requires was.Ok() && m.Ok(was.max) && st.Ok() && st.max == was.max
    requires Sends(m, p, starts) && Carries(p) && starts > 0
    requires was.cur == 0 || was.cur >= 3
    requires TookUp(st, if starts == 1 then was.cur else 0, m.todo[starts - 1],
                    Shown(m.todo[..starts], |Area(p)|), Continuity(p))
    ensures Follows(st, Next(m, p, starts)) <==> !TailStart(m, p, starts)
  {
    var s := m.todo[starts - 1];
    assert IsSection(s, was.max);
    assert m.todo[..starts][starts - 1] == s;
  }

  lemma BeforeStart(st: State, m: Sender, p: Packet, before: seq<Section>) returns (f: Outcome)
    requires Follows(st, m) && WellFramed(p) && Carries(p)
    requires Head(p) == m.Rest() && Continuity(p) == (m.cc + 1) % 16
    requires before == if m.Rest() == [] then [] else [m.cur]
    ensures f == FillSection(st, Head(p), Continuity(p))
    ensures !f.refused && f.out == before && (f.st.cur == 0 || f.st.cur >= 3)
  {
    f := FillSection(st, Head(p), Continuity(p));
    if m.Rest() != [] {
      assert m.Rest()[..|m.Rest()|] == m.Rest();
      Finished(st, m, Head(p), Continuity(p));
    }
  }

  lemma StartedDue(m: Sender, p: Packet, starts: nat, before: seq<Section>, out: seq<Section>)
    requires m.sent <= |m.cur| && Sends(m, p, starts) && Carries(p) && starts > 0
    requires before == if m.Rest() == [] then [] else [m.cur]
    requires out == Ended(m.todo[..starts], |Area(p)|)
    ensures m.Due() == before + out + Next(m, p, starts).Due()
  {
    StartedTodo(m, p, starts, out);
    Unit(m.todo);
    Assoc(before, out, Next(m, p, starts).Due());
  }

  lemma StartedTodo(m: Sender, p: Packet, starts: nat, out: seq<Section>)
    requires m.sent <= |m.cur| && Sends(m, p, starts) && Carries(p) && starts > 0
    requires out == Ended(m.todo[..starts], |Area(p)|)
    ensures m.todo == out + Next(m, p, starts).Due()
  {
    Cut(m.todo, starts);
    CutOut(m.todo, starts);
  }

  // ---- Whole streams ----

  predicate Stream(m: Sender, ps: seq<Packet>, starts: seq<nat>)
    requires m.sent <= |m.cur|
    decreases |ps|
  {
    && |ps| == |starts|
    && (ps != [] ==>
          && Sends(m, ps[0], starts[0])
          && Stream(Next(m, ps[0], starts[0]), ps[1..], starts[1..]))
  }

  function Final(m: Sender, ps: seq<Packet>, starts: seq<nat>): (n: Sender)
    requires m.sent <= |m.cur| && Stream(m, ps, starts)
    ensures n.sent <= |n.cur|
    decreases |ps|
  {
    if ps == [] then m else Final(Next(m, ps[0], starts[0]), ps[1..], starts[1..])
  }

  predicate NoTailStart(m: Sender, ps: seq<Packet>, starts: seq<nat>)
    requires m.sent <= |m.cur| && Stream(m, ps, starts)
    decreases |ps|
  {
    ps != [] ==>
      && !TailStart(m, ps[0], starts[0])
      && NoTailStart(Next(m, ps[0], starts[0]), ps[1..], starts[1..])
  }

  lemma {:induction false} StreamIsFramed(m: Sender, ps: seq<Packet>, starts: seq<nat>)
    requires m.sent <= |m.cur| && Stream(m, ps, starts)
    ensures forall p :: p in ps ==> WellFramed(p)
    decreases |ps|
  {
    if ps != [] {
      StreamIsFramed(Next(m, ps[0], starts[0]), ps[1..], starts[1..]);
      assert forall p :: p in ps ==> p == ps[0] || p in ps[1..];
    }
  }

  // The round trip. Whatever the adaptation fields, the stuffing and the
  // packing, the callback has seen every finished section once, in order.
  lemma {:induction false} RoundTrip(st: State, m: Sender, ps: seq<Packet>, starts: seq<nat>)
    requires Follows(st, m) && Stream(m, ps, starts) && NoTailStart(m, ps, starts)
    requires forall p :: p in ps ==> WellFramed(p)
    ensures var r := Run(st, ps);
      var n := Final(m, ps, starts);
      Follows(r.0, n) && m.Due() == r.1 + n.Due()
    decreases |ps|
  {
    if ps == [] {
      Unit(m.Due());
    } else {
      var o, n := Step(st, ps[0]), Next(m, ps[0], starts[0]);
      if !Carries(ps[0]) {
        Unit(m.Due());
      } else if starts[0] == 0 {
        Continued(st, m, ps[0]);
      } else {
        Started(st, m, ps[0], starts[0]);
      }
      RoundTrip(o.st, n, ps[1..], starts[1..]);
      Assoc(o.out, Run(o.st, ps[1..]).1, Final(m, ps, starts).Due());
    }
  }

  // The receiver is in step with the sender before, between and after the
  // packets.
  predicate InStep(st: State, m: Sender, ps: seq<Packet>, starts: seq<nat>)
    requires m.sent <= |m.cur| && st.Ok() && Stream(m, ps, starts)
    requires forall p :: p in ps ==> WellFramed(p)
    decreases |ps|
  {
    && Follows(st, m)
    && (ps != [] ==> InStep(Step(st, ps[0]).st, Next(m, ps[0], starts[0]), ps[1..], starts[1..]))
  }

  // Over a whole run the receiver stays in step if and only if no section
  // starts in the last two bytes of a packet.
  lemma {:induction false} StaysInStep(st: State, m: Sender, ps: seq<Packet>, starts: seq<nat>)
    requires Follows(st, m) && Stream(m, ps, starts)
    requires forall p :: p in ps ==> WellFramed(p)
    ensures InStep(st, m, ps, starts) <==> NoTailStart(m, ps, starts)
    decreases |ps|
  {
    if ps != [] {
      var o, n := Step(st, ps[0]), Next(m, ps[0], starts[0]);
      if Carries(ps[0]) && starts[0] > 0 {
        Started(st, m, ps[0], starts[0]);
      } else if Carries(ps[0]) {
        Continued(st, m, ps[0]);
      }
      if Follows(o.st, n) {
        StaysInStep(o.st, n, ps[1..], starts[1..]);
      }
    }
  }

  // ---- A packetiser ----

  function Pad(data: seq<byte>, n: nat): (r: seq<byte>)
    ensures |r| == n && Shows(r, data)
  {
    if n <= |data| then data[..n] else data + Fill(STUFFING, n - |data|)
  }

  // Every section opens a packet of its own.
  function Emit(m: Sender): Packet
    requires m.sent <= |m.cur| && m.Due() != []
  {
    var cc := (m.cc + 1) % 16;
    if m.sent < |m.cur| then
      [0x47, 0, 0, 0x10 + cc] + Pad(m.Rest(), 184)
    else
      [0x47, 0x40, 0, 0x10 + cc, 0] + Pad(m.todo[0], 183)
  }

  // The bytes still to go out.
  function Left(m: Sender): nat
    requires m.sent <= |m.cur|
  {
    |Flatten(m.todo)| + |m.cur| - m.sent
  }

  lemma EmitRest(m: Sender, max: nat)
    requires m.Ok(max) && m.sent < |m.cur|
    ensures var p := Emit(m);
      && Sends(m, p, 0) && !TailStart(m, p, 0)
      && Next(m, p, 0).Ok(max) && Left(Next(m, p, 0)) < Left(m)
  {
    assert Head(Emit(m)) == Pad(m.Rest(), 184);
  }

  lemma EmitFirst(m: Sender, max: nat)
    requires m.Ok(max) && m.sent == |m.cur| && m.todo != []
    ensures var p := Emit(m);
      && Sends(m, p, 1) && !TailStart(m, p, 1)
      && Next(m, p, 1).Ok(max) && Left(Next(m, p, 1)) < Left(m)
  {
    var p, s := Emit(m), m.todo[0];
    assert s in m.todo;
    assert Head(p) == [] && Area(p) == Pad(s, 183);
    assert m.todo[..1] == [s] && Flatten([s][..0]) == [];
    FlattenOne(s);
    FlattenFirst(m.todo);
  }

  lemma EmitSends(m: Sender, max: nat)
    requires m.Ok(max) && m.Due() != []
    ensures var p := Emit(m);
      var starts := if m.sent < |m.cur| then 0 else 1;
      && Sends(m, p, starts) && !TailStart(m, p, starts)
      && Next(m, p, starts).Ok(max) && Left(Next(m, p, starts)) < Left(m)
  {
    if m.sent < |m.cur| {
      EmitRest(m, max);
    } else {
      EmitFirst(m, max);
    }
  }

  function Packetise(m: Sender, max: nat): (r: (seq<Packet>, seq<nat>))
    requires m.Ok(max)
    decreases Left(m)
  {
    if m.Due() == [] then
      ([], [])
    else
      EmitSends(m, max);
      var p, starts := Emit(m), if m.sent < |m.cur| then 0 else 1;
      var r := Packetise(Next(m, p, starts), max);
      ([p] + r.0, [starts] + r.1)
  }

  lemma {:induction false} PacketiseIsLegal(m: Sender, max: nat)
    requires m.Ok(max)
    ensures var (ps, starts) := Packetise(m, max);
      Stream(m, ps, starts) && NoTailStart(m, ps, starts) && Final(m, ps, starts).Due() == []
    decreases Left(m)
  {
    if m.Due() != [] {
      EmitSends(m, max);
      var p, starts := Emit(m), if m.sent < |m.cur| then 0 else 1;
      var n := Next(m, p, starts);
      PacketiseIsLegal(n, max);
      var (ps, ss) := Packetise(n, max);
      assert ([p] + ps)[1..] == ps && ([starts] + ss)[1..] == ss;
    }
  }

  // doSection undoes the packetiser, for every list of sections.
  lemma PacketiserUndone(secs: seq<Section>, max: nat, st: State)
    requires forall s :: s in secs ==> IsSection(s, max)
    requires st.Ok() && st.max == max && st.len == 0 && st.cur == 0
    ensures var ps := Packetise(Sender(15, [], 0, secs), max).0;
      (forall p :: p in ps ==> WellFramed(p)) && Run(st, ps).1 == secs
  {
    var m := Sender(15, [], 0, secs);
    PacketiseIsLegal(m, max);
    var (ps, starts) := Packetise(m, max);
    StreamIsFramed(m, ps, starts);
    RoundTrip(st, m, ps, starts);
    Unit(Run(st, ps).1);
  }
}
