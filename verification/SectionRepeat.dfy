// What apps/dvb/cmds/section.c does when a packet comes twice. Section 2.4.3.3
// of ISO/IEC 13818-1 lets a packet be sent two times in a row, with the same
// continuity counter and nothing changed but a clock reference.
module SectionRepeat {
  import opened Octets
  import opened SectionDecoder
  import opened SectionStream
  import opened SectionLoss

  // q may be sent after p as its repetition.
  predicate Repeats(p: Packet, q: Packet)
    requires WellFramed(p)
  {
    && WellFramed(q) && (Carries(q) <==> Carries(p))
    && (Carries(p) ==> Continuity(q) == Continuity(p) && Head(q) == Head(p) && Area(q) == Area(p))
  }

  lemma RepeatsAlike(st: State, p: Packet, q: Packet)
    requires st.Ok() && WellFramed(p) && Repeats(p, q)
    ensures Step(st, q) == Step(st, p)
  {
  }

  // ---- One packet, repeated ----

  // Nothing was lost and nothing comes twice.
  predicate Harmless(st: State, m: Sender, p: Packet, starts: nat, again: Packet)
    requires Follows(st, m) && Sends(m, p, starts) && Repeats(p, again)
  {
    var t := Step(Step(st, p).st, again);
    t.out == [] && Follows(t.st, Next(m, p, starts))
  }

  // A repeated packet does no harm in these cases: it starts one section and
  // nothing else, and leaves it unfinished; or it carries on a section and
  // leaves none unfinished.
  predicate Repeatable(m: Sender, p: Packet, starts: nat)
    requires m.sent <= |m.cur| && Sends(m, p, starts)
  {
    var n := Next(m, p, starts);
    Carries(p) ==> if Head(p) == [] then starts == 1 && n.sent < |n.cur| else n.sent == |n.cur|
  }

  lemma LastKeepsLength(st: State, s: Section, a: seq<byte>, cc: nat)
    requires st.Ok() && st.len > 0 && IsSection(s, st.max) && a != [] && Shows(a, s)
    ensures StartSections(st, a, cc).st.len > 0
  {
    if |a| >= |s| {
      var st1 := StartWhole(st, s, a, cc);
      var rest := a[|s|..];
      assert |rest| >= 1 ==> rest[0] == STUFFING;
    } else if |a| >= 3 {
      assert a[0] == s[0] && a[1] == s[1] && a[2] == s[2];
    }
  }

  lemma {:induction false} StartKeepsLength(st: State, ss: seq<Section>, a: seq<byte>, cc: nat)
    requires st.Ok() && st.len > 0 && ss != [] && forall s :: s in ss ==> IsSection(s, st.max)
    requires Shown(ss, |a|) > 0 && Shows(a, Flatten(ss))
    ensures StartSections(st, a, cc).st.len > 0
    decreases |ss|
  {
    if |ss| == 1 {
      FlattenOne(ss[0]);
      assert ss == [ss[0]] && Flatten(ss[..0]) == [];
      LastKeepsLength(st, ss[0], a, cc);
    } else {
      ShowsTail(ss, a);
      var st1 := StartWhole(st, ss[0], a, cc);
      StartKeepsLength(st1, ss[1..], a[|ss[0]|..], cc);
    }
  }

  // A refused repetition gives up the section that is being collected.
  lemma Refused(st: State, m: Sender, p: Packet)
    requires Follows(st, m) && st.cc == m.cc && st.len > 0
    requires WellFramed(p) && Carries(p) && Head(p) != [] && Continuity(p) == m.cc
    ensures var t := Step(st, p);
      t == Outcome(st.(cc := BROKEN_CC), [], true) && (Follows(t.st, m) <==> m.sent == |m.cur|)
  {
    assert m.cc != (m.cc + 1) % 16;
  }

  lemma RepeatedCarryOn(st: State, m: Sender, p: Packet)
    requires Follows(st, m) && Sends(m, p, 0) && Carries(p)
    ensures Harmless(st, m, p, 0, p) <==> Repeatable(m, p, 0)
  {
    var n := Next(m, p, 0);
    var f := FillSection(st, Head(p), Continuity(p));
    Continued(st, m, p);
    assert Head(p) != [];
    InStepCounter(st, m, p);
    NoStart(st, p);
    Refused(f.st, n, p);
  }

  // The counter and the length that a packet which carries on leaves behind.
  lemma InStepCounter(st: State, m: Sender, p: Packet)
    requires Follows(st, m) && m.sent < |m.cur| && WellFramed(p) && Carries(p)
    requires Continuity(p) == (m.cc + 1) % 16 && Head(p) != []
    ensures var f := FillSection(st, Head(p), Continuity(p));
      !f.refused && f.st.cc == Continuity(p) && f.st.len > 0
  {
  }

  lemma RepeatedStart(st: State, m: Sender, p: Packet, starts: nat)
    requires Follows(st, m) && Sends(m, p, starts) && Carries(p) && starts > 0 && !TailStart(m, p, starts)
    requires Head(p) == []
    ensures Harmless(st, m, p, starts, p) <==> Repeatable(m, p, starts)
  {
    var o, n := Step(st, p), Next(m, p, starts);
    Started(st, m, p, starts);
    var s := StartSections(o.st, Area(p), Continuity(p));
    assert FillSection(o.st, Head(p), Continuity(p)) == Outcome(o.st, [], false);
    Unit(s.out);
    Restarted(o.st, m, p, starts);
    NothingEnds(m, p, starts, s.out);
  }

  lemma NothingEnds(m: Sender, p: Packet, starts: nat, out: seq<Section>)
    requires m.sent <= |m.cur| && Sends(m, p, starts) && Carries(p) && starts > 0
    requires m.todo == out + Next(m, p, starts).Due()
    ensures out == [] <==> starts == 1 && Next(m, p, starts).sent < |Next(m, p, starts).cur|
  {
    var n := Next(m, p, starts);
    assert |m.todo| == |out| + |n.Due()|;
    assert |n.todo| == |m.todo| - starts;
  }

  lemma RepeatedBoth(st: State, m: Sender, p: Packet, starts: nat)
    requires Follows(st, m) && Sends(m, p, starts) && Carries(p) && starts > 0 && !TailStart(m, p, starts)
    requires Head(p) != []
    ensures Harmless(st, m, p, starts, p) <==> Repeatable(m, p, starts)
  {
    var o, n := Step(st, p), Next(m, p, starts);
    Started(st, m, p, starts);
    InStepCounter(st, m, p);
    var f := FillSection(st, Head(p), Continuity(p));
    CounterIs(f.st, m, p, starts);
    StartKeepsLength(f.st, m.todo[..starts], Area(p), Continuity(p));
    Refused(o.st, n, p);
  }

  lemma InStepAfter(st: State, m: Sender, p: Packet, starts: nat)
    requires Follows(st, m) && Sends(m, p, starts)
    ensures var o := Step(st, p);
      var n := Next(m, p, starts);
      (Follows(o.st, n) <==> !TailStart(m, p, starts)) && m.Due() == o.out + n.Due()
  {
    if Carries(p) && starts > 0 {
      Started(st, m, p, starts);
    } else if Carries(p) {
      Continued(st, m, p);
    } else {
      Unit(m.Due());
    }
  }

  // The second time a packet comes nothing is delivered and the receiver
  // stays in step, if and only if the packet is one of those.
  lemma Repeated(st: State, m: Sender, p: Packet, starts: nat, again: Packet)
    requires Follows(st, m) && Sends(m, p, starts) && !TailStart(m, p, starts) && Repeats(p, again)
    ensures Harmless(st, m, p, starts, again) <==> Repeatable(m, p, starts)
  {
    RepeatsAlike(Step(st, p).st, p, again);
    if !Carries(p) {
    } else if starts == 0 {
      RepeatedCarryOn(st, m, p);
    } else if Head(p) == [] {
      RepeatedStart(st, m, p, starts);
    } else {
      RepeatedBoth(st, m, p, starts);
    }
  }

  // ---- Whole streams ----

  // What is sent: every packet, and some of them again.
  function Doubled(ps: seq<Packet>, again: seq<Option<Packet>>): (qs: seq<Packet>)
    requires |again| == |ps|
  {
    if ps == [] then
      []
    else
      [ps[0]] + ((if again[0].Some? then [again[0].value] else []) + Doubled(ps[1..], again[1..]))
  }

  predicate AllRepeat(ps: seq<Packet>, again: seq<Option<Packet>>) {
    && |again| == |ps|
    && (forall i :: 0 <= i < |ps| ==> WellFramed(ps[i]) && (again[i].Some? ==> Repeats(ps[i], again[i].value)))
  }

  lemma {:induction false} DoubledIsFramed(ps: seq<Packet>, again: seq<Option<Packet>>)
    requires AllRepeat(ps, again)
    ensures forall p :: p in Doubled(ps, again) ==> WellFramed(p)
  {
    if ps != [] {
      DoubledIsFramed(ps[1..], again[1..]);
    }
  }

  // Only repeatable packets come twice.
  predicate NoHarm(m: Sender, ps: seq<Packet>, starts: seq<nat>, again: seq<Option<Packet>>)
    requires m.sent <= |m.cur| && Stream(m, ps, starts) && |again| == |ps|
    decreases |ps|
  {
    ps != [] ==>
      && (again[0].Some? ==> Repeatable(m, ps[0], starts[0]))
      && NoHarm(Next(m, ps[0], starts[0]), ps[1..], starts[1..], again[1..])
  }

  // The packet, and its repetition if there is one, go well.
  predicate GoesWell(st: State, m: Sender, p: Packet, starts: nat, again: Option<Packet>)
    requires Follows(st, m) && Sends(m, p, starts) && (again.Some? ==> Repeats(p, again.value))
  {
    Follows(Step(st, p).st, Next(m, p, starts)) && (again.Some? ==> Harmless(st, m, p, starts, again.value))
  }

  function Then(st: State, p: Packet, again: Option<Packet>): (r: State)
    requires st.Ok() && WellFramed(p) && (again.Some? ==> Repeats(p, again.value))
    ensures r.Ok() && r.max == st.max
  {
    var o := Step(st, p);
    if again.Some? then Step(o.st, again.value).st else o.st
  }

  lemma GoesWellExactly(st: State, m: Sender, p: Packet, starts: nat, again: Option<Packet>)
    requires Follows(st, m) && Sends(m, p, starts) && (again.Some? ==> Repeats(p, again.value))
    ensures GoesWell(st, m, p, starts, again) <==>
              !TailStart(m, p, starts) && (again.Some? ==> Repeatable(m, p, starts))
    ensures GoesWell(st, m, p, starts, again) ==> Follows(Then(st, p, again), Next(m, p, starts))
  {
    InStepAfter(st, m, p, starts);
    if !TailStart(m, p, starts) && again.Some? {
      Repeated(st, m, p, starts, again.value);
    }
  }

  // The receiver is in step before and after every packet, and no repetition
  // delivers anything.
  predicate StaysRight(st: State, m: Sender, ps: seq<Packet>, starts: seq<nat>, again: seq<Option<Packet>>)
    requires m.sent <= |m.cur| && st.Ok() && Stream(m, ps, starts) && AllRepeat(ps, again)
    decreases |ps|
  {
    && Follows(st, m)
    && (ps != [] ==>
          && GoesWell(st, m, ps[0], starts[0], again[0])
          && StaysRight(Then(st, ps[0], again[0]), Next(m, ps[0], starts[0]), ps[1..], starts[1..], again[1..]))
  }

  // Over a whole run that is so if and only if no section starts in the last
  // two bytes of a packet and only repeatable packets come twice.
  lemma {:induction false} RepeatsExactly(st: State, m: Sender, ps: seq<Packet>, starts: seq<nat>,
                                          again: seq<Option<Packet>>)
    requires Follows(st, m) && Stream(m, ps, starts) && AllRepeat(ps, again)
    ensures StaysRight(st, m, ps, starts, again) <==>
              NoTailStart(m, ps, starts) && NoHarm(m, ps, starts, again)
    decreases |ps|
  {
    if ps != [] {
      GoesWellExactly(st, m, ps[0], starts[0], again[0]);
      if GoesWell(st, m, ps[0], starts[0], again[0]) {
        RepeatsExactly(Then(st, ps[0], again[0]), Next(m, ps[0], starts[0]), ps[1..], starts[1..], again[1..]);
      }
    }
  }

  // And then every section is still delivered once, in order.
  lemma {:induction false} RoundTripRepeated(st: State, m: Sender, ps: seq<Packet>, starts: seq<nat>,
                                             again: seq<Option<Packet>>)
    requires Follows(st, m) && Stream(m, ps, starts) && AllRepeat(ps, again)
    requires NoTailStart(m, ps, starts) && NoHarm(m, ps, starts, again)
    ensures forall p :: p in Doubled(ps, again) ==> WellFramed(p)
    ensures var r := Run(st, Doubled(ps, again));
      var n := Final(m, ps, starts);
      Follows(r.0, n) && m.Due() == r.1 + n.Due()
    decreases |ps|
  {
    DoubledIsFramed(ps, again);
    if ps == [] {
      Unit(m.Due());
    } else {
      var p, o, n := ps[0], Step(st, ps[0]), Next(m, ps[0], starts[0]);
      var later := Doubled(ps[1..], again[1..]);
      DoubledIsFramed(ps[1..], again[1..]);
      InStepAfter(st, m, p, starts[0]);
      if again[0].Some? {
        Repeated(st, m, p, starts[0], again[0].value);
        RunTwo(st, p, again[0].value, later);
        RoundTripRepeated(Step(o.st, again[0].value).st, n, ps[1..], starts[1..], again[1..]);
        Assoc(o.out, Run(Step(o.st, again[0].value).st, later).1, Final(m, ps, starts).Due());
      } else {
        Unit(later);
        RunOne(st, p, later);
        RoundTripRepeated(o.st, n, ps[1..], starts[1..], again[1..]);
        Assoc(o.out, Run(o.st, later).1, Final(m, ps, starts).Due());
      }
    }
  }

  // A packet, a repetition that delivers nothing, and what follows.
  lemma RunTwo(st: State, p: Packet, again: Packet, ps: seq<Packet>)
    requires st.Ok() && WellFramed(p) && WellFramed(again) && forall q :: q in ps ==> WellFramed(q)
    requires Step(Step(st, p).st, again).out == []
    ensures forall q :: q in [p] + ([again] + ps) ==> WellFramed(q)
    ensures var r := Run(Step(Step(st, p).st, again).st, ps);
      Run(st, [p] + ([again] + ps)) == (r.0, Step(st, p).out + r.1)
  {
    RunOne(Step(st, p).st, again, ps);
    RunOne(st, p, [again] + ps);
    Unit(Run(Step(Step(st, p).st, again).st, ps).1);
  }

  // ---- Harm ----

  // A short section that is packed alone and sent twice is delivered twice.
  lemma TwiceDelivered() returns (st: State, m: Sender, p: Packet)
    ensures Follows(st, m) && Sends(m, p, 1) && !TailStart(m, p, 1) && m.Due() == [SHORT]
    ensures Next(m, p, 1).Due() == []
    ensures Run(st, [p, p]).1 == [SHORT] + [SHORT]
  {
    st, m := State(4096, 0, 0, 0, Fill(0, 4096)), Sender(15, [], 0, [SHORT]);
    EmitFirst(m, 4096);
    p := Emit(m);
    var o := Step(st, p);
    assert Head(p) == [];
    InStepAfter(st, m, p, 1);
    Unit(o.out);
    SecondTime(o.st, m, p);
    RunOne(o.st, p, []);
    RunOne(st, p, [p]);
    assert [p] + [p] == [p, p] && [p] + [] == [p];
  }

  lemma SecondTime(st: State, m: Sender, p: Packet)
    requires st.Ok() && (st.cur == 0 || st.cur >= 3) && m.Ok(st.max)
    requires Sends(m, p, 1) && Carries(p) && !TailStart(m, p, 1) && Head(p) == [] && Next(m, p, 1).Due() == []
    ensures Step(st, p).out == m.todo
  {
    var s := StartSections(st, Area(p), Continuity(p));
    assert FillSection(st, Head(p), Continuity(p)) == Outcome(st, [], false);
    Restarted(st, m, p, 1);
    Unit(s.out);
  }
}
