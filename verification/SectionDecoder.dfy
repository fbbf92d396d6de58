// apps/dvb/cmds/section.c: doSection reassembles PSI sections from 188-byte
// transport packets.
module SectionDecoder {
  import opened Octets

  const BROKEN_CC := 0x20

  type Packet = seq<byte>

  // TS_F_TSEI, TS_F_PUSI, TS_F_ADAP, TS_F_PAYLOAD and TS_CC_MASK.
  predicate Carries(p: Packet)
    requires |p| == PACKET
  {
    p[3] / 16 % 2 == 1 && p[1] < 128
  }

  predicate UnitStart(p: Packet)
    requires |p| == PACKET
  {
    p[1] / 64 % 2 == 1
  }

  function Continuity(p: Packet): nat
    requires |p| == PACKET
  {
    p[3] % 16
  }

  function PayloadAt(p: Packet): nat
    requires |p| == PACKET
  {
    if p[3] / 32 % 2 == 1 then 5 + p[4] as int else 4
  }

  // What doSection takes for granted: the adaptation field and the pointer
  // field stay inside the packet.
  predicate WellFramed(p: Packet) {
    && |p| == PACKET
    && (Carries(p) ==>
          var s := PayloadAt(p);
          && s <= PACKET
          && (UnitStart(p) ==> s < PACKET && s + 1 + p[s] <= PACKET))
  }

  // The bytes before the first section start, and those from it on.
  function Head(p: Packet): seq<byte>
    requires WellFramed(p) && Carries(p)
  {
    var s := PayloadAt(p);
    if UnitStart(p) then p[s + 1..s + 1 + p[s]] else p[s..]
  }

  function Area(p: Packet): seq<byte>
    requires WellFramed(p) && Carries(p)
  {
    var s := PayloadAt(p);
    if UnitStart(p) then p[s + 1 + p[s]..] else []
  }

  // The value of struct secbuf.
  datatype State = State(max: nat, cur: nat, len: nat, cc: int, buf: seq<byte>) {
    predicate Ok() {
      |buf| == max && len <= max && (len > 0 ==> cur < len)
    }
  }

  function SectionLength(b: seq<byte>): nat
    requires |b| >= 3
  {
    (b[1] % 16) as int * 256 + b[2] as int + 3
  }

  // What one packet does: the state left behind, the sections handed to the
  // callback, and whether the packet was refused for its continuity counter.
  datatype Outcome = Outcome(st: State, out: seq<seq<byte>>, refused: bool)

  function FillSection(st: State, head: seq<byte>, cc: nat): (r: Outcome)
    requires st.Ok()
    ensures r.st.Ok() && r.st.max == st.max
  {
    if head == [] || st.len == 0 || st.cc > 15 then
      Outcome(st, [], false)
    else
      var next := (st.cc + 1) % 16;
      if cc != next then
        Outcome(st.(cc := BROKEN_CC), [], true)
      else
        var need := st.len - st.cur;
        if |head| < need then
          Outcome(st.(cc := next, cur := st.cur + |head|,
                      buf := st.buf[..st.cur] + head + st.buf[st.cur + |head|..]), [], false)
        else
          var full := st.buf[..st.cur] + head[..need] + st.buf[st.len..];
          Outcome(st.(cc := next, buf := full), [full[..st.len]], false)
  }

  function StartSections(st: State, area: seq<byte>, cc: nat): (r: Outcome)
    requires st.Ok()
    ensures r.st.Ok() && r.st.max == st.max && !r.refused
    decreases |area|
  {
    if |area| < 3 || area[0] == 0xff then
      Outcome(st, [], false)
    else
      var n := SectionLength(area);
      if n > st.max then
        Outcome(st.(cur := 0, len := 0, cc := cc), [], false)
      else if |area| < n then
        Outcome(State(st.max, |area|, n, cc, area + st.buf[|area|..]), [], false)
      else
        var r := StartSections(State(st.max, 0, n, cc, area[..n] + st.buf[n..]), area[n..], cc);
        Outcome(r.st, [area[..n]] + r.out, false)
  }

  function Step(st: State, p: Packet): (r: Outcome)
    requires st.Ok() && WellFramed(p)
    ensures r.st.Ok() && r.st.max == st.max
  {
    if !Carries(p) then
      Outcome(st, [], false)
    else
      var f := FillSection(st, Head(p), Continuity(p));
      if f.refused then
        f
      else
        var s := StartSections(f.st, Area(p), Continuity(p));
        Outcome(s.st, f.out + s.out, false)
  }

  // A whole run: every section handed to the callback, in order.
  function Run(st: State, ps: seq<Packet>): (r: (State, seq<seq<byte>>))
    requires st.Ok() && forall p :: p in ps ==> WellFramed(p)
    ensures r.0.Ok()
    decreases |ps|
  {
    if ps == [] then
      (st, [])
    else
      var o := Step(st, ps[0]);
      var r := Run(o.st, ps[1..]);
      (r.0, o.out + r.1)
  }

  // The sum of what the callback returns for these sections.
  function Results(cb: seq<byte> -> int, out: seq<seq<byte>>): int {
    if out == [] then 0 else Results(cb, out[..|out| - 1]) + cb(out[|out| - 1])
  }

  lemma {:induction false} ResultsAppend(cb: seq<byte> -> int, a: seq<seq<byte>>, b: seq<seq<byte>>)
    ensures Results(cb, a + b) == Results(cb, a) + Results(cb, b)
  {
    if b == [] {
      assert a + b == a;
    } else {
      var n := |b| - 1;
      assert (a + b)[..|a + b| - 1] == a + b[..n];
      ResultsAppend(cb, a, b[..n]);
    }
  }

  lemma ResultsOne(cb: seq<byte> -> int, s: seq<byte>)
    ensures Results(cb, [s]) == cb(s)
  {
    var none: seq<seq<byte>> := [];
    assert [s][..0] == none;
  }

  // struct secbuf as doSection updates it. The callback is an arbitrary
  // function of the section; `delivered` records what it was given.
  class SecBuf {
    var max: int
    var cur: int
    var len: int
    var cc: int
    const buf: array<byte>
    ghost var delivered: seq<seq<byte>>

    ghost predicate Valid()
      reads this, buf
    {
      && 0 <= max == buf.Length
      && 0 <= len <= max
      && 0 <= cur
      && (len > 0 ==> cur < len)
    }

    ghost function Value(): (s: State)
      reads this, buf
      requires Valid()
      ensures s.Ok()
    {
      State(max, cur, len, cc, buf[..])
    }

    constructor (size: nat)
      ensures Valid() && fresh(buf) && max == size && len == 0 && delivered == []
    {
      max, cur, len, cc := size, 0, 0, 0;
      buf := new byte[size](_ => 0);
      delivered := [];
    }

    // memcpy(sec->buf + at, src, |src|)
    method Copy(at: int, src: seq<byte>)
      requires 0 <= at && at + |src| <= buf.Length
      modifies buf
      ensures buf[..] == old(buf[..at]) + src + old(buf[at + |src|..])
    {
      for i := 0 to |src|
        invariant buf[..at] == old(buf[..at])
        invariant buf[at..at + i] == src[..i]
        invariant buf[at + i..] == old(buf[at + i..])
      {
        buf[at + i] := src[i];
        assert src[..i + 1] == src[..i] + [src[i]];
        assert old(buf[at + i + 1..]) == old(buf[at + i..])[1..];
      }
      assert src[..|src|] == src;
      assert buf[..] == buf[..at] + buf[at..at + |src|] + buf[at + |src|..];
    }

    // The middle part of doSection: more of the section being collected.
    method FillPrevious(head: seq<byte>, pcc: nat, cb: seq<byte> -> int) returns (refused: bool, ret: int)
      requires Valid()
      modifies this, buf
      ensures Valid()
      ensures var o := FillSection(old(Value()), head, pcc);
        && Value() == o.st && refused == o.refused
        && delivered == old(delivered) + o.out
        && ret == if o.refused then 1 else Results(cb, o.out)
    {
      refused, ret := false, 0;
      if |head| != 0 && len != 0 && cc <= 0x0f {
        cc := (cc + 1) % 16;
        if pcc != cc {
          cc := BROKEN_CC;
          return true, 1;
        } else if |head| < len - cur {
          Copy(cur, head);
          cur := cur + |head|;
        } else {
          Copy(cur, head[..len - cur]);
          var whole := buf[..len];
          ret := cb(whole);
          delivered := delivered + [whole];
          ResultsOne(cb, whole);
        }
      }
    }

    // A section that fits the packet.
    method Whole(b: seq<byte>, cb: seq<byte> -> int) returns (ret: int)
      requires Valid() && |b| == len && cur == 0
      modifies this`delivered, buf
      ensures Valid() && Value() == State(max, 0, |b|, cc, b + old(buf[|b|..]))
      ensures delivered == old(delivered) + [b] && ret == cb(b)
    {
      Copy(0, b);
      assert buf[..len] == b;
      ret := cb(buf[..len]);
      delivered := delivered + [buf[..len]];
    }

    // One turn of the loop of doSection: `done` when it breaks.
    method StartOne(b: seq<byte>, pcc: nat, cb: seq<byte> -> int) returns (done: bool, used: nat, ret: int)
      requires Valid() && |b| >= 3
      modifies this, buf
      ensures Valid() && max == old(max)
      ensures done ==>
        Value() == StartSections(old(Value()), b, pcc).st && StartSections(old(Value()), b, pcc).out == []
        && delivered == old(delivered) && ret == 0
      ensures !done ==>
        && 0 < used <= |b|
        && StartSections(old(Value()), b, pcc).st == StartSections(Value(), b[used..], pcc).st
        && StartSections(old(Value()), b, pcc).out == [b[..used]] + StartSections(Value(), b[used..], pcc).out
        && delivered == old(delivered) + [b[..used]] && ret == cb(b[..used])
    {
      if b[0] == 0xff {
        return true, 0, 0;
      }
      len := (b[1] % 16) as int * 256 + b[2] as int + 3;
      cur := 0;
      cc := pcc;
      if len > max {
        len := 0;
        return true, 0, 0;
      }
      if |b| < len {
        Copy(0, b);
        cur := |b|;
        return true, 0, 0;
      }
      ret := Whole(b[..len], cb);
      return false, len, ret;
    }

    // The last part: the sections that begin in this packet.
    method StartNew(area: seq<byte>, pcc: nat, cb: seq<byte> -> int) returns (ret: int)
      requires Valid()
      modifies this, buf
      ensures Valid()
      ensures var o := StartSections(old(Value()), area, pcc);
        && Value() == o.st
        && delivered == old(delivered) + o.out
        && ret == Results(cb, o.out)
    {
      ret := 0;
      ghost var all := StartSections(Value(), area, pcc);
      ghost var out: seq<seq<byte>> := [];
      Unit(delivered);
      Unit(all.out);
      var b := area;  // the pointer b and the length nlen
      while |b| >= 3
        invariant Valid()
        invariant delivered == old(delivered) + out
        invariant ret == Results(cb, out)
        invariant all.st == StartSections(Value(), b, pcc).st
        invariant all.out == out + StartSections(Value(), b, pcc).out
        decreases |b|
      {
        var done, used, r := StartOne(b, pcc, cb);
        if done {
          break;
        }
        ghost var whole := b[..used];
        b := b[used..];
        ret := ret + r;
        Assoc(old(delivered), out, [whole]);
        Assoc(out, [whole], StartSections(Value(), b, pcc).out);
        ResultsAppend(cb, out, [whole]);
        ResultsOne(cb, whole);
        out := out + [whole];
      }
      Unit(out);
    }

    lemma ToTheEnd(p: Packet, at: nat, n: nat)
      requires at + n == |p|
      ensures p[at..at + n] == p[at..] && (n == 0 ==> p[at..] == [])
    {
    }

    // The top of doSection: where the two parts of the payload lie.
    method Split(p: Packet) returns (head: seq<byte>, area: seq<byte>)
      requires WellFramed(p) && Carries(p)
      ensures head == Head(p) && area == Area(p)
    {
      var b, size, nlen := 4, 184, 0;
      // The payload begins behind the adaptation field.
      if p[3] / 32 % 2 == 1 {
        size := size - (p[4] as int + 1);
        b := b + p[4] as int + 1;
      }
      assert b == PayloadAt(p) && size == PACKET - b;
      // The pointer byte tells how much of it still belongs to the old section.
      if p[1] / 64 % 2 == 1 {
        nlen := size - p[b] as int - 1;
        size := p[b] as int;
        b := b + 1;
      }
      assert b + size + nlen == |p|;
      ToTheEnd(p, b + size, nlen);
      head, area := p[b..b + size], p[b + size..b + size + nlen];
    }

    method DoSection(p: Packet, cb: seq<byte> -> int) returns (ret: int)
      requires Valid() && WellFramed(p)
      modifies this, buf
      ensures Valid()
      ensures var o := Step(old(Value()), p);
        && Value() == o.st
        && delivered == old(delivered) + o.out
        && ret == if o.refused then 1 else Results(cb, o.out)
    {
      // A packet without payload, or marked as damaged, changes nothing.
      if !(p[3] / 16 % 2 == 1) || p[1] >= 128 {
        Unit(delivered);
        return 0;
      }
      var head, area := Split(p);
      ghost var f := FillSection(Value(), head, p[3] % 16);
      var refused, r := FillPrevious(head, p[3] % 16, cb);
      if refused {
        return r;
      }
      ghost var s := StartSections(f.st, area, p[3] % 16);
      Assoc(old(delivered), f.out, s.out);
      ret := StartNew(area, p[3] % 16, cb);
      ResultsAppend(cb, f.out, s.out);
      ret := r + ret;
    }
  }
}
