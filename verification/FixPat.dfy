// rewrite_pat of fixpat.c: a programme association table is cut down, in its
// packet, to the entry of one service.
module FixPat {
  import opened Octets
  import opened Crc32
  import Pat

  datatype Outcome = Broken | NotFound | Rewritten

  // Where the section starts, if the packet holds the start of one with
  // sixteen bytes to spare.
  datatype Start = At(p: nat) | Nowhere

  predicate HeaderOk(buf: seq<byte8>)
    requires |buf| == PACKET
  {
    buf[1] & 0x80 == 0 && buf[1] & 0x40 != 0 && buf[3] & 0x10 != 0
  }

  // The pointer byte follows the header and the adaptation field.
  function PointerAt(buf: seq<byte8>): nat
    requires |buf| == PACKET
  {
    if buf[3] & 0x20 != 0 then 4 + buf[4] as int + 1 else 4
  }

  function StartOf(buf: seq<byte8>): (start: Start)
    requires |buf| == PACKET
    ensures start.At? ==> 5 <= start.p < PACKET - 16 && buf[start.p] == 0
  {
    if !HeaderOk(buf) || PointerAt(buf) >= PACKET then Nowhere
    else
      var p := PointerAt(buf) + buf[PointerAt(buf)] as int + 1;
      if p >= PACKET - 16 || buf[p] != 0 then Nowhere else At(p)
  }

  // A packet in its parts: header, adaptation field, pointer byte, the end of
  // the section before, and what starts after that.
  predicate Framed(buf: seq<byte8>, head: seq<byte8>, field: seq<byte8>, pointer: byte8,
      tail: seq<byte8>, section: seq<byte8>)
  {
    && |buf| == PACKET && |head| == 4 && |tail| == pointer as int
    && (head[3] & 0x20 != 0 <==> field != [])
    && (field != [] ==> |field| == field[0] as int + 1)
    && buf == head + field + [pointer] + tail + section
  }

  lemma PartsAre(buf: seq<byte8>, head: seq<byte8>, field: seq<byte8>, pointer: byte8,
      tail: seq<byte8>, section: seq<byte8>)
    requires |head| == 4 && buf == head + field + [pointer] + tail + section
    ensures buf[3] == head[3] && (field != [] ==> buf[4] == field[0])
    ensures buf[4 + |field|] == pointer && buf[5 + |field| + |tail|..] == section
  {
  }

  lemma FindsAt(buf: seq<byte8>, at: nat, section: seq<byte8>)
    requires |buf| == PACKET && PointerAt(buf) == at < PACKET
    requires at + 1 + buf[at] as int + |section| == PACKET && buf[at + 1 + buf[at] as int..] == section
    ensures StartOf(buf) ==
      if HeaderOk(buf) && |section| > 16 && section[0] == 0 then At(PACKET - |section|) else Nowhere
  {
  }

  // What starts in the packet is found behind its parts: if the header allows
  // it, it is a table, and there is room for one entry and a byte more.
  lemma LocateFinds(buf: seq<byte8>, head: seq<byte8>, field: seq<byte8>, pointer: byte8,
      tail: seq<byte8>, section: seq<byte8>)
    requires Framed(buf, head, field, pointer, tail, section)
    ensures StartOf(buf) ==
      if HeaderOk(buf) && |section| > 16 && section[0] == 0 then At(PACKET - |section|) else Nowhere
  {
    PartsAre(buf, head, field, pointer, tail, section);
    var at := 4 + |field|;
    assert PointerAt(buf) == at;
    FindsAt(buf, at, section);
  }

  // Nothing is found in any other packet.
  lemma FoundIsFramed(buf: seq<byte8>) returns (head: seq<byte8>, field: seq<byte8>, tail: seq<byte8>)
    requires |buf| == PACKET && StartOf(buf).At?
    ensures Framed(buf, head, field, buf[PointerAt(buf)], tail, buf[StartOf(buf).p..])
  {
    var at, p := PointerAt(buf), StartOf(buf).p;
    head, field, tail := buf[..4], buf[4..at], buf[at + 1..p];
    Cut(buf, p);
    assert buf[..p] == head + field + [buf[at]] + tail;
  }

  // The end of the entries of the section at p.
  function End(buf: seq<byte8>, p: nat): int
    requires p + 3 <= |buf|
  {
    p + 3 + Pat.SectionLength(buf[p..]) - 4
  }

  // The search from q on reads no byte outside the packet: it comes to the end
  // or to an entry of service sid before that, wherever the section ends.
  predicate InReach(buf: seq<byte8>, q: nat, end: int, sid: nat)
    decreases end - q
  {
    q < end ==>
      q + 2 <= |buf| &&
      if Pat.Word(buf[q], buf[q + 1]) == sid then q + 4 <= |buf| else InReach(buf, q + 4, end, sid)
  }

  // A section that ends in the packet can be searched for anything.
  lemma {:induction false} EndsInReach(buf: seq<byte8>, q: nat, end: int, sid: nat)
    requires end + 4 <= |buf|
    ensures InReach(buf, q, end, sid)
    decreases end - q
  {
    if q < end {
      EndsInReach(buf, q + 4, end, sid);
    }
  }

  // The first entry of service sid at q, q + 4, ... below end; end or more if
  // there is none.
  function Find(buf: seq<byte8>, q: nat, end: int, sid: nat): (r: nat)
    requires InReach(buf, q, end, sid)
    ensures q <= r
    ensures r < end ==> r + 4 <= |buf| && Pat.Word(buf[r], buf[r + 1]) == sid && (r - q) % 4 == 0
    decreases end - q
  {
    if q >= end || Pat.Word(buf[q], buf[q + 1]) == sid then q
    else Find(buf, q + 4, end, sid)
  }

  // rewrite_pat reads nothing behind the packet.
  predicate InPacket(buf: seq<byte8>, sid: nat) {
    && |buf| == PACKET
    && (StartOf(buf).At? ==> var p := StartOf(buf).p; InReach(buf, p + 8, End(buf, p), sid))
  }

  // The new section: eight header bytes with the new length and one entry.
  function Section(buf: seq<byte8>, p: nat, q: nat): (section: seq<byte8>)
    requires p + 8 <= |buf| && q + 4 <= |buf|
    ensures |section| == 12
  {
    [buf[p], buf[p + 1] & 0xf0, 13] + buf[p + 3..p + 8] + buf[q..q + 4]
  }

  function Rewrite(buf: seq<byte8>, p: nat, q: nat): (out: seq<byte8>)
    requires |buf| == PACKET && p + 16 <= PACKET && q + 4 <= PACKET
    ensures |out| == PACKET
  {
    var section := Section(buf, p, q);
    buf[..p] + section + BigEndian(Crc(section)) + Fill(0xff as byte8, PACKET - p - 16)
  }

  // The outcome for a packet.
  function Verdict(buf: seq<byte8>, sid: nat): Outcome
    requires InPacket(buf, sid)
  {
    match StartOf(buf)
    case Nowhere => Broken
    case At(p) => if Find(buf, p + 8, End(buf, p), sid) < End(buf, p) then Rewritten else NotFound
  }

  lemma {:induction false} FirstMatch(buf: seq<byte8>, q: nat, end: int, sid: nat, k: nat)
    requires InReach(buf, q, end, sid) && q + 4 * k < end && q + 4 * k < Find(buf, q, end, sid)
    ensures q + 4 * k + 2 <= |buf|
    ensures Pat.Word(buf[q + 4 * k], buf[q + 4 * k + 1]) != sid
    decreases k
  {
    if k > 0 {
      FirstMatch(buf, q + 4, end, sid, k - 1);
      assert q + 4 + 4 * (k - 1) == q + 4 * k;
    }
  }

  method Search(buf: array<byte8>, from: nat, end: int, sid: nat) returns (q: nat)
    requires InReach(buf[..], from, end, sid)
    ensures q == Find(buf[..], from, end, sid)
  {
    q := from;
    while q < end
      invariant from <= q && InReach(buf[..], q, end, sid)
      invariant Find(buf[..], q, end, sid) == Find(buf[..], from, end, sid)
    {
      if Pat.Word(buf[q], buf[q + 1]) == sid {
        break;
      }
      q := q + 4;
    }
  }

  // The packet afterwards.
  function Result(buf: seq<byte8>, sid: nat): (out: seq<byte8>)
    requires InPacket(buf, sid)
    ensures |out| == PACKET
  {
    if Verdict(buf, sid).Rewritten? then
      var p := StartOf(buf).p;
      Rewrite(buf, p, Find(buf, p + 8, End(buf, p), sid))
    else buf
  }

  // The two ways of taking a CRC apart.
  lemma SameBytes(crc: bv32)
    ensures ((crc & 0xff00_0000) >> 24) as byte8 == ((crc >> 24) & 0xff) as byte8
    ensures ((crc & 0x00ff_0000) >> 16) as byte8 == ((crc >> 16) & 0xff) as byte8
    ensures ((crc & 0x0000_ff00) >> 8) as byte8 == ((crc >> 8) & 0xff) as byte8
  {
  }

  method PutCrc(buf: array<byte8>, at: nat, crc: bv32)
    requires at + 4 <= buf.Length
    modifies buf
    ensures buf[..] == old(buf[..at]) + BigEndian(crc) + old(buf[at + 4..])
  {
    SameBytes(crc);
    buf[at] := ((crc & 0xff00_0000) >> 24) as byte8;
    buf[at + 1] := ((crc & 0x00ff_0000) >> 16) as byte8;
    buf[at + 2] := ((crc & 0x0000_ff00) >> 8) as byte8;
    buf[at + 3] := (crc & 0xff) as byte8;
  }

  lemma Pieces(b: seq<byte8>, p: nat, q: nat, c: seq<byte8>)
    requires p + 12 <= |b| == |c| && p + 8 <= q && q + 4 <= |b|
    requires c[p + 1] == b[p + 1] & 0xf0 && c[p + 2] == 13
    requires forall i :: p + 8 <= i < p + 12 ==> c[i] == b[q + i - p - 8]
    requires forall i :: 0 <= i <= p || p + 3 <= i < p + 8 || p + 12 <= i < |b| ==> c[i] == b[i]
    ensures c == b[..p] + Section(b, p, q) + b[p + 12..]
  {
    var section := Section(b, p, q);
    forall i | 0 <= i < 12
      ensures c[p + i] == section[i]
    {
    }
    assert c[..p] == b[..p] && c[p..p + 12] == section && c[p + 12..] == b[p + 12..];
  }

  method PutEntry(buf: array<byte8>, p: nat, q: nat)
    requires p + 12 <= buf.Length && p + 8 <= q && q + 4 <= buf.Length
    modifies buf
    ensures buf[..] == old(buf[..p]) + Section(old(buf[..]), p, q) + old(buf[p + 12..])
  {
    buf[p + 1] := buf[p + 1] & 0xf0;
    buf[p + 2] := 8 + 4 + 4 - 3;
    forall i | 0 <= i < 4 {
      buf[p + 8 + i] := buf[q + i];
    }
    Pieces(old(buf[..]), p, q, buf[..]);
  }

  method Pad(buf: array<byte8>, from: nat)
    requires from <= buf.Length
    modifies buf
    ensures buf[..] == old(buf[..from]) + Fill(0xff as byte8, buf.Length - from)
  {
    forall i | from <= i < buf.Length {
      buf[i] := 0xff;
    }
  }

  lemma Put(b0: seq<byte8>, p: nat, section: seq<byte8>, crc: seq<byte8>,
      b1: seq<byte8>, b2: seq<byte8>, b3: seq<byte8>)
    requires p + 16 <= |b0| && |section| == 12 && |crc| == 4
    requires b1 == b0[..p] + section + b0[p + 12..]
    requires b2 == b1[..p + 12] + crc + b1[p + 16..]
    requires b3 == b2[..p + 16] + Fill(0xff as byte8, |b0| - p - 16)
    ensures b1[p..p + 12] == section
    ensures b3 == b0[..p] + section + crc + Fill(0xff as byte8, |b0| - p - 16)
  {
  }

  // The part of rewrite_pat after the search.
  method Replace(buf: array<byte8>, p: nat, q: nat)
    requires buf.Length == PACKET && p + 16 <= PACKET && p + 8 <= q && q + 4 <= PACKET
    modifies buf
    ensures buf[..] == Rewrite(old(buf[..]), p, q)
  {
    ghost var b0 := buf[..];
    PutEntry(buf, p, q);
    ghost var b1 := buf[..];
    assert b1 == b0[..p] + Section(b0, p, q) + b0[p + 12..];
    var crc := CalcCrc32(buf[p..p + 12]);
    assert buf[p..p + 12] == b1[p..p + 12] == Section(b0, p, q);
    PutCrc(buf, p + 12, crc);
    ghost var b2 := buf[..];
    Pad(buf, p + 16);
    Put(b0, p, Section(b0, p, q), BigEndian(crc), b1, b2, buf[..]);
  }

  // The part before it.
  method Locate(buf: seq<byte8>) returns (start: Start)
    requires |buf| == PACKET
    ensures start == StartOf(buf)
  {
    if buf[1] & 0x80 != 0 || buf[1] & 0x40 == 0 || buf[3] & 0x10 == 0 {
      return Nowhere;
    }
    var p := SkipAdaptation(buf);
    if p >= PACKET {
      return Nowhere;
    }
    p := p + buf[p] as int + 1;
    if p >= PACKET - 16 || buf[p] != 0 {
      return Nowhere;
    }
    return At(p);
  }

  method SkipAdaptation(buf: seq<byte8>) returns (p: nat)
    requires |buf| == PACKET
    ensures p == PointerAt(buf)
  {
    p := 4;
    if buf[3] & 0x20 != 0 {
      p := p + (buf[4] as int + 1);
    }
  }

  method RewritePat(buf: array<byte8>, sid: nat) returns (outcome: Outcome)
    requires InPacket(buf[..], sid)
    modifies buf
    ensures outcome == Verdict(old(buf[..]), sid)
    ensures buf[..] == Result(old(buf[..]), sid)
  {
    var start := Locate(buf[..]);
    if start == Nowhere {
      return Broken;
    }
    var p := start.p;
    var len := Pat.SectionLength(buf[p..]);
    var end := p + 3 + len - 4;
    var q := Search(buf, p + 8, end, sid);
    if q >= end {
      return NotFound;
    }
    Replace(buf, p, q);
    return Rewritten;
  }

  // What a rewritten packet is

  lemma SameHeader(b: seq<byte8>, c: seq<byte8>)
    requires |b| == |c| == PACKET && c[1] == b[1] && c[3] == b[3] && c[4] == b[4]
    ensures HeaderOk(c) == HeaderOk(b) && PointerAt(c) == PointerAt(b)
  {
  }

  lemma SameFinds(b: seq<byte8>, c: seq<byte8>, at: nat, p: nat)
    requires |b| == |c| == PACKET && StartOf(b) == At(p)
    requires HeaderOk(c) == HeaderOk(b) && PointerAt(c) == PointerAt(b) == at
    requires at < PACKET ==> c[at] == b[at] && c[p] == b[p]
    ensures StartOf(c) == At(p)
  {
  }

  lemma SameStart(b: seq<byte8>, c: seq<byte8>, p: nat)
    requires |b| == |c| == PACKET && StartOf(b) == At(p) && c[..p + 1] == b[..p + 1]
    ensures StartOf(c) == At(p)
  {
    forall i | 0 <= i <= p
      ensures c[i] == b[i]
    {
      assert c[i] == c[..p + 1][i] && b[i] == b[..p + 1][i];
    }
    SameHeader(b, c);
    SameFinds(b, c, PointerAt(b), p);
  }

  lemma Bytes(buf: seq<byte8>, p: nat, q: nat)
    requires |buf| == PACKET && p + 16 <= PACKET && q + 4 <= PACKET
    ensures var out := Rewrite(buf, p, q);
      && out[..p + 1] == buf[..p + 1] && out[p + 1] == buf[p + 1] & 0xf0 && out[p + 2] == 13
      && out[p + 3..p + 8] == buf[p + 3..p + 8] && out[p + 8..p + 12] == buf[q..q + 4]
      && out[p..p + 16] == Section(buf, p, q) + BigEndian(Crc(Section(buf, p, q)))
  {
  }

  lemma NewLength(hi: byte8)
    ensures Pat.Word((hi & 0xf0) & 0x0f, 13) == 13 && (hi & 0xf0) & 0xf0 == hi & 0xf0
  {
  }

  lemma NewEnd(buf: seq<byte8>, p: nat, q: nat)
    requires |buf| == PACKET && p + 16 <= PACKET && q + 4 <= PACKET
    ensures End(Rewrite(buf, p, q), p) == p + 12
  {
    Bytes(buf, p, q);
    NewLength(buf[p + 1]);
    var out := Rewrite(buf, p, q);
    assert out[p..][1] == out[p + 1] && out[p..][2] == out[p + 2];
  }

  // The one entry is the one that was found.
  lemma NewEntry(buf: seq<byte8>, p: nat, q: nat)
    requires |buf| == PACKET && p + 16 <= PACKET && q + 4 <= PACKET
    ensures Pat.EntryAt(Rewrite(buf, p, q), p + 8) == Pat.EntryAt(buf, q)
  {
    Bytes(buf, p, q);
    var out := Rewrite(buf, p, q);
    assert out[p + 8] == out[p + 8..p + 12][0] && out[p + 9] == out[p + 8..p + 12][1];
    assert out[p + 10] == out[p + 8..p + 12][2] && out[p + 11] == out[p + 8..p + 12][3];
    Pat.SameEntry(out, p + 8, buf, q);
  }

  // Its section ends in its own CRC.
  lemma NewCrc(buf: seq<byte8>, p: nat, q: nat)
    requires |buf| == PACKET && p + 16 <= PACKET && q + 4 <= PACKET
    ensures var out := Rewrite(buf, p, q); Crc(out[p..p + 16]) == 0
  {
    Bytes(buf, p, q);
    Residue(Section(buf, p, q), BigEndian(Crc(Section(buf, p, q))));
  }

  // Rewriting once more changes nothing.
  lemma Again(buf: seq<byte8>, p: nat, q: nat)
    requires |buf| == PACKET && p + 16 <= PACKET && q + 4 <= PACKET
    ensures var out := Rewrite(buf, p, q); Rewrite(out, p, p + 8) == out
  {
    var out := Rewrite(buf, p, q);
    Bytes(buf, p, q);
    NewLength(buf[p + 1]);
    assert out[p] == out[..p + 1][p] && buf[p] == buf[..p + 1][p];
    assert Section(out, p, p + 8) == Section(buf, p, q);
    assert out[..p] == buf[..p] by {
      assert out[..p] == out[..p + 1][..p] && buf[..p] == buf[..p + 1][..p];
    }
  }

  // A rewritten packet is a whole packet, its section 16 bytes with zero
  // residue, the rest of its header kept, its one entry the one at q.
  lemma RewriteIsSound(buf: seq<byte8>, p: nat, q: nat)
    requires |buf| == PACKET && StartOf(buf) == At(p) && q + 4 <= PACKET
    ensures var out := Rewrite(buf, p, q);
      && StartOf(out) == At(p) && End(out, p) == p + 12
      && out[..p + 1] == buf[..p + 1] && out[p + 1] & 0xf0 == buf[p + 1] & 0xf0
      && out[p + 3..p + 8] == buf[p + 3..p + 8] && out[p + 8..p + 12] == buf[q..q + 4]
      && Crc(out[p..p + 16]) == 0 && (forall i :: p + 16 <= i < PACKET ==> out[i] == 0xff)
      && Pat.EntryAt(out, p + 8) == Pat.EntryAt(buf, q)
  {
    Bytes(buf, p, q);
    SameStart(buf, Rewrite(buf, p, q), p);
    NewLength(buf[p + 1]);
    NewEnd(buf, p, q);
    NewEntry(buf, p, q);
    NewCrc(buf, p, q);
  }

  lemma OneEntry(out: seq<byte8>, p: nat, sid: nat, wanted: nat)
    requires |out| == PACKET && StartOf(out) == At(p) && End(out, p) == p + 12
    requires Pat.Word(out[p + 8], out[p + 9]) == sid
    ensures InPacket(out, wanted)
    ensures Find(out, p + 8, p + 12, wanted) == if wanted == sid then p + 8 else p + 12
    ensures Verdict(out, wanted) == if wanted == sid then Rewritten else NotFound
  {
  }

  lemma OnceMore(out: seq<byte8>, p: nat, sid: nat, wanted: nat)
    requires |out| == PACKET && StartOf(out) == At(p) && End(out, p) == p + 12
    requires Pat.Word(out[p + 8], out[p + 9]) == sid && Rewrite(out, p, p + 8) == out
    ensures InPacket(out, wanted) && Result(out, wanted) == out
    ensures Verdict(out, wanted) == if wanted == sid then Rewritten else NotFound
  {
    OneEntry(out, p, sid, wanted);
  }

  lemma RewriteOnce(buf: seq<byte8>, p: nat, q: nat, sid: nat, wanted: nat)
    requires |buf| == PACKET && StartOf(buf) == At(p) && q + 4 <= PACKET
    requires Pat.EntryAt(buf, q).sid == sid
    ensures var out := Rewrite(buf, p, q);
      && InPacket(out, wanted) && Result(out, wanted) == out
      && Verdict(out, wanted) == if wanted == sid then Rewritten else NotFound
  {
    RewriteIsSound(buf, p, q);
    Again(buf, p, q);
    OnceMore(Rewrite(buf, p, q), p, sid, wanted);
  }

  // Looking for sid again finds it and leaves the packet alone; no other
  // service is left.
  lemma RewrittenTwice(buf: seq<byte8>, sid: nat, wanted: nat)
    requires InPacket(buf, sid) && Verdict(buf, sid) == Rewritten
    ensures InPacket(Result(buf, sid), wanted)
    ensures Verdict(Result(buf, sid), wanted) == if wanted == sid then Rewritten else NotFound
    ensures Result(Result(buf, sid), wanted) == Result(buf, sid)
  {
    var p := StartOf(buf).p;
    RewriteOnce(buf, p, Find(buf, p + 8, End(buf, p), sid), sid, wanted);
  }

  lemma OneService(out: seq<byte8>, service: Pat.Service)
    requires |out| == PACKET && out[7] == 13 && Pat.EntryAt(out, 13) == service
    ensures Pat.InPacket(out)
    ensures Pat.Scan(out, 13, Pat.ScanEnd(out)) == if service.pid == Pat.NIT_PID then [] else [service]
  {
  }

  // The recorder reads the new packet as the table of that service alone.
  lemma RecorderAgrees(buf: seq<byte8>, sid: nat)
    requires InPacket(buf, sid) && Verdict(buf, sid) == Rewritten && StartOf(buf) == At(5)
    ensures var q, out := Find(buf, 13, End(buf, 5), sid), Result(buf, sid);
      && Pat.InPacket(out)
      && Pat.Scan(out, 13, Pat.ScanEnd(out)) ==
         if Pat.EntryAt(buf, q).pid == Pat.NIT_PID then [] else [Pat.Service(sid, Pat.EntryAt(buf, q).pid)]
  {
    var q := Find(buf, 13, End(buf, 5), sid);
    Bytes(buf, 5, q);
    NewEntry(buf, 5, q);
    OneService(Rewrite(buf, 5, q), Pat.EntryAt(buf, q));
  }
}
