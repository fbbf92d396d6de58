// The first bytes of a transport packet, section 2.4.3.2 of ISO/IEC 13818-1,
// and what the tools make of them. Each tool has a reader of its own; they
// agree on what the fields are.
module TsHeader {
  import opened Arith
  import opened Octets
  import FixPat
  import Pat
  import Restamp
  import SectionDecoder
  import Splitter

  datatype Header = Header(error: bool, start: bool, priority: bool, pid: nat,
                           scrambling: nat, adaptation: bool, payload: bool, counter: nat) {
    predicate Ok() {
      pid < 8192 && scrambling < 4 && counter < 16
    }
  }

  function Flag(b: bool, weight: nat): nat {
    if b then weight else 0
  }

  function Bytes(h: Header): (r: seq<byte>)
    requires h.Ok()
    ensures |r| == 4
  {
    [0x47, Flag(h.error, 128) + Flag(h.start, 64) + Flag(h.priority, 32) + h.pid / 256, h.pid % 256,
     64 * h.scrambling + Flag(h.adaptation, 32) + Flag(h.payload, 16) + h.counter]
  }

  // A packet with this header.
  predicate Begins(p: seq<byte>, h: Header) {
    && h.Ok() && |p| == PACKET
    && p[0] == Bytes(h)[0] && p[1] == Bytes(h)[1] && p[2] == Bytes(h)[2] && p[3] == Bytes(h)[3]
  }

  lemma UpperByte(h: Header, b: nat)
    requires h.Ok() && b == Flag(h.error, 128) + Flag(h.start, 64) + Flag(h.priority, 32) + h.pid / 256
    ensures b < 256 && (b >= 128 <==> h.error) && (b / 64 % 2 == 1 <==> h.start) && b % 32 == h.pid / 256
  {
    var top := Flag(h.error, 4) + Flag(h.start, 2) + Flag(h.priority, 1);
    assert b == 32 * top + h.pid / 256;
    assert b / 64 == Flag(h.error, 2) + Flag(h.start, 1);
  }

  lemma LastByte(h: Header, b: nat)
    requires h.Ok() && b == 64 * h.scrambling + Flag(h.adaptation, 32) + Flag(h.payload, 16) + h.counter
    ensures b < 256 && (b / 32 % 2 == 1 <==> h.adaptation) && (b / 16 % 2 == 1 <==> h.payload)
    ensures b % 16 == h.counter
  {
    assert b == 16 * (4 * h.scrambling + Flag(h.adaptation, 2) + Flag(h.payload, 1)) + h.counter;
    assert b / 16 == 4 * h.scrambling + Flag(h.adaptation, 2) + Flag(h.payload, 1);
    assert b / 32 == 2 * h.scrambling + Flag(h.adaptation, 1);
  }

  // Where the payload starts: behind the adaptation field, if there is one.
  function PayloadOf(p: seq<byte>, h: Header): nat
    requires Begins(p, h)
  {
    if h.adaptation then 4 + 1 + p[4] as int else 4
  }

  // section.c
  lemma SectionReads(p: seq<byte>, h: Header)
    requires Begins(p, h)
    ensures SectionDecoder.Carries(p) <==> h.payload && !h.error
    ensures SectionDecoder.UnitStart(p) <==> h.start
    ensures SectionDecoder.Continuity(p) == h.counter
    ensures SectionDecoder.PayloadAt(p) == PayloadOf(p, h)
  {
    UpperByte(h, p[1] as int);
    LastByte(h, p[3] as int);
  }

  // A packet without a payload, or with the error mark, changes nothing.
  lemma SectionIgnores(st: SectionDecoder.State, p: seq<byte>, h: Header)
    requires st.Ok() && Begins(p, h) && (h.error || !h.payload)
    ensures SectionDecoder.WellFramed(p) && SectionDecoder.Step(st, p) == SectionDecoder.Outcome(st, [], false)
  {
    SectionReads(p, h);
  }

  // The flags of the adaptation field: a reference and an original reference.
  function FieldFlags(upper: nat, pcr: bool, opcr: bool, lower: nat): nat {
    32 * upper + Flag(pcr, 16) + Flag(opcr, 8) + lower
  }

  lemma FieldFlagsRead(b: byte, upper: nat, pcr: bool, opcr: bool, lower: nat)
    requires upper < 8 && lower < 8 && b == FieldFlags(upper, pcr, opcr, lower)
    ensures (Bit(b, 4) <==> pcr) && (Bit(b, 3) <==> opcr)
  {
    assert b == 8 * (4 * upper + Flag(pcr, 2) + Flag(opcr, 1)) + lower;
    assert b / 8 == 4 * upper + Flag(pcr, 2) + Flag(opcr, 1);
    assert b / 16 == 2 * upper + Flag(pcr, 1);
  }

  // restamp.c
  lemma RestampReads(p: seq<byte>, h: Header)
    requires Begins(p, h)
    ensures Restamp.Pid(p) == h.pid && Restamp.Payload(p) == PayloadOf(p, h)
    ensures Restamp.Skipped(p) <==> h.pid < 0x30 || h.pid == 8191 || h.error
    ensures forall upper, pcr, opcr, lower :: upper < 8 && lower < 8 && p[5] == FieldFlags(upper, pcr, opcr, lower) ==>
      && (Restamp.HasPcr(p) <==> h.adaptation && p[4] >= 7 && pcr)
      && Restamp.PcrPlace(p) == if p[4] >= 12 && opcr then 13 else 6
  {
    UpperByte(h, p[1] as int);
    LastByte(h, p[3] as int);
    forall upper, pcr, opcr, lower | upper < 8 && lower < 8 && p[5] == FieldFlags(upper, pcr, opcr, lower)
      ensures (Bit(p[5], 4) <==> pcr) && (Bit(p[5], 3) <==> opcr)
    {
      FieldFlagsRead(p[5], upper, pcr, opcr, lower);
    }
  }

  // A PES header with stamps: start code, stream, and the two flags.
  lemma RestampReadsPes(p: seq<byte>, h: Header)
    requires Begins(p, h)
    ensures var q := PayloadOf(p, h);
      Restamp.HasPes(p) <==>
        && h.start && h.payload && q + 14 < PACKET && p[q..q + 3] == [0, 0, 1]
        && (p[q + 3] == 0xbd || 0xbf <= p[q + 3] <= 0xef)
    ensures Restamp.HasPes(p) ==> Restamp.Stream(p) + 0xbd == p[PayloadOf(p, h) + 3] as int
  {
    UpperByte(h, p[1] as int);
    LastByte(h, p[3] as int);
    RestampReads(p, h);
  }

  lemma StampFlagsRead(b: byte, flags: nat, lower: nat)
    requires flags < 4 && lower < 64 && b as int == 64 * flags + lower
    ensures (Bit(b, 7) <==> flags >= 2) && (Bit(b, 6) <==> flags % 2 == 1)
  {
    assert b / 64 == flags;
  }

  // ---- Bytes as bit vectors ----

  predicate Begins8(p: seq<byte8>, h: Header) {
    && h.Ok() && |p| == PACKET
    && p[0] as int == Bytes(h)[0] && p[1] as int == Bytes(h)[1]
    && p[2] as int == Bytes(h)[2] && p[3] as int == Bytes(h)[3]
  }

  lemma Mask80(b: byte8)
    ensures b & 0x80 == 0 <==> (b as int) < 128
  {
  }

  lemma Mask40(b: byte8)
    ensures b & 0x40 != 0 <==> b as int / 64 % 2 == 1
  {
  }

  lemma Mask20(b: byte8)
    ensures b & 0x20 != 0 <==> b as int / 32 % 2 == 1
  {
  }

  lemma Mask10(b: byte8)
    ensures b & 0x10 != 0 <==> b as int / 16 % 2 == 1
  {
  }

  // fixpat.c
  lemma FixPatReads(p: seq<byte8>, h: Header)
    requires Begins8(p, h)
    ensures FixPat.HeaderOk(p) <==> !h.error && h.start && h.payload
    ensures FixPat.PointerAt(p) == if h.adaptation then 4 + 1 + p[4] as int else 4
  {
    UpperByte(h, p[1] as int);
    LastByte(h, p[3] as int);
    Mask80(p[1]);
    Mask40(p[1]);
    Mask20(p[3]);
    Mask10(p[3]);
  }

  lemma FiveBits(b: byte8)
    ensures (b & 0x1f) as int == b as int % 32
  {
  }

  // tssplitter_lite.c
  lemma SplitterReads(p: seq<byte8>, h: Header)
    requires Begins8(p, h)
    ensures Splitter.Pid(p) == h.pid
  {
    UpperByte(h, p[1] as int);
    FiveBits(p[1]);
  }

  lemma LowBits(high: nat, n: nat, upper: nat, m: nat)
    requires n < m * 256 && high == m * upper + n / 256
    ensures high % m == n / 256
  {
    RemainderIs(high, m, upper, n / 256);
  }

  // An entry of a programme association table: a service and, below three
  // reserved bits, a PID.
  lemma EntryReads(buf: seq<byte8>, i: nat, sid: nat, reserved: nat, pid: nat)
    requires i + 4 <= |buf| && sid < 0x1_0000 && reserved < 8 && pid < 8192
    requires buf[i] as int == sid / 256 && buf[i + 1] as int == sid % 256
    requires buf[i + 2] as int == 32 * reserved + pid / 256 && buf[i + 3] as int == pid % 256
    ensures Pat.EntryAt(buf, i) == Pat.Service(sid, pid)
  {
    FiveBits(buf[i + 2]);
    LowBits(buf[i + 2] as int, pid, reserved, 32);
  }

  lemma FourBits(b: byte8)
    ensures (b & 0x0f) as int == b as int % 16
  {
  }

  // The length of a section is the lower twelve bits of its second and third
  // byte.
  lemma LengthReads(p: seq<byte8>, upper: nat, length: nat)
    requires |p| >= 3 && upper < 16 && length < 4096
    requires p[1] as int == 16 * upper + length / 256 && p[2] as int == length % 256
    ensures Pat.SectionLength(p) == length
  {
    FourBits(p[1]);
    LowBits(p[1] as int, length, upper, 16);
  }
}
