// What a section is, section 2.4.4.10 of ISO/IEC 13818-1, and what
// apps/dvb/cmds/section.c makes of any contents and of sections that are too
// long for it.
module SectionSyntax {
  import opened Octets
  import opened SectionDecoder
  import opened SectionStream
  import opened SectionLoss

  // A table number, the four bits above the length, and what the length is
  // the length of.
  datatype Content = Content(table: byte, upper: nat, body: seq<byte>) {
    predicate Valid() {
      table != 0xff && upper < 16 && |body| < 4096
    }
  }

  function Built(c: Content): (s: Section)
    requires c.Valid()
    ensures |s| == |c.body| + 3
  {
    [c.table, 16 * c.upper + |c.body| / 256, |c.body| % 256] + c.body
  }

  lemma LengthReads(s: seq<byte>, upper: nat, n: nat)
    requires upper < 16 && n < 4096 && |s| >= 3
    requires s[1] as int == 16 * upper + n / 256 && s[2] as int == n % 256
    ensures SectionLength(s) == n + 3
  {
  }

  // The sections a receiver can take are those built from contents that fit.
  lemma BuiltIsSection(c: Content, max: nat)
    requires c.Valid() && |c.body| + 3 <= max
    ensures IsSection(Built(c), max)
  {
    LengthReads(Built(c), c.upper, |c.body|);
  }

  lemma SectionIsBuilt(s: Section, max: nat) returns (c: Content)
    requires IsSection(s, max)
    ensures c.Valid() && |c.body| + 3 <= max && s == Built(c)
  {
    c := Content(s[0], s[1] as int / 16, s[3..]);
    LengthReads(s, s[1] as int / 16, s[1] as int % 16 * 256 + s[2] as int);
    assert s == [s[0], s[1], s[2]] + s[3..];
  }

  function BuiltAll(cs: seq<Content>): (ss: seq<Section>)
    requires forall i :: 0 <= i < |cs| ==> cs[i].Valid()
    ensures |ss| == |cs| && forall i :: 0 <= i < |cs| ==> ss[i] == Built(cs[i])
  {
    seq(|cs|, i requires 0 <= i < |cs| => Built(cs[i]))
  }

  // Whatever is put into sections that fit comes out of them again.
  lemma ContentsArrive(cs: seq<Content>, max: nat, st: State)
    requires forall i :: 0 <= i < |cs| ==> cs[i].Valid() && |cs[i].body| + 3 <= max
    requires st.Ok() && st.max == max && st.len == 0 && st.cur == 0
    ensures forall s :: s in BuiltAll(cs) ==> IsSection(s, max)
    ensures var ps := Packetise(Sender(15, [], 0, BuiltAll(cs)), max).0;
      (forall p :: p in ps ==> WellFramed(p)) && Run(st, ps).1 == BuiltAll(cs)
  {
    var ss := BuiltAll(cs);
    forall s | s in ss
      ensures IsSection(s, max)
    {
      var i :| 0 <= i < |ss| && ss[i] == s;
      BuiltIsSection(cs[i], max);
    }
    PacketiserUndone(ss, max, st);
  }

  // A section too long for the receiver is dropped, with all that follows it
  // in the packet; the receiver then waits for a start.
  lemma TooLong(st: State, a: seq<byte>, cc: nat, upper: nat, n: nat)
    requires st.Ok() && |a| >= 3 && a[0] != 0xff && upper < 16 && n < 4096 && n + 3 > st.max
    requires a[1] as int == 16 * upper + n / 256 && a[2] as int == n % 256
    ensures var o := StartSections(st, a, cc); o.out == [] && Broken(o.st)
  {
    LengthReads(a, upper, n);
  }
}
