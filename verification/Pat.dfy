// Rebuilding a programme association table so that it lists only chosen
// services: RecreatePat and the first scan of AnalyzePat in tssplitter_lite.c,
// and rewrite_pat in fixpat.c.  A table is one transport packet: four header
// bytes, a pointer byte (always 0 for the first tool), the section, padding.
module Pat {
  import opened Octets
  import opened Crc32

  const HEADER: nat := 12
  const LENGTH_CRC_DATA: nat := 176
  const MAX_PID: nat := 8192
  const NIT: seq<byte8> := [0x00, 0x00, 0xe0, 0x10]
  const NIT_PID: nat := 0x10

  datatype Service = Service(sid: nat, pid: nat)

  function Word(hi: byte8, lo: byte8): nat {
    hi as int * 256 + lo as int
  }

  function GetPid(hi: byte8, lo: byte8): nat {
    Word(hi & 0x1f, lo)
  }

  function EntryAt(buf: seq<byte8>, i: nat): Service
    requires i + 4 <= |buf|
  {
    Service(Word(buf[i], buf[i + 1]), GetPid(buf[i + 2], buf[i + 3]))
  }

  lemma NextByte(b: byte8)
    requires b as nat < 255
    ensures (b + 1) as nat == b as nat + 1
  {
  }

  lemma {:induction false} SomeByte(n: nat) returns (b: byte8)
    requires n < 256
    ensures b as nat == n
  {
    if n == 0 {
      b := 0;
    } else {
      b := SomeByte(n - 1);
      NextByte(b);
      b := b + 1;
    }
  }

  lemma SameByte(n: nat, b: byte8)
    requires n < 256 && b as nat == n
    ensures n as byte8 == b
  {
  }

  lemma SizeByte(n: nat)
    requires n < 256
    ensures (n as byte8) as nat == n
  {
    var b := SomeByte(n);
    SameByte(n, b);
  }

  // Reading a table

  // The services of the entries at i, i + 4, ... below end, without the NIT.
  function Scan(buf: seq<byte8>, i: nat, end: int): seq<Service>
    requires i < end ==> end + 4 <= |buf|
    decreases end - i
  {
    if i >= end then []
    else (if EntryAt(buf, i).pid == NIT_PID then [] else [EntryAt(buf, i)]) + Scan(buf, i + 4, end)
  }

  // Where the first tool stops reading: the byte at 7 is all it takes of the
  // section length.
  function ScanEnd(buf: seq<byte8>): int
    requires |buf| == PACKET
  {
    buf[7] as int + 8 - 4
  }

  // The section of the packet ends inside the packet.
  ghost predicate InPacket(buf: seq<byte8>) {
    |buf| == PACKET && buf[7] as int + 8 <= PACKET
  }

  // One round of the scan.
  lemma ScanRound(buf: seq<byte8>, i: nat, end: int, avail: seq<Service>, more: seq<Service>)
    requires i < end && end + 4 <= |buf|
    requires more == if EntryAt(buf, i).pid == NIT_PID then [] else [EntryAt(buf, i)]
    ensures avail + Scan(buf, i, end) == (avail + more) + Scan(buf, i + 4, end)
  {
    Assoc(avail, more, Scan(buf, i + 4, end));
  }

  // The first loop of AnalyzePat.
  method Prescan(buf: seq<byte8>) returns (avail: seq<Service>)
    requires InPacket(buf)
    ensures avail == Scan(buf, 13, ScanEnd(buf))
    ensures |avail| <= 43
  {
    avail := [];
    var end := ScanEnd(buf);
    var i := 13;
    while i < end
      invariant 13 <= i && (i == 13 || i < end + 4) && |avail| <= (i - 13) / 4
      invariant avail + Scan(buf, i, end) == Scan(buf, 13, end)
    {
      var s := EntryAt(buf, i);
      var more := if s.pid == NIT_PID then [] else [s];
      ScanRound(buf, i, end, avail, more);
      avail := avail + more;
      i := i + 4;
    }
    Unit(avail);
  }

  // Choosing services

  // pos maps a PID to the place of its entry, 0 for a PID that is not chosen.
  // These are the places, in ascending order of PID, for the first p PIDs.
  function Slots(pos: seq<nat>, p: nat): (slots: seq<nat>)
    requires p <= |pos|
    ensures |slots| <= p
  {
    if p == 0 then []
    else Slots(pos, p - 1) + (if pos[p - 1] != 0 then [pos[p - 1]] else [])
  }

  // What AnalyzePat leaves in pos: places of whole entries of the packet,
  // filed under the PID they name, never the NIT.
  ghost predicate Filed(buf: seq<byte8>, pos: seq<nat>) {
    && |buf| == PACKET && |pos| == MAX_PID
    && forall p :: 0 <= p < |pos| && pos[p] != 0 ==>
      13 <= pos[p] <= PACKET - 4 && EntryAt(buf, pos[p]).pid == p && p != NIT_PID
  }

  // The new section goes into the array that RecreatePat builds it in, and
  // with its CRC into the packet.
  predicate Fits(chosen: nat) {
    HEADER + 4 * chosen <= LENGTH_CRC_DATA && 5 + HEADER + 4 * chosen + 4 <= PACKET
  }

  lemma FitsIs(chosen: nat)
    ensures Fits(chosen) <==> chosen <= 41
  {
  }

  // A choice that fits.
  ghost predicate Choice(buf: seq<byte8>, pos: seq<nat>) {
    Filed(buf, pos) && Fits(|Slots(pos, |pos|)|)
  }

  predicate AllIn(buf: seq<byte8>, slots: seq<nat>) {
    forall k :: 0 <= k < |slots| ==> slots[k] + 4 <= |buf|
  }

  // The chosen services, by PID.
  function Chosen(buf: seq<byte8>, slots: seq<nat>): (services: seq<Service>)
    requires AllIn(buf, slots)
    ensures |services| == |slots|
  {
    seq(|slots|, k requires 0 <= k < |slots| => EntryAt(buf, slots[k]))
  }

  function ByteOf(buf: seq<byte8>, slots: seq<nat>, n: nat, j: nat): byte8
    requires AllIn(buf, slots) && n < |slots| && j < 4
  {
    buf[slots[n] + j]
  }

  // Their entries, four bytes each.
  function Entries(buf: seq<byte8>, slots: seq<nat>): (bytes: seq<byte8>)
    requires AllIn(buf, slots)
    ensures |bytes| == 4 * |slots|
  {
    seq(4 * |slots|, k requires 0 <= k < 4 * |slots| => ByteOf(buf, slots, k / 4, k % 4))
  }

  lemma {:induction false} SlotsAre(pos: seq<nat>, p: nat)
    requires p <= |pos|
    ensures forall i <- Slots(pos, p) :: exists q :: 0 <= q < p && pos[q] == i && i != 0
    ensures forall q :: 0 <= q < p && pos[q] != 0 ==> pos[q] in Slots(pos, p)
  {
    if p > 0 {
      SlotsAre(pos, p - 1);
    }
  }

  lemma ChoiceIsIn(buf: seq<byte8>, pos: seq<nat>, p: nat)
    requires Choice(buf, pos) && p <= |pos|
    ensures AllIn(buf, Slots(pos, p)) && 0 !in Slots(pos, p)
  {
    SlotsAre(pos, p);
    forall k | 0 <= k < |Slots(pos, p)|
      ensures Slots(pos, p)[k] + 4 <= |buf|
    {
      var i := Slots(pos, p)[k];
      assert i in Slots(pos, p);
      var q :| 0 <= q < p && pos[q] == i && i != 0;
    }
  }

  lemma {:induction false} SlotsMonotone(pos: seq<nat>, p: nat, q: nat)
    requires p <= q <= |pos|
    ensures |Slots(pos, p)| <= |Slots(pos, q)|
    decreases q - p
  {
    if p < q {
      SlotsMonotone(pos, p, q - 1);
    }
  }

  // If every place is filed under its key, the slots ascend by key.
  lemma {:induction false} SlotsAscend(key: nat -> nat, pos: seq<nat>, p: nat)
    requires p <= |pos| && forall q :: 0 <= q < |pos| && pos[q] != 0 ==> key(pos[q]) == q
    ensures forall k :: 0 <= k < |Slots(pos, p)| ==> key(Slots(pos, p)[k]) < p
    ensures forall j, k :: 0 <= j < k < |Slots(pos, p)| ==> key(Slots(pos, p)[j]) < key(Slots(pos, p)[k])
  {
    if p > 0 {
      SlotsAscend(key, pos, p - 1);
    }
  }

  // Rebuilding

  // The new section up to its CRC.  Of the length only the low byte is new.
  function Section(buf: seq<byte8>, slots: seq<nat>): (section: seq<byte8>)
    requires |buf| == PACKET && |slots| <= 41 && AllIn(buf, slots)
    ensures |section| == HEADER + 4 * |slots|
  {
    buf[5..7] + [(4 * |slots| + 0x0d) as byte8] + buf[8..13] + NIT + Entries(buf, slots)
  }

  function Rebuilt(buf: seq<byte8>, slots: seq<nat>): (pat: seq<byte8>)
    requires |buf| == PACKET && |slots| <= 41 && AllIn(buf, slots)
    ensures |pat| == PACKET
  {
    var section := Section(buf, slots);
    buf[..5] + section + BigEndian(Crc(section)) + Fill(0xff as byte8, PACKET - 9 - |section|)
  }

  function SectionLength(p: seq<byte8>): nat
    requires |p| >= 3
  {
    Word(p[1] & 0x0f, p[2])
  }

  lemma RebuiltHead(buf: seq<byte8>, slots: seq<nat>)
    requires |buf| == PACKET && |slots| <= 41 && AllIn(buf, slots)
    ensures var out := Rebuilt(buf, slots);
      && out[..7] == buf[..7] && out[7] == (4 * |slots| + 0x0d) as byte8 && out[8..13] == buf[8..13]
      && out[13..17] == NIT == [0, 0, 0xe0, 0x10]
      && forall i :: 21 + 4 * |slots| <= i < PACKET ==> out[i] == 0xff
  {
  }

  lemma RebuiltEntry(buf: seq<byte8>, slots: seq<nat>, n: nat, j: nat)
    requires |buf| == PACKET && |slots| <= 41 && AllIn(buf, slots) && n < |slots| && j < 4
    ensures Rebuilt(buf, slots)[17 + 4 * n + j] == buf[slots[n] + j]
  {
    assert (4 * n + j) / 4 == n && (4 * n + j) % 4 == j;
    assert Entries(buf, slots)[4 * n + j] == buf[slots[n] + j];
    assert Rebuilt(buf, slots)[17 + 4 * n + j] == Section(buf, slots)[12 + 4 * n + j];
  }

  lemma SameEntry(a: seq<byte8>, i: nat, b: seq<byte8>, j: nat)
    requires i + 4 <= |a| && j + 4 <= |b|
    requires a[i] == b[j] && a[i + 1] == b[j + 1] && a[i + 2] == b[j + 2] && a[i + 3] == b[j + 3]
    ensures EntryAt(a, i) == EntryAt(b, j)
  {
  }

  function ByteAt(out: seq<byte8>, n: nat, j: nat): byte8
    requires 17 + 4 * n + j < |out|
  {
    out[17 + 4 * n + j]
  }

  // Behind the NIT stand the entries of these places.
  ghost predicate Holds(out: seq<byte8>, buf: seq<byte8>, slots: seq<nat>)
    requires AllIn(buf, slots)
  {
    && 17 + 4 * |slots| <= |out|
    && forall n, j :: 0 <= n < |slots| && 0 <= j < 4 ==> ByteAt(out, n, j) == ByteOf(buf, slots, n, j)
  }

  lemma RebuiltHolds(buf: seq<byte8>, slots: seq<nat>)
    requires |buf| == PACKET && |slots| <= 41 && AllIn(buf, slots)
    ensures Holds(Rebuilt(buf, slots), buf, slots)
  {
    forall n, j | 0 <= n < |slots| && 0 <= j < 4
      ensures ByteAt(Rebuilt(buf, slots), n, j) == ByteOf(buf, slots, n, j)
    {
      RebuiltEntry(buf, slots, n, j);
    }
  }

  lemma HeldService(out: seq<byte8>, buf: seq<byte8>, slots: seq<nat>, n: nat)
    requires AllIn(buf, slots) && Holds(out, buf, slots) && n < |slots|
    ensures EntryAt(out, 17 + 4 * n) == EntryAt(buf, slots[n])
  {
    assert ByteAt(out, n, 0) == ByteOf(buf, slots, n, 0) && ByteAt(out, n, 1) == ByteOf(buf, slots, n, 1);
    assert ByteAt(out, n, 2) == ByteOf(buf, slots, n, 2) && ByteAt(out, n, 3) == ByteOf(buf, slots, n, 3);
    SameEntry(out, 17 + 4 * n, buf, slots[n]);
  }

  // Entry k of a table whose entries start at i.
  function Nth(buf: seq<byte8>, i: nat, k: nat): Service
    requires i + 4 * k + 4 <= |buf|
  {
    EntryAt(buf, i + 4 * k)
  }

  // From i on stand the entries of these services, and none is the NIT.
  ghost predicate Stands(buf: seq<byte8>, i: nat, services: seq<Service>)
    requires i + 4 * |services| <= |buf|
  {
    forall k :: 0 <= k < |services| ==> Nth(buf, i, k) == services[k] && services[k].pid != NIT_PID
  }

  // The scan over entries that are services.
  lemma {:induction false} ScanServices(out: seq<byte8>, i: nat, services: seq<Service>)
    requires i + 4 * |services| + 4 <= |out|
    requires Stands(out, i, services)
    ensures Scan(out, i, i + 4 * |services|) == services
    decreases |services|
  {
    if services != [] {
      var rest := services[1..];
      forall k | 0 <= k < |rest|
        ensures Nth(out, i + 4, k) == rest[k] && rest[k].pid != NIT_PID
      {
        assert Nth(out, i, k + 1) == services[k + 1];
      }
      ScanServices(out, i + 4, rest);
      assert Nth(out, i, 0) == services[0];
      First(services);
    }
  }

  lemma RebuiltNit(buf: seq<byte8>, slots: seq<nat>)
    requires |buf| == PACKET && |slots| <= 41 && AllIn(buf, slots)
    ensures EntryAt(Rebuilt(buf, slots), 13).pid == NIT_PID
  {
    RebuiltHead(buf, slots);
    var out := Rebuilt(buf, slots);
    assert out[13..17][2] == NIT[2] && out[13..17][3] == NIT[3];
    SameEntry(out, 13, NIT, 0);
    NitPid();
  }

  lemma NitPid()
    ensures EntryAt(NIT, 0).pid == NIT_PID
  {
  }

  lemma RebuiltSize(buf: seq<byte8>, slots: seq<nat>)
    requires |buf| == PACKET && |slots| <= 41 && AllIn(buf, slots)
    ensures InPacket(Rebuilt(buf, slots)) && ScanEnd(Rebuilt(buf, slots)) == 17 + 4 * |slots|
  {
    RebuiltHead(buf, slots);
    SizeByte(4 * |slots| + 0x0d);
  }

  // The services at the chosen places, by PID: what the list must be when
  // entry tells what stands at a place.
  ghost predicate Lists(entry: nat -> Service, pos: seq<nat>, services: seq<Service>) {
    && (forall j, k :: 0 <= j < k < |services| ==> services[j].pid < services[k].pid)
    && (forall s <- services :: s.pid < |pos| && pos[s.pid] != 0 && s == entry(pos[s.pid]))
    && forall p :: 0 <= p < |pos| && pos[p] != 0 ==> entry(pos[p]) in services
  }

  lemma SlotsList(entry: nat -> Service, pos: seq<nat>, services: seq<Service>)
    requires forall q :: 0 <= q < |pos| && pos[q] != 0 ==> entry(pos[q]).pid == q
    requires |services| == |Slots(pos, |pos|)|
    requires forall k :: 0 <= k < |services| ==> services[k] == entry(Slots(pos, |pos|)[k])
    ensures Lists(entry, pos, services)
  {
    var slots := Slots(pos, |pos|);
    SlotsAre(pos, |pos|);
    SlotsAscend((i: nat) => entry(i).pid, pos, |pos|);
    forall s | s in services
      ensures s.pid < |pos| && pos[s.pid] != 0 && s == entry(pos[s.pid])
    {
      var k :| 0 <= k < |services| && services[k] == s;
      assert slots[k] in slots;
    }
    forall p | 0 <= p < |pos| && pos[p] != 0
      ensures entry(pos[p]) in services
    {
      var k :| 0 <= k < |slots| && slots[k] == pos[p];
      assert services[k] == entry(pos[p]);
    }
  }

  function Reader(buf: seq<byte8>): nat -> Service {
    (i: nat) => if i + 4 <= |buf| then EntryAt(buf, i) else Service(0, 0)
  }

  lemma ChosenExactly(buf: seq<byte8>, pos: seq<nat>)
    requires Choice(buf, pos)
    ensures AllIn(buf, Slots(pos, |pos|))
    ensures Lists(Reader(buf), pos, Chosen(buf, Slots(pos, |pos|)))
  {
    ChoiceIsIn(buf, pos, |pos|);
    SlotsList(Reader(buf), pos, Chosen(buf, Slots(pos, |pos|)));
  }

  lemma NoNit(entry: nat -> Service, buf: seq<byte8>, pos: seq<nat>, services: seq<Service>)
    requires Choice(buf, pos) && Lists(entry, pos, services)
    ensures forall k :: 0 <= k < |services| ==> services[k].pid != NIT_PID
  {
    forall k | 0 <= k < |services|
      ensures services[k].pid != NIT_PID
    {
      assert services[k] in services;
    }
  }

  // The entries behind the NIT are those of the chosen services.
  lemma Standing(out: seq<byte8>, buf: seq<byte8>, slots: seq<nat>, services: seq<Service>)
    requires AllIn(buf, slots) && Holds(out, buf, slots) && services == Chosen(buf, slots)
    requires forall k :: 0 <= k < |services| ==> services[k].pid != NIT_PID
    ensures Stands(out, 17, services)
  {
    forall k | 0 <= k < |services|
      ensures Nth(out, 17, k) == services[k]
    {
      HeldService(out, buf, slots, k);
    }
  }

  lemma SkipNit(out: seq<byte8>, i: nat, end: int)
    requires i < end && end + 4 <= |out| && EntryAt(out, i).pid == NIT_PID
    ensures Scan(out, i, end) == Scan(out, i + 4, end)
  {
    Unit(Scan(out, i + 4, end));
  }

  lemma RebuiltStart(buf: seq<byte8>, slots: seq<nat>, end: int)
    requires |buf| == PACKET && |slots| <= 41 && AllIn(buf, slots) && 13 < end <= PACKET - 4
    ensures Scan(Rebuilt(buf, slots), 13, end) == Scan(Rebuilt(buf, slots), 17, end)
  {
    RebuiltNit(buf, slots);
    SkipNit(Rebuilt(buf, slots), 13, end);
  }

  lemma RebuiltScan(buf: seq<byte8>, slots: seq<nat>, services: seq<Service>)
    requires |buf| == PACKET && |slots| <= 41 && AllIn(buf, slots) && services == Chosen(buf, slots)
    requires forall k :: 0 <= k < |services| ==> services[k].pid != NIT_PID
    ensures var out := Rebuilt(buf, slots); InPacket(out) && Scan(out, 13, ScanEnd(out)) == services
  {
    RebuiltSize(buf, slots);
    RebuiltHolds(buf, slots);
    Standing(Rebuilt(buf, slots), buf, slots, services);
    ScanServices(Rebuilt(buf, slots), 17, services);
    RebuiltStart(buf, slots, 17 + 4 * |services|);
  }

  // Reading the new table gives exactly the chosen services.
  lemma RebuiltLists(buf: seq<byte8>, pos: seq<nat>)
    requires Choice(buf, pos)
    ensures AllIn(buf, Slots(pos, |pos|))
    ensures var out := Rebuilt(buf, Slots(pos, |pos|));
      InPacket(out) && Lists(Reader(buf), pos, Scan(out, 13, ScanEnd(out)))
  {
    ChosenExactly(buf, pos);
    var slots := Slots(pos, |pos|);
    var services := Chosen(buf, slots);
    NoNit(Reader(buf), buf, pos, services);
    RebuiltScan(buf, slots, services);
  }

  // The section ends in its own CRC, where the byte at 7 says it ends.  The
  // twelve-bit length of the section agrees with that byte exactly when the
  // original left its upper four bits zero.
  lemma RebuiltIsSound(buf: seq<byte8>, slots: seq<nat>)
    requires |buf| == PACKET && |slots| <= 41 && AllIn(buf, slots)
    ensures var out := Rebuilt(buf, slots);
      && InPacket(out) && Crc(out[5..out[7] as int + 8]) == 0
      && (SectionLength(out[5..]) == out[7] as int <==> buf[6] & 0x0f == 0)
  {
    var out, section := Rebuilt(buf, slots), Section(buf, slots);
    RebuiltSize(buf, slots);
    RebuiltSealed(buf, slots);
    Residue(section, BigEndian(Crc(section)));
    RebuiltHead(buf, slots);
    LengthIs(out);
    UpperBits(buf[6], out[7]);
  }

  lemma RebuiltSealed(buf: seq<byte8>, slots: seq<nat>)
    requires |buf| == PACKET && |slots| <= 41 && AllIn(buf, slots)
    ensures var section := Section(buf, slots);
      Rebuilt(buf, slots)[5..21 + 4 * |slots|] == section + BigEndian(Crc(section))
  {
  }

  lemma LengthIs(out: seq<byte8>)
    requires |out| == PACKET
    ensures SectionLength(out[5..]) == Word(out[6] & 0x0f, out[7])
  {
    assert out[5..][1] == out[6] && out[5..][2] == out[7];
  }

  lemma UpperBits(hi: byte8, lo: byte8)
    ensures Word(hi & 0x0f, lo) == lo as int <==> hi & 0x0f == 0
  {
  }

  const TSS_SUCCESS := 0
  const TSS_NULL := -2

  // The part of the section that does not depend on the choice, with the old
  // length byte still in place.
  function Fixed(buf: seq<byte8>): (head: seq<byte8>)
    requires |buf| == PACKET
    ensures |head| == HEADER
  {
    buf[5..13] + NIT
  }

  lemma EntriesMore(buf: seq<byte8>, slots: seq<nat>, i: nat)
    requires AllIn(buf, slots + [i])
    ensures AllIn(buf, slots) && i + 4 <= |buf|
    ensures Entries(buf, slots + [i]) == Entries(buf, slots) + buf[i..i + 4]
  {
    assert forall k :: 0 <= k < |slots| ==> (slots + [i])[k] == slots[k];
    assert (slots + [i])[|slots|] == i;
    var all, init := Entries(buf, slots + [i]), Entries(buf, slots) + buf[i..i + 4];
    forall k | 0 <= k < |all|
      ensures all[k] == init[k]
    {
      if k >= 4 * |slots| {
        assert k / 4 == |slots|;
      }
    }
  }

  lemma SectionIs(buf: seq<byte8>, slots: seq<nat>, y: seq<byte8>)
    requires |buf| == PACKET && |slots| <= 41 && AllIn(buf, slots)
    requires y == Draft(buf, slots)
    ensures y[2 := (4 * |slots| + 0x0d) as byte8] == Section(buf, slots)
  {
  }

  method CopyHeader(buf: seq<byte8>, y: array<byte8>)
    requires |buf| == PACKET && y.Length == LENGTH_CRC_DATA
    modifies y
    ensures y[..HEADER] == Fixed(buf)
  {
    var i := 0;
    while i < HEADER - 4
      invariant 0 <= i <= HEADER - 4
      invariant forall k :: 0 <= k < i ==> y[k] == buf[k + 5]
    {
      y[i] := buf[i + 5];
      i := i + 1;
    }
    y[HEADER - 4] := 0x00;
    y[HEADER - 3] := 0x00;
    y[HEADER - 2] := 0xe0;
    y[HEADER - 1] := 0x10;
  }

  method CopyEntry(buf: seq<byte8>, i: nat, y: array<byte8>, at: nat)
    requires i + 4 <= |buf| && at + 4 <= y.Length
    modifies y
    ensures y[..at + 4] == old(y[..at]) + buf[i..i + 4]
  {
    var j := 0;
    while j < 4
      invariant 0 <= j <= 4
      invariant forall k :: 0 <= k < at ==> y[k] == old(y[k])
      invariant forall k :: at <= k < at + j ==> y[k] == buf[i + k - at]
    {
      y[at + j] := buf[i + j];
      j := j + 1;
    }
    assert y[..at] == old(y[..at]) && y[at..at + 4] == buf[i..i + 4];
  }

  // The section but for its length byte.
  function Draft(buf: seq<byte8>, slots: seq<nat>): (draft: seq<byte8>)
    requires |buf| == PACKET && AllIn(buf, slots)
    ensures |draft| == HEADER + 4 * |slots|
  {
    Fixed(buf) + Entries(buf, slots)
  }

  lemma DraftMore(buf: seq<byte8>, slots: seq<nat>, i: nat)
    requires |buf| == PACKET && AllIn(buf, slots + [i])
    ensures AllIn(buf, slots) && i + 4 <= |buf|
    ensures Draft(buf, slots + [i]) == Draft(buf, slots) + buf[i..i + 4]
  {
    EntriesMore(buf, slots, i);
    Assoc(Fixed(buf), Entries(buf, slots), buf[i..i + 4]);
  }

  // The first bytes of y hold what the first i PIDs give.
  predicate Drafted(buf: seq<byte8>, pos: seq<nat>, i: nat, y: seq<byte8>, num: nat)
    requires |buf| == PACKET && i <= |pos|
  {
    && AllIn(buf, Slots(pos, i)) && num == |Slots(pos, i)| && Fits(num)
    && HEADER + 4 * num <= |y| && y[..HEADER + 4 * num] == Draft(buf, Slots(pos, i))
  }

  // One turn of the loop over the PIDs.
  method AddEntry(buf: seq<byte8>, pos: seq<nat>, y: array<byte8>, i: nat, num: nat) returns (more: nat)
    requires Choice(buf, pos) && y.Length == LENGTH_CRC_DATA && i < |pos|
    requires Drafted(buf, pos, i, y[..], num)
    modifies y
    ensures Drafted(buf, pos, i + 1, y[..], more)
  {
    more := num;
    SlotsFit(buf, pos, i + 1);
    if pos[i] != 0 {
      DraftMore(buf, Slots(pos, i), pos[i]);
      AddTo(buf, Slots(pos, i), pos[i], y, num);
      more := num + 1;
    }
  }

  method AddTo(buf: seq<byte8>, slots: seq<nat>, i: nat, y: array<byte8>, num: nat)
    requires |buf| == PACKET && AllIn(buf, slots) && num == |slots| && i + 4 <= |buf|
    requires HEADER + 4 * num + 4 <= y.Length && y[..][..HEADER + 4 * num] == Draft(buf, slots)
    modifies y
    ensures y[..][..HEADER + 4 * num + 4] == Draft(buf, slots) + buf[i..i + 4]
  {
    assert y[..HEADER + 4 * num] == y[..][..HEADER + 4 * num];
    CopyEntry(buf, i, y, HEADER + 4 * num);
  }

  lemma DraftNone(buf: seq<byte8>, pos: seq<nat>, y: seq<byte8>)
    requires |buf| == PACKET && HEADER <= |y| && y[..HEADER] == Fixed(buf)
    ensures Drafted(buf, pos, 0, y, 0)
  {
    Unit(Fixed(buf));
  }

  lemma SlotsFit(buf: seq<byte8>, pos: seq<nat>, i: nat)
    requires Choice(buf, pos) && i <= |pos|
    ensures AllIn(buf, Slots(pos, i)) && |Slots(pos, i)| <= 41
  {
    ChoiceIsIn(buf, pos, i);
    SlotsMonotone(pos, i, |pos|);
  }

  // The data of the CRC.
  method FillSection(buf: seq<byte8>, pos: seq<nat>, y: array<byte8>) returns (num: nat)
    requires Choice(buf, pos) && y.Length == LENGTH_CRC_DATA
    modifies y
    ensures AllIn(buf, Slots(pos, |pos|)) && num == |Slots(pos, |pos|)|
    ensures y[..HEADER + 4 * num] == Section(buf, Slots(pos, |pos|))
  {
    CopyHeader(buf, y);
    assert y[..][..HEADER] == y[..HEADER];
    DraftNone(buf, pos, y[..]);
    num := 0;
    var i := 0;
    while i < |pos|
      invariant 0 <= i <= |pos| && Drafted(buf, pos, i, y[..], num)
    {
      num := AddEntry(buf, pos, y, i, num);
      i := i + 1;
    }
    assert y[..][..HEADER + 4 * num] == y[..HEADER + 4 * num];
    SetLength(buf, Slots(pos, |pos|), y, num);
  }

  method SetLength(buf: seq<byte8>, slots: seq<nat>, y: array<byte8>, num: nat)
    requires |buf| == PACKET && AllIn(buf, slots) && num == |slots| <= 41 && y.Length == LENGTH_CRC_DATA
    requires y[..HEADER + 4 * num] == Draft(buf, slots)
    modifies y
    ensures y[..HEADER + 4 * num] == Section(buf, slots)
  {
    SectionIs(buf, slots, y[..HEADER + 4 * num]);
    y[2] := (num * 4 + 0x0d) as byte8;
    assert y[..HEADER + 4 * num] == old(y[..HEADER + 4 * num])[2 := (4 * num + 0x0d) as byte8];
  }

  // The two copying loops.
  method Copy(from: seq<byte8>, n: nat, to: array<byte8>, at: nat)
    requires n <= |from| && at + n <= to.Length
    modifies to
    ensures to[..] == old(to[..at]) + from[..n] + old(to[at + n..])
  {
    var i := 0;
    while i < n
      invariant 0 <= i <= n
      invariant to[..at] == old(to[..at]) && to[at..at + i] == from[..i] && to[at + n..] == old(to[at + n..])
    {
      to[at + i] := from[i];
      i := i + 1;
    }
  }

  method PutCrc(p: array<byte8>, end: nat, crc: bv32)
    requires end + 4 <= p.Length
    modifies p
    ensures p[..] == old(p[..end]) + BigEndian(crc) + old(p[end + 4..])
  {
    p[end] := ((crc >> 24) & 0xff) as byte8;
    p[end + 1] := ((crc >> 16) & 0xff) as byte8;
    p[end + 2] := ((crc >> 8) & 0xff) as byte8;
    p[end + 3] := (crc & 0xff) as byte8;
  }

  lemma Assembled(buf: seq<byte8>, section: seq<byte8>, crc: seq<byte8>, p: seq<seq<byte8>>)
    requires |buf| == PACKET && |crc| == 4 && |section| + 9 <= PACKET && |p| == 4
    requires p[0] == Fill(0xff as byte8, PACKET)
    requires p[1] == p[0][..0] + buf[..5] + p[0][0 + 5..]
    requires p[2] == p[1][..5] + section + p[1][5 + |section|..]
    requires p[3] == p[2][..5 + |section|] + crc + p[2][5 + |section| + 4..]
    ensures p[3] == buf[..5] + section + crc + Fill(0xff as byte8, PACKET - 9 - |section|)
  {
    var n := |section|;
    assert p[1][..5] == buf[..5] && p[1][5 + n..] == p[0][5 + n..];
    assert p[2][..5 + n] == buf[..5] + section && p[2][9 + n..] == p[0][9 + n..];
    assert p[0][9 + n..] == Fill(0xff as byte8, PACKET - 9 - n);
  }

  method Assemble(buf: seq<byte8>, section: seq<byte8>, crc: bv32) returns (pat: array<byte8>)
    requires |buf| == PACKET && |section| + 9 <= PACKET
    ensures fresh(pat)
    ensures pat[..] == buf[..5] + section + BigEndian(crc) + Fill(0xff as byte8, PACKET - 9 - |section|)
  {
    pat := new byte8[PACKET](_ => 0xff);
    ghost var p0 := pat[..];
    Copy(buf, 5, pat, 0);
    ghost var p1 := pat[..];
    Copy(section, |section|, pat, 5);
    ghost var p2 := pat[..];
    PutCrc(pat, 5 + |section|, crc);
    assert section[..|section|] == section;
    Assembled(buf, section, BigEndian(crc), [p0, p1, p2, pat[..]]);
  }

  // memory tells whether malloc finds room.
  method RecreatePat(buf: seq<byte8>, pos: seq<nat>, memory: bool) returns (result: int, pat: array?<byte8>)
    requires Choice(buf, pos)
    ensures AllIn(buf, Slots(pos, |pos|))
    ensures if memory then
              result == TSS_SUCCESS && pat != null && fresh(pat) && pat[..] == Rebuilt(buf, Slots(pos, |pos|))
            else result == TSS_NULL && pat == null
  {
    var y := new byte8[LENGTH_CRC_DATA];
    var num := FillSection(buf, pos, y);
    var section := y[..HEADER + num * 4];
    assert section == Section(buf, Slots(pos, |pos|));
    var crc := GetCrc32(section);
    if !memory {
      return TSS_NULL, null;
    }
    pat := Assemble(buf, section, crc);
    result := TSS_SUCCESS;
  }
}
