// How many services RecreatePat of tssplitter_lite.c has room for: one fewer
// than a table of one packet can list.
module PatSize {
  import opened Octets
  import opened Crc32
  import opened Pat

  const SERVICES: nat := 42

  // The byte for service k, its number and PID.
  function Number(k: nat): byte8
    requires k < SERVICES
  {
    (100 + k) as byte8
  }

  function Entry(k: nat): (bytes: seq<byte8>)
    requires k < SERVICES
    ensures |bytes| == 4
  {
    [0, Number(k), 0xe0, Number(k)]
  }

  function FirstEntries(n: nat): (bytes: seq<byte8>)
    requires n <= SERVICES
    ensures |bytes| == 4 * n
  {
    if n == 0 then [] else FirstEntries(n - 1) + Entry(n - 1)
  }

  lemma {:induction false} EntryIn(n: nat, k: nat)
    requires k < n <= SERVICES
    ensures FirstEntries(n)[4 * k..4 * k + 4] == Entry(k)
  {
    if k == n - 1 {
      assert FirstEntries(n)[4 * k..] == Entry(k);
    } else {
      EntryIn(n - 1, k);
      SliceLeft(FirstEntries(n - 1), Entry(n - 1), 4 * k, 4 * k + 4);
    }
  }

  const HEAD: seq<byte8> := [0x47, 0x40, 0, 0x10, 0]
  const START: seq<byte8> := [0, 0xb0, 177, 0, 1, 0xc1, 0, 0]
  const TAIL: seq<byte8> := [0xff, 0xff, 0xff]

  // A table of 42 services and no NIT: its section is 180 bytes long.
  function FullTable(): (section: seq<byte8>)
    ensures |section| == 176
  {
    START + FirstEntries(SERVICES)
  }

  function TablePacket(): (buf: seq<byte8>)
    ensures |buf| == PACKET
  {
    HEAD + (FullTable() + BigEndian(Crc(FullTable()))) + TAIL
  }

  lemma PartsOf(head: seq<byte8>, start: seq<byte8>, entries: seq<byte8>, crc: seq<byte8>, tail: seq<byte8>)
    requires |head| == 5 && |start| == 8 && |entries| == 168 && |crc| == 4
    ensures var buf := head + (start + entries + crc) + tail;
      buf[5..13] == start && buf[13..181] == entries && buf[5..185] == start + entries + crc
  {
  }

  lemma TableHead()
    ensures var buf := TablePacket();
      && InPacket(buf) && ScanEnd(buf) == 181 && SectionLength(buf[5..]) == 177
      && Crc(buf[5..buf[7] as int + 8]) == 0
  {
    var buf := TablePacket();
    PartsOf(HEAD, START, FirstEntries(SERVICES), BigEndian(Crc(FullTable())), TAIL);
    StartIs(buf);
    Residue(FullTable(), BigEndian(Crc(FullTable())));
  }

  lemma StartIs(buf: seq<byte8>)
    requires |buf| == PACKET && buf[5..13] == START
    ensures InPacket(buf) && ScanEnd(buf) == 181 && buf[7] as int + 8 == 185 && SectionLength(buf[5..]) == 177
  {
    assert buf[7] == START[2] && buf[6] == START[1];
    assert buf[5..][1] == buf[6] && buf[5..][2] == buf[7];
  }

  lemma FourOf(buf: seq<byte8>, at: nat, e: seq<byte8>)
    requires at + 4 <= |buf| && buf[at..at + 4] == e
    ensures |e| == 4 && EntryAt(buf, at) == EntryAt(e, 0)
  {
    assert buf[at] == e[0] && buf[at + 1] == e[1] && buf[at + 2] == e[2] && buf[at + 3] == e[3];
  }

  lemma EntryIs(k: nat)
    requires k < SERVICES
    ensures EntryAt(TablePacket(), 13 + 4 * k) == Service(100 + k, 100 + k)
  {
    var buf := TablePacket();
    PartsOf(HEAD, START, FirstEntries(SERVICES), BigEndian(Crc(FullTable())), TAIL);
    EntryIn(SERVICES, k);
    SliceSlice(buf, 13, 181, 4 * k, 4 * k + 4);
    FourOf(buf, 13 + 4 * k, Entry(k));
    EntryReads(k);
  }

  lemma EntryReads(k: nat)
    requires k < SERVICES
    ensures EntryAt(Entry(k), 0) == Service(100 + k, 100 + k)
  {
    SizeByte(100 + k);
    NoUpperBits();
  }

  lemma NoUpperBits()
    ensures (0xe0 as byte8) & 0x1f == 0
  {
  }

  // The packet lists the 42 services.
  predicate ListsAll(buf: seq<byte8>) {
    |buf| == PACKET && forall k :: 0 <= k < SERVICES ==> Nth(buf, 13, k) == Service(100 + k, 100 + k)
  }

  lemma TableLists()
    ensures ListsAll(TablePacket())
  {
    forall k | 0 <= k < SERVICES
      ensures Nth(TablePacket(), 13, k) == Service(100 + k, 100 + k)
    {
      EntryIs(k);
    }
  }

  lemma {:induction false} ScanCounts(buf: seq<byte8>, k: nat)
    requires ListsAll(buf) && k <= SERVICES
    ensures |Scan(buf, 13 + 4 * k, 181)| == SERVICES - k
    decreases SERVICES - k
  {
    if k < SERVICES {
      assert Nth(buf, 13, k).pid != NIT_PID;
      ScanCounts(buf, k + 1);
    }
  }

  // Every service is chosen.
  function Places(): (pos: seq<nat>)
    ensures |pos| == MAX_PID
  {
    seq(MAX_PID, p => if 100 <= p < 142 then 13 + 4 * (p - 100) else 0)
  }

  lemma {:induction false} PlacesCount(p: nat)
    requires p <= MAX_PID
    ensures |Slots(Places(), p)| == if p <= 100 then 0 else if p <= 142 then p - 100 else SERVICES
  {
    if p > 0 {
      PlacesCount(p - 1);
    }
  }

  lemma PlacesFiled(buf: seq<byte8>, pos: seq<nat>)
    requires ListsAll(buf) && pos == Places()
    ensures Filed(buf, pos)
  {
    forall p | 0 <= p < |pos| && pos[p] != 0
      ensures 13 <= pos[p] <= PACKET - 4 && EntryAt(buf, pos[p]).pid == p && p != NIT_PID
    {
      assert Nth(buf, 13, p - 100).pid == p;
    }
  }

  // A legal table may list more services than fit, all of them chosen.
  lemma MayNotFit() returns (buf: seq<byte8>, pos: seq<nat>)
    ensures |buf| == PACKET && InPacket(buf) && Crc(buf[5..buf[7] as int + 8]) == 0
    ensures |Scan(buf, 13, ScanEnd(buf))| == SERVICES
    ensures Filed(buf, pos) && |Slots(pos, |pos|)| == SERVICES && !Choice(buf, pos)
  {
    buf, pos := TablePacket(), Places();
    TableHead();
    TableLists();
    ScanCounts(buf, 0);
    PlacesCount(MAX_PID);
    PlacesFiled(buf, pos);
  }
}
