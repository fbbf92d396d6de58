// split_ts of tssplitter_lite.c: of a stream of transport packets the ones
// with a marked PID are kept, and every programme association table is
// replaced by the rebuilt one, with a continuity counter of its own.
module Splitter {
  import opened Octets
  import Crc32
  import Pat

  const MAX_PID: nat := 8192
  const TSS_SUCCESS := 0
  const TSS_ERROR := -1

  function Pid(packet: seq<byte8>): (pid: nat)
    requires |packet| == PACKET
    ensures pid < MAX_PID
  {
    PidBound(packet[1], packet[2]);
    Pat.GetPid(packet[1], packet[2])
  }

  lemma PidBound(hi: byte8, lo: byte8)
    ensures Pat.GetPid(hi, lo) < MAX_PID
  {
  }

  // The counter of the rebuilt tables

  // pat_count after one more table, when the last one was sent with c: 0xff
  // means that none was sent yet, and then the counter in the table is kept.
  function Next(c: byte8): byte8 {
    if c == 0xff then c
    else if (c + 1) % 0x10 == 0 then c + 1 - 0x10
    else c + 1
  }

  // Byte 3 of table number n, if the rebuilt table started out with c.
  function CounterAt(c: byte8, n: nat): byte8 {
    if n == 0 then c else Next(CounterAt(c, n - 1))
  }

  // One step of a continuity counter: the low four bits move on by one modulo
  // 16, the four flag bits above them stay.
  predicate StepsByOne(c: byte8, d: byte8) {
    d & 0x0f == (c + 1) & 0x0f && d & 0xf0 == c & 0xf0
  }

  lemma NextSteps(c: byte8)
    ensures c < 0xf0 ==> StepsByOne(c, Next(c)) && Next(c) < 0xf0
    ensures c >= 0xf0 ==> Next(c) == if c == 0xff then c else c + 1
    ensures StepsByOne(c, Next(c)) <==> c != 0xff
  {
  }

  lemma {:induction false} CounterStays(c: byte8, n: nat)
    ensures c < 0xf0 ==> CounterAt(c, n) < 0xf0
  {
    if n > 0 {
      CounterStays(c, n - 1);
      NextSteps(CounterAt(c, n - 1));
    }
  }

  lemma UpOne(c: byte8)
    requires c >= 0xf0
    ensures Next(c) >= 0xf0 && Next(c) as nat == if c == 0xff then 0xff else c as nat + 1
  {
    if c != 0xff {
      Pat.NextByte(c);
      NextSteps(c);
    }
  }

  lemma Full(c: byte8)
    ensures c as nat == 0xff <==> c == 0xff
  {
  }

  // With a flag nibble of 0xf the counter climbs to 0xff and stays there.
  lemma {:induction false} CounterSticks(c: byte8, n: nat)
    requires c >= 0xf0
    ensures CounterAt(c, n) >= 0xf0
    ensures CounterAt(c, n) as nat == if c as nat + n < 0xff then c as nat + n else 0xff
  {
    if n > 0 {
      CounterSticks(c, n - 1);
      UpOne(CounterAt(c, n - 1));
      Full(CounterAt(c, n - 1));
    }
  }

  ghost predicate CountsOn(c: byte8) {
    forall n: nat :: StepsByOne(CounterAt(c, n), CounterAt(c, n + 1))
  }

  // The tables sent have consecutive counters for ever exactly when the
  // rebuilt one did not start out with a flag nibble of 0xf.
  lemma CountersStep(c: byte8)
    ensures CountsOn(c) <==> c < 0xf0
  {
    if c < 0xf0 {
      forall n: nat
        ensures StepsByOne(CounterAt(c, n), CounterAt(c, n + 1))
      {
        CounterStays(c, n);
        NextSteps(CounterAt(c, n));
      }
    } else {
      var n := 0xff - c as nat;
      CounterSticks(c, n);
      Full(CounterAt(c, n));
      NextSteps(CounterAt(c, n));
      assert !StepsByOne(CounterAt(c, n), CounterAt(c, n + 1));
    }
  }

  // What comes out

  // What RescanPID did for a packet of a programme map, if it ran: the marks
  // it left and its result.
  datatype Scan = NotRun | Run(pids: seq<byte8>, result: int)

  // A packet of the input with what RescanPID did, if asked.
  datatype Item = Item(packet: seq<byte8>, scan: Scan) {
    predicate Valid() {
      |packet| == PACKET && (scan.Run? ==> |scan.pids| == MAX_PID)
    }
  }

  predicate AllValid(items: seq<Item>) {
    forall i :: 0 <= i < |items| ==> items[i].Valid()
  }

  // The marks in force, the number of tables sent so far, the packets put
  // out and the result, after some packets.
  datatype Progress = Progress(pids: seq<byte8>, sent: nat, out: seq<seq<byte8>>, result: int)

  // The marks after a packet: only one of a programme map changes them.
  function Marks(pids: seq<byte8>, pmtPids: seq<byte8>, item: Item): (marks: seq<byte8>)
    requires |pids| == |pmtPids| == MAX_PID && item.Valid()
    ensures |marks| == MAX_PID
  {
    if pmtPids[Pid(item.packet)] != 0 && item.scan.Run? then item.scan.pids else pids
  }

  // Table number n.
  function Table(base: seq<byte8>, n: nat): (table: seq<byte8>)
    requires |base| == PACKET
    ensures |table| == PACKET
  {
    base[3 := CounterAt(base[3], n)]
  }

  function OneMore(p: Progress, base: seq<byte8>, pmtPids: seq<byte8>, item: Item): (q: Progress)
    requires |base| == PACKET && |p.pids| == |pmtPids| == MAX_PID && item.Valid()
    ensures |q.pids| == MAX_PID
  {
    if Pid(item.packet) == 0 then
      p.(sent := p.sent + 1, out := p.out + [Table(base, p.sent)])
    else
      var marks := Marks(p.pids, pmtPids, item);
      Progress(marks, p.sent, if marks[Pid(item.packet)] != 0 then p.out + [item.packet] else p.out,
        if pmtPids[Pid(item.packet)] != 0 && item.scan.Run? then item.scan.result else p.result)
  }

  function After(p: Progress, base: seq<byte8>, pmtPids: seq<byte8>, items: seq<Item>): (q: Progress)
    requires |base| == PACKET && |p.pids| == |pmtPids| == MAX_PID && AllValid(items)
    ensures |q.pids| == MAX_PID
  {
    if items == [] then p
    else OneMore(After(p, base, pmtPids, items[..|items| - 1]), base, pmtPids, items[|items| - 1])
  }

  lemma AfterNext(p: Progress, base: seq<byte8>, pmtPids: seq<byte8>, items: seq<Item>, k: nat)
    requires |base| == PACKET && |p.pids| == |pmtPids| == MAX_PID && AllValid(items) && k < |items|
    ensures After(p, base, pmtPids, items[..k + 1]) ==
            OneMore(After(p, base, pmtPids, items[..k]), base, pmtPids, items[k])
  {
    assert items[..k + 1][..k] == items[..k];
  }

  // Two calls do what one call on the joined input does.
  lemma {:induction false} AfterAppend(p: Progress, base: seq<byte8>, pmtPids: seq<byte8>, a: seq<Item>, b: seq<Item>)
    requires |base| == PACKET && |p.pids| == |pmtPids| == MAX_PID && AllValid(a) && AllValid(b)
    ensures AllValid(a + b)
    ensures After(p, base, pmtPids, a + b) == After(After(p, base, pmtPids, a), base, pmtPids, b)
  {
    if b == [] {
      assert a + b == a;
    } else {
      var c := b[..|b| - 1];
      assert (a + b)[..|a + b| - 1] == a + c && (a + b)[|a + b| - 1] == b[|b| - 1];
      AfterAppend(p, base, pmtPids, a, c);
    }
  }

  // A programme map among them was scanned.
  predicate Scanned(pmtPids: seq<byte8>, items: seq<Item>)
    requires |pmtPids| == MAX_PID && AllValid(items)
  {
    exists i :: 0 <= i < |items| && ScansAt(pmtPids, items[i])
  }

  predicate ScansAt(pmtPids: seq<byte8>, item: Item)
    requires |pmtPids| == MAX_PID && item.Valid()
  {
    var pid := Pid(item.packet);
    pid != 0 && pmtPids[pid] != 0 && item.scan.Run?
  }

  // What was put out before does not matter, nor the result so far.
  lemma {:induction false} Afresh(p: Progress, q: Progress, before: seq<seq<byte8>>,
                                  base: seq<byte8>, pmtPids: seq<byte8>, items: seq<Item>)
    requires |base| == PACKET && |p.pids| == |pmtPids| == MAX_PID && AllValid(items)
    requires p.pids == q.pids && p.sent == q.sent && p.out == before + q.out
    ensures var r, s := After(p, base, pmtPids, items), After(q, base, pmtPids, items);
      && r.pids == s.pids && r.sent == s.sent && r.out == before + s.out
      && if Scanned(pmtPids, items) then r.result == s.result else r.result == p.result && s.result == q.result
  {
    if items != [] {
      var n := |items| - 1;
      Afresh(p, q, before, base, pmtPids, items[..n]);
      var r, s := After(p, base, pmtPids, items[..n]), After(q, base, pmtPids, items[..n]);
      OneAfresh(r, s, before, base, pmtPids, items[n]);
      assert items == items[..n] + [items[n]];
      ScannedMore(pmtPids, items[..n], items[n]);
    }
  }

  lemma OneAfresh(p: Progress, q: Progress, before: seq<seq<byte8>>, base: seq<byte8>, pmtPids: seq<byte8>, item: Item)
    requires |base| == PACKET && |p.pids| == |pmtPids| == MAX_PID && item.Valid()
    requires p.pids == q.pids && p.sent == q.sent && p.out == before + q.out
    ensures var r, s := OneMore(p, base, pmtPids, item), OneMore(q, base, pmtPids, item);
      && r.pids == s.pids && r.sent == s.sent && r.out == before + s.out
      && if ScansAt(pmtPids, item) then r.result == s.result else r.result == p.result && s.result == q.result
  {
    Assoc(before, q.out, [Table(base, p.sent)]);
    Assoc(before, q.out, [item.packet]);
  }

  lemma ScannedMore(pmtPids: seq<byte8>, items: seq<Item>, item: Item)
    requires |pmtPids| == MAX_PID && AllValid(items) && item.Valid()
    ensures AllValid(items + [item])
    ensures Scanned(pmtPids, items + [item]) <==> Scanned(pmtPids, items) || ScansAt(pmtPids, item)
  {
    var all := items + [item];
    assert all[|items|] == item;
    if i :| 0 <= i < |items| && ScansAt(pmtPids, items[i]) {
      assert all[i] == items[i];
    }
  }

  // Two calls of SplitTs, each starting with nothing put out and success: put
  // together they put out what one call on the joined input does, and they
  // report what it does unless the second scanned no programme map.
  lemma CallsJoin(p: Progress, base: seq<byte8>, pmtPids: seq<byte8>, a: seq<Item>, b: seq<Item>)
    requires |base| == PACKET && |p.pids| == |pmtPids| == MAX_PID && AllValid(a) && AllValid(b)
    ensures AllValid(a + b)
    ensures var first := After(p, base, pmtPids, a);
      var second := After(first.(out := [], result := TSS_SUCCESS), base, pmtPids, b);
      var joined := After(p, base, pmtPids, a + b);
      && joined.out == first.out + second.out
      && joined.pids == second.pids && joined.sent == second.sent
      && joined.result == if Scanned(pmtPids, b) then second.result else first.result
  {
    AfterAppend(p, base, pmtPids, a, b);
    var first := After(p, base, pmtPids, a);
    Unit(first.out);
    Afresh(first, first.(out := [], result := TSS_SUCCESS), first.out, base, pmtPids, b);
  }

  function MarksAfter(pids: seq<byte8>, pmtPids: seq<byte8>, items: seq<Item>): (marks: seq<byte8>)
    requires |pids| == |pmtPids| == MAX_PID && AllValid(items)
    ensures |marks| == MAX_PID
  {
    if items == [] then pids
    else
      var item := items[|items| - 1];
      var marks := MarksAfter(pids, pmtPids, items[..|items| - 1]);
      if Pid(item.packet) == 0 then marks else Marks(marks, pmtPids, item)
  }

  // The marks in force are those made by the last scan of a programme map, or
  // the old ones if there was none.
  lemma {:induction false} MarksAre(pids: seq<byte8>, pmtPids: seq<byte8>, items: seq<Item>) returns (last: int)
    requires |pids| == |pmtPids| == MAX_PID && AllValid(items)
    ensures -1 <= last < |items| && forall k :: last < k < |items| ==> !ScansAt(pmtPids, items[k])
    ensures last == -1 ==> MarksAfter(pids, pmtPids, items) == pids
    ensures last >= 0 ==>
      && items[last].scan.Run? && Pid(items[last].packet) != 0 && pmtPids[Pid(items[last].packet)] != 0
      && MarksAfter(pids, pmtPids, items) == items[last].scan.pids
  {
    if items == [] {
      last := -1;
    } else {
      var n := |items| - 1;
      last := MarksAre(pids, pmtPids, items[..n]);
      if ScansAt(pmtPids, items[n]) {
        last := n;
      }
    }
  }

  function Tables(items: seq<Item>): nat
    requires AllValid(items)
  {
    if items == [] then 0
    else Tables(items[..|items| - 1]) + (if Pid(items[|items| - 1].packet) == 0 then 1 else 0)
  }

  // Packet i has a place in the output.
  predicate Kept(pids: seq<byte8>, pmtPids: seq<byte8>, items: seq<Item>, i: nat)
    requires |pids| == |pmtPids| == MAX_PID && AllValid(items) && i < |items|
  {
    var pid := Pid(items[i].packet);
    pid == 0 || MarksAfter(pids, pmtPids, items[..i + 1])[pid] != 0
  }

  function AllKept(pids: seq<byte8>, pmtPids: seq<byte8>, items: seq<Item>): (keep: seq<bool>)
    requires |pids| == |pmtPids| == MAX_PID && AllValid(items)
    ensures |keep| == |items|
  {
    seq(|items|, i requires 0 <= i < |items| => Kept(pids, pmtPids, items, i))
  }

  // What stands there.
  function Shown(sent: nat, base: seq<byte8>, items: seq<Item>, i: nat): seq<byte8>
    requires |base| == PACKET && AllValid(items) && i < |items|
  {
    if Pid(items[i].packet) == 0 then Table(base, sent + Tables(items[..i])) else items[i].packet
  }

  function AllShown(sent: nat, base: seq<byte8>, items: seq<Item>): (shown: seq<seq<byte8>>)
    requires |base| == PACKET && AllValid(items)
    ensures |shown| == |items|
  {
    seq(|items|, i requires 0 <= i < |items| => Shown(sent, base, items, i))
  }

  lemma Prefixes(pids: seq<byte8>, pmtPids: seq<byte8>, items: seq<Item>, sent: nat, base: seq<byte8>)
    requires |base| == PACKET && |pids| == |pmtPids| == MAX_PID && AllValid(items) && items != []
    ensures var n := |items| - 1;
      && AllKept(pids, pmtPids, items) == AllKept(pids, pmtPids, items[..n]) + [Kept(pids, pmtPids, items, n)]
      && AllShown(sent, base, items) == AllShown(sent, base, items[..n]) + [Shown(sent, base, items, n)]
  {
    var n := |items| - 1;
    forall i | 0 <= i < n
      ensures Kept(pids, pmtPids, items, i) == Kept(pids, pmtPids, items[..n], i)
      ensures Shown(sent, base, items, i) == Shown(sent, base, items[..n], i)
    {
      assert items[..n][..i + 1] == items[..i + 1] && items[..n][..i] == items[..i];
    }
  }

  // out is shown at the places to keep, in order; places[k] is the place of
  // out[k].
  ghost predicate Selects<T>(places: seq<nat>, out: seq<T>, keep: seq<bool>, shown: seq<T>) {
    && |places| == |out| && |keep| == |shown|
    && (forall j, k :: 0 <= j < k < |places| ==> places[j] < places[k])
    && (forall k :: 0 <= k < |places| ==> places[k] < |keep| && keep[places[k]] && out[k] == shown[places[k]])
    && forall i :: 0 <= i < |keep| && keep[i] ==> i in places
  }

  lemma SelectsMore<T>(places: seq<nat>, out: seq<T>, keep: seq<bool>, shown: seq<T>, k: bool, s: T)
    requires Selects(places, out, keep, shown)
    ensures if k then Selects(places + [|keep|], out + [s], keep + [k], shown + [s])
            else Selects(places, out, keep + [k], shown + [s])
  {
    if k {
      var more := places + [|keep|];
      assert more[|places|] == |keep|;
      forall i | 0 <= i < |keep| && keep[i]
        ensures i in more
      {
        assert i in places;
      }
    }
  }

  // One packet more, in the terms of Kept and Shown.
  lemma LastPacket(p: Progress, base: seq<byte8>, pmtPids: seq<byte8>, items: seq<Item>, q: Progress)
    requires |base| == PACKET && |p.pids| == |pmtPids| == MAX_PID && AllValid(items) && items != []
    requires var init := items[..|items| - 1];
      q.sent == p.sent + Tables(init) && q.pids == MarksAfter(p.pids, pmtPids, init)
    ensures var n := |items| - 1;
      var r := OneMore(q, base, pmtPids, items[n]);
      && r.sent == p.sent + Tables(items) && r.pids == MarksAfter(p.pids, pmtPids, items)
      && r.out == if Kept(p.pids, pmtPids, items, n) then q.out + [Shown(p.sent, base, items, n)] else q.out
  {
    assert items[..|items|] == items;
  }

  // The output is the input in order: of every packet whose PID is marked
  // when it comes the same bytes, of every table the rebuilt one with the
  // next counter, of the others nothing.
  lemma {:induction false} OutputIs(p: Progress, base: seq<byte8>, pmtPids: seq<byte8>, items: seq<Item>)
    returns (places: seq<nat>, out: seq<seq<byte8>>)
    requires |base| == PACKET && |p.pids| == |pmtPids| == MAX_PID && AllValid(items)
    ensures var q := After(p, base, pmtPids, items);
      && q.out == p.out + out && q.sent == p.sent + Tables(items) && q.pids == MarksAfter(p.pids, pmtPids, items)
    ensures Selects(places, out, AllKept(p.pids, pmtPids, items), AllShown(p.sent, base, items))
  {
    if items == [] {
      places, out := [], [];
      Unit(p.out);
    } else {
      var n := |items| - 1;
      places, out := OutputIs(p, base, pmtPids, items[..n]);
      LastPacket(p, base, pmtPids, items, After(p, base, pmtPids, items[..n]));
      Prefixes(p.pids, pmtPids, items, p.sent, base);
      var kept, shown := Kept(p.pids, pmtPids, items, n), Shown(p.sent, base, items, n);
      SelectsMore(places, out, AllKept(p.pids, pmtPids, items[..n]), AllShown(p.sent, base, items[..n]), kept, shown);
      if kept {
        Assoc(p.out, out, [shown]);
        places, out := places + [n], out + [shown];
      }
    }
  }

  // A scan does not look at what stands before it.
  lemma {:induction false} SameScan(a: seq<byte8>, b: seq<byte8>, i: nat, end: int)
    requires |a| == |b| && forall k :: i <= k < |a| ==> a[k] == b[k]
    requires i < end ==> end + 4 <= |a|
    ensures Pat.Scan(a, i, end) == Pat.Scan(b, i, end)
    decreases end - i
  {
    if i < end {
      Pat.SameEntry(a, i, b, i);
      SameScan(a, b, i + 4, end);
    }
  }

  lemma TableKeeps(base: seq<byte8>, n: nat)
    requires |base| == PACKET
    ensures var t := Table(base, n);
      t[5..] == base[5..] && forall k :: 0 <= k < PACKET && k != 3 ==> t[k] == base[k]
  {
  }

  // Whichever of the tables it is: what the rebuilt table says and the residue
  // of its section stay.
  lemma TableSays(base: seq<byte8>, n: nat)
    requires Pat.InPacket(base)
    ensures var t := Table(base, n);
      && Pat.InPacket(t) && t[5..t[7] as int + 8] == base[5..base[7] as int + 8]
      && Pat.Scan(t, 13, Pat.ScanEnd(t)) == Pat.Scan(base, 13, Pat.ScanEnd(base))
  {
    var t := Table(base, n);
    TableKeeps(base, n);
    SliceSlice(t, 5, PACKET, 0, t[7] as int + 3);
    SliceSlice(base, 5, PACKET, 0, t[7] as int + 3);
    SameScan(t, base, 13, Pat.ScanEnd(t));
  }

  // A table that says this, in any of its copies.
  ghost predicate Says(table: seq<byte8>, buf: seq<byte8>, pos: seq<nat>) {
    && Pat.InPacket(table) && Crc32.Crc(table[5..table[7] as int + 8]) == 0
    && Pat.Lists(Pat.Reader(buf), pos, Pat.Scan(table, 13, Pat.ScanEnd(table)))
  }

  lemma AllSay(base: seq<byte8>, n: nat, buf: seq<byte8>, pos: seq<nat>)
    requires Pat.InPacket(base) && Says(base, buf, pos)
    ensures Says(Table(base, n), buf, pos)
  {
    TableSays(base, n);
  }

  // The rebuilt table lists exactly the chosen services, by PID, and ends in
  // its own CRC.
  lemma RebuiltSays(buf: seq<byte8>, pos: seq<nat>, slots: seq<nat>)
    requires Pat.Choice(buf, pos) && slots == Pat.Slots(pos, |pos|)
    ensures Pat.AllIn(buf, slots) && Says(Pat.Rebuilt(buf, slots), buf, pos)
  {
    Pat.RebuiltLists(buf, pos);
    Pat.RebuiltIsSound(buf, slots);
  }

  lemma ShownIsTable(sent: nat, base: seq<byte8>, items: seq<Item>, i: nat) returns (n: nat)
    requires |base| == PACKET && AllValid(items) && i < |items| && Pid(items[i].packet) == 0
    ensures Shown(sent, base, items, i) == Table(base, n)
  {
    n := sent + Tables(items[..i]);
  }

  // So does every table put out.
  lemma ShownSays(sent: nat, base: seq<byte8>, buf: seq<byte8>, pos: seq<nat>,
                  items: seq<Item>, i: nat, table: seq<byte8>)
    requires |base| == PACKET && Says(base, buf, pos)
    requires AllValid(items) && i < |items| && Pid(items[i].packet) == 0 && table == Shown(sent, base, items, i)
    ensures Says(table, buf, pos)
  {
    var n := ShownIsTable(sent, base, items, i);
    AllSay(base, n, buf, pos);
  }

  lemma {:induction false} TablesBetween(items: seq<Item>, i: nat, j: nat)
    requires AllValid(items) && i < j <= |items| && Pid(items[i].packet) == 0
    requires forall k :: i < k < j ==> Pid(items[k].packet) != 0
    ensures Tables(items[..j]) == Tables(items[..i]) + 1
    decreases j
  {
    assert items[..j][..j - 1] == items[..j - 1];
    if j > i + 1 {
      TablesBetween(items, i, j - 1);
    }
  }

  lemma {:induction false} NoTables(items: seq<Item>, i: nat)
    requires AllValid(items) && i <= |items| && forall k :: 0 <= k < i ==> Pid(items[k].packet) != 0
    ensures Tables(items[..i]) == 0
  {
    if i > 0 {
      assert items[..i][..i - 1] == items[..i - 1];
      NoTables(items, i - 1);
    }
  }

  // The first table is the rebuilt one as it is.
  lemma FirstTable(base: seq<byte8>, items: seq<Item>, i: nat)
    requires |base| == PACKET && AllValid(items) && i < |items| && Pid(items[i].packet) == 0
    requires forall k :: 0 <= k < i ==> Pid(items[k].packet) != 0
    ensures Shown(0, base, items, i) == base
  {
    NoTables(items, i);
  }

  // Of two tables with none between them the second differs from the first
  // in the counter alone, and the counter steps by one.
  lemma NextTable(sent: nat, base: seq<byte8>, items: seq<Item>, i: nat, j: nat)
    requires |base| == PACKET && AllValid(items) && i < j < |items| && base[3] < 0xf0
    requires Pid(items[i].packet) == 0 && Pid(items[j].packet) == 0
    requires forall k :: i < k < j ==> Pid(items[k].packet) != 0
    ensures var a, b := Shown(sent, base, items, i), Shown(sent, base, items, j);
      |a| == |b| == PACKET && b == a[3 := b[3]] && StepsByOne(a[3], b[3])
  {
    TablesBetween(items, i, j);
    CountersStep(base[3]);
    var n := sent + Tables(items[..i]);
    assert StepsByOne(CounterAt(base[3], n), CounterAt(base[3], n + 1));
  }

  // The method

  lemma FlattenMore<T>(out: seq<seq<T>>, packet: seq<T>)
    ensures Flatten(out + [packet]) == Flatten(out) + packet
  {
    FlattenAppend(out, [packet]);
    FlattenOne(packet);
  }

  // The packets of a buffer, each with what RescanPID did for it.
  function Items(data: seq<byte8>, scans: seq<Scan>): (items: seq<Item>)
    requires |data| == PACKET * |scans|
    ensures |items| == |scans|
  {
    seq(|scans|, i requires 0 <= i < |scans| => Item(data[PACKET * i..PACKET * i + PACKET], scans[i]))
  }

  lemma ItemAt(data: seq<byte8>, scans: seq<Scan>, k: nat, s: nat)
    requires |data| == PACKET * |scans| && k < |scans| && s == PACKET * k
    ensures s + PACKET <= |data| && Items(data, scans)[k] == Item(data[s..s + PACKET], scans[k])
  {
  }

  class Splitter {
    const pids: array<byte8>
    const pmtPids: array<byte8>
    const pat: array<byte8>
    var patCount: byte8
    // The rebuilt table, and how many were sent.
    ghost const base: seq<byte8>
    ghost var sent: nat

    ghost predicate Valid()
      reads this`patCount, this`sent, pat
    {
      && pids != pmtPids && pids != pat && pmtPids != pat
      && pids.Length == pmtPids.Length == MAX_PID && |base| == PACKET
      && patCount == (if sent == 0 then 0xff else CounterAt(base[3], sent - 1))
      && pat[..] == if sent == 0 then base else Table(base, sent - 1)
    }

    // After split_select: the table is rebuilt, the marks are made.
    constructor (rebuilt: seq<byte8>, marks: seq<byte8>, pmtMarks: seq<byte8>)
      requires |rebuilt| == PACKET && |marks| == |pmtMarks| == MAX_PID
      ensures Valid() && sent == 0 && base == rebuilt && pids[..] == marks && pmtPids[..] == pmtMarks
      ensures fresh(pids) && fresh(pmtPids) && fresh(pat)
    {
      pids := new byte8[MAX_PID](i requires 0 <= i < MAX_PID => marks[i]);
      pmtPids := new byte8[MAX_PID](i requires 0 <= i < MAX_PID => pmtMarks[i]);
      pat := new byte8[PACKET](i requires 0 <= i < PACKET => rebuilt[i]);
      patCount := 0xff;
      base := rebuilt;
      sent := 0;
    }

    // The counter of the next table.
    method CountUp()
      requires Valid()
      modifies this`patCount, this`sent, pat
      ensures Valid() && sent == old(sent) + 1 && pat[..] == Table(base, old(sent))
    {
      if patCount == 0xff {
        patCount := pat[3];
      } else {
        patCount := patCount + 1;
        if patCount % 0x10 == 0 {
          patCount := patCount - 0x10;
        }
      }
      pat[3] := patCount;
      sent := sent + 1;
    }

    // memcpy of one packet to the output.
    method Put(packet: seq<byte8>, buffer: array<byte8>, at: nat)
      requires |packet| == PACKET && at + PACKET <= buffer.Length
      modifies buffer
      ensures buffer[..at + PACKET] == old(buffer[..at]) + packet
    {
      forall i | 0 <= i < PACKET {
        buffer[at + i] := packet[i];
      }
    }

    method Rescan(scan: Scan, result0: int) returns (result: int)
      requires scan.Run? ==> |scan.pids| == MAX_PID && pids.Length == MAX_PID
      modifies pids
      ensures scan.NotRun? ==> pids[..] == old(pids[..]) && result == result0
      ensures scan.Run? ==> pids[..] == scan.pids && result == scan.result
    {
      result := result0;
      if scan.Run? {
        forall i | 0 <= i < MAX_PID {
          pids[i] := scan.pids[i];
        }
        result := scan.result;
      }
    }

    ghost predicate Matches(p: Progress, buffer: array<byte8>, filled: nat, result: int)
      reads this`sent, pids, buffer
    {
      && p.pids == pids[..] && p.sent == sent && p.result == result
      && filled <= buffer.Length && buffer[..filled] == Flatten(p.out) && filled == PACKET * |p.out|
    }

    // The body of the loop.
    method OnePacket(item: Item, buffer: array<byte8>, filled0: nat, result0: int, ghost p: Progress)
      returns (filled: nat, result: int)
      requires Valid() && item.Valid() && buffer !in {pids, pmtPids, pat}
      requires filled0 + PACKET <= buffer.Length && Matches(p, buffer, filled0, result0)
      modifies this`patCount, this`sent, pat, pids, buffer
      ensures Valid() && filled <= filled0 + PACKET
      ensures Matches(OneMore(p, base, pmtPids[..], item), buffer, filled, result)
    {
      var packet := item.packet;
      var pid := Pid(packet);
      filled, result := filled0, result0;
      if pid == 0 {
        CountUp();
        Put(pat[..], buffer, filled);
        filled := filled + PACKET;
        FlattenMore(p.out, pat[..]);
      } else {
        if pmtPids[pid] != 0 {
          result := Rescan(item.scan, result);
        }
        if pids[pid] != 0 {
          Put(packet, buffer, filled);
          filled := filled + PACKET;
          FlattenMore(p.out, packet);
        }
      }
    }

    // The loop.
    method Packets(data: seq<byte8>, size: int, scans: seq<Scan>, buffer: array<byte8>,
        ghost items: seq<Item>, ghost start: Progress, ghost pmt: seq<byte8>) returns (filled: nat, result: int)
      requires Valid() && buffer !in {pids, pmtPids, pat} && pmt == pmtPids[..]
      requires |data| == size == PACKET * |scans| && size <= buffer.Length
      requires items == Items(data, scans) && AllValid(items)
      requires Matches(start, buffer, 0, TSS_SUCCESS)
      modifies this`patCount, this`sent, pat, pids, buffer
      ensures Valid() && filled <= size
      ensures Matches(After(start, base, pmt, items), buffer, filled, result)
    {
      filled, result := 0, TSS_SUCCESS;
      var sOffset, k := 0, 0;
      while size > sOffset
        invariant 0 <= k <= |scans| && sOffset == PACKET * k && filled <= sOffset
        invariant Valid() && pmtPids[..] == pmt
        invariant Matches(After(start, base, pmt, items[..k]), buffer, filled, result)
      {
        AfterNext(start, base, pmt, items, k);
        ItemAt(data, scans, k, sOffset);
        var item := Item(data[sOffset..sOffset + PACKET], scans[k]);
        filled, result := OnePacket(item, buffer, filled, result, After(start, base, pmt, items[..k]));
        sOffset := sOffset + PACKET;
        k := k + 1;
      }
      assert items[..k] == items;
    }

    // The size is that of the buffer and may be negative on an error of the
    // reader.  The output buffer takes as much as the input.
    method SplitTs(data: seq<byte8>, size: int, scans: seq<Scan>, buffer: array<byte8>)
      returns (filled: nat, result: int)
      requires Valid() && buffer !in {pids, pmtPids, pat}
      requires size >= 0 ==> |data| == size == PACKET * |scans| && size <= buffer.Length
      requires forall i :: 0 <= i < |scans| && scans[i].Run? ==> |scans[i].pids| == MAX_PID
      modifies this`patCount, this`sent, pat, pids, buffer
      ensures Valid()
      ensures size < 0 ==> result == TSS_ERROR && filled == 0
      ensures size < 0 ==> pat[..] == old(pat[..]) && pids[..] == old(pids[..]) && sent == old(sent)
      ensures size >= 0 ==> filled <= size
      ensures size >= 0 ==>
        Matches(After(Progress(old(pids[..]), old(sent), [], TSS_SUCCESS), base, pmtPids[..], Items(data, scans)),
          buffer, filled, result)
    {
      filled := 0;
      if size < 0 {
        return filled, TSS_ERROR;
      }
      filled, result := Packets(data, size, scans, buffer,
        Items(data, scans), Progress(pids[..], sent, [], TSS_SUCCESS), pmtPids[..]);
    }
  }
}
