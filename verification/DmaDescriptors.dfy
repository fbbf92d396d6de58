// The linked list of DMA descriptors that tells the FPGA where to write:
// pt3_dma_build_page_descriptor in drivers/video/pt3_dtv.c and dma_create in
// drivers/media/pci/ptx/pt3_pci.c.
module DmaDescriptors {
  import opened Arith
  import opened Octets

  const DESC_SIZE := 20
  const DMA_PAGE_SIZE := 4096

  // The three words of a 20-byte descriptor, flag bits included.
  datatype Desc = Desc(ts: nat, size: nat, next: nat)

  // x | 7 and x | 2
  function Or7(x: nat): nat {
    x - x % 8 + 7
  }

  function Or2(x: nat): nat {
    if x / 2 % 2 == 1 then x else x + 2
  }

  // One driver sets the flag bits, the other writes bare words.
  function Word7(flags: bool, x: nat): nat {
    if flags then Or7(x) else x
  }

  function Word2(flags: bool, x: nat): nat {
    if flags then Or2(x) else x
  }

  // How the FPGA takes the words apart.
  function Bare(w: nat): nat {
    w - w % 8
  }

  function Target(w: nat): nat {
    w - w % 4
  }

  predicate Ends(w: nat) {
    w % 2 == 1
  }

  lemma FlagsComeOff(x: nat)
    ensures x % 8 == 0 ==> Bare(Or7(x)) == x && Bare(x) == x
    ensures x % 4 == 0 ==> Target(Or2(x)) == x && Target(x) == x && !Ends(Or2(x)) && !Ends(x)
    ensures Ends(Or2(1))
  {
    if x % 8 == 0 {
      Flags7(x / 8);
    }
    if x % 4 == 0 {
      Flags2(x / 4);
    }
  }

  lemma Flags7(q: nat)
    ensures Bare(Or7(8 * q)) == 8 * q && Bare(8 * q) == 8 * q
  {
  }

  lemma Flags2(q: nat)
    ensures Target(Or2(4 * q)) == 4 * q && Target(4 * q) == 4 * q && !Ends(Or2(4 * q)) && !Ends(4 * q)
  {
    assert 4 * q / 2 == 2 * q;
  }

  // The flag bits are set, and nothing above them changes.
  lemma FlagsAreSet(x: nat)
    ensures Or7(x) % 8 == 7 && Or7(x) / 8 == x / 8
    ensures Or2(x) / 2 % 2 == 1 && Or2(x) % 2 == x % 2 && Or2(x) / 4 == x / 4
    ensures Or2(1) == 3
  {
    assert x == 8 * (x / 8) + x % 8;
    assert x == 4 * (x / 4) + 2 * (x / 2 % 2) + x % 2;
  }

  datatype TsBlock = TsBlock(addr: nat, size: nat)

  // The pages of one block from page j on, and of all blocks, in order.
  function BlockPages(addr: nat, n: nat, page: nat): (r: seq<nat>)
    ensures |r| == n && forall j :: 0 <= j < n ==> r[j] == addr + page * j
  {
    seq(n, j requires 0 <= j => addr + page * j)
  }

  // All of a block behind what came before.
  function Grown(before: seq<nat>, addr: nat, n: nat, page: nat): (r: seq<nat>)
    ensures |r| == |before| + n
  {
    before + BlockPages(addr, n, page)
  }

  lemma BlockGrows(before: seq<nat>, addr: nat, j: nat, page: nat)
    ensures Grown(before, addr, 0, page) == before
    ensures Grown(before, addr, j + 1, page) == Grown(before, addr, j, page) + [addr + page * j]
  {
  }

  function TsPages(ts: seq<TsBlock>, page: nat): seq<nat>
    requires page > 0
  {
    if ts == [] then []
    else TsPages(ts[..|ts| - 1], page) + BlockPages(ts[|ts| - 1].addr, ts[|ts| - 1].size / page, page)
  }

  // The k-th slot of descriptor pages that hold `cap` descriptors each.
  function Loc(k: nat, cap: nat): (r: (nat, nat))
    requires cap > 0
    ensures r.1 < cap
  {
    if k == 0 then (0, 0)
    else
      var (p, s) := Loc(k - 1, cap);
      if s + 1 < cap then (p, s + 1) else (p + 1, 0)
  }

  lemma {:induction false} LocCounts(k: nat, cap: nat)
    requires cap > 0
    ensures Loc(k, cap).0 * cap + Loc(k, cap).1 == k
  {
    if k > 0 {
      LocCounts(k - 1, cap);
      var (p, s) := Loc(k - 1, cap);
      assert (p + 1) * cap == p * cap + cap;
    }
  }

  lemma Inside(p: nat, s: nat, cap: nat, count: nat)
    requires s < cap
    ensures p < count <==> p * cap + s < cap * count
  {
    if p < count {
      MulLe(p + 1, count, cap);
    } else {
      MulLe(count, p, cap);
    }
  }

  lemma LocInside(k: nat, cap: nat, count: nat)
    requires cap > 0
    ensures Loc(k, cap).0 < count <==> k < cap * count
  {
    LocCounts(k, cap);
    Inside(Loc(k, cap).0, Loc(k, cap).1, cap, count);
  }

  // The local variables of pt3_dma_build_page_descriptor: the descriptor
  // page in use, data_pos in it, desc_addr, desc_remain, desc_info_pos, and
  // where the previous descriptor is.
  datatype Cursor = Cursor(page: nat, pos: nat, busAddr: nat, remain: nat, nextPage: nat, prev: Option<nat>)

  const TS_PAGE_CNT := 47
  const DESC_MAX := 204
  const DESC_PAGE_SZ := 4080

  // The locals of dma_create: desc_todo, desc_pg_idx, desc_addr, curr, prev.
  datatype RingCursor = RingCursor(todo: nat, pgIdx: nat, descAddr: nat, curr: nat, prev: Option<nat>)

  // The pages of all blocks, 47 to a block.
  function RingPages(tsAdr: seq<nat>): seq<nat> {
    if tsAdr == [] then []
    else RingPages(tsAdr[..|tsAdr| - 1]) + BlockPages(tsAdr[|tsAdr| - 1], TS_PAGE_CNT, DESC_PAGE_SZ)
  }

  // A block is whole packets, and a descriptor page holds as many descriptors
  // as fit in a page of the CPU.
  lemma BlocksArePackets()
    ensures TS_PAGE_CNT * DESC_PAGE_SZ == 1020 * 188
    ensures DESC_PAGE_SZ == DESC_MAX * DESC_SIZE <= 4096 < DESC_PAGE_SZ + DESC_SIZE
  {
  }

  // The kernel's roundup(n, m): the next multiple of m.
  function Roundup(n: nat, m: nat): nat
    requires m > 0
  {
    (n + m - 1) / m * m
  }

  lemma WholePages(q: nat, m: nat)
    requires m > 0
    ensures q * m / m == q
  {
    QuotientIs(q * m, m, q, 0);
  }

  lemma MorePages(q: nat, m: nat)
    requires m > 0
    ensures q * m <= m * (q * m)
  {
  }

  // Pages of m descriptors for n of them: Roundup / m pages are just enough,
  // and dma_create takes m times as many.
  lemma RoundupIsEnough(n: nat, m: nat)
    requires m > 0
    ensures var r := Roundup(n, m); r - m < n <= r == r / m * m && n <= m * r
  {
    var x := n + m - 1;
    var q := x / m;
    WholePages(q, m);
    MorePages(q, m);
    assert x == q * m + x % m;
  }

  lemma {:induction false} RingPagesAligned(tsAdr: seq<nat>)
    requires forall a :: a in tsAdr ==> a % 8 == 0
    ensures forall i :: 0 <= i < |RingPages(tsAdr)| ==> RingPages(tsAdr)[i] % 8 == 0
  {
    if tsAdr != [] {
      var rest := tsAdr[..|tsAdr| - 1];
      assert forall a :: a in rest ==> a in tsAdr;
      RingPagesAligned(rest);
      assert tsAdr[|tsAdr| - 1] in tsAdr;
    }
  }

  lemma {:induction false} PagesAligned(ts: seq<TsBlock>, page: nat)
    requires page > 0 && page % 8 == 0 && forall b :: b in ts ==> b.addr % 8 == 0
    ensures forall i :: 0 <= i < |TsPages(ts, page)| ==> TsPages(ts, page)[i] % 8 == 0
  {
    if ts != [] {
      var b := ts[|ts| - 1];
      PagesAligned(ts[..|ts| - 1], page);
      assert b in ts;
      forall j | 0 <= j < b.size / page
        ensures BlockPages(b.addr, b.size / page, page)[j] % 8 == 0
      {
        assert page * j == 8 * (page / 8 * j);
      }
    }
  }

  lemma {:induction false} TsPagesTake(ts: seq<TsBlock>, i: nat, page: nat)
    requires i < |ts| && page > 0
    ensures TsPages(ts[..i + 1], page) == TsPages(ts[..i], page) + BlockPages(ts[i].addr, ts[i].size / page, page)
    ensures |TsPages(ts[..i + 1], page)| <= |TsPages(ts, page)|
    decreases |ts| - i
  {
    assert ts[..i + 1][..i] == ts[..i];
    if i + 1 < |ts| {
      TsPagesTake(ts, i + 1, page);
    } else {
      assert ts[..i + 1] == ts;
    }
  }

  lemma {:induction false} LocOnFirst(k: nat, cap: nat)
    requires k < cap
    ensures Loc(k, cap) == (0, k)
  {
    if k > 0 {
      LocOnFirst(k - 1, cap);
    }
  }

  // The descriptor pages: their bus addresses, and what the CPU wrote there.
  // Slot s of page p is mem[p * cap + s].
  class DescPages {
    const addr: seq<nat>
    const size: nat
    const cap: nat
    const mem: array<Desc>

    ghost predicate Shape() {
      && |addr| >= 1 && size >= DESC_SIZE && cap == size / DESC_SIZE
      && mem.Length == cap * |addr|
    }

    // Aligned, and no two of them overlap.
    ghost predicate Disjoint() {
      && (forall p :: 0 <= p < |addr| ==> addr[p] % 4 == 0)
      && (forall p, q :: 0 <= p < q < |addr| ==> addr[p] + size <= addr[q] || addr[q] + size <= addr[p])
    }

    constructor (addr: seq<nat>, size: nat)
      requires |addr| >= 1 && size >= DESC_SIZE
      ensures Shape() && fresh(mem) && this.addr == addr && this.size == size
    {
      this.addr, this.size, cap := addr, size, size / DESC_SIZE;
      mem := new Desc[size / DESC_SIZE * |addr|](_ => Desc(0, 0, 0));
    }

    // The bus address of the k-th descriptor.
    function Addr(k: nat): nat
      requires Shape() && k < mem.Length
    {
      LocInside(k, cap, |addr|);
      addr[Loc(k, cap).0] + DESC_SIZE * Loc(k, cap).1
    }

    lemma AddrsDiffer(i: nat, j: nat)
      requires Shape() && Disjoint() && i < mem.Length && j < mem.Length && Addr(i) == Addr(j)
      ensures i == j
    {
      LocInside(i, cap, |addr|);
      LocInside(j, cap, |addr|);
      LocCounts(i, cap);
      LocCounts(j, cap);
      SlotFits(Loc(i, cap).1);
      SlotFits(Loc(j, cap).1);
    }

    lemma SlotFits(s: nat)
      requires Shape() && s < cap
      ensures DESC_SIZE * s + DESC_SIZE <= size
    {
    }

    // What the FPGA gets when it reads a descriptor at a bus address.
    ghost predicate BusReads(a: nat, d: Desc)
      reads mem
      requires Shape()
    {
      exists k :: 0 <= k < mem.Length && a == Addr(k) && d == mem[k]
    }

    lemma BusReadsOnce(a: nat, d: Desc, e: Desc)
      requires Shape() && Disjoint() && BusReads(a, d) && BusReads(a, e)
      ensures d == e
    {
      var i :| 0 <= i < mem.Length && a == Addr(i) && d == mem[i];
      var j :| 0 <= j < mem.Length && a == Addr(j) && e == mem[j];
      AddrsDiffer(i, j);
    }

    // Starting from the `next` word w, the FPGA is sent to exactly these
    // pages of `page` bytes, and then holds the word `last`.
    ghost predicate Walk(w: nat, pages: seq<nat>, page: nat, last: nat)
      reads mem
      requires Shape()
      decreases |pages|
    {
      if pages == [] then
        w == last
      else
        !Ends(w) && exists d ::
          && BusReads(Target(w), d) && Bare(d.ts) == pages[0] && Bare(d.size) == page
          && Walk(d.next, pages[1..], page, last)
    }

    // There is only one walk of a given length.
    lemma {:induction false} WalkIsForced(w: nat, a: seq<nat>, b: seq<nat>, page: nat, x: nat, y: nat)
      requires Shape() && Disjoint() && |a| == |b|
      requires Walk(w, a, page, x) && Walk(w, b, page, y)
      ensures a == b && x == y
      decreases |a|
    {
      if a != [] {
        var d := WalkStep(w, a, page, x);
        var e := WalkStep(w, b, page, y);
        BusReadsOnce(Target(w), d, e);
        WalkIsForced(d.next, a[1..], b[1..], page, x, y);
        assert a == [a[0]] + a[1..] && b == [b[0]] + b[1..];
      }
    }

    lemma WalkStep(w: nat, a: seq<nat>, page: nat, x: nat) returns (d: Desc)
      requires Shape() && Walk(w, a, page, x) && a != []
      ensures BusReads(Target(w), d) && Bare(d.ts) == a[0] && Walk(d.next, a[1..], page, x)
    {
      d :| BusReads(Target(w), d) && Bare(d.ts) == a[0] && Bare(d.size) == page && Walk(d.next, a[1..], page, x);
    }

    // The first |pages| descriptors stand for these pages, each one names
    // the next, and the last one holds the word `last`.
    ghost predicate Linked(pages: seq<nat>, page: nat, flags: bool, last: nat)
      reads mem
      requires Shape()
    {
      && |pages| <= mem.Length
      && (forall i :: 0 <= i < |pages| ==> mem[i].ts == Word7(flags, pages[i]) && mem[i].size == Word7(flags, page))
      && (forall i :: 0 <= i < |pages| - 1 ==> mem[i].next == Word2(flags, Addr(i + 1)))
      && (pages != [] ==> mem[|pages| - 1].next == last)
    }

    lemma {:induction false} LinkedWalks(w: nat, k: nat, pages: seq<nat>, page: nat, flags: bool, last: nat)
      requires Shape() && Disjoint() && Linked(pages, page, flags, last) && k < |pages|
      requires page % 8 == 0 && forall i :: 0 <= i < |pages| ==> pages[i] % 8 == 0
      requires !Ends(w) && Target(w) == Addr(k)
      ensures Walk(w, pages[k..], page, last)
      decreases |pages| - k
    {
      var d := mem[k];
      assert BusReads(Target(w), d);
      assert pages[k..][1..] == pages[k + 1..];
      FlagsComeOff(pages[k]);
      FlagsComeOff(page);
      if k + 1 < |pages| {
        LinkWord(k + 1, flags);
        LinkedWalks(d.next, k + 1, pages, page, flags, last);
      }
      assert Walk(d.next, pages[k + 1..], page, last);
    }

    lemma LinkWord(k: nat, flags: bool)
      requires Shape() && Disjoint() && k < mem.Length
      ensures Target(Word2(flags, Addr(k))) == Addr(k) && !Ends(Word2(flags, Addr(k)))
    {
      LocInside(k, cap, |addr|);
      var (p, s) := Loc(k, cap);
      assert Addr(k) == 4 * (addr[p] / 4 + DESC_SIZE / 4 * s);
      Flags2(addr[p] / 4 + DESC_SIZE / 4 * s);
    }

    lemma LinkedAll(pages: seq<nat>, page: nat, flags: bool, last: nat)
      requires Shape() && Disjoint() && Linked(pages, page, flags, last) && pages != []
      requires page % 8 == 0 && forall i :: 0 <= i < |pages| ==> pages[i] % 8 == 0
      ensures Walk(addr[0], pages, page, last)
    {
      assert Loc(0, cap) == (0, 0);
      FlagsComeOff(addr[0]);
      LinkedWalks(addr[0], 0, pages, page, flags, last);
      assert pages[0..] == pages;
    }

    // ---- drivers/video/pt3_dtv.c ----

    // Write a descriptor for tsAddr in slot k, and chain it: the calls of
    // dma_link_descriptor and dma_write_descriptor.
    method Append(k: nat, prev: Option<nat>, busAddr: nat, tsAddr: nat, ghost done: seq<nat>)
      requires Shape() && k == |done| < mem.Length && busAddr == Addr(k)
      requires prev == if k == 0 then None else Some(k - 1)
      requires Linked(done, DMA_PAGE_SIZE, true, Or2(0))
      modifies mem
      ensures Linked(done + [tsAddr], DMA_PAGE_SIZE, true, Or2(0))
    {
      if prev.Some? {
        mem[prev.value] := mem[prev.value].(next := Or2(busAddr));
      }
      mem[k] := Desc(Or7(tsAddr), Or7(DMA_PAGE_SIZE), Or2(0));
    }

    // The descriptors for `done` are laid out and chained, and the cursor
    // stands behind the last of them.
    ghost predicate Behind(c: Cursor, done: seq<nat>)
      reads mem
      requires Shape()
    {
      && 0 <= c.page < |addr| && c.nextPage == c.page + 1
      && c.pos % DESC_SIZE == 0 && c.pos <= size && c.remain == size - c.pos
      && c.busAddr == addr[c.page] + c.pos
      && Linked(done, DMA_PAGE_SIZE, true, Or2(0))
      && (if done == [] then
            c.page == 0 && c.pos == 0 && c.prev == None
          else
            && c.pos > 0 && Loc(|done| - 1, cap) == (c.page, c.pos / DESC_SIZE - 1)
            && c.prev == Some(|done| - 1))
    }

    // The builder gets past the k-th descriptor.
    predicate Fits(k: nat)
      requires Shape()
    {
      k < mem.Length && (size % DESC_SIZE != 0 || Loc(k, cap).1 + 1 < cap)
    }

    predicate AllFit(from: nat, to: nat)
      requires Shape()
    {
      forall k :: from <= k < to ==> Fits(k)
    }

    lemma AllFitParts(from: nat, mid: nat, to: nat)
      requires Shape() && from <= mid <= to
      ensures AllFit(from, to) <==> AllFit(from, mid) && AllFit(mid, to)
    {
    }

    lemma OneFits(k: nat)
      requires Shape()
      ensures AllFit(k, k + 1) <==> Fits(k)
    {
    }

    // The cursor stands where the next descriptor goes.
    ghost predicate Before(c: Cursor, k: nat)
      requires Shape()
    {
      && 0 <= c.page < |addr| && c.nextPage == c.page + 1 && k < mem.Length
      && c.pos % DESC_SIZE == 0 && c.pos + DESC_SIZE <= size && c.remain == size - c.pos
      && Loc(k, cap) == (c.page, c.pos / DESC_SIZE) && c.busAddr == addr[c.page] + c.pos
      && c.prev == if k == 0 then None else Some(k - 1)
    }

    // Go on to the next descriptor page if this one is full; false if there
    // is none.
    method Turn(c0: Cursor, ghost done: seq<nat>) returns (c: Cursor, ok: bool)
      requires Shape() && Behind(c0, done)
      ensures ok <==> |done| < mem.Length
      ensures ok ==> Before(c, |done|)
    {
      c, ok := c0, true;
      LocInside(|done|, cap, |addr|);
      if c.remain < DESC_SIZE {
        if |addr| <= c.nextPage {
          return c, false;
        }
        c := Cursor(c.nextPage, 0, addr[c.nextPage], size, c.nextPage + 1, c.prev);
      }
    }

    lemma SlotIs(c: Cursor, k: nat)
      requires Shape() && Before(c, k)
      ensures c.page * cap + c.pos / DESC_SIZE == k
      ensures c.pos + DESC_SIZE < size <==> Fits(k)
    {
      LocCounts(k, cap);
      PageEnd(c.pos / DESC_SIZE);
    }

    lemma PageEnd(s: nat)
      requires Shape() && DESC_SIZE * s + DESC_SIZE <= size
      ensures DESC_SIZE * s + DESC_SIZE < size <==> size % DESC_SIZE != 0 || s + 1 < cap
    {
    }

    lemma Step(c: Cursor, done: seq<nat>, tsAddr: nat)
      requires Shape() && Before(c, |done|) && c.pos + DESC_SIZE < size
      requires Linked(done + [tsAddr], DMA_PAGE_SIZE, true, Or2(0))
      ensures Behind(c.(prev := Some(|done|), pos := c.pos + DESC_SIZE, busAddr := c.busAddr + DESC_SIZE,
        remain := c.remain - DESC_SIZE), done + [tsAddr])
    {
      assert |done + [tsAddr]| - 1 == |done|;
    }

    // One turn of the inner loop of pt3_dma_build_page_descriptor.
    method Place(c0: Cursor, tsAddr: nat, ghost done: seq<nat>) returns (c: Cursor, ok: bool)
      requires Shape() && Behind(c0, done)
      modifies mem
      ensures ok <==> Fits(|done|)
      ensures ok ==> Behind(c, done + [tsAddr])
    {
      c, ok := Turn(c0, done);
      if !ok {
        return;
      }
      SlotIs(c, |done|);
      ghost var c1 := c;
      var curr := c.page * cap + c.pos / DESC_SIZE;
      Append(curr, c.prev, c.busAddr, tsAddr, done);
      c := c.(prev := Some(curr), pos := c.pos + DESC_SIZE);
      if size <= c.pos {
        return c, false;
      }
      c := c.(busAddr := c.busAddr + DESC_SIZE, remain := c.remain - DESC_SIZE);
      Step(c1, done, tsAddr);
    }

    // pt3_dma_build_page_descriptor. It completes exactly when the slots
    // suffice and no descriptor page is filled to its last byte; then the
    // FPGA visits every page of every block, in order, and is sent back to
    // the first descriptor, or to the end mark.
    method Build(ts: seq<TsBlock>, loop: bool) returns (ok: bool)
      requires Shape() && Disjoint() && forall b :: b in ts ==> b.addr % 8 == 0
      modifies mem
      ensures ok <==>
        var n := |TsPages(ts, DMA_PAGE_SIZE)|;
        n <= mem.Length && (size % DESC_SIZE != 0 || n < cap)
      ensures ok && TsPages(ts, DMA_PAGE_SIZE) != [] ==>
        var last := if loop then Or2(addr[0]) else Or2(1);
        && Walk(addr[0], TsPages(ts, DMA_PAGE_SIZE), DMA_PAGE_SIZE, last)
        && (if loop then !Ends(last) && Target(last) == addr[0] else Ends(last))
    {
      ghost var all := TsPages(ts, DMA_PAGE_SIZE);
      ghost var done: seq<nat> := [];
      FitsAll(|all|);
      var c := Cursor(0, 0, addr[0], size, 1, None);
      for i := 0 to |ts|
        invariant Behind(c, done) && done == TsPages(ts[..i], DMA_PAGE_SIZE)
        invariant AllFit(0, |done|)
      {
        TsPagesTake(ts, i, DMA_PAGE_SIZE);
        c, ok := BuildBlock(c, ts[i], done);
        if !ok {
          return;
        }
        done := TsPages(ts[..i + 1], DMA_PAGE_SIZE);
      }
      assert ts[..|ts|] == ts;
      if c.prev.Some? {
        PagesAligned(ts, DMA_PAGE_SIZE);
        Close(c.prev.value, loop, all);
      }
      ok := true;
    }

    // One turn of the inner loop, for page j of n.
    method PlaceNext(c0: Cursor, addr: nat, j: nat, n: nat, tsAddr: nat, ghost done: seq<nat>)
      returns (c: Cursor, ok: bool)
      requires Shape() && j < n && tsAddr == addr + DMA_PAGE_SIZE * j
      requires Behind(c0, Grown(done, addr, j, DMA_PAGE_SIZE)) && AllFit(|done|, |done| + j)
      modifies mem
      ensures ok ==> Behind(c, Grown(done, addr, j + 1, DMA_PAGE_SIZE)) && AllFit(|done|, |done| + j + 1)
      ensures !ok ==> !AllFit(|done|, |done| + n)
    {
      ghost var laid := Grown(done, addr, j, DMA_PAGE_SIZE);
      BlockGrows(done, addr, j, DMA_PAGE_SIZE);
      OneFits(|laid|);
      AllFitParts(|done|, |laid|, |laid| + 1);
      AllFitParts(|done|, |laid| + 1, |done| + n);
      c, ok := Place(c0, tsAddr, laid);
    }

    // The inner loop, over the pages of one block.
    method BuildBlock(c0: Cursor, b: TsBlock, ghost done: seq<nat>) returns (c: Cursor, ok: bool)
      requires Shape() && Behind(c0, done)
      modifies mem
      ensures ok ==> Behind(c, Grown(done, b.addr, b.size / DMA_PAGE_SIZE, DMA_PAGE_SIZE))
      ensures ok <==> AllFit(|done|, |done| + b.size / DMA_PAGE_SIZE)
    {
      c, ok := c0, true;
      var n := b.size / DMA_PAGE_SIZE;
      var tsAddr := b.addr;
      BlockGrows(done, b.addr, 0, DMA_PAGE_SIZE);
      for j := 0 to n
        invariant ok && Behind(c, Grown(done, b.addr, j, DMA_PAGE_SIZE))
        invariant tsAddr == b.addr + DMA_PAGE_SIZE * j
        invariant AllFit(|done|, |done| + j)
      {
        c, ok := PlaceNext(c, b.addr, j, n, tsAddr, done);
        if !ok {
          return;
        }
        tsAddr := tsAddr + DMA_PAGE_SIZE;
      }
    }

    // The last call of dma_link_descriptor.
    method Close(prev: nat, loop: bool, ghost all: seq<nat>)
      requires Shape() && Disjoint() && Linked(all, DMA_PAGE_SIZE, true, Or2(0)) && all != [] && prev == |all| - 1
      requires forall i :: 0 <= i < |all| ==> all[i] % 8 == 0
      modifies mem
      ensures var last := if loop then Or2(addr[0]) else Or2(1);
        && Walk(addr[0], all, DMA_PAGE_SIZE, last)
        && (if loop then !Ends(last) && Target(last) == addr[0] else Ends(last))
    {
      mem[prev] := mem[prev].(next := Or2(if loop then addr[0] else 1));
      LinkedAll(all, DMA_PAGE_SIZE, true, if loop then Or2(addr[0]) else Or2(1));
      FlagsComeOff(addr[0]);
    }

    lemma FitsAll(n: nat)
      requires Shape()
      ensures AllFit(0, n) <==> (n <= mem.Length && (size % DESC_SIZE != 0 || n < cap))
    {
      if size % DESC_SIZE == 0 {
        forall k | 0 <= k < cap
          ensures Loc(k, cap) == (0, k)
        {
          LocOnFirst(k, cap);
        }
        assert n >= cap && cap <= mem.Length ==> !Fits(cap - 1);
      } else if n > mem.Length {
        assert !Fits(mem.Length);
      }
    }

    // ---- drivers/media/pci/ptx/pt3_pci.c ----

    // The descriptors so far already form a closed ring.
    ghost predicate Ring(c: RingCursor, done: seq<nat>)
      reads mem
      requires Shape()
    {
      && Linked(done, DESC_PAGE_SZ, false, addr[0])
      && c.todo <= cap && c.pgIdx <= |addr|
      && (if done == [] then
            c.todo == 0 && c.pgIdx == 0 && c.prev == None
          else
            && c.todo < cap && c.pgIdx > 0 && Loc(|done| - 1, cap) == (c.pgIdx - 1, cap - c.todo - 1)
            && c.descAddr == addr[c.pgIdx - 1] + DESC_SIZE * (cap - c.todo)
            && c.prev == Some(|done| - 1) && c.curr == |done|)
    }

    // So at every moment of the loop the FPGA would already go round.
    lemma RingIsClosed(c: RingCursor, done: seq<nat>)
      requires Shape() && Disjoint() && Ring(c, done) && done != []
      requires forall i :: 0 <= i < |done| ==> done[i] % 8 == 0
      ensures Walk(addr[0], done, DESC_PAGE_SZ, addr[0])
    {
      LinkedAll(done, DESC_PAGE_SZ, false, addr[0]);
    }

    // A descriptor page that is full is followed by the next one.
    method NextSlot(c0: RingCursor, ghost done: seq<nat>) returns (c: RingCursor)
      requires Shape() && Ring(c0, done) && |done| < mem.Length
      ensures c.curr == |done| && c.descAddr == Addr(|done|) && c.prev == c0.prev
      ensures 0 < c.todo <= cap && 0 < c.pgIdx <= |addr| && Loc(|done|, cap) == (c.pgIdx - 1, cap - c.todo)
    {
      c := c0;
      LocInside(|done|, cap, |addr|);
      LocCounts(|done|, cap);
      if c.todo == 0 {
        c := RingCursor(cap, c.pgIdx + 1, addr[c.pgIdx], c.pgIdx * cap, c.prev);
      }
    }

    // One turn of the inner loop of dma_create.
    method AddPage(c0: RingCursor, pageAddr: nat, ghost done: seq<nat>) returns (c: RingCursor)
      requires Shape() && Ring(c0, done) && |done| < mem.Length
      modifies mem
      ensures Ring(c, done + [pageAddr])
    {
      c := NextSlot(c0, done);
      if c.prev.Some? {
        mem[c.prev.value] := mem[c.prev.value].(next := c.descAddr);
      }
      mem[c.curr] := Desc(pageAddr, DESC_PAGE_SZ, addr[0]);
      c := RingCursor(c.todo - 1, c.pgIdx, c.descAddr + DESC_SIZE, c.curr + 1, Some(c.curr));
    }

    // dma_create, for the addresses the allocator returned.
    method Create(tsAdr: seq<nat>)
      requires Shape() && Disjoint() && size == DESC_PAGE_SZ
      requires |addr| == Roundup(TS_PAGE_CNT * |tsAdr|, DESC_MAX) && |tsAdr| >= 1
      requires forall a :: a in tsAdr ==> a % 8 == 0
      modifies mem
      ensures Walk(addr[0], RingPages(tsAdr), DESC_PAGE_SZ, addr[0])
      ensures |RingPages(tsAdr)| == TS_PAGE_CNT * |tsAdr|
    {
      ghost var done: seq<nat> := [];
      var c := RingCursor(0, 0, 0, 0, None);
      RoundupIsEnough(TS_PAGE_CNT * |tsAdr|, DESC_MAX);
      for i := 0 to |tsAdr|
        invariant Ring(c, done) && done == RingPages(tsAdr[..i]) && |done| == TS_PAGE_CNT * i
      {
        c := CreateBlock(c, tsAdr[i], done);
        assert tsAdr[..i + 1][..i] == tsAdr[..i];
        done := RingPages(tsAdr[..i + 1]);
      }
      assert tsAdr[..|tsAdr|] == tsAdr;
      RingPagesAligned(tsAdr);
      LinkedAll(done, DESC_PAGE_SZ, false, addr[0]);
    }

    method CreateBlock(c0: RingCursor, tsAdr: nat, ghost done: seq<nat>) returns (c: RingCursor)
      requires Shape() && Ring(c0, done) && |done| + TS_PAGE_CNT <= mem.Length
      modifies mem
      ensures Ring(c, Grown(done, tsAdr, TS_PAGE_CNT, DESC_PAGE_SZ))
    {
      c := c0;
      ghost var laid := done;
      BlockGrows(done, tsAdr, 0, DESC_PAGE_SZ);
      for j := 0 to TS_PAGE_CNT
        invariant laid == Grown(done, tsAdr, j, DESC_PAGE_SZ) && Ring(c, laid)
      {
        BlockGrows(done, tsAdr, j, DESC_PAGE_SZ);
        c := AddPage(c, tsAdr + DESC_PAGE_SZ * j, laid);
        laid := laid + [tsAdr + DESC_PAGE_SZ * j];
      }
    }
  }
}
