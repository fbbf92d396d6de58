// The descriptor list and the block ring of the PT3 taken together: a board
// that follows the descriptors page after page writes its stream just where
// the readers of the ring expect it.
module DmaStream {
  import opened Arith
  import opened DmaDescriptors
  import opened Octets
  import TsRing

  // ---- Going round ----

  function Rounds(pages: seq<nat>, m: nat): seq<nat> {
    if m == 0 then [] else pages + Rounds(pages, m - 1)
  }

  lemma {:induction false} RoundsAt(pages: seq<nat>, m: nat, q: nat)
    requires q < |Rounds(pages, m)|
    ensures pages != [] && Rounds(pages, m)[q] == pages[q % |pages|]
    decreases m
  {
    var n := |pages|;
    if q < n {
      RemainderIs(q, n, 0, q);
    } else {
      RoundsAt(pages, m - 1, q - n);
      OneRoundLess(q, n);
    }
  }

  lemma OneRoundLess(q: nat, n: nat)
    requires 0 < n <= q
    ensures q % n == (q - n) % n
  {
    var t, r := (q - n) / n, (q - n) % n;
    assert q - n == t * n + r;
    assert (t + 1) * n == t * n + n;
    RemainderIs(q, n, t + 1, r);
  }

  lemma WalkMore(dp: DescPages, w: nat, d: Desc, pages: seq<nat>, page: nat, last: nat)
    requires dp.Shape() && !Ends(w) && dp.BusReads(Target(w), d) && Bare(d.size) == page
    requires dp.Walk(d.next, pages, page, last)
    ensures dp.Walk(w, [Bare(d.ts)] + pages, page, last)
  {
    assert ([Bare(d.ts)] + pages)[1..] == pages;
  }

  lemma WalkFirst(dp: DescPages, w: nat, pages: seq<nat>, page: nat, last: nat) returns (d: Desc)
    requires dp.Shape() && dp.Walk(w, pages, page, last) && pages != []
    ensures !Ends(w) && dp.BusReads(Target(w), d) && Bare(d.ts) == pages[0] && Bare(d.size) == page
    ensures dp.Walk(d.next, pages[1..], page, last)
  {
    d :| dp.BusReads(Target(w), d) && Bare(d.ts) == pages[0] && Bare(d.size) == page
      && dp.Walk(d.next, pages[1..], page, last);
  }

  lemma {:induction false} WalkJoins(dp: DescPages, w: nat, a: seq<nat>, b: seq<nat>, page: nat, x: nat, y: nat)
    requires dp.Shape() && dp.Walk(w, a, page, x) && dp.Walk(x, b, page, y)
    ensures dp.Walk(w, a + b, page, y)
    decreases |a|
  {
    if a == [] {
      Unit(b);
    } else {
      var rest := a[1..];
      var d := WalkFirst(dp, w, a, page, x);
      WalkJoins(dp, d.next, rest, b, page, x, y);
      WalkMore(dp, w, d, rest + b, page, y);
      First(a);
      Assoc([a[0]], rest, b);
    }
  }

  // A closed list is walked any number of times.
  lemma {:induction false} GoesRound(dp: DescPages, w: nat, pages: seq<nat>, page: nat, last: nat, m: nat)
    requires dp.Shape() && dp.Walk(w, pages, page, last) && pages != [] && m > 0
    requires !Ends(last) && Target(last) == Target(w)
    ensures dp.Walk(w, Rounds(pages, m), page, last)
    decreases m
  {
    if m == 1 {
      assert pages + Rounds(pages, 0) == pages;
    } else {
      GoesRound(dp, w, pages, page, last, m - 1);
      assert dp.Walk(last, Rounds(pages, m - 1), page, last);
      WalkJoins(dp, w, pages, Rounds(pages, m - 1), page, last, last);
    }
  }

  // ---- Where the bytes go ----

  // The pages are those of blocks at these addresses, n to a block.
  predicate Lays(pages: seq<nat>, blocks: seq<nat>, n: nat, page: nat) {
    && |pages| == |blocks| * n
    && forall b, j :: 0 <= b < |blocks| && 0 <= j < n ==> PageOf(pages, n, b, j) == blocks[b] + page * j
  }

  function PageOf(pages: seq<nat>, n: nat, b: nat, j: nat): nat {
    if b * n + j < |pages| then pages[b * n + j] else 0
  }

  // Page after page, round and round: the address of byte x of the stream.
  function ByteAt(pages: seq<nat>, page: nat, x: nat): nat
    requires pages != [] && page > 0
  {
    pages[x / page % |pages|] + x % page
  }

  lemma Sum(t: nat, count: nat, b: nat, n: nat, total: nat)
    requires total == n * count
    ensures (t * count + b) * n == t * total + b * n
  {
    Regroup(t, count, b, n);
  }

  lemma TurnsOf(q: nat, n: nat, total: nat, t: nat, b: nat, count: nat, d: nat, j: nat)
    requires q == d * n + j && d == t * count + b && b < count && j < n && total == n * count
    ensures total > 0 && q % total == b * n + j
  {
    Sum(t, count, b, n, total);
    LastDigit(b, count, j, n);
    RemainderIs(q, total, t, b * n + j);
  }

  lemma Parts(n: nat, c: nat) returns (q: nat, r: nat)
    requires c > 0
    ensures n == q * c + r && r < c && q == n / c && r == n % c
  {
    q, r := n / c, n % c;
  }

  lemma Turns(q: nat, n: nat, count: nat, total: nat)
    requires n > 0 && count > 0 && total == n * count
    ensures total > 0 && q % total == q / n % count * n + q % n
  {
    var d, j := Parts(q, n);
    var t, b := Parts(d, count);
    TurnsOf(q, n, total, t, b, count, d, j);
  }

  // A byte of a page as a byte of a block of n pages.
  lemma InBlock(x: nat, n: nat, page: nat, size: nat)
    requires n > 0 && page > 0 && size == n * page
    ensures size > 0
    ensures x / size == x / page / n && x % size == x / page % n * page + x % page
  {
    Turns(x, page, n, size);
    DivDiv(x, page, n, size);
  }

  lemma PageIs(pages: seq<nat>, blocks: seq<nat>, n: nat, page: nat, q: nat)
    requires n > 0 && blocks != [] && Lays(pages, blocks, n, page)
    ensures pages != [] && pages[q % |pages|] == blocks[q / n % |blocks|] + page * (q % n)
  {
    Turns(q, n, |blocks|, |pages|);
    assert PageOf(pages, n, q / n % |blocks|, q % n) == blocks[q / n % |blocks|] + page * (q % n);
  }

  // Which is a byte of a block: block after block, round and round.
  lemma ByteInBlock(pages: seq<nat>, blocks: seq<nat>, n: nat, page: nat, x: nat, size: nat)
    requires n > 0 && page > 0 && blocks != [] && Lays(pages, blocks, n, page) && size == n * page
    ensures pages != [] && size > 0
    ensures ByteAt(pages, page, x) == blocks[x / size % |blocks|] + x % size
  {
    InBlock(x, n, page, size);
    PageIs(pages, blocks, n, page, x / page);
  }

  // ---- The two lists of pages ----

  // Blocks of one size, for the driver that takes any list of blocks.
  lemma {:induction false} TsPagesLay(ts: seq<TsBlock>, n: nat, page: nat)
    requires page > 0 && forall b :: b in ts ==> b.size / page == n
    ensures Lays(TsPages(ts, page), Addrs(ts), n, page)
  {
    if ts != [] {
      var k := |ts| - 1;
      assert forall b :: b in ts[..k] ==> b in ts;
      TsPagesLay(ts[..k], n, page);
      LaysMore(TsPages(ts[..k], page), Addrs(ts[..k]), n, page, ts[k].addr);
      assert Addrs(ts) == Addrs(ts[..k]) + [ts[k].addr];
    }
  }

  function Addrs(ts: seq<TsBlock>): (r: seq<nat>)
    ensures |r| == |ts|
  {
    seq(|ts|, i requires 0 <= i < |ts| => ts[i].addr)
  }

  lemma LaysMore(pages: seq<nat>, blocks: seq<nat>, n: nat, page: nat, addr: nat)
    requires Lays(pages, blocks, n, page)
    ensures Lays(pages + BlockPages(addr, n, page), blocks + [addr], n, page)
  {
    var more := pages + BlockPages(addr, n, page);
    assert (|blocks| + 1) * n == |blocks| * n + n;
    forall b, j | 0 <= b < |blocks| + 1 && 0 <= j < n
      ensures PageOf(more, n, b, j) == (blocks + [addr])[b] + page * j
    {
      if b < |blocks| {
        LastDigit(b, |blocks|, j, n);
        assert PageOf(pages, n, b, j) == blocks[b] + page * j;
      }
    }
  }

  lemma {:induction false} RingPagesLay(tsAdr: seq<nat>)
    ensures Lays(RingPages(tsAdr), tsAdr, TS_PAGE_CNT, DESC_PAGE_SZ)
  {
    if tsAdr != [] {
      var k := |tsAdr| - 1;
      RingPagesLay(tsAdr[..k]);
      LaysMore(RingPages(tsAdr[..k]), tsAdr[..k], TS_PAGE_CNT, DESC_PAGE_SZ, tsAdr[k]);
      assert tsAdr == tsAdr[..k] + [tsAdr[k]];
    }
  }

  // ---- The board and the readers ----

  // Where a board that follows m rounds of the list puts byte x of its stream.
  function BoardAt(pages: seq<nat>, page: nat, m: nat, x: nat): nat
    requires page > 0 && x / page < |Rounds(pages, m)|
  {
    Rounds(pages, m)[x / page] + x % page
  }

  lemma BoardIsRound(pages: seq<nat>, page: nat, m: nat, x: nat)
    requires page > 0 && x / page < |Rounds(pages, m)|
    ensures pages != [] && m > 0 && BoardAt(pages, page, m, x) == ByteAt(pages, page, x)
  {
    RoundsAt(pages, m, x / page);
  }

  lemma CellAddress(blocks: seq<nat>, x: nat, size: nat, slot: nat, at: nat)
    requires size > 0 && TsRing.InTurn(slot, x / size, |blocks|) && at == x % size
    ensures blocks[x / size % |blocks|] + x % size == blocks[slot] + at
  {
  }

  // The board goes round the closed list, and the address it comes to with
  // the next byte of its stream is that of the cell which the model of the
  // ring takes next.
  lemma BoardFillsRing(dp: DescPages, w: nat, last: nat, pages: seq<nat>, blocks: seq<nat>, n: nat, page: nat,
                       ring: TsRing.Ring, m: nat)
    requires dp.Shape() && dp.Walk(w, pages, page, last) && !Ends(last) && Target(last) == Target(w)
    requires n > 0 && page > 0 && Lays(pages, blocks, n, page)
    requires ring.Valid() && ring.HasRoom() && ring.count == |blocks| && ring.size == n * page
    requires |ring.Written()| / page < |Rounds(pages, m)|
    ensures dp.Walk(w, Rounds(pages, m), page, last)
    ensures BoardAt(pages, page, m, |ring.Written()|) == blocks[ring.Cell().0] + ring.Cell().1
  {
    var x, cell := |ring.Written()|, ring.Cell();
    ring.CellInTurn();
    BoardIsRound(pages, page, m, x);
    ByteInBlock(pages, blocks, n, page, x, ring.size);
    CellAddress(blocks, x, ring.size, cell.0, cell.1);
    GoesRound(dp, w, pages, page, last, m);
  }
}
