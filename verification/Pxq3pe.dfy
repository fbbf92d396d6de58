// The stream path of the PX-Q3PE drivers (drivers/video/pxq3pe_dtv.c and
// drivers/media/pci/ptx/pxq3pe_pci.c): the interrupt sorts tagged packets
// into one staging buffer per tuner, full staging buffers go to a ring that
// overwrites its oldest bytes, and a reader drains and descrambles the ring.
module Pxq3pe {
  import opened Descrambler
  import opened Octets

  const PKT_BUFLEN := PKT_BYTES * 312
  const SYNC: byte8 := 0x47

  function Last(s: seq<byte8>, n: int): (r: seq<byte8>)
    requires 0 <= n <= |s|
    ensures |r| == n
  {
    s[|s| - n..]
  }

  // The first byte of packet j.
  function Head(s: seq<byte8>, j: int): byte8
    requires 0 <= j && PKT_BYTES * j < |s|
  {
    s[PKT_BYTES * j]
  }

  // Whole packets, each with its sync byte.
  predicate Packets(s: seq<byte8>) {
    |s| % PKT_BYTES == 0 && forall j :: 0 <= j < |s| / PKT_BYTES ==> Head(s, j) == SYNC
  }

  lemma PacketsJoin(a: seq<byte8>, b: seq<byte8>)
    requires Packets(a) && Packets(b)
    ensures Packets(a + b)
  {
    var n := |a| / PKT_BYTES;
    forall j | 0 <= j < |a + b| / PKT_BYTES
      ensures Head(a + b, j) == SYNC
    {
      assert Head(a + b, j) == if j < n then Head(a, j) else Head(b, j - n);
    }
  }

  lemma PacketsPart(s: seq<byte8>, from: int, to: int)
    requires Packets(s) && 0 <= from <= to <= |s| && from % PKT_BYTES == 0 && to % PKT_BYTES == 0
    ensures Packets(s[from..to])
  {
    var n := from / PKT_BYTES;
    forall j | 0 <= j < (to - from) / PKT_BYTES
      ensures Head(s[from..to], j) == SYNC
    {
      assert Head(s[from..to], j) == Head(s, n + j);
    }
  }

  lemma OnePacket(s: seq<byte8>)
    requires |s| == PKT_BYTES && s[0] == SYNC
    ensures Packets(s)
  {
    assert Head(s, 0) == SYNC;
  }

  lemma StillPackets(key: Key, s: seq<byte8>)
    requires Packets(s)
    ensures Packets(Descramble(key, s))
  {
    forall j | 0 <= j < |s| / PKT_BYTES
      ensures Head(Descramble(key, s), j) == SYNC
    {
      HeadIsClear(key, s, j);
    }
  }

  lemma HeadIsClear(key: Key, s: seq<byte8>, j: nat)
    requires PKT_BYTES * j < |s|
    ensures Head(Descramble(key, s), j) == Head(s, j)
  {
    assert PKT_BYTES * j % PKT_BYTES == 0;
  }

  // ---- The ring, as values ----

  // The index i steps round from `at`.
  function Round(at: int, i: int, size: int): int {
    if at + i >= size then at + i - size else at + i
  }

  // The cnt bytes from `start` on, going round.
  function Window(buf: seq<byte8>, start: int, cnt: int): (s: seq<byte8>)
    requires 0 <= start < |buf| && 0 <= cnt <= |buf|
    ensures |s| == cnt && forall i :: 0 <= i < cnt ==> s[i] == buf[Round(start, i, |buf|)]
  {
    var over := start + cnt - |buf|;
    if over <= 0 then buf[start..start + cnt] else buf[start..] + buf[..over]
  }

  // Writing src round from the stop index slides the window on.
  lemma Slide(b0: seq<byte8>, start0: int, cnt0: int, src: seq<byte8>, b1: seq<byte8>, start1: int, cnt1: int)
    requires 0 <= start0 < |b0| == |b1| && 0 <= start1 < |b1| && 0 <= cnt0 <= |b0| && |src| <= |b0|
    requires cnt1 == Min(|b0|, cnt0 + |src|)
    requires var stop := Round(start0, cnt0, |b0|);
      && Round(start1, cnt1, |b1|) == Round(stop, |src|, |b0|)
      && forall i :: 0 <= i < |b0| ==>
        b1[Round(stop, i, |b0|)] == if i < |src| then src[i] else b0[Round(stop, i, |b0|)]
    ensures Window(b1, start1, cnt1) == Last(Window(b0, start0, cnt0) + src, cnt1)
  {
    var stop, size := Round(start0, cnt0, |b0|), |b0|;
    var w0, w1 := Window(b0, start0, cnt0), Window(b1, start1, cnt1);
    forall i | 0 <= i < cnt1
      ensures w1[i] == Last(w0 + src, cnt1)[i]
    {
      var j := |src| - cnt1 + i;
      if j >= 0 {
        assert Round(start1, i, size) == Round(stop, j, size);
      } else {
        assert Round(start1, i, size) == Round(stop, j + size, size) == Round(start0, cnt0 + j, size);
      }
    }
  }

  lemma WindowTail(buf: seq<byte8>, start: int, cnt: int, n: int)
    requires 0 <= start < |buf| && 0 <= n <= cnt <= |buf|
    ensures 0 <= Round(start, n, |buf|) < |buf|
    ensures Window(buf, Round(start, n, |buf|), cnt - n) == Window(buf, start, cnt)[n..]
  {
    forall i | 0 <= i < cnt - n
      ensures Round(Round(start, n, |buf|), i, |buf|) == Round(start, n + i, |buf|)
    {
    }
  }

  lemma Multiples(a: int, b: int)
    requires a % PKT_BYTES == 0 && b % PKT_BYTES == 0
    ensures (a + b) % PKT_BYTES == 0 && (a - b) % PKT_BYTES == 0
  {
  }

  lemma WholePackets(n: nat)
    ensures n / PKT_BYTES * PKT_BYTES % PKT_BYTES == 0
  {
  }

  lemma RoundAligned(at: int, i: int, size: int)
    requires at % PKT_BYTES == 0 && i % PKT_BYTES == 0 && size % PKT_BYTES == 0
    ensures Round(at, i, size) % PKT_BYTES == 0
  {
    Multiples(at, i);
    Multiples(at + i, size);
  }

  lemma Wrap(n: int, size: int)
    requires 0 <= n < 2 * size
    ensures n % size == if n >= size then n - size else n
  {
  }

  // The stop index after a put, also where the next window starts when the
  // ring is full.
  lemma NextStop(start: int, cnt: int, len: int, size: int)
    requires 0 <= start < size && 0 <= cnt <= size && 0 < len <= size
    ensures var stop := Round(start, cnt, size); var next := Round(stop, len, size);
      && 0 <= stop < size && (stop + len) % size == next && 0 <= next < size
      && next == Round(next, size, size) && (cnt + len <= size ==> next == Round(start, cnt + len, size))
  {
    Wrap(Round(start, cnt, size) + len, size);
  }

  // What lies outside a window does not matter to it.
  lemma WindowOnly(b0: seq<byte8>, b1: seq<byte8>, start: int, cnt: int)
    requires 0 <= start < |b0| == |b1| && 0 <= cnt <= |b0|
    requires forall i :: 0 <= i < cnt ==> b0[Round(start, i, |b0|)] == b1[Round(start, i, |b0|)]
    ensures Window(b0, start, cnt) == Window(b1, start, cnt)
  {
  }

  // How many bytes do not fit.
  function Excess(n: int, size: int): (r: nat) {
    if n > size then n - size else 0
  }

  lemma BehindWindow(key: Key, was: seq<byte8>, now: seq<byte8>, start: nat, sz: nat, cnt: nat)
    requires Done(key, was, now, start, start + sz) && start < |was| && cnt + sz <= |was|
    ensures 0 <= Round(start, sz, |was|) < |was|
    ensures Window(was, Round(start, sz, |was|), cnt) == Window(now, Round(start, sz, |was|), cnt)
  {
    var at := Round(start, sz, |was|);
    forall i | 0 <= i < cnt
      ensures was[Round(at, i, |was|)] == now[Round(at, i, |was|)]
    {
      var k := Round(at, i, |was|);
      assert k < start || k >= start + sz;
      if k < start {
        assert was[k] == was[..start][k] && now[k] == now[..start][k];
      } else {
        assert was[k] == was[start + sz..][k - start - sz] && now[k] == now[start + sz..][k - start - sz];
      }
    }
    WindowOnly(was, now, at, cnt);
  }

  lemma WindowFirst(buf: seq<byte8>, start: int, cnt: int, n: int)
    requires 0 <= start < |buf| && 0 <= n <= cnt <= |buf| && start + n <= |buf|
    ensures Window(buf, start, cnt)[..n] == buf[start..start + n]
  {
    var w := Window(buf, start, cnt);
    forall i | 0 <= i < n
      ensures w[..n][i] == buf[start..start + n][i]
    {
      assert w[i] == buf[Round(start, i, |buf|)];
    }
  }

  // ---- Which packets of a stream were taken ----

  // Packet j.
  function Nth(s: seq<byte8>, j: nat): seq<byte8>
    requires PKT_BYTES * (j + 1) <= |s|
  {
    s[PKT_BYTES * j..PKT_BYTES * (j + 1)]
  }

  lemma NthLeft(a: seq<byte8>, b: seq<byte8>, j: nat)
    requires PKT_BYTES * (j + 1) <= |a|
    ensures Nth(a + b, j) == Nth(a, j)
  {
    SliceLeft(a, b, PKT_BYTES * j, PKT_BYTES * (j + 1));
  }

  lemma NthRight(a: seq<byte8>, b: seq<byte8>, n: nat, j: nat)
    requires |a| == PKT_BYTES * n && PKT_BYTES * (j + 1) <= |b|
    ensures Nth(a + b, n + j) == Nth(b, j)
  {
    SliceRight(a, b, PKT_BYTES * j, PKT_BYTES * (j + 1));
  }

  lemma NthInside(s: seq<byte8>, n: nat, m: nat, j: nat)
    requires j < m && PKT_BYTES * (n + m) <= |s|
    ensures Nth(s[PKT_BYTES * n..PKT_BYTES * (n + m)], j) == Nth(s, n + j)
  {
    SliceSlice(s, PKT_BYTES * n, PKT_BYTES * (n + m), PKT_BYTES * j, PKT_BYTES * (j + 1));
  }

  predicate Ascends(taken: seq<nat>) {
    forall i, j :: 0 <= i < j < |taken| ==> taken[i] < taken[j]
  }

  // Packet j of `drained` is packet taken[j] of what was put before byte
  // `end`: whole packets, in order, and none twice.
  predicate Took(put: seq<byte8>, end: int, taken: seq<nat>, drained: seq<byte8>) {
    && 0 <= end <= |put| && |drained| == PKT_BYTES * |taken| && Ascends(taken)
    && forall j :: 0 <= j < |taken| ==>
      PKT_BYTES * (taken[j] + 1) <= end && Nth(drained, j) == Nth(put, taken[j])
  }

  // The next m packets, from packet n on.
  lemma TookOnward(put: seq<byte8>, n: nat, m: nat, taken: seq<nat>, drained: seq<byte8>) returns (more: seq<nat>)
    requires Took(put, PKT_BYTES * n, taken, drained) && PKT_BYTES * (n + m) <= |put|
    ensures Took(put, PKT_BYTES * (n + m), more, drained + put[PKT_BYTES * n..PKT_BYTES * (n + m)])
  {
    var piece := put[PKT_BYTES * n..PKT_BYTES * (n + m)];
    more := taken + seq(m, i requires 0 <= i < m => n + i);
    forall j | 0 <= j < |more|
      ensures PKT_BYTES * (more[j] + 1) <= PKT_BYTES * (n + m)
      ensures Nth(drained + piece, j) == Nth(put, more[j])
    {
      if j < |taken| {
        NthLeft(drained, piece, j);
      } else {
        NthInside(put, n, m, j - |taken|);
        NthRight(drained, piece, |taken|, j - |taken|);
      }
    }
  }

  lemma TookMore(put: seq<byte8>, at: nat, n: nat, taken: seq<nat>, drained: seq<byte8>) returns (more: seq<nat>)
    requires Took(put, at, taken, drained) && at % PKT_BYTES == 0 && n % PKT_BYTES == 0 && at + n <= |put|
    ensures Took(put, at + n, more, drained + put[at..at + n])
  {
    var first, count := at / PKT_BYTES, n / PKT_BYTES;
    assert at == PKT_BYTES * first && at + n == PKT_BYTES * (first + count);
    more := TookOnward(put, first, count, taken, drained);
  }

  lemma TookStill(put: seq<byte8>, src: seq<byte8>, end: int, later: int, taken: seq<nat>, drained: seq<byte8>)
    requires Took(put, end, taken, drained) && end <= later <= |put + src|
    ensures Took(put + src, later, taken, drained)
  {
    forall j | 0 <= j < |taken|
      ensures Nth(drained, j) == Nth(put + src, taken[j])
    {
      NthLeft(put, src, taken[j]);
    }
  }

  // What becomes of a stream. Of the bytes put, some were drained, some lost,
  // and `held` are the ones still there. Only a loss makes a gap, and with one
  // the drained bytes are still whole packets, in order and none twice.
  predicate Account(put: seq<byte8>, drained: seq<byte8>, taken: seq<nat>, lost: nat, held: seq<byte8>) {
    && |put| == |drained| + lost + |held|
    && Packets(put) && held == Last(put, |held|)
    && (lost == 0 ==> drained <= put)
    && Took(put, |put| - |held|, taken, drained)
  }

  lemma Unread(s: seq<byte8>, at: int, n: int)
    requires 0 <= at && 0 <= n && at + n <= |s|
    ensures s[at..][..n] == s[at..at + n] && s[at..][n..] == s[at + n..]
    ensures s[..at] + s[at..at + n] == s[..at + n]
  {
  }

  // The first n bytes held are drained.
  lemma AccountDrop(put: seq<byte8>, drained: seq<byte8>, taken: seq<nat>, lost: nat, held: seq<byte8>, n: nat)
    returns (more: seq<nat>)
    requires Account(put, drained, taken, lost, held)
    requires n <= |held| && n % PKT_BYTES == 0 && |held| % PKT_BYTES == 0
    ensures Account(put, drained + held[..n], more, lost, held[n..])
  {
    var at := |put| - |held|;
    Multiples(|put|, |held|);
    Unread(put, at, n);
    more := TookMore(put, at, n, taken, drained);
  }

  // The ring after a put, in terms of the whole stream.
  lemma Slides(was: seq<byte8>, src: seq<byte8>, n: int, m: int)
    requires 0 <= n <= |was| && 0 <= m <= n + |src|
    ensures Last(Last(was, n) + src, m) == Last(was + src, m)
  {
  }

  // More bytes are put to a buffer of `size` bytes.
  lemma AccountPut(put: seq<byte8>, drained: seq<byte8>, taken: seq<nat>, lost: nat, held: seq<byte8>,
      src: seq<byte8>, size: nat)
    requires Account(put, drained, taken, lost, held) && Packets(src) && |held| <= size
    ensures Account(put + src, drained, taken, lost + Excess(|held| + |src|, size),
                    Last(held + src, Min(size, |held| + |src|)))
  {
    var n := Min(size, |held| + |src|);
    Slides(put, src, |held|, n);
    PacketsJoin(put, src);
    TookStill(put, src, |put| - |held|, |put + src| - n, taken, drained);
  }

  // A reader was given `got`: what was drained since `was`, descrambled.
  predicate Handed(got: seq<byte8>, was: seq<byte8>, now: seq<byte8>) {
    was <= now && got == Descramble(KEY, now[|was|..])
  }

  lemma HandedOne(was: seq<byte8>, piece: seq<byte8>)
    ensures Handed(Descramble(KEY, piece), was, was + piece)
  {
    assert (was + piece)[|was|..] == piece;
  }

  lemma HandedNone(was: seq<byte8>)
    ensures Handed([], was, was)
  {
  }

  lemma Grown(was: seq<byte8>, now: seq<byte8>, next: seq<byte8>)
    requires was <= now <= next
    ensures was <= next && next[|was|..] == now[|was|..] + next[|now|..]
  {
  }

  lemma HandedMore(got: seq<byte8>, out: seq<byte8>, was: seq<byte8>, now: seq<byte8>, next: seq<byte8>)
    requires Handed(got, was, now) && Handed(out, now, next)
    requires |was| % PKT_BYTES == 0 && |now| % PKT_BYTES == 0
    ensures Handed(got + out, was, next)
  {
    Grown(was, now, next);
    Multiples(|now|, |was|);
    Apart(KEY, now[|was|..], next[|now|..]);
  }

  // A turn may have been another reader's.
  lemma HandedNext(mine: bool, got: seq<byte8>, out: seq<byte8>, was: seq<byte8>, now: seq<byte8>, next: seq<byte8>)
    requires Handed(got, was, now) && if mine then Handed(out, now, next) else next == now
    requires |was| % PKT_BYTES == 0 && |now| % PKT_BYTES == 0
    ensures Handed(if mine then got + out else got, was, next)
  {
    if mine {
      HandedMore(got, out, was, now, next);
    }
  }

  class Adap {
    const tBuf: array<byte8>
    const sBuf: array<byte8>
    var tBufIdx: int
    var sBufStart: int
    var sBufStop: int
    var sBufByteCnt: int

    // All bytes ever put to the ring, the bytes drained from it, and how
    // many were overwritten before anyone drained them.
    ghost var put: seq<byte8>
    ghost var drained: seq<byte8>
    ghost var lost: nat

    // Which packets of `put` the drained ones are.
    ghost var taken: seq<nat>

    ghost predicate Shape() {
      && tBuf != sBuf
      && tBuf.Length == PKT_BUFLEN && sBuf.Length >= PKT_BUFLEN && sBuf.Length % PKT_BYTES == 0
    }

    ghost predicate Indices()
      reads this`sBufStart, this`sBufStop, this`sBufByteCnt
      requires Shape()
    {
      && 0 <= sBufStart < sBuf.Length && 0 <= sBufStop < sBuf.Length && 0 <= sBufByteCnt <= sBuf.Length
      && sBufStop == Round(sBufStart, sBufByteCnt, sBuf.Length)
    }

    ghost predicate Aligned()
      reads this`sBufStart, this`sBufStop, this`sBufByteCnt
    {
      sBufStart % PKT_BYTES == 0 && sBufStop % PKT_BYTES == 0 && sBufByteCnt % PKT_BYTES == 0
    }

    ghost predicate Valid()
      reads this, tBuf, sBuf
    {
      && Shape() && Indices() && Aligned()
      && 0 <= tBufIdx < PKT_BUFLEN && tBufIdx % PKT_BYTES == 0
      && Packets(tBuf[..tBufIdx])
      && Account(put, drained, taken, lost, Contents())
    }

    // The bytes in the ring, oldest first.
    ghost function Contents(): (s: seq<byte8>)
      reads this`sBufStart, this`sBufStop, this`sBufByteCnt, sBuf
      requires Shape() && Indices()
      ensures |s| == sBufByteCnt
    {
      Window(sBuf[..], sBufStart, sBufByteCnt)
    }

    // Everything that arrived for this tuner.
    ghost function Arrived(): seq<byte8>
      reads this, tBuf
      requires Shape() && 0 <= tBufIdx <= PKT_BUFLEN
    {
      put + tBuf[..tBufIdx]
    }

    constructor (size: nat)
      requires size >= PKT_BUFLEN && size % PKT_BYTES == 0
      ensures Valid() && fresh(tBuf) && fresh(sBuf) && sBuf.Length == size
      ensures Arrived() == [] && drained == [] && lost == 0
    {
      tBuf := new byte8[PKT_BUFLEN](_ => 0);
      sBuf := new byte8[size](_ => 0);
      tBufIdx, sBufStart, sBufStop, sBufByteCnt := 0, 0, 0, 0;
      put, drained, lost, taken := [], [], 0, [];
    }

    twostate lemma Untouched()
      requires old(Valid()) && unchanged(this, tBuf, sBuf)
      ensures Valid() && Arrived() == old(Arrived()) && drained == old(drained)
    {
    }

    // pxq3pe_dma_put_stream, the index part.
    method Advance(len: int)
      requires Shape() && Indices() && Aligned() && 0 < len <= sBuf.Length && len % PKT_BYTES == 0
      modifies this`sBufStart, this`sBufStop, this`sBufByteCnt
      ensures Indices() && Aligned()
      ensures sBufStop == Round(old(sBufStop), len, sBuf.Length)
      ensures sBufByteCnt == Min(sBuf.Length, old(sBufByteCnt) + len)
    {
      NextStop(sBufStart, sBufByteCnt, len, sBuf.Length);
      RoundAligned(sBufStop, len, sBuf.Length);
      Multiples(sBufByteCnt, len);
      sBufStop := (sBufStop + len) % sBuf.Length;
      if sBufByteCnt == sBuf.Length {
        sBufStart := sBufStop;
      } else {
        if sBuf.Length >= sBufByteCnt + len {
          sBufByteCnt := sBufByteCnt + len;
        } else {
          sBufStart := sBufStop;
          sBufByteCnt := sBuf.Length;
        }
      }
    }

    // The two memcpy calls of pxq3pe_dma_put_stream.
    method CopyIn(len: int)
      requires Shape() && Indices() && 0 < len <= PKT_BUFLEN
      modifies sBuf
      ensures forall i :: 0 <= i < sBuf.Length ==>
        var k := Round(sBufStop, i, sBuf.Length);
        sBuf[k] == if i < len then tBuf[i] else old(sBuf[k])
    {
      var savesz := if len <= sBuf.Length - sBufStop then len else sBuf.Length - sBufStop;
      var remain := len - savesz;
      forall k | 0 <= k < savesz {
        sBuf[sBufStop + k] := tBuf[k];
      }
      if remain != 0 {
        forall k | 0 <= k < remain {
          sBuf[k] := tBuf[savesz + k];
        }
      }
    }

    // pxq3pe_dma_put_stream: the ring slides over the stream.
    method PutStream()
      requires Shape() && Indices() && Aligned() && 0 < tBufIdx <= PKT_BUFLEN && tBufIdx % PKT_BYTES == 0
      modifies this`sBufStart, this`sBufStop, this`sBufByteCnt, sBuf
      ensures Indices() && Aligned()
      ensures sBufByteCnt == Min(sBuf.Length, old(sBufByteCnt) + tBufIdx)
      ensures Contents() == Last(old(Contents()) + tBuf[..tBufIdx], sBufByteCnt)
    {
      ghost var buf, start, cnt := sBuf[..], sBufStart, sBufByteCnt;
      CopyIn(tBufIdx);
      Advance(tBufIdx);
      Slide(buf, start, cnt, tBuf[..tBufIdx], sBuf[..], sBufStart, sBufByteCnt);
    }

    // ---- One packet of an interrupt ----

    // memcpy(&p->tBuf[p->tBufIdx], packet, 188)
    method Stage(packet: seq<byte8>)
      requires Valid() && |packet| == PKT_BYTES && packet[0] == SYNC
      modifies this`tBufIdx, tBuf
      ensures Indices() && 0 < tBufIdx == old(tBufIdx) + PKT_BYTES <= PKT_BUFLEN
      ensures tBuf[..tBufIdx] == old(tBuf[..tBufIdx]) + packet
      ensures Packets(tBuf[..tBufIdx])
    {
      forall k | 0 <= k < PKT_BYTES {
        tBuf[tBufIdx + k] := packet[k];
      }
      tBufIdx := tBufIdx + PKT_BYTES;
      assert tBuf[..tBufIdx] == old(tBuf[..tBufIdx]) + packet;
      OnePacket(packet);
      PacketsJoin(old(tBuf[..tBufIdx]), packet);
    }

    method Accept(packet: seq<byte8>)
      requires Valid() && |packet| == PKT_BYTES && packet[0] == SYNC
      modifies this, tBuf, sBuf
      ensures Valid() && Arrived() == old(Arrived()) + packet
      ensures old(put) <= put && drained == old(drained)
      ensures lost - old(lost) == Excess(old(sBufByteCnt) + |put| - |old(put)|, sBuf.Length)
    {
      Stage(packet);
      assert put + tBuf[..tBufIdx] == old(Arrived()) + packet;
      if tBufIdx >= PKT_BUFLEN {
        Spill();
        tBufIdx := 0;
        assert tBuf[..0] == [];
        Unit(put);
      }
    }

    // The staged packets go to the ring.
    method Spill()
      requires Shape() && Indices() && Aligned() && tBufIdx == PKT_BUFLEN && Packets(tBuf[..tBufIdx])
      requires Account(put, drained, taken, lost, Contents())
      modifies this`sBufStart, this`sBufStop, this`sBufByteCnt, this`put, this`lost, sBuf
      ensures Indices() && Aligned() && Account(put, drained, taken, lost, Contents())
      ensures put == old(put) + tBuf[..tBufIdx]
      ensures lost - old(lost) == Excess(old(sBufByteCnt) + tBufIdx, sBuf.Length)
    {
      ghost var src, held := tBuf[..tBufIdx], Contents();
      ghost var left := Last(held + src, Min(sBuf.Length, |held| + |src|));
      AccountPut(put, drained, taken, lost, held, src, sBuf.Length);
      put, lost := put + src, lost + Excess(|held| + |src|, sBuf.Length);
      ghost var p, d, t, l := put, drained, taken, lost;
      assert Account(p, d, t, l, left);
      PutStream();
      assert Contents() == left && put == p && drained == d && taken == t && lost == l;
    }

    // ---- Draining ----

    // The index updates of a drain of n bytes.
    method Skip(n: int)
      requires Shape() && Indices() && Aligned() && 0 <= n <= sBufByteCnt && n % PKT_BYTES == 0
      modifies this`sBufStart, this`sBufByteCnt
      ensures Indices() && Aligned()
      ensures sBufByteCnt == old(sBufByteCnt) - n && sBufStart == Round(old(sBufStart), n, sBuf.Length)
      ensures Contents() == old(Contents())[n..]
    {
      WindowTail(sBuf[..], sBufStart, sBufByteCnt, n);
      Wrap(sBufStart + n, sBuf.Length);
      RoundAligned(sBufStart, n, sBuf.Length);
      Multiples(sBufByteCnt, n);
      sBufStart := (sBufStart + n) % sBuf.Length;
      sBufByteCnt := sBufByteCnt - n;
    }

    method Drop(n: int)
      requires Valid() && 0 <= n <= sBufByteCnt && n % PKT_BYTES == 0
      modifies this`sBufStart, this`sBufByteCnt, this`drained, this`taken
      ensures Valid() && Arrived() == old(Arrived())
      ensures drained == old(drained) + old(Contents())[..n]
      ensures Contents() == old(Contents())[n..]
      ensures sBufByteCnt == old(sBufByteCnt) - n && sBufStart == Round(old(sBufStart), n, sBuf.Length)
    {
      taken := AccountDrop(put, drained, taken, lost, Contents(), n);
      drained := drained + Contents()[..n];
      Skip(n);
    }

    // Only an overflow makes a gap: without one, the drained bytes are the
    // first ones that arrived. With one, they are still whole packets of what
    // arrived, in order and none twice, and the counts add up.
    lemma NoGap()
      requires Valid()
      ensures |Arrived()| == |drained| + lost + sBufByteCnt + tBufIdx
      ensures lost == 0 ==> Arrived() == drained + Contents() + tBuf[..tBufIdx]
      ensures Took(Arrived(), |Arrived()| - sBufByteCnt - tBufIdx, taken, drained)
    {
      TookStill(put, tBuf[..tBufIdx], |put| - sBufByteCnt, |put| - sBufByteCnt, taken, drained);
      if lost == 0 {
        assert put == drained + Last(put, sBufByteCnt);
      }
    }

    // The memcpy calls of pxq3pe_read.
    method CopyOut(rlen: int) returns (rbuf: array<byte8>)
      requires Valid() && 0 <= rlen <= sBufByteCnt
      ensures fresh(rbuf) && rbuf[..] == Contents()[..rlen]
    {
      rbuf := new byte8[rlen];
      var sz := sBuf.Length - sBufStart;
      if rlen <= sz {
        forall k | 0 <= k < rlen {
          rbuf[k] := sBuf[sBufStart + k];
        }
      } else {
        forall k | 0 <= k < sz {
          rbuf[k] := sBuf[sBufStart + k];
        }
        forall k | 0 <= k < rlen - sz {
          rbuf[sz + k] := sBuf[k];
        }
      }
    }

    // Descrambling leaves the sync bytes alone.
    lemma Headed(n: int)
      requires Valid() && 0 <= n <= sBufByteCnt && n % PKT_BYTES == 0
      ensures forall key: Key :: Packets(Descramble(key, Contents()[..n]))
    {
      var at := |put| - sBufByteCnt;
      Multiples(|put|, sBufByteCnt);
      Multiples(at, n);
      PacketsPart(put, at, at + n);
      Unread(put, at, n);
      forall key: Key
        ensures Packets(Descramble(key, Contents()[..n]))
      {
        StillPackets(key, Contents()[..n]);
      }
    }

    method Fetch(rlen: int) returns (out: seq<byte8>)
      requires Valid() && 0 <= rlen <= sBufByteCnt && rlen % PKT_BYTES == 0
      modifies this`sBufStart, this`sBufByteCnt, this`drained, this`taken
      ensures Valid() && Arrived() == old(Arrived())
      ensures out == Descramble(KEY, old(Contents())[..rlen]) && Packets(out)
      ensures drained == old(drained) + old(Contents())[..rlen]
      ensures Handed(out, old(drained), drained)
    {
      HandedOne(drained, Contents()[..rlen]);
      var rbuf := CopyOut(rlen);
      Headed(rlen);
      Drop(rlen);
      UnrolledAll(rbuf);
      out := rbuf[..];
    }

    // pxq3pe_read: whole packets, in order, each descrambled and with its
    // sync byte; or nothing at all.
    method Read(maxlen: nat) returns (out: seq<byte8>)
      requires Valid()
      modifies this`sBufStart, this`sBufByteCnt, this`drained, this`taken
      ensures Valid() && Arrived() == old(Arrived())
      ensures var rlen := maxlen / PKT_BYTES * PKT_BYTES;
        if old(sBufByteCnt) >= rlen then
          && out == Descramble(KEY, old(Contents())[..rlen])
          && drained == old(drained) + old(Contents())[..rlen]
        else
          out == [] && drained == old(drained)
      ensures Packets(out) && Handed(out, old(drained), drained)
    {
      var rlen := maxlen / PKT_BYTES * PKT_BYTES;
      WholePackets(maxlen);
      HandedNone(drained);
      out := [];
      if sBufByteCnt >= rlen {
        out := Fetch(rlen);
      }
    }

    // Descrambling bytes that have left the ring does not disturb it.
    method InPlace(start: int, sz: int, idx: seq<nat>, xor: seq<byte8>)
      requires Valid() && |idx| == 8 && forall k :: 0 <= k < 8 ==> idx[k] < |xor|
      requires 0 <= start < sBuf.Length && 0 <= sz && start + sz <= sBuf.Length && sz % PKT_BYTES == 0
      requires sBufStart == Round(start, sz, sBuf.Length) && sBufByteCnt + sz <= sBuf.Length
      modifies sBuf
      ensures Valid()
      ensures sBuf[start..start + sz] == Descramble(TableKey(idx, xor), old(sBuf[start..start + sz]))
    {
      ghost var was := sBuf[..];
      TableAll(sBuf, start, sz, idx, xor);
      BehindWindow(TableKey(idx, xor), was, sBuf[..], start, sz, sBufByteCnt);
      assert Contents() == old(Contents());
    }

    // The oldest sz bytes, which do not go round: descrambled in place and
    // dropped.
    method DrainInPlace(sz: int, idx: seq<nat>, xor: seq<byte8>) returns (out: seq<byte8>)
      requires Valid() && |idx| == 8 && forall k :: 0 <= k < 8 ==> idx[k] < |xor|
      requires 0 <= sz <= sBufByteCnt && sz % PKT_BYTES == 0 && sBufStart + sz <= sBuf.Length
      modifies this`sBufStart, this`sBufByteCnt, this`drained, this`taken, sBuf
      ensures Valid() && Arrived() == old(Arrived())
      ensures out == Descramble(TableKey(idx, xor), old(Contents())[..sz]) && Packets(out)
      ensures drained == old(drained) + old(Contents())[..sz]
    {
      Headed(sz);
      var start := sBufStart;
      WindowFirst(sBuf[..], start, sBufByteCnt, sz);
      assert sBuf[start..start + sz] == sBuf[..][start..start + sz];
      Drop(sz);
      InPlace(start, sz, idx, xor);
      out := sBuf[start..start + sz];
    }

    // pxq3pe_thread: descramble in place up to the end of the buffer, hand
    // that to the demultiplexer, and drop it.
    method ThreadTurn(idx: seq<nat>, xor: seq<byte8>) returns (out: seq<byte8>)
      requires Valid() && |idx| == 8 && forall k :: 0 <= k < 8 ==> idx[k] < |xor|
      modifies this`sBufStart, this`sBufByteCnt, this`drained, this`taken, sBuf
      ensures Valid() && Arrived() == old(Arrived())
      ensures var sz := Min(sBuf.Length - old(sBufStart), old(sBufByteCnt));
        && out == Descramble(TableKey(idx, xor), old(Contents())[..sz])
        && drained == old(drained) + old(Contents())[..sz]
      ensures Packets(out)
      ensures TableKey(idx, xor) == KEY ==> Handed(out, old(drained), drained)
    {
      var sz := sBuf.Length - sBufStart;
      Multiples(sBuf.Length, sBufStart);
      if sBufByteCnt == 0 {
        HandedNone(drained);
        out := [];
        return;
      }
      if sz > sBufByteCnt {
        sz := sBufByteCnt;
      }
      HandedOne(drained, Contents()[..sz]);
      out := DrainInPlace(sz, idx, xor);
    }
  }

  // Which tuner a packet is for: its first byte is a tag. Any other tag
  // gives a number that is not a tuner's.
  function Tuner(port: bool, tag: byte8, adapn: nat): nat {
    (if port then 0 else 4) +
    (if tag == 0xC7 then 0 else if tag == 0x47 then 1 else if tag == 0x07 then 2 else if tag == 0x87 then 3 else adapn)
  }

  // The packets of a DMA buffer that are for tuner k, with the tag turned
  // back into a sync byte.
  function Tagged(port: bool, k: nat, adapn: nat, dat: seq<byte8>): seq<byte8>
    decreases |dat|
  {
    if |dat| < PKT_BYTES then []
    else
      var n := |dat| - PKT_BYTES;
      Tagged(port, k, adapn, dat[..n]) + (if Tuner(port, dat[n], adapn) == k then [SYNC] + dat[n + 1..] else [])
  }

  // The packets of a buffer that begin with this byte, in order, with 0x47 in
  // its place.
  function WithTag(tag: byte8, dat: seq<byte8>): (r: seq<byte8>)
    decreases |dat|
  {
    if |dat| < PKT_BYTES then []
    else
      var n := |dat| - PKT_BYTES;
      WithTag(tag, dat[..n]) + (if dat[n] == tag then [0x47] + dat[n + 1..] else [])
  }

  // The tag of a tuner's packets, first those of the second port.
  predicate HasTag(port: bool, k: nat, tag: byte8) {
    if port then
      (k == 0 && tag == 0xC7) || (k == 1 && tag == 0x47) || (k == 2 && tag == 0x07) || (k == 3 && tag == 0x87)
    else
      (k == 4 && tag == 0xC7) || (k == 5 && tag == 0x47) || (k == 6 && tag == 0x07) || (k == 7 && tag == 0x87)
  }

  lemma TunerIsTagged(port: bool, k: nat, adapn: nat, tag: byte8)
    requires k < adapn
    ensures Tuner(port, tag, adapn) == k <==> HasTag(port, k, tag)
  {
  }

  // A tuner is given exactly the packets with its tag.
  lemma {:induction false} TaggedIs(port: bool, k: nat, adapn: nat, tag: byte8, dat: seq<byte8>)
    requires k < adapn && HasTag(port, k, tag)
    ensures Tagged(port, k, adapn, dat) == WithTag(tag, dat)
    decreases |dat|
  {
    if |dat| >= PKT_BYTES {
      var n := |dat| - PKT_BYTES;
      TaggedIs(port, k, adapn, tag, dat[..n]);
      TunerIsTagged(port, k, adapn, dat[n]);
    }
  }

  // A tuner with no tag on this port is given nothing.
  lemma {:induction false} TaggedNone(port: bool, k: nat, adapn: nat, dat: seq<byte8>)
    requires k < adapn && forall tag :: !HasTag(port, k, tag)
    ensures Tagged(port, k, adapn, dat) == []
    decreases |dat|
  {
    if |dat| >= PKT_BYTES {
      var n := |dat| - PKT_BYTES;
      TaggedNone(port, k, adapn, dat[..n]);
      TunerIsTagged(port, k, adapn, dat[n]);
    }
  }

  // The start of a packet in the buffer, or its end.
  predicate Inside(i: int) {
    0 <= i <= PKT_BUFLEN && i % PKT_BYTES == 0
  }

  lemma InsideMore(i: int)
    requires Inside(i) && i < PKT_BUFLEN
    ensures Inside(i + PKT_BYTES)
  {
  }

  // What may happen to a card: an interrupt, a read by the user of tuner k, or
  // a turn of its kernel thread.
  datatype Event = Interrupt(port: bool, dat: seq<byte8>) | Read(k: nat, maxlen: nat) | Drain(k: nat)

  class Card {
    const adaps: seq<Adap>
    const on: seq<bool>  // adap->ON; all true in drivers/video/pxq3pe_dtv.c

    ghost function Repr(): set<object> {
      (set i | 0 <= i < |adaps| :: adaps[i] as object)
      + (set i | 0 <= i < |adaps| :: adaps[i].tBuf as object)
      + (set i | 0 <= i < |adaps| :: adaps[i].sBuf as object)
    }

    ghost predicate Apart() {
      forall i, j :: 0 <= i < j < |adaps| ==>
        && adaps[i] != adaps[j]
        && adaps[i].tBuf != adaps[j].tBuf && adaps[i].sBuf != adaps[j].sBuf
        && adaps[i].tBuf != adaps[j].sBuf && adaps[i].sBuf != adaps[j].tBuf
    }

    ghost predicate Valid()
      reads Repr()
    {
      |on| == |adaps| <= 251 && Apart() && forall i :: 0 <= i < |adaps| ==> adaps[i].Valid()
    }

    constructor (adaps: seq<Adap>, on: seq<bool>)
      ensures this.adaps == adaps && this.on == on
    {
      this.adaps, this.on := adaps, on;
    }

    // There is such a tuner, and it is on.
    predicate IsFor(idx: nat)
      requires |on| == |adaps|
    {
      idx < |adaps| && on[idx]
    }

    // What tuner k gets out of a DMA buffer, and out of one packet.
    function Share(port: bool, k: nat, dat: seq<byte8>): seq<byte8>
      requires k < |on|
    {
      if on[k] then Tagged(port, k, |adaps|, dat) else []
    }

    function Piece(port: bool, k: nat, packet: seq<byte8>): seq<byte8>
      requires k < |on| && |packet| == PKT_BYTES
    {
      if on[k] && k == Tuner(port, packet[0], |adaps|) then [SYNC] + packet[1..] else []
    }

    lemma ShareGrows(port: bool, k: nat, dat: seq<byte8>, i: int, before: seq<byte8>)
      requires k < |on| && 0 <= i && i + PKT_BYTES <= |dat|
      ensures before + Share(port, k, dat[..i + PKT_BYTES]) ==
              before + Share(port, k, dat[..i]) + Piece(port, k, dat[i..i + PKT_BYTES])
    {
      var d, packet := dat[..i + PKT_BYTES], dat[i..i + PKT_BYTES];
      assert d[..i] == dat[..i] && d[i..] == packet && d[i] == packet[0];
      SliceSlice(d, i, |d|, 1, PKT_BYTES);
      Assoc(before, Share(port, k, d[..i]), Piece(port, k, packet));
      Unit(Share(port, k, d[..i]));
    }

    // On the second port tuners 0 to 3, on the first tuners 4 to 7 get the
    // packets tagged 0xC7, 0x47, 0x07 and 0x87, if they are on; no tuner gets
    // any other packet.
    lemma ShareIs(port: bool, k: nat, dat: seq<byte8>)
      requires |on| == |adaps| && k < |on|
      ensures forall tag :: on[k] && HasTag(port, k, tag) ==> Share(port, k, dat) == WithTag(tag, dat)
      ensures !on[k] || (forall tag :: !HasTag(port, k, tag)) ==> Share(port, k, dat) == []
    {
      forall tag | HasTag(port, k, tag)
        ensures Tagged(port, k, |adaps|, dat) == WithTag(tag, dat)
      {
        TaggedIs(port, k, |adaps|, tag, dat);
      }
      if forall tag :: !HasTag(port, k, tag) {
        TaggedNone(port, k, |adaps|, dat);
      }
    }

    // What every tuner gets out of dat.
    function Shares(port: bool, dat: seq<byte8>): (s: seq<seq<byte8>>)
      requires |on| == |adaps|
      ensures |s| == |adaps| && forall k :: 0 <= k < |adaps| ==> s[k] == Share(port, k, dat)
    {
      seq(|adaps|, k requires 0 <= k < |adaps| => Share(port, k, dat))
    }

    // Since arrived and drained were noted, every tuner got its share.
    ghost predicate Shared(shares: seq<seq<byte8>>, arrived: seq<seq<byte8>>, drained: seq<seq<byte8>>)
      requires Valid() && |shares| == |arrived| == |drained| == |adaps|
      reads Repr()
    {
      forall k :: 0 <= k < |adaps| ==>
        adaps[k].Arrived() == arrived[k] + shares[k] && adaps[k].drained == drained[k]
    }

    ghost predicate Noted(arrived: seq<seq<byte8>>, drained: seq<seq<byte8>>)
      requires Valid()
      reads Repr()
    {
      && |arrived| == |drained| == |adaps|
      && forall k :: 0 <= k < |adaps| ==>
        arrived[k] == adaps[k].Arrived() && drained[k] == adaps[k].drained && |drained[k]| % PKT_BYTES == 0
    }

    lemma Note() returns (arrived: seq<seq<byte8>>, drained: seq<seq<byte8>>)
      requires Valid()
      ensures Noted(arrived, drained)
    {
      arrived := seq(|adaps|, k requires 0 <= k < |adaps| && Valid() reads Repr() => adaps[k].Arrived());
      drained := seq(|adaps|, k requires 0 <= k < |adaps| reads Repr() => adaps[k].drained);
      forall k | 0 <= k < |adaps|
        ensures |drained[k]| % PKT_BYTES == 0
      {
        adaps[k].NoGap();
      }
    }

    lemma Elsewhere(idx: nat, k: nat)
      requires Apart() && idx < |adaps| && k < |adaps| && k != idx
      requires adaps[idx].Shape() && adaps[k].Shape()
      ensures var rest := Repr() - {adaps[idx], adaps[idx].tBuf, adaps[idx].sBuf};
        adaps[k] in rest && adaps[k].tBuf in rest && adaps[k].sBuf in rest
    {
    }

    // What changes at one tuner the others do not notice.
    twostate lemma Others(idx: nat)
      requires old(Valid()) && idx < |adaps| && adaps[idx].Valid()
      requires unchanged(Repr() - {adaps[idx], adaps[idx].tBuf, adaps[idx].sBuf})
      ensures Valid()
      ensures forall k :: 0 <= k < |adaps| && k != idx ==>
        adaps[k].Arrived() == old(adaps[k].Arrived()) && adaps[k].drained == old(adaps[k].drained)
    {
      forall k | 0 <= k < |adaps| && k != idx
        ensures adaps[k].Valid() && adaps[k].Arrived() == old(adaps[k].Arrived())
        ensures adaps[k].drained == old(adaps[k].drained)
      {
        Elsewhere(idx, k);
        adaps[k].Untouched();
      }
    }

    // A packet for one tuner.
    method Give(idx: nat, packet: seq<byte8>)
      requires Valid() && idx < |adaps| && |packet| == PKT_BYTES && packet[0] == SYNC
      modifies Repr()
      ensures Valid()
      ensures forall k :: 0 <= k < |adaps| ==>
        && adaps[k].Arrived() == old(adaps[k].Arrived()) + (if k == idx then packet else [])
        && adaps[k].drained == old(adaps[k].drained)
    {
      adaps[idx].Accept(packet);
      Others(idx);
    }

    // One packet of pxq3pe_irq.
    method Sort(port: bool, packet: seq<byte8>, taken: bool)
      requires Valid() && |packet| == PKT_BYTES && taken == IsFor(Tuner(port, packet[0], |adaps|))
      modifies Repr()
      ensures Valid()
      ensures forall k :: 0 <= k < |adaps| ==>
        && adaps[k].Arrived() == old(adaps[k].Arrived()) + Piece(port, k, packet)
        && adaps[k].drained == old(adaps[k].drained)
    {
      if taken {
        Give(Tuner(port, packet[0], |adaps|), [SYNC] + packet[1..]);
      }
    }

    // tbuf[i] = PTX_TS_SYNC
    method Mark(tbuf: array<byte8>, i: int, taken: bool)
      requires Valid() && 0 <= i && i + PKT_BYTES <= tbuf.Length
      requires forall k :: 0 <= k < |adaps| ==> tbuf != adaps[k].tBuf && tbuf != adaps[k].sBuf
      modifies tbuf
      ensures Valid() && tbuf[i + PKT_BYTES..] == old(tbuf[i + PKT_BYTES..])
      ensures forall k :: 0 <= k < |adaps| ==> adaps[k].Arrived() == old(adaps[k].Arrived())
    {
      if taken {
        tbuf[i] := SYNC;
      }
    }

    // The packet at i.
    method Turn(port: bool, tbuf: array<byte8>, i: int, ghost was: seq<byte8>,
        ghost arrived: seq<seq<byte8>>, ghost drained: seq<seq<byte8>>)
      returns (next: int, ghost shares: seq<seq<byte8>>)
      requires Valid() && tbuf.Length == |was| == PKT_BUFLEN && Inside(i) && i < PKT_BUFLEN && tbuf[i..] == was[i..]
      requires forall k :: 0 <= k < |adaps| ==> tbuf != adaps[k].tBuf && tbuf != adaps[k].sBuf
      requires |arrived| == |drained| == |adaps| && Shared(Shares(port, was[..i]), arrived, drained)
      modifies Repr(), tbuf
      ensures i < next && Inside(next) && Valid() && tbuf[next..] == was[next..]
      ensures shares == Shares(port, was[..next]) && Shared(shares, arrived, drained)
    {
      next := i + PKT_BYTES;
      InsideMore(i);
      var packet := tbuf[i..i + PKT_BYTES];
      ghost var rest := tbuf[i + PKT_BYTES..];
      assert packet == tbuf[i..][..PKT_BYTES] == was[i..i + PKT_BYTES];
      assert rest == tbuf[i..][PKT_BYTES..] == was[i + PKT_BYTES..];
      assert tbuf !in Repr();
      var taken := IsFor(Tuner(port, packet[0], |adaps|));
      Sort(port, packet, taken);
      assert tbuf[i + PKT_BYTES..] == rest;
      Mark(tbuf, i, taken);
      shares := Shares(port, was[..i + PKT_BYTES]);
      forall k | 0 <= k < |adaps|
        ensures adaps[k].Arrived() == arrived[k] + shares[k]
      {
        ShareGrows(port, k, was, i, arrived[k]);
      }
    }

    // The loop over the packets.
    method AllTurns(port: bool, tbuf: array<byte8>, ghost was: seq<byte8>,
        ghost arrived: seq<seq<byte8>>, ghost drained: seq<seq<byte8>>)
      returns (ghost shares: seq<seq<byte8>>)
      requires Valid() && tbuf.Length == PKT_BUFLEN && was == tbuf[..]
      requires forall k :: 0 <= k < |adaps| ==> tbuf != adaps[k].tBuf && tbuf != adaps[k].sBuf
      requires |arrived| == |drained| == |adaps| && Shared(Shares(port, []), arrived, drained)
      modifies Repr(), tbuf
      ensures Valid() && shares == Shares(port, was) && Shared(shares, arrived, drained)
    {
      shares := Shares(port, was[..0]);
      var i := 0;
      while i < PKT_BUFLEN
        invariant Inside(i) && Valid() && tbuf[i..] == was[i..]
        invariant shares == Shares(port, was[..i]) && Shared(shares, arrived, drained)
      {
        i, shares := Turn(port, tbuf, i, was, arrived, drained);
      }
      assert was[..i] == was;
    }

    // pxq3pe_irq for one full DMA buffer: every tuner that is on gets exactly
    // the packets with its tag, in order.
    method Irq(port: bool, tbuf: array<byte8>)
      requires Valid() && tbuf.Length == PKT_BUFLEN
      requires forall k :: 0 <= k < |adaps| ==> tbuf != adaps[k].tBuf && tbuf != adaps[k].sBuf
      modifies Repr(), tbuf
      ensures Valid()
      ensures forall k :: 0 <= k < |adaps| ==>
        && adaps[k].Arrived() == old(adaps[k].Arrived()) + Share(port, k, old(tbuf[..]))
        && adaps[k].drained == old(adaps[k].drained)
    {
      ghost var arrived, drained := Note();
      assert forall k :: 0 <= k < |adaps| ==> arrived[k] + [] == arrived[k];
      ghost var shares := AllTurns(port, tbuf, tbuf[..], arrived, drained);
    }

    predicate Possible(e: Event) {
      match e
      case Interrupt(_, dat) => |dat| == PKT_BUFLEN
      case Read(k, _) => k < |adaps|
      case Drain(k) => k < |adaps|
    }

    function Traffic(k: nat, events: seq<Event>): seq<byte8>
      requires k < |on|
    {
      if events == [] then []
      else
        var e := events[|events| - 1];
        Traffic(k, events[..|events| - 1]) + (if e.Interrupt? then Share(e.port, k, e.dat) else [])
    }

    lemma TrafficGrows(k: nat, events: seq<Event>, n: nat, before: seq<byte8>)
      requires k < |on| && n < |events|
      ensures before + Traffic(k, events[..n + 1]) ==
              before + Traffic(k, events[..n])
              + (if events[n].Interrupt? then Share(events[n].port, k, events[n].dat) else [])
    {
      assert events[..n + 1][..n] == events[..n];
    }

    // A read from tuner k; the other tuners do not notice.
    method ReadFrom(k: nat, maxlen: nat) returns (out: seq<byte8>)
      requires Valid() && k < |adaps|
      modifies Repr()
      ensures Valid()
      ensures Handed(out, old(adaps[k].drained), adaps[k].drained)
      ensures forall i :: 0 <= i < |adaps| ==> adaps[i].Arrived() == old(adaps[i].Arrived())
      ensures forall i :: 0 <= i < |adaps| && i != k ==> adaps[i].drained == old(adaps[i].drained)
    {
      out := adaps[k].Read(maxlen);
      Others(k);
    }

    // A turn of the thread of tuner k, with the tables of the driver.
    method DrainBy(k: nat) returns (out: seq<byte8>)
      requires Valid() && k < |adaps|
      modifies Repr()
      ensures Valid()
      ensures Handed(out, old(adaps[k].drained), adaps[k].drained)
      ensures forall i :: 0 <= i < |adaps| ==> adaps[i].Arrived() == old(adaps[i].Arrived())
      ensures forall i :: 0 <= i < |adaps| && i != k ==> adaps[i].drained == old(adaps[i].drained)
    {
      out := adaps[k].ThreadTurn(IDX, XOR);
      Others(k);
    }

    method Handle(e: Event) returns (out: seq<byte8>)
      requires Valid() && Possible(e)
      modifies Repr()
      ensures Valid()
      ensures forall k :: 0 <= k < |adaps| ==>
        adaps[k].Arrived() == old(adaps[k].Arrived()) + (if e.Interrupt? then Share(e.port, k, e.dat) else [])
      ensures forall k :: 0 <= k < |adaps| ==>
        if !e.Interrupt? && e.k == k then
          Handed(out, old(adaps[k].drained), adaps[k].drained)
        else
          adaps[k].drained == old(adaps[k].drained)
    {
      out := [];
      match e
      case Interrupt(port, dat) =>
        var tbuf := new byte8[PKT_BUFLEN](i requires 0 <= i < |dat| => dat[i]);
        assert tbuf[..] == dat;
        Irq(port, tbuf);
      case Read(k, maxlen) =>
        out := ReadFrom(k, maxlen);
      case Drain(k) =>
        out := DrainBy(k);
    }

    // From a0 and d0 on, these events have brought what has arrived to a1 and
    // what was drained to d1, and the readers of each tuner were given `got`.
    predicate Since(events: seq<Event>, a0: seq<seq<byte8>>, d0: seq<seq<byte8>>,
        a1: seq<seq<byte8>>, d1: seq<seq<byte8>>, got: seq<seq<byte8>>)
      requires |on| == |adaps|
    {
      && |a0| == |d0| == |a1| == |d1| == |got| == |adaps|
      && forall k :: 0 <= k < |adaps| ==>
        a1[k] == a0[k] + Traffic(k, events) && Handed(got[k], d0[k], d1[k])
    }

    // What Handle does, on noted values.
    predicate Moved(e: Event, out: seq<byte8>, a0: seq<seq<byte8>>, d0: seq<seq<byte8>>,
        a1: seq<seq<byte8>>, d1: seq<seq<byte8>>)
      requires |on| == |adaps| == |a0| == |d0| == |a1| == |d1|
    {
      forall k :: 0 <= k < |adaps| ==>
        && a1[k] == a0[k] + (if e.Interrupt? then Share(e.port, k, e.dat) else [])
        && if !e.Interrupt? && e.k == k then Handed(out, d0[k], d1[k]) else d1[k] == d0[k]
    }

    lemma NoneSince(a0: seq<seq<byte8>>, d0: seq<seq<byte8>>, got: seq<seq<byte8>>)
      requires |on| == |adaps| == |a0| == |d0| == |got|
      requires forall k :: 0 <= k < |adaps| ==> got[k] == []
      ensures Since([], a0, d0, a0, d0, got)
    {
      forall k | 0 <= k < |adaps|
        ensures Handed(got[k], d0[k], d0[k]) && a0[k] == a0[k] + Traffic(k, [])
      {
        HandedNone(d0[k]);
      }
    }

    lemma OneSince(events: seq<Event>, n: nat, a0: seq<seq<byte8>>, d0: seq<seq<byte8>>,
        a1: seq<seq<byte8>>, d1: seq<seq<byte8>>, got: seq<seq<byte8>>,
        a2: seq<seq<byte8>>, d2: seq<seq<byte8>>, out: seq<byte8>, more: seq<seq<byte8>>)
      requires |on| == |adaps| == |a2| == |d2|
      requires n < |events| && Possible(events[n]) && Since(events[..n], a0, d0, a1, d1, got)
      requires forall k :: 0 <= k < |adaps| ==> |d0[k]| % PKT_BYTES == 0 && |d1[k]| % PKT_BYTES == 0
      requires Moved(events[n], out, a1, d1, a2, d2)
      requires more == if !events[n].Interrupt? then got[events[n].k := got[events[n].k] + out] else got
      ensures Since(events[..n + 1], a0, d0, a2, d2, more)
    {
      forall k | 0 <= k < |adaps|
        ensures a2[k] == a0[k] + Traffic(k, events[..n + 1]) && Handed(more[k], d0[k], d2[k])
      {
        TrafficGrows(k, events, n, a0[k]);
        HandedNext(!events[n].Interrupt? && events[n].k == k, got[k], out, d0[k], d1[k], d2[k]);
      }
    }

    method Move(e: Event, ghost a0: seq<seq<byte8>>, ghost d0: seq<seq<byte8>>)
      returns (out: seq<byte8>, ghost a1: seq<seq<byte8>>, ghost d1: seq<seq<byte8>>)
      requires Valid() && Possible(e) && Noted(a0, d0)
      modifies Repr()
      ensures Valid() && Noted(a1, d1) && Moved(e, out, a0, d0, a1, d1)
    {
      out := Handle(e);
      a1, d1 := Note();
    }

    // Every tuner has drained whole packets of what arrived for it, in order
    // and none twice; and the first ones, if nothing was lost. What is neither
    // drained nor lost is still held.
    ghost predicate InOrder()
      requires Valid()
      reads Repr()
    {
      forall k :: 0 <= k < |adaps| ==>
        && Took(adaps[k].Arrived(), |adaps[k].Arrived()|, adaps[k].taken, adaps[k].drained)
        && (adaps[k].lost == 0 ==> adaps[k].drained <= adaps[k].Arrived())
        && |adaps[k].Arrived()| == |adaps[k].drained| + adaps[k].lost + adaps[k].sBufByteCnt + adaps[k].tBufIdx
    }

    lemma AllInOrder()
      requires Valid()
      ensures InOrder()
    {
      forall k | 0 <= k < |adaps|
        ensures Took(adaps[k].Arrived(), |adaps[k].Arrived()|, adaps[k].taken, adaps[k].drained)
        ensures adaps[k].lost == 0 ==> adaps[k].drained <= adaps[k].Arrived()
        ensures |adaps[k].Arrived()| == |adaps[k].drained| + adaps[k].lost + adaps[k].sBufByteCnt + adaps[k].tBufIdx
      {
        adaps[k].NoGap();
      }
    }

    // Any sequence of interrupts, reads and turns of the threads. What has
    // arrived for a tuner is what was tagged for it, whoever reads what and
    // whatever overflows. What its readers got is what was drained meanwhile,
    // descrambled once. All that was ever drained is whole packets of what
    // arrived, in order and none twice, and with no overflow it is the first
    // of them.
    method Run(events: seq<Event>) returns (got: seq<seq<byte8>>)
      requires Valid() && forall e :: e in events ==> Possible(e)
      modifies Repr()
      ensures Valid() && InOrder() && |got| == |adaps|
      ensures forall k :: 0 <= k < |adaps| ==>
        && adaps[k].Arrived() == old(adaps[k].Arrived()) + Traffic(k, events)
        && Handed(got[k], old(adaps[k].drained), adaps[k].drained)
    {
      ghost var a0, d0 := Note();
      ghost var a1, d1 := a0, d0;
      got := seq(|adaps|, _ => []);
      NoneSince(a0, d0, got);
      for n := 0 to |events|
        invariant Valid() && Noted(a1, d1) && |got| == |adaps|
        invariant Since(events[..n], a0, d0, a1, d1, got)
      {
        var e := events[n];
        ghost var was, a, d := got, a1, d1;
        var out;
        out, a1, d1 := Move(e, a1, d1);
        if !e.Interrupt? {
          got := got[e.k := got[e.k] + out];
        }
        OneSince(events, n, a0, d0, a, d, was, a1, d1, out, got);
      }
      assert events[..|events|] == events;
      AllInOrder();
    }
  }
}
