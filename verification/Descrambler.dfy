// The packet descramblers of the PX-Q3PE drivers: the unrolled one of
// drivers/video/pxq3pe_dtv.c and the table-driven one of
// drivers/media/pci/ptx/pxq3pe_pci.c.
module Descrambler {
  import opened Octets

  const PKT_BYTES := 188

  // xor[idx[k]] for k in 0..7: the byte that position k of each group of
  // eight is combined with.
  type Key = k: seq<byte8> | |k| == 8 witness [0, 0, 0, 0, 0, 0, 0, 0]

  const XOR: seq<byte8> := [0x2F, 0x46, 0x56, 0xE3]
  const IDX: seq<nat> := [0, 0, 3, 1, 0, 2, 1, 2]

  function TableKey(idx: seq<nat>, xor: seq<byte8>): Key
    requires |idx| == 8 && forall k :: 0 <= k < 8 ==> idx[k] < |xor|
  {
    seq(8, k requires 0 <= k < 8 => xor[idx[k]])
  }

  // One byte at offset o of a packet; the 4 header bytes are clear.
  function Plain(key: Key, o: nat, x: byte8): byte8 {
    if o < 4 then x else x ^ key[Turn(o)]
  }

  function Turn(o: nat): (k: nat)
    requires o >= 4
    ensures k < 8
  {
    (o - 4) % 8
  }

  // A run of packets.
  function Descramble(key: Key, s: seq<byte8>): (r: seq<byte8>)
    ensures |r| == |s| && forall i :: 0 <= i < |s| ==> r[i] == Plain(key, i % PKT_BYTES, s[i])
  {
    seq(|s|, i requires 0 <= i < |s| => Plain(key, i % PKT_BYTES, s[i]))
  }

  lemma XorTwice(x: byte8, k: byte8)
    ensures (x ^ k) ^ k == x
  {
  }

  lemma SelfInverse(key: Key, s: seq<byte8>)
    ensures Descramble(key, Descramble(key, s)) == s
  {
    var t := Descramble(key, s);
    forall i | 0 <= i < |s|
      ensures Descramble(key, t)[i] == s[i]
    {
      var o := i % PKT_BYTES;
      if o >= 4 {
        XorTwice(s[i], key[Turn(o)]);
      }
    }
  }

  lemma Shift(n: nat, m: nat)
    requires n % PKT_BYTES == 0
    ensures (n + m) % PKT_BYTES == m % PKT_BYTES
  {
  }

  lemma FirstPart(key: Key, a: seq<byte8>, b: seq<byte8>, i: nat)
    requires i < |a|
    ensures Descramble(key, a + b)[i] == Descramble(key, a)[i]
  {
    assert (a + b)[i] == a[i];
  }

  lemma SecondPart(key: Key, a: seq<byte8>, b: seq<byte8>, i: nat)
    requires |a| % PKT_BYTES == 0 && i < |b|
    ensures Descramble(key, a + b)[|a| + i] == Descramble(key, b)[i]
  {
    Shift(|a|, i);
    assert (a + b)[|a| + i] == b[i];
  }

  lemma FirstParts(key: Key, a: seq<byte8>, b: seq<byte8>)
    ensures Descramble(key, a + b)[..|a|] == Descramble(key, a)
  {
    forall i | 0 <= i < |a|
      ensures Descramble(key, a + b)[i] == Descramble(key, a)[i]
    {
      FirstPart(key, a, b, i);
    }
  }

  lemma SecondParts(key: Key, a: seq<byte8>, b: seq<byte8>)
    requires |a| % PKT_BYTES == 0
    ensures Descramble(key, a + b)[|a|..] == Descramble(key, b)
  {
    var rest := Descramble(key, a + b)[|a|..];
    forall i | 0 <= i < |b|
      ensures rest[i] == Descramble(key, b)[i]
    {
      SecondPart(key, a, b, i);
    }
  }

  // Runs of whole packets can be descrambled apart.
  lemma Apart(key: Key, a: seq<byte8>, b: seq<byte8>)
    requires |a| % PKT_BYTES == 0
    ensures Descramble(key, a + b) == Descramble(key, a) + Descramble(key, b)
  {
    FirstParts(key, a, b);
    SecondParts(key, a, b);
    Cut(Descramble(key, a + b), |a|);
  }

  // The one packet at `base` has been descrambled, and nothing else.
  twostate predicate PacketDone(buf: array<byte8>, base: nat, key: Key)
    reads buf
    requires base + PKT_BYTES <= buf.Length
  {
    && (forall q :: base <= q < base + PKT_BYTES ==> buf[q] == Plain(key, q - base, old(buf[q])))
    && (forall q :: 0 <= q < base || base + PKT_BYTES <= q < buf.Length ==> buf[q] == old(buf[q]))
  }

  const KEY: Key := TableKey(IDX, XOR)

  lemma KeyBytes()
    ensures KEY[0] == XOR[0] && KEY[1] == XOR[0] && KEY[2] == XOR[3] && KEY[3] == XOR[1]
    ensures KEY[4] == XOR[0] && KEY[5] == XOR[2] && KEY[6] == XOR[1] && KEY[7] == XOR[2]
    ensures KEY == [0x2F, 0x2F, 0xE3, 0x46, 0x2F, 0x56, 0x46, 0x56]
  {
  }

  method Four(rbuf: array<byte8>, at: nat, a: byte8, b: byte8, c: byte8, d: byte8) returns (i: nat)
    requires at + 4 <= rbuf.Length
    modifies rbuf
    ensures i == at + 4
    ensures rbuf[at] == old(rbuf[at]) ^ a && rbuf[at + 1] == old(rbuf[at + 1]) ^ b
    ensures rbuf[at + 2] == old(rbuf[at + 2]) ^ c && rbuf[at + 3] == old(rbuf[at + 3]) ^ d
    ensures forall q :: 0 <= q < at || at + 4 <= q < rbuf.Length ==> rbuf[q] == old(rbuf[q])
  {
    i := at;
    rbuf[i] := rbuf[i] ^ a; i := i + 1;
    rbuf[i] := rbuf[i] ^ b; i := i + 1;
    rbuf[i] := rbuf[i] ^ c; i := i + 1;
    rbuf[i] := rbuf[i] ^ d; i := i + 1;
  }

  // The eight statements of the inner loop of pxq3pe_read.
  method Eight(rbuf: array<byte8>, at: nat) returns (i: nat)
    requires at + 8 <= rbuf.Length
    modifies rbuf
    ensures i == at + 8
    ensures forall q :: at <= q < at + 8 ==> rbuf[q] == old(rbuf[q]) ^ KEY[q - at]
    ensures forall q :: 0 <= q < at || at + 8 <= q < rbuf.Length ==> rbuf[q] == old(rbuf[q])
  {
    KeyBytes();
    i := Four(rbuf, at, XOR[0], XOR[0], XOR[3], XOR[1]);
    i := Four(rbuf, i, XOR[0], XOR[2], XOR[1], XOR[2]);
    forall q | at <= q < at + 8
      ensures rbuf[q] == old(rbuf[q]) ^ KEY[q - at]
    {
      assert q == at || q == at + 1 || q == at + 2 || q == at + 3
          || q == at + 4 || q == at + 5 || q == at + 6 || q == at + 7;
    }
  }

  lemma Turns(o: nat)
    requires o % 8 == 4
    ensures forall k {:trigger Turn(k)} :: o <= k < o + 8 ==> Turn(k) == k - o
  {
  }

  // The middle loop of pxq3pe_read, for the packet that starts at `at`: it
  // stops exactly on the packet boundary.
  method UnrolledPacket(rbuf: array<byte8>, at: nat, end: nat) returns (i: nat)
    requires end == at + PKT_BYTES <= rbuf.Length
    modifies rbuf
    ensures i == end && PacketDone(rbuf, at, KEY)
  {
    i := at + 4;
    ghost var groups := 0;
    while i < end
      invariant i == at + 4 + 8 * groups && i <= end
      invariant forall q :: at <= q < i ==> rbuf[q] == Plain(KEY, q - at, old(rbuf[q]))
      invariant forall q :: 0 <= q < at || i <= q < rbuf.Length ==> rbuf[q] == old(rbuf[q])
    {
      Turns(8 * groups + 4);
      i := Eight(rbuf, i);
      groups := groups + 1;
    }
  }

  // The middle loops of pxq3pe_thread, for the packet that starts at `at`.
  method TablePacket(rbuf: array<byte8>, at: nat, end: nat, idx: seq<nat>, xor: seq<byte8>) returns (i: nat)
    requires end == at + PKT_BYTES <= rbuf.Length
    requires |idx| == 8 && forall k :: 0 <= k < 8 ==> idx[k] < |xor|
    modifies rbuf
    ensures i == end && PacketDone(rbuf, at, TableKey(idx, xor))
  {
    ghost var key := TableKey(idx, xor);
    i := at + 4;
    ghost var groups := 0;
    while i < end
      invariant i == at + 4 + 8 * groups && i <= end
      invariant forall q :: at <= q < i ==> rbuf[q] == Plain(key, q - at, old(rbuf[q]))
      invariant forall q :: 0 <= q < at || i <= q < rbuf.Length ==> rbuf[q] == old(rbuf[q])
    {
      for k := 0 to 8
        invariant i == at + 4 + 8 * groups + k
        invariant forall q :: at <= q < i ==> rbuf[q] == Plain(key, q - at, old(rbuf[q]))
        invariant forall q :: 0 <= q < at || i <= q < rbuf.Length ==> rbuf[q] == old(rbuf[q])
      {
        Turns(8 * groups + 4);
        assert Turn(i - at) == k;
        rbuf[i] := rbuf[i] ^ xor[idx[k]];
        i := i + 1;
      }
      groups := groups + 1;
    }
  }

  lemma Offsets(base: nat)
    requires base % PKT_BYTES == 0
    ensures forall q :: base <= q < base + PKT_BYTES ==> q % PKT_BYTES == q - base
  {
  }

  lemma CutSlice(s: seq<byte8>, at: nat, mid: nat, end: nat)
    requires at <= mid <= end <= |s|
    ensures s[at..end] == s[at..mid] + s[mid..end]
  {
  }

  lemma SameAbove(a: seq<byte8>, b: seq<byte8>, at: nat, mid: nat)
    requires |a| == |b| && at <= mid <= |a| && a[at..] == b[at..]
    ensures a[at..mid] == b[at..mid] && a[mid..] == b[mid..]
  {
    assert a[at..mid] == a[at..][..mid - at] && a[mid..] == a[at..][mid - at..];
    assert b[at..mid] == b[at..][..mid - at] && b[mid..] == b[at..][mid - at..];
  }

  lemma SameBelow(a: seq<byte8>, b: seq<byte8>, at: nat, mid: nat)
    requires |a| == |b| && at <= mid <= |a| && a[..mid] == b[..mid]
    ensures a[at..mid] == b[at..mid] && a[..at] == b[..at]
  {
    assert a[at..mid] == a[..mid][at..] && a[..at] == a[..mid][..at];
    assert b[at..mid] == b[..mid][at..] && b[..at] == b[..mid][..at];
  }

  // From `was` to `now` the bytes from `at` to `mid` were descrambled.
  predicate Done(key: Key, was: seq<byte8>, now: seq<byte8>, at: nat, mid: nat) {
    && |was| == |now| && at <= mid <= |was|
    && now[at..mid] == Descramble(key, was[at..mid])
    && now[..at] == was[..at] && now[mid..] == was[mid..]
  }

  lemma NoneDone(key: Key, was: seq<byte8>, at: nat)
    requires at <= |was|
    ensures Done(key, was, was, at, at)
  {
    assert was[at..at] == [];
  }

  lemma DoneBytes(key: Key, was: seq<byte8>, now: seq<byte8>, at: nat, end: nat)
    requires end == at + PKT_BYTES <= |was| == |now|
    requires forall q :: at <= q < end ==> now[q] == Plain(key, q - at, was[q])
    requires forall q :: 0 <= q < at || end <= q < |was| ==> now[q] == was[q]
    ensures Done(key, was, now, at, end)
  {
    Offsets(0);
    forall q | 0 <= q < PKT_BYTES
      ensures now[at..end][q] == Descramble(key, was[at..end])[q]
    {
      assert now[at + q] == Plain(key, q, was[at + q]);
    }
  }

  // The packet behind the descrambled ones has been descrambled too.
  lemma NextPacket(key: Key, was: seq<byte8>, now: seq<byte8>, next: seq<byte8>, at: nat, mid: nat, end: nat)
    requires Done(key, was, now, at, mid) && mid <= end && Done(key, now, next, mid, end)
    requires (mid - at) % PKT_BYTES == 0
    ensures Done(key, was, next, at, end)
  {
    SameBelow(next, now, at, mid);
    SameAbove(now, was, mid, end);
    CutSlice(next, at, mid, end);
    CutSlice(was, at, mid, end);
    Apart(key, was[at..mid], was[mid..end]);
  }

  // One packet, as strings.
  method TableOne(rbuf: array<byte8>, at: nat, end: nat, idx: seq<nat>, xor: seq<byte8>) returns (i: nat)
    requires end == at + PKT_BYTES <= rbuf.Length
    requires |idx| == 8 && forall k :: 0 <= k < 8 ==> idx[k] < |xor|
    modifies rbuf
    ensures i == end && Done(TableKey(idx, xor), old(rbuf[..]), rbuf[..], at, end)
  {
    ghost var was := rbuf[..];
    i := TablePacket(rbuf, at, end, idx, xor);
    DoneBytes(TableKey(idx, xor), was, rbuf[..], at, end);
  }

  method UnrolledOne(rbuf: array<byte8>, at: nat, end: nat) returns (i: nat)
    requires end == at + PKT_BYTES <= rbuf.Length
    modifies rbuf
    ensures i == end && Done(KEY, old(rbuf[..]), rbuf[..], at, end)
  {
    ghost var was := rbuf[..];
    i := UnrolledPacket(rbuf, at, end);
    DoneBytes(KEY, was, rbuf[..], at, end);
  }

  // The outer loop of pxq3pe_read.
  method UnrolledAll(rbuf: array<byte8>)
    requires rbuf.Length % PKT_BYTES == 0
    modifies rbuf
    ensures rbuf[..] == Descramble(KEY, old(rbuf[..]))
  {
    ghost var was := rbuf[..];
    var i := 0;
    NoneDone(KEY, was, 0);
    for j := 0 to rbuf.Length / PKT_BYTES
      invariant i == PKT_BYTES * j && Done(KEY, was, rbuf[..], 0, i)
    {
      ghost var now := rbuf[..];
      var next := UnrolledOne(rbuf, i, (j + 1) * PKT_BYTES);
      NextPacket(KEY, was, now, rbuf[..], 0, i, next);
      i := next;
    }
    assert rbuf[0..i] == rbuf[..] && was[0..i] == was;
  }

  // One turn of the outer loop of pxq3pe_thread.
  method TableNext(rbuf: array<byte8>, at: nat, mid: nat, idx: seq<nat>, xor: seq<byte8>, ghost was: seq<byte8>)
    returns (next: nat)
    requires |idx| == 8 && forall k :: 0 <= k < 8 ==> idx[k] < |xor|
    requires mid + PKT_BYTES <= rbuf.Length && at <= mid && (mid - at) % PKT_BYTES == 0
    requires Done(TableKey(idx, xor), was, rbuf[..], at, mid)
    modifies rbuf
    ensures next == mid + PKT_BYTES && Done(TableKey(idx, xor), was, rbuf[..], at, next)
  {
    ghost var now := rbuf[..];
    next := TableOne(rbuf, mid, mid + PKT_BYTES, idx, xor);
    NextPacket(TableKey(idx, xor), was, now, rbuf[..], at, mid, next);
  }

  // The outer loop of pxq3pe_thread, on sz bytes from `at` on.
  method TableAll(rbuf: array<byte8>, at: nat, sz: nat, idx: seq<nat>, xor: seq<byte8>)
    requires at + sz <= rbuf.Length && sz % PKT_BYTES == 0
    requires |idx| == 8 && forall k :: 0 <= k < 8 ==> idx[k] < |xor|
    modifies rbuf
    ensures Done(TableKey(idx, xor), old(rbuf[..]), rbuf[..], at, at + sz)
  {
    ghost var was := rbuf[..];
    var i := at;
    NoneDone(TableKey(idx, xor), was, at);
    for j := 0 to sz / PKT_BYTES
      invariant i == at + PKT_BYTES * j && Done(TableKey(idx, xor), was, rbuf[..], at, i)
    {
      i := TableNext(rbuf, at, i, idx, xor, was);
    }
  }
}
