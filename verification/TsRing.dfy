// drivers/video/pt3_dtv.c: the ring of transport-stream blocks between the
// FPGA, which writes them, and pt3_dma_copy, which reads them. The only
// signal between the two is the first byte of a block.
module TsRing {
  import opened Arith
  import opened Octets

  const SYNC: byte := 0x47
  const NOT_SYNC: byte := 0x74
  const EFAULT := 14
  const TS_PACKET := 188

  type Block = seq<byte>

  // What the FPGA may have written so far: blocks that start with the sync
  // byte, all full but perhaps the last.
  ghost predicate Stream(hw: seq<Block>, size: nat) {
    && (forall b :: 0 <= b < |hw| ==> 1 <= |hw[b]| <= size && hw[b][0] == SYNC)
    && (forall b :: 0 <= b < |hw| - 1 ==> |hw[b]| == size)
  }

  // The FPGA only adds to its stream.
  ghost predicate Grows(was: seq<Block>, now: seq<Block>) {
    && |was| <= |now|
    && (forall b :: 0 <= b < |was| - 1 ==> now[b] == was[b])
    && (was != [] ==> was[|was| - 1] <= now[|was| - 1])
  }

  lemma GrowsTrans(a: seq<Block>, b: seq<Block>, c: seq<Block>)
    requires Grows(a, b) && Grows(b, c)
    ensures Grows(a, c)
  {
    if a != [] {
      var k := |a| - 1;
      assert b[k] <= c[k];
    }
  }

  lemma FlattenPrefix(hw: seq<Block>, k: nat)
    requires k <= |hw|
    ensures Flatten(hw[..k]) <= Flatten(hw)
    ensures k < |hw| ==> Flatten(hw[..k + 1]) == Flatten(hw[..k]) + hw[k]
  {
    Cut(hw, k);
    FlattenAppend(hw[..k], hw[k..]);
    if k < |hw| {
      FlattenOne(hw[k]);
      FlattenAppend(hw[..k], [hw[k]]);
      TakeOne(hw, k);
    }
  }

  lemma TakeOne<T>(s: seq<T>, k: nat)
    requires k < |s|
    ensures s[..k + 1] == s[..k] + [s[k]]
  {
  }

  lemma {:induction false} FullBlocks(hw: seq<Block>, size: nat, k: nat)
    requires Stream(hw, size) && k < |hw|
    ensures |Flatten(hw[..k])| == k * size
  {
    if k > 0 {
      FullBlocks(hw, size, k - 1);
      FlattenPrefix(hw, k - 1);
      assert k * size == (k - 1) * size + size;
    }
  }

  lemma StreamLength(hw: seq<Block>, size: nat)
    requires Stream(hw, size) && hw != []
    ensures |Flatten(hw)| == (|hw| - 1) * size + |hw[|hw| - 1]|
  {
    var k := |hw| - 1;
    FullBlocks(hw, size, k);
    FlattenPrefix(hw, k);
    assert hw[..k + 1] == hw;
  }

  // A reader at block `taken` has all that was finished before the FPGA
  // got past that block.
  lemma FinishedCovered(was: seq<Block>, hw: seq<Block>, taken: nat)
    requires Grows(was, hw) && was != [] && |was| - 1 <= taken <= |hw|
    ensures |Flatten(was[..|was| - 1])| <= |Flatten(hw[..taken])|
  {
    var k := |was| - 1;
    SamePrefix(was, hw, k);
    FlattenPrefix(hw[..taken], k);
    TakeTake(hw, taken, k);
  }

  lemma SamePrefix<T>(a: seq<T>, b: seq<T>, k: nat)
    requires k <= |a| && k <= |b| && forall i :: 0 <= i < k ==> b[i] == a[i]
    ensures a[..k] == b[..k]
  {
  }

  lemma TakeTake<T>(s: seq<T>, n: nat, k: nat)
    requires k <= n <= |s|
    ensures s[..n][..k] == s[..k]
  {
  }

  lemma NextSlot(s: nat, count: nat)
    requires s < count
    ensures (s + 1) % count == if s + 1 >= count then 0 else s + 1
  {
  }

  lemma Digits(x: nat, size: nat, b: nat, o: nat)
    requires x == b * size + o && o < size
    ensures x / size == b && x % size == o
  {
    QuotientIs(x, size, b, o);
    RemainderIs(x, size, b, o);
  }

  lemma NextDigit(x: nat, size: nat, b: nat)
    requires x == b * size + size && size > 0
    ensures x / size == b + 1 && x % size == 0
  {
    assert (b + 1) * size == b * size + size;
    Digits(x, size, b + 1, 0);
  }

  // Slot s is the one for block b, counting round from slot 0.
  predicate InTurn(s: nat, b: nat, count: nat) {
    count > 0 && s < count && s == b % count
  }

  lemma StepsOn(s: nat, b: nat, count: nat, steps: nat)
    requires InTurn(s, b, count) && steps < count
    ensures InTurn(if s + steps >= count then s + steps - count else s + steps, b + steps, count)
  {
    var q := b / count;
    assert b == q * count + s;
    if s + steps >= count {
      assert b + steps == (q + 1) * count + (s + steps - count);
      RemainderIs(b + steps, count, q + 1, s + steps - count);
    } else {
      RemainderIs(b + steps, count, q, s + steps);
    }
  }

  // The answer of a read that used up `piece`.
  predicate Answer(ret: int, piece: seq<byte>, fault: int) {
    (ret == |piece| || ret == -EFAULT) && (ret < 0 ==> (piece == [] <==> fault == 0))
  }

  predicate Answers(rets: seq<int>, given: seq<seq<byte>>, faults: seq<int>) {
    && |rets| == |given| == |faults|
    && forall i :: 0 <= i < |rets| ==> Answer(rets[i], given[i], faults[i])
  }

  lemma AnswersMore(rets: seq<int>, given: seq<seq<byte>>, faults: seq<int>, i: nat, ret: int, piece: seq<byte>)
    requires i < |faults| && Answers(rets, given, faults[..i]) && Answer(ret, piece, faults[i])
    ensures Answers(rets + [ret], given + [piece], faults[..i + 1])
  {
  }

  // What the callers have got: nothing from a call that failed.
  function Returned(given: seq<seq<byte>>, rets: seq<int>): (got: seq<byte>)
    requires |rets| == |given|
  {
    if given == [] then
      []
    else
      var n := |given| - 1;
      Returned(given[..n], rets[..n]) + (if rets[n] < 0 then [] else given[n])
  }

  predicate NoneWasted(given: seq<seq<byte>>, rets: seq<int>)
    requires |rets| == |given|
  {
    forall i :: 0 <= i < |rets| && rets[i] < 0 ==> given[i] == []
  }

  lemma AllBut(given: seq<seq<byte>>, rets: seq<int>, n: nat)
    requires |rets| == |given| == n + 1
    ensures NoneWasted(given, rets) <==> NoneWasted(given[..n], rets[..n]) && (rets[n] < 0 ==> given[n] == [])
  {
    if NoneWasted(given[..n], rets[..n]) && (rets[n] < 0 ==> given[n] == []) {
      forall i | 0 <= i < |rets| && rets[i] < 0
        ensures given[i] == []
      {
        if i < n {
          assert rets[..n][i] == rets[i] && given[..n][i] == given[i];
        }
      }
    }
  }

  lemma Cancel(a: seq<byte>, b: seq<byte>, c: seq<byte>)
    ensures a + c == b + c <==> a == b
  {
    if a + c == b + c {
      assert a == (a + c)[..|a|] && b == (b + c)[..|b|];
    }
  }

  lemma Longer(a: seq<byte>, b: seq<byte>, c: seq<byte>)
    requires |a| <= |b|
    ensures a == b + c <==> a == b && c == []
  {
    if a == b + c {
      Unit(b);
    }
  }

  lemma {:induction false} ReturnedIsLess(given: seq<seq<byte>>, rets: seq<int>)
    requires |rets| == |given|
    ensures |Returned(given, rets)| <= |Flatten(given)|
    ensures Returned(given, rets) == Flatten(given) <==> NoneWasted(given, rets)
  {
    if given != [] {
      var n := |given| - 1;
      ReturnedIsLess(given[..n], rets[..n]);
      assert given == given[..n] + [given[n]];
      FlattenAppend(given[..n], [given[n]]);
      FlattenOne(given[n]);
      Unit(Flatten(given[..n]));
      Cancel(Returned(given[..n], rets[..n]), Flatten(given[..n]), given[n]);
      if rets[n] < 0 {
        Unit(Returned(given[..n], rets[..n]));
        Longer(Returned(given[..n], rets[..n]), Flatten(given[..n]), given[n]);
      }
      AllBut(given, rets, n);
    }
  }

  lemma ReturnedAll(given: seq<seq<byte>>, rets: seq<int>, faults: seq<int>)
    requires Answers(rets, given, faults)
    ensures Returned(given, rets) == Flatten(given) <==> forall i :: 0 <= i < |rets| && rets[i] < 0 ==> faults[i] == 0
  {
    ReturnedIsLess(given, rets);
  }

  // Slicing facts of the kind the solver is slow to find by itself.
  lemma Extend(base: seq<byte>, block: seq<byte>, at: nat, n: nat)
    requires at + n <= |block|
    ensures base + block[..at] + block[at..at + n] == base + block[..at + n]
  {
  }

  class Ring {
    const count: nat
    const size: nat
    const mem: array2<byte>    // ts_info[i].data
    const dataPos: array<nat>  // ts_info[i].data_pos
    var tsPos: nat

    // Not in the driver: the FPGA's stream since the last reset, how many of
    // its blocks have been read to the end, and what the readers were given.
    var hw: seq<Block>
    var taken: nat
    ghost var out: seq<byte>

    ghost predicate Shape()
      reads this
    {
      && count >= 2 && size >= 1
      && mem.Length0 == count && mem.Length1 == size
      && dataPos.Length == count
    }

    // The stream block that slot i of the ring is for, counting round from
    // the reader's slot; and the slot of block b.
    function Owner(i: nat): nat
      reads this
      requires tsPos < count && i < count
    {
      if i >= tsPos then taken + i - tsPos else taken + count - tsPos + i
    }

    function SlotOf(b: nat): (i: nat)
      reads this
      requires tsPos < count && taken <= b < taken + count
      ensures i < count && Owner(i) == b
    {
      var i := tsPos + b - taken;
      if i >= count then i - count else i
    }

    // Where the reader stands.
    ghost predicate Reading()
      reads this, dataPos
      requires Shape()
    {
      && InTurn(tsPos, taken, count)
      && dataPos[tsPos] < size
      && (forall i :: 0 <= i < count && i != tsPos ==> dataPos[i] == 0)
      && (if hw == [] then taken == 0 else taken < |hw|)
      && (dataPos[tsPos] > 0 ==> taken + 1 < |hw|)
    }

    // What the memory holds: every block from the reader's on, and the
    // "empty" mark in every block the FPGA has yet to begin. The FPGA has
    // not entered the block that the reader still owns.
    ghost predicate Holds()
      reads this, mem
      requires Shape() && tsPos < count
    {
      && Stream(hw, size)
      && |hw| <= taken + count
      && (forall i, o :: 0 <= i < count && Owner(i) < |hw| && 0 <= o < |hw[Owner(i)]| ==>
            mem[i, o] == hw[Owner(i)][o])
      && (forall i :: 0 <= i < count && |hw| <= Owner(i) ==> mem[i, 0] == NOT_SYNC)
    }

    ghost predicate Valid()
      reads this, mem, dataPos
    {
      Shape() && Reading() && Holds()
    }

    // The readers were given every block before `taken` and, of that block,
    // the bytes before the reading position.
    ghost predicate Delivered()
      reads this, mem, dataPos
      requires Valid()
    {
      out == Flatten(hw[..taken]) + (if dataPos[tsPos] == 0 then [] else hw[taken][..dataPos[tsPos]])
    }

    // Everything the FPGA has written since the reset, in order.
    ghost function Written(): seq<byte>
      reads this
    {
      Flatten(hw)
    }

    // The blocks the FPGA is done with: all but the one it is writing.
    ghost function Finished(): seq<byte>
      reads this
    {
      if hw == [] then [] else Flatten(hw[..|hw| - 1])
    }

    constructor (count: nat, size: nat)
      requires count >= 2 && size >= 1
      ensures Shape() && fresh(mem) && fresh(dataPos)
      ensures this.count == count && this.size == size
    {
      this.count, this.size := count, size;
      mem := new byte[count, size]((i, j) => 0);
      dataPos := new nat[count](i => 0);
      tsPos := 0;
      hw, taken, out := [], 0, [];
    }

    // pt3_dma_reset
    method Reset()
      requires Shape()
      modifies this, mem, dataPos
      ensures Valid() && Delivered() && hw == [] && taken == 0 && out == []
    {
      for i := 0 to count
        invariant forall k :: 0 <= k < i ==> dataPos[k] == 0 && mem[k, 0] == NOT_SYNC
      {
        for j := 0 to size
          invariant forall k :: 0 <= k < i ==> dataPos[k] == 0 && mem[k, 0] == NOT_SYNC
        {
          mem[i, j] := 0;
        }
        dataPos[i] := 0;
        mem[i, 0] := NOT_SYNC;
      }
      tsPos := 0;
      hw, taken, out := [], 0, [];
    }

    // ---- The hardware ----

    // The FPGA is inside a block, or the next one is free.
    ghost predicate HasRoom()
      reads this
    {
      hw == [] || |hw[|hw| - 1]| == size ==> |hw| < taken + count
    }

    // Where the next byte goes: slot and offset.
    function Cell(): (cell: (nat, nat))
      reads this, mem, dataPos
      requires Valid() && HasRoom()
      ensures cell.0 < count && cell.1 < size
    {
      if hw == [] || |hw[|hw| - 1]| == size then (SlotOf(|hw|), 0) else (SlotOf(|hw| - 1), |hw[|hw| - 1]|)
    }

    lemma SlotInTurn(b: nat)
      requires InTurn(tsPos, taken, count) && taken <= b < taken + count
      ensures InTurn(SlotOf(b), b, count)
    {
      StepsOn(tsPos, taken, count, b - taken);
    }

    // The cells are taken block after block and byte after byte, round and
    // round: the next one is that of the number of bytes written so far.
    lemma CellInTurn()
      requires Valid() && HasRoom()
      ensures var x := |Written()|; InTurn(Cell().0, x / size, count) && Cell().1 == x % size
    {
      if hw == [] {
        Digits(0, size, 0, 0);
        SlotInTurn(0);
      } else {
        StreamLength(hw, size);
        var k, last := |hw| - 1, |hw[|hw| - 1]|;
        if last == size {
          NextDigit(|Written()|, size, k);
          SlotInTurn(k + 1);
        } else {
          Digits(|Written()|, size, k, last);
          SlotInTurn(k);
        }
      }
    }

    // The FPGA begins its next block.
    method FpgaBegins()
      requires Valid()
      requires hw == [] || |hw[|hw| - 1]| == size
      requires |hw| < taken + count
      modifies this`hw, mem
      ensures Valid() && Grows(old(hw), hw)
    {
      var (slot, at) := Cell();
      mem[slot, at] := SYNC;
      Begin();
    }

    method Begin()
      requires Stream(hw, size) && size >= 1 && (hw == [] || |hw[|hw| - 1]| == size) && taken <= |hw|
      modifies this`hw
      ensures |hw| == |old(hw)| + 1 && hw[|old(hw)|] == [SYNC]
      ensures forall b :: 0 <= b < |old(hw)| ==> hw[b] == old(hw)[b]
      ensures Stream(hw, size) && Grows(old(hw), hw) && hw[..taken] == old(hw)[..taken]
    {
      hw := hw + [[SYNC]];
    }

    // The FPGA writes one more byte of the block it has begun.
    method FpgaContinues(x: byte)
      requires Valid()
      requires hw != [] && |hw[|hw| - 1]| < size
      modifies this`hw, mem
      ensures Valid() && Grows(old(hw), hw)
    {
      ghost var was := hw;
      var (slot, at) := Cell();
      mem[slot, at] := x;
      hw := hw[|hw| - 1 := hw[|hw| - 1] + [x]];
      assert hw[..taken] == was[..taken];
    }

    // Any number of bytes written at the FPGA's own pace, on the one
    // condition that it does not enter the block the reader still owns.
    method Fpga()
      requires Valid()
      modifies this`hw, mem
      ensures Valid() && Grows(old(hw), hw)
    {
      var bytes: nat := *;
      while bytes > 0
        invariant Valid() && Grows(old(hw), hw)
      {
        bytes := bytes - 1;
        ghost var was := hw;
        if hw == [] || |hw[|hw| - 1]| == size {
          if |hw| < taken + count {
            FpgaBegins();
            GrowsTrans(old(hw), was, hw);
          }
        } else {
          var x: byte := *;
          FpgaContinues(x);
          GrowsTrans(old(hw), was, hw);
        }
      }
    }

    // ---- The driver ----

    // pt3_dma_ready: the next block has begun, so this one is finished.
    method Ready() returns (ready: bool)
      requires Valid()
      ensures ready <==> taken + 1 < |hw|
    {
      var next := tsPos + 1;
      if next >= count {
        next := 0;
      }
      return mem[next, dataPos[next]] == SYNC;
    }

    // copy_to_user of n bytes at the reading position
    method Fetch(n: nat) returns (chunk: seq<byte>)
      requires Shape() && tsPos < count && dataPos[tsPos] + n <= size
      ensures |chunk| == n && forall o :: 0 <= o < n ==> chunk[o] == mem[tsPos, dataPos[tsPos] + o]
    {
      chunk := [];
      for o := 0 to n
        invariant |chunk| == o && forall i :: 0 <= i < o ==> chunk[i] == mem[tsPos, dataPos[tsPos] + i]
      {
        chunk := chunk + [mem[tsPos, dataPos[tsPos] + o]];
      }
    }

    // Mark the current block empty and move on.
    method MoveOn()
      requires Shape() && tsPos < count && Holds() && taken + 1 < |hw|
      requires forall i :: 0 <= i < count && i != tsPos ==> dataPos[i] == 0
      modifies this`tsPos, this`taken, mem, dataPos
      ensures tsPos == if old(tsPos) + 1 >= count then 0 else old(tsPos) + 1
      ensures Holds() && taken == old(taken) + 1 && forall i :: 0 <= i < count ==> dataPos[i] == 0
    {
      dataPos[tsPos] := 0;
      mem[tsPos, dataPos[tsPos]] := NOT_SYNC;
      tsPos := tsPos + 1;
      if tsPos >= count {
        tsPos := 0;
      }
      taken := taken + 1;
    }

    // The current block has been read to its end.
    method GiveBack()
      requires Shape() && tsPos < count && Holds() && taken + 1 < |hw|
      requires forall i :: 0 <= i < count && i != tsPos ==> dataPos[i] == 0
      requires InTurn(tsPos, taken, count)
      modifies this`tsPos, this`taken, mem, dataPos
      ensures Valid() && taken == old(taken) + 1 && dataPos[tsPos] == 0
    {
      StepsOn(tsPos, taken, count, 1);
      MoveOn();
    }

    // Hand out n bytes of the current block, perhaps its last ones.
    method HandOut(n: nat) returns (chunk: seq<byte>)
      requires Valid() && Delivered() && taken + 1 < |hw| && dataPos[tsPos] + n <= size
      modifies this`out, dataPos
      ensures Shape() && tsPos < count && Holds() && dataPos[tsPos] == old(dataPos[tsPos]) + n <= size
      ensures forall i :: 0 <= i < count && i != tsPos ==> dataPos[i] == 0
      ensures |chunk| == n && out == old(out) + chunk
      ensures out == Flatten(hw[..taken]) + hw[taken][..dataPos[tsPos]]
    {
      ghost var block, at := hw[taken], dataPos[tsPos];
      chunk := Fetch(n);
      assert chunk == block[at..at + n];
      assert out == Flatten(hw[..taken]) + block[..at];
      Extend(Flatten(hw[..taken]), block, at, n);
      out := out + chunk;
      dataPos[tsPos] := dataPos[tsPos] + n;
    }

    lemma WholeBlock(block: Block)
      requires |block| == size
      ensures block[..size] == block
    {
    }

    // The body of pt3_dma_copy's inner loop: hand out n bytes of the current
    // block, and give the block back to the FPGA when it is used up.
    method Take(n: nat) returns (chunk: seq<byte>, ended: bool)
      requires Valid() && Delivered() && taken + 1 < |hw| && dataPos[tsPos] + n <= size
      modifies this`tsPos, this`taken, this`out, mem, dataPos
      ensures Valid() && Delivered()
      ensures |chunk| == n && out == old(out) + chunk
      ensures ended <==> old(dataPos[tsPos]) + n == size
      ensures taken == old(taken) + (if ended then 1 else 0)
      ensures dataPos[tsPos] == if ended then 0 else old(dataPos[tsPos]) + n
    {
      chunk := HandOut(n);
      ended := dataPos[tsPos] >= size;
      if ended {
        WholeBlock(hw[taken]);
        FlattenPrefix(hw, taken);
        GiveBack();
        Unit(out);
      } else if dataPos[tsPos] == 0 {
        assert hw[taken][..0] == [];
      }
    }

    // What the FPGA adds does not touch what has been delivered.
    twostate lemma StillDelivered(was: seq<Block>)
      requires old(Valid()) && Valid() && old(Delivered()) && was == old(hw) && Grows(was, hw)
      requires taken == old(taken) && tsPos == old(tsPos) && out == old(out) && unchanged(dataPos)
      ensures Delivered()
    {
      SamePrefix(was, hw, taken);
    }

    lemma CaughtUp(start: seq<Block>)
      requires Valid() && Delivered() && Grows(start, hw) && |start| <= taken + 1
      ensures start != [] ==> |Flatten(start[..|start| - 1])| <= |out|
    {
      if start != [] {
        FinishedCovered(start, hw, taken);
      }
    }

    // Nothing is delivered from a block that the FPGA is still writing.
    lemma OutIsFinished()
      requires Valid() && Delivered()
      ensures out <= Finished()
    {
      if hw != [] {
        var done := hw[..|hw| - 1];
        FlattenPrefix(done, taken);
        TakeTake(hw, |hw| - 1, taken);
        if dataPos[tsPos] > 0 {
          FlattenPrefix(done, taken + 1);
          TakeTake(hw, |hw| - 1, taken + 1);
        }
      }
    }

    lemma FinishedIsWritten()
      ensures Finished() <= Written()
    {
      if hw != [] {
        FlattenPrefix(hw, |hw| - 1);
      }
    }

    // The FPGA runs on.
    method Run()
      requires Valid() && Delivered()
      modifies this`hw, mem
      ensures Valid() && Delivered()
    {
      ghost var was := hw;
      Fpga();
      StillDelivered(was);
    }

    method Look() returns (ready: bool)
      requires Valid()
      modifies this`hw, mem
      ensures Valid() && Grows(old(hw), hw)
      ensures if ready then taken + 1 < |hw| else |old(hw)| <= taken + 1
    {
      ready := Ready();
      Fpga();
    }

    // Twenty looks at the next block, 30 ms apart; the FPGA runs meanwhile.
    method WaitReady(ghost start: seq<Block>) returns (ready: bool)
      requires Valid() && Delivered() && Grows(start, hw)
      modifies this`hw, mem
      ensures Valid() && Delivered() && Grows(start, hw)
      ensures if ready then taken + 1 < |hw| else |start| <= taken + 1
    {
      ghost var was := hw;
      ready := Look();
      var lp := 1;
      while lp < 20 && !ready
        invariant Valid() && Grows(was, hw)
        invariant if ready then taken + 1 < |hw| else |was| <= taken + 1
      {
        ghost var mid := hw;
        ready := Look();
        GrowsTrans(was, mid, hw);
        lp := lp + 1;
      }
      GrowsTrans(start, was, hw);
      StillDelivered(was);
    }

    // pt3_dma_copy with look_ready set. The copy_to_user calls succeed, but
    // for the one numbered `fault`, if there is such a call and it has bytes
    // to copy: behind that many whole blocks it fails, and otherwise there are
    // no more copies than that. A failed call has handed out nothing if and
    // only if it failed at its first copy: what it copied before is used up.
    method Copy(want: nat, fault: int) returns (buf: seq<byte>, ret: int)
      requires Valid() && Delivered()
      modifies this, mem, dataPos
      ensures Valid() && Delivered() && Grows(old(hw), hw)
      ensures out == old(out) + buf && |buf| <= want
      ensures ret == |buf| || (ret == -EFAULT && fault >= 0)
      ensures ret < 0 ==> (buf == [] <==> fault == 0) && taken - old(taken) == fault
      ensures ret == |buf| && fault >= 0 ==>
        taken - old(taken) + (if buf != [] && dataPos[tsPos] > 0 then 1 else 0) <= fault
      ensures ret == |buf| && |buf| < want ==> |old(Finished())| <= |out|
    {
      var remain: nat, calls := want, 0;
      buf := [];
      Unit(out);
      while true
        invariant Valid() && Delivered() && Grows(old(hw), hw)
        invariant out == old(out) + buf && |buf| + remain == want
        invariant calls == taken - old(taken) >= 0 && (buf == [] <==> calls == 0)
        invariant (calls > 0 ==> dataPos[tsPos] == 0) && (fault >= 0 ==> calls <= fault)
        decreases remain
      {
        var ready := WaitReady(old(hw));
        if !ready {
          CaughtUp(old(hw));
          break;
        }
        var csize := if size - dataPos[tsPos] > remain then remain else size - dataPos[tsPos];
        if calls == fault && csize > 0 {
          ret := -EFAULT;
          return;
        }
        calls := calls + 1;
        ghost var had := buf;
        var chunk, ended := Take(csize);
        buf := buf + chunk;
        Assoc(old(out), had, chunk);
        remain := remain - csize;
        if !ended {
          break;
        }
      }
      ret := want - remain;
    }

    // One read: what it used up, and what it returned.
    method Read(want: nat, fault: int, ghost given: seq<seq<byte>>, ghost rets: seq<int>, got: seq<byte>)
      returns (ret: int, ghost piece: seq<byte>, more: seq<byte>)
      requires Valid() && Delivered() && |given| == |rets|
      requires out == Flatten(given) && got == Returned(given, rets)
      modifies this, mem, dataPos
      ensures Valid() && Delivered() && Answer(ret, piece, fault)
      ensures out == Flatten(given + [piece]) && more == Returned(given + [piece], rets + [ret])
    {
      var buf;
      buf, ret := Copy(want, fault);
      piece := buf;
      more := if ret < 0 then got else got + buf;
      FlattenAppend(given, [piece]);
      FlattenOne(piece);
      assert (given + [piece])[..|given|] == given && (rets + [ret])[..|rets|] == rets;
    }

    // Any number of reads of any sizes after a reset, while the FPGA writes.
    // What they used up is a prefix of the blocks the FPGA is done with,
    // nothing lost, repeated or taken too early; and the callers have got all
    // of it if and only if every call that failed did so at its first copy.
    method Session(wants: seq<nat>, faults: seq<int>)
      returns (got: seq<byte>, rets: seq<int>, ghost given: seq<seq<byte>>)
      requires Shape() && |faults| == |wants|
      modifies this, mem, dataPos
      ensures Valid() && out == Flatten(given) && out <= Finished() <= Written()
      ensures |given| == |rets| == |wants| && Answers(rets, given, faults) && got == Returned(given, rets)
      ensures got == out <==> forall i :: 0 <= i < |wants| && rets[i] < 0 ==> faults[i] == 0
    {
      Reset();
      got, rets, given := [], [], [];
      for i := 0 to |wants|
        invariant Valid() && Delivered() && |rets| == |given| == i
        invariant Answers(rets, given, faults[..i])
        invariant out == Flatten(given) && got == Returned(given, rets)
      {
        var ret;
        ghost var piece;
        ret, piece, got := Read(wants[i], faults[i], given, rets, got);
        AnswersMore(rets, given, faults, i, ret, piece);
        rets, given := rets + [ret], given + [piece];
      }
      assert faults[..|wants|] == faults;
      ReturnedAll(given, rets, faults);
      OutIsFinished();
      FinishedIsWritten();
    }

    lemma SamePart(base: seq<byte>, a: seq<byte>, b: seq<byte>)
      requires base + a == base + b
      ensures a == b
    {
      assert a == (base + a)[|base|..] && b == (base + b)[|base|..];
    }

    // All packets of the current block.
    method WholeOne() returns (packets: seq<byte>, moved: bool)
      requires Valid() && Delivered() && dataPos[tsPos] == 0 && size % TS_PACKET == 0 && taken + 1 < |hw|
      modifies this`tsPos, this`taken, this`out, mem, dataPos
      ensures Valid() && Delivered() && dataPos[tsPos] == 0 && moved
      ensures packets == hw[old(taken)] && taken == old(taken) + 1 && out == old(out) + packets
    {
      ghost var block := hw[taken];
      Unit(Flatten(hw[..taken]));
      packets, moved := Take(size / TS_PACKET * TS_PACKET);
      FlattenPrefix(hw, taken - 1);
      SamePart(Flatten(hw[..taken - 1]), packets, block);
    }

    // drivers/media/pci/ptx/pt3_pci.c: one turn of pt3_thread, which takes a
    // whole block, in packets, once the next block has begun.
    method ThreadTurn() returns (packets: seq<byte>, moved: bool)
      requires Valid() && Delivered() && dataPos[tsPos] == 0 && size % TS_PACKET == 0
      modifies this`tsPos, this`taken, this`out, mem, dataPos
      ensures Valid() && Delivered() && dataPos[tsPos] == 0
      ensures moved <==> old(taken) + 1 < |hw|
      ensures packets == if moved then hw[old(taken)] else []
      ensures taken == old(taken) + (if moved then 1 else 0)
      ensures out == old(out) + packets
    {
      packets, moved := [], false;
      var next := (tsPos + 1) % count;
      NextSlot(tsPos, count);
      if mem[next, 0] != SYNC {
        Unit(out);
        return;
      }
      packets, moved := WholeOne();
    }

    // pt3_dma_run, switched on: only the marks are set.
    method SwitchOn()
      requires Shape() && forall i :: 0 <= i < count ==> dataPos[i] == 0
      modifies this, mem
      ensures Valid() && Delivered() && hw == [] && taken == 0 && out == []
    {
      for i := 0 to count
        invariant forall k :: 0 <= k < i ==> mem[k, 0] == NOT_SYNC
      {
        mem[i, 0] := NOT_SYNC;
      }
      tsPos := 0;
      hw, taken, out := [], 0, [];
    }

    // Any number of turns, while the FPGA writes: the demultiplexer has been
    // given whole blocks, a prefix of those the FPGA is done with.
    method Thread(turns: nat) returns (got: seq<byte>)
      requires Shape() && size % TS_PACKET == 0
      requires forall i :: 0 <= i < count ==> dataPos[i] == 0
      modifies this, mem, dataPos
      ensures Valid() && got == out == Flatten(hw[..taken]) && got <= Finished() <= Written()
    {
      SwitchOn();
      got := [];
      for i := 0 to turns
        invariant Valid() && Delivered() && dataPos[tsPos] == 0 && got == out
      {
        Run();
        var packets, moved := ThreadTurn();
        got := got + packets;
      }
      OutIsFinished();
      FinishedIsWritten();
      Unit(Flatten(hw[..taken]));
    }
  }
}
