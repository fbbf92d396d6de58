// The queue between the reader of the device and the writer of the recording
// (create_queue, enqueue and dequeue of recpt1.c): a bounded ring of buffers
// with timed waits and an exit flag.  Whoever waits gives up the lock, and
// others run whole critical sections before the wait ends.
module RecorderQueue {
  import opened Octets

  // A pointer to a buffer.
  type Ptr = nat

  const TRIES: nat := 60
  const WAITS: nat := 61

  // What the queue holds, oldest first, all that ever went in and came out,
  // and the exit flag of the program.
  datatype State = State(contents: seq<Ptr>, inserted: seq<Ptr>, removed: seq<Ptr>, exit: bool)

  // A critical section of another thread that gets through, or somebody
  // setting the flag.
  datatype Act = Insert(p: Ptr) | Remove | Exit

  // Whatever went in has come out or is still there, in order.
  ghost predicate Conserved(q: State, size: nat) {
    q.inserted == q.removed + q.contents && |q.contents| <= size
  }

  function Inserted(q: State, p: Ptr): State {
    q.(contents := q.contents + [p], inserted := q.inserted + [p])
  }

  function Removed(q: State): State
    requires q.contents != []
  {
    q.(contents := q.contents[1..], removed := q.removed + [q.contents[0]])
  }

  // An act that has to wait itself does nothing.
  function Do(q: State, size: nat, act: Act): State {
    match act
    case Insert(p) => if |q.contents| < size then Inserted(q, p) else q
    case Remove => if q.contents != [] then Removed(q) else q
    case Exit => q.(exit := true)
  }

  function Run(q: State, size: nat, acts: seq<Act>): State {
    if acts == [] then q else Do(Run(q, size, acts[..|acts| - 1]), size, acts[|acts| - 1])
  }

  lemma InsertConserves(q: State, size: nat, p: Ptr)
    requires Conserved(q, size) && |q.contents| < size
    ensures Conserved(Inserted(q, p), size)
  {
    Assoc(q.removed, q.contents, [p]);
  }

  lemma RemoveConserves(q: State, size: nat)
    requires Conserved(q, size) && q.contents != []
    ensures Conserved(Removed(q), size)
  {
    First(q.contents);
    Assoc(q.removed, [q.contents[0]], q.contents[1..]);
  }

  // Under every interleaving of critical sections what comes out is what went
  // in, in order; nothing is lost or doubled and the queue never overflows.
  lemma {:induction false} RunConserves(q: State, size: nat, acts: seq<Act>)
    requires Conserved(q, size)
    ensures Conserved(Run(q, size, acts), size)
    ensures q.inserted <= Run(q, size, acts).inserted && q.removed <= Run(q, size, acts).removed
    ensures q.exit ==> Run(q, size, acts).exit
  {
    if acts != [] {
      var before := Run(q, size, acts[..|acts| - 1]);
      RunConserves(q, size, acts[..|acts| - 1]);
      match acts[|acts| - 1]
      case Insert(p) => if |before.contents| < size { InsertConserves(before, size, p); }
      case Remove => if before.contents != [] { RemoveConserves(before, size); }
      case Exit =>
    }
  }

  // Waiting

  // What is waited for: room for a buffer or a buffer.
  datatype Need = Room | Data

  predicate Ready(q: State, size: nat, need: Need) {
    match need
    case Room => |q.contents| < size
    case Data => q.contents != []
  }

  // Wait number k, from 0: what others do meanwhile, and the flag set after
  // the last try.
  function Elapse(q: State, size: nat, acts: seq<Act>, k: nat): State {
    var r := Run(q, size, acts);
    r.(exit := r.exit || k + 1 > TRIES)
  }

  function After(q: State, size: nat, waits: seq<seq<Act>>, n: nat): State
    requires n <= |waits|
  {
    if n == 0 then q else Elapse(After(q, size, waits, n - 1), size, waits[n - 1], n - 1)
  }

  // A call ends after n waits: before that it was never ready and never saw
  // the flag; it gives up if and only if it waited and the flag is set now,
  // even if it has become ready.
  ghost predicate Ends(q: State, size: nat, waits: seq<seq<Act>>, need: Need, n: nat, givesUp: bool) {
    && n <= |waits|
    && (forall m :: 0 <= m < n ==> !Ready(After(q, size, waits, m), size, need))
    && (forall m :: 0 < m < n ==> !After(q, size, waits, m).exit)
    && (givesUp <==> n > 0 && After(q, size, waits, n).exit)
    && (!givesUp ==> Ready(After(q, size, waits, n), size, need))
  }

  lemma {:induction false} AfterConserves(q: State, size: nat, waits: seq<seq<Act>>, n: nat)
    requires Conserved(q, size) && n <= |waits|
    ensures Conserved(After(q, size, waits, n), size)
    ensures q.inserted <= After(q, size, waits, n).inserted && q.removed <= After(q, size, waits, n).removed
    ensures n > TRIES ==> After(q, size, waits, n).exit
  {
    if n > 0 {
      AfterConserves(q, size, waits, n - 1);
      RunConserves(After(q, size, waits, n - 1), size, waits[n - 1]);
    }
  }

  // After k waits a call is still there: never ready before, no flag so far.
  ghost predicate Waiting(q: State, size: nat, waits: seq<seq<Act>>, need: Need, k: nat) {
    && |waits| == WAITS && k <= TRIES
    && (forall m :: 0 <= m < k ==> !Ready(After(q, size, waits, m), size, need))
    && (forall m :: 0 < m <= k ==> !After(q, size, waits, m).exit)
  }

  lemma OneWait(q: State, size: nat, waits: seq<seq<Act>>, need: Need, k: nat)
    requires Conserved(q, size) && Waiting(q, size, waits, need, k)
    ensures Ready(After(q, size, waits, k), size, need) ==> Ends(q, size, waits, need, k, false)
    ensures !Ready(After(q, size, waits, k), size, need) ==>
      if After(q, size, waits, k + 1).exit then Ends(q, size, waits, need, k + 1, true)
      else Waiting(q, size, waits, need, k + 1)
  {
    AfterConserves(q, size, waits, k + 1);
  }

  // Every call ends, after at most 61 waits, in one way and no other.
  lemma {:induction false} CallEnds(q: State, size: nat, waits: seq<seq<Act>>, need: Need, k: nat)
    returns (n: nat, givesUp: bool)
    requires Conserved(q, size) && Waiting(q, size, waits, need, k)
    ensures Ends(q, size, waits, need, n, givesUp)
    ensures forall m: nat, g: bool :: Ends(q, size, waits, need, m, g) ==> m == n && g == givesUp
    decreases TRIES - k
  {
    OneWait(q, size, waits, need, k);
    if Ready(After(q, size, waits, k), size, need) {
      n, givesUp := k, false;
    } else if After(q, size, waits, k + 1).exit {
      n, givesUp := k + 1, true;
    } else {
      n, givesUp := CallEnds(q, size, waits, need, k + 1);
    }
  }

  // The flag is not set in a wait by anybody else.
  predicate NoExit(acts: seq<Act>) {
    forall i :: 0 <= i < |acts| ==> acts[i] != Exit
  }

  lemma {:induction false} RunKeepsFlag(q: State, size: nat, acts: seq<Act>)
    requires NoExit(acts)
    ensures Run(q, size, acts).exit == q.exit
  {
    if acts != [] {
      var n := |acts| - 1;
      assert NoExit(acts[..n]) && acts[n] != Exit;
      RunKeepsFlag(q, size, acts[..n]);
    }
  }

  lemma {:induction false} AfterKeepsFlag(q: State, size: nat, waits: seq<seq<Act>>, n: nat)
    requires !q.exit && n <= |waits| && forall m :: 0 <= m < n ==> NoExit(waits[m])
    ensures After(q, size, waits, n).exit <==> n > 60
  {
    if n > 0 {
      AfterKeepsFlag(q, size, waits, n - 1);
      RunKeepsFlag(After(q, size, waits, n - 1), size, waits[n - 1]);
    }
  }

  // Nobody gives up early: without the flag from outside a call gives up if
  // and only if it is not ready in any of 61 waits.
  lemma GivesUpLast(q: State, size: nat, waits: seq<seq<Act>>, need: Need, n: nat, givesUp: bool)
    requires Ends(q, size, waits, need, n, givesUp) && |waits| == 61
    requires !q.exit && forall m :: 0 <= m < n ==> NoExit(waits[m])
    ensures givesUp <==> n == 61
  {
    AfterKeepsFlag(q, size, waits, n);
  }

  // It is not so that a buffer is dropped only while the queue is full: the
  // flag is tested before the queue is looked at again, and both can change
  // in one wait.
  lemma DropsWithRoom(rest: seq<seq<Act>>)
    requires |rest| == WAITS - 1
    ensures var q, waits := State([7], [7], [], false), [[Remove, Exit]] + rest;
      && Conserved(q, 1) && Ends(q, 1, waits, Room, 1, true)
      && After(q, 1, waits, 1).contents == []
  {
    var q, acts := State([7], [7], [], false), [Remove, Exit];
    assert acts[..1] == [Remove] && [Remove][..0] == [];
    assert Run(q, 1, [Remove]) == Do(Run(q, 1, []), 1, Remove);
    assert Run(q, 1, acts) == Do(Run(q, 1, [Remove]), 1, Exit);
  }

  // When it is so, for enqueue and dequeue alike: a call that gives up leaves
  // the queue as unfit as it found it if and only if in its last wait as many
  // buffers went in as came out.
  lemma GivesUpUnready(q: State, size: nat, waits: seq<seq<Act>>, need: Need, n: nat)
    requires Conserved(q, size) && Ends(q, size, waits, need, n, true)
    ensures var before, after := After(q, size, waits, n - 1), After(q, size, waits, n);
      !Ready(after, size, need) <==>
      |after.inserted| - |before.inserted| == |after.removed| - |before.removed|
  {
    AfterConserves(q, size, waits, n - 1);
    AfterConserves(q, size, waits, n);
    assert !Ready(After(q, size, waits, n - 1), size, need);
  }

  // A call that finds room, or data, does not wait and does not give up, even
  // with the flag set.
  lemma ReadyOnEntry(q: State, size: nat, waits: seq<seq<Act>>, need: Need, n: nat, givesUp: bool)
    requires Ends(q, size, waits, need, n, givesUp)
    ensures Ready(q, size, need) <==> n == 0
    ensures Ready(q, size, need) ==> !givesUp
  {
    assert After(q, size, waits, 0) == q;
  }

  // The ring

  function Place(size: nat, output: nat, k: nat): nat {
    if output + k < size then output + k else output + k - size
  }

  // The n elements from output on, round the end.  The array has one element
  // more than the ring.
  function Window(ring: seq<Ptr>, size: nat, output: nat, n: nat): (s: seq<Ptr>)
    requires |ring| == size + 1 && n <= size && (output < size || n == 0)
    ensures |s| == n
  {
    seq(n, k requires 0 <= k < n => ring[Place(size, output, k)])
  }

  lemma WindowPut(ring: seq<Ptr>, size: nat, output: nat, n: nat, p: Ptr)
    requires |ring| == size + 1 && n < size && output < size
    ensures var input := Place(size, output, n);
      && input < size
      && Window(ring[input := p], size, output, n + 1) == Window(ring, size, output, n) + [p]
      && (input + 1) % size == Place(size, output, n + 1)
  {
    Wraps(Place(size, output, n), size);
  }

  lemma WindowTake(ring: seq<Ptr>, size: nat, output: nat, n: nat)
    requires |ring| == size + 1 && 0 < n <= size && output < size
    ensures var next := (output + 1) % size;
      && next < size
      && Window(ring, size, next, n - 1) == Window(ring, size, output, n)[1..]
      && Place(size, next, n - 1) == Place(size, output, n)
  {
    Wraps(output, size);
    var next := (output + 1) % size;
    forall k | 0 <= k < n - 1
      ensures Place(size, next, k) == Place(size, output, k + 1)
    {
    }
  }

  lemma Wraps(i: nat, size: nat)
    requires i < size
    ensures (i + 1) % size == if i + 1 == size then 0 else i + 1
  {
    if i + 1 == size {
      assert (i + 1) % size == 0;
    }
  }

  class Queue {
    const buffer: array<Ptr>
    const size: nat
    var input: nat
    var output: nat
    var numAvail: nat
    var numUsed: nat
    // f_exit, which is global.
    var exit: bool
    // All that went in and came out.
    ghost var inserted: seq<Ptr>
    ghost var removed: seq<Ptr>

    ghost predicate Shape()
      reads this`input, this`output, this`numAvail, this`numUsed
    {
      && buffer.Length == size + 1 && numAvail + numUsed == size
      && if size == 0 then input == output == 0 else output < size && input == Place(size, output, numUsed)
    }

    ghost function Contents(): (s: seq<Ptr>)
      requires Shape()
      reads this`input, this`output, this`numAvail, this`numUsed, buffer
      ensures |s| == numUsed
    {
      Window(buffer[..], size, output, numUsed)
    }

    ghost function Now(): State
      requires Shape()
      reads this, buffer
    {
      State(Contents(), inserted, removed, exit)
    }

    ghost predicate Valid()
      reads this, buffer
    {
      Shape() && Conserved(Now(), size)
    }

    // create_queue
    constructor (n: nat)
      ensures Valid() && fresh(buffer) && size == n && Now() == State([], [], [], false)
    {
      size := n;
      buffer := new Ptr[n + 1](_ => 0);
      input, output, numAvail, numUsed, exit := 0, 0, n, 0, false;
      inserted, removed := [], [];
    }

    // The part of enqueue after the wait.
    method Put(data: Ptr)
      requires Valid() && numAvail > 0
      modifies this`input, this`numAvail, this`numUsed, this`inserted, buffer
      ensures Valid() && Now() == Inserted(old(Now()), data)
    {
      InsertConserves(Now(), size, data);
      WindowPut(buffer[..], size, output, numUsed, data);
      buffer[input] := data;
      input := input + 1;
      input := input % size;
      numAvail := numAvail - 1;
      numUsed := numUsed + 1;
      inserted := inserted + [data];
      assert buffer[..] == old(buffer[..])[old(input) := data];
    }

    // The part of dequeue after the wait.
    method Take() returns (p: Ptr)
      requires Valid() && numUsed > 0
      modifies this`output, this`numAvail, this`numUsed, this`removed
      ensures Valid() && p == old(Contents())[0] && Now() == Removed(old(Now()))
    {
      RemoveConserves(Now(), size);
      WindowTake(buffer[..], size, output, numUsed);
      p := buffer[output];
      output := output + 1;
      output := output % size;
      numAvail := numAvail + 1;
      numUsed := numUsed - 1;
      removed := removed + [p];
    }

    // A critical section of another thread.
    method Other(act: Act)
      requires Valid()
      modifies this, buffer
      ensures Valid() && Now() == Do(old(Now()), size, act)
    {
      match act {
        case Insert(p) =>
          if numAvail > 0 {
            Put(p);
          }
        case Remove =>
          if numUsed > 0 {
            var p := Take();
          }
        case Exit =>
          exit := true;
      }
    }

    // One timed wait and the test of the number of tries.
    method Wait(acts: seq<Act>, retryCount: nat) returns (retries: nat)
      requires Valid()
      modifies this, buffer
      ensures Valid() && Now() == Elapse(old(Now()), size, acts, retryCount) && retries == retryCount + 1
    {
      var i := 0;
      while i < |acts|
        invariant 0 <= i <= |acts| && Valid()
        invariant Now() == Run(old(Now()), size, acts[..i])
      {
        assert acts[..i + 1][..i] == acts[..i];
        Other(acts[i]);
        i := i + 1;
      }
      assert acts[..i] == acts;
      retries := retryCount + 1;
      if retries > TRIES {
        exit := true;
      }
    }

    // waits tells what happens in each wait; there are never more than 61.
    // retries is the number of waits, dropped whether the call gave up.
    method Enqueue(data: Ptr, waits: seq<seq<Act>>) returns (retries: nat, dropped: bool)
      requires Valid() && |waits| == WAITS
      modifies this, buffer
      ensures Valid() && Ends(old(Now()), size, waits, Room, retries, dropped)
      ensures var q := After(old(Now()), size, waits, retries); Now() == if dropped then q else Inserted(q, data)
    {
      ghost var q := Now();
      retries, dropped := 0, false;
      while numAvail == 0
        invariant Valid() && Waiting(q, size, waits, Room, retries) && Now() == After(q, size, waits, retries)
        decreases TRIES - retries
      {
        OneWait(q, size, waits, Room, retries);
        retries := Wait(waits[retries], retries);
        if exit {
          return retries, true;
        }
      }
      OneWait(q, size, waits, Room, retries);
      Put(data);
    }

    // The result is None for the null pointer.
    method Dequeue(waits: seq<seq<Act>>) returns (retries: nat, p: Option<Ptr>)
      requires Valid() && |waits| == WAITS
      modifies this, buffer
      ensures Valid() && Ends(old(Now()), size, waits, Data, retries, p == None)
      ensures var q := After(old(Now()), size, waits, retries);
        if p == None then Now() == q else Ready(q, size, Data) && p == Some(q.contents[0]) && Now() == Removed(q)
    {
      ghost var q := Now();
      retries := 0;
      while numUsed == 0
        invariant Valid() && Waiting(q, size, waits, Data, retries) && Now() == After(q, size, waits, retries)
        decreases TRIES - retries
      {
        OneWait(q, size, waits, Data, retries);
        retries := Wait(waits[retries], retries);
        if exit {
          return retries, None;
        }
      }
      OneWait(q, size, waits, Data, retries);
      var b := Take();
      p := Some(b);
    }
  }
}
