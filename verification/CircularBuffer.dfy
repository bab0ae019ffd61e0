/**
 The circular buffer of containers/circular_buffer.h and its iterators.

 `Ring` is what the buffer's mutex protects; `log` is everything pushed since the last clear. The ring is
 a window on the end of the log: position i of the log, while retained, sits in slot i % capacity.
 */
module CircularBuffer {
  import opened Arithmetic
  import opened Wrappers

  /** The index that marks an end iterator: the largest value of the source's size_t. */
  const END: nat := 0xFFFF_FFFF_FFFF_FFFF

  datatype Ring<T> = Ring(capacity: nat, size: nat, insertCount: nat, buffer: seq<T>) {
    function Front(): nat {
      if insertCount > size then insertCount - size else 0
    }

    predicate IsEnd(index: nat) {
      index == END || index >= insertCount
    }

    function Slot(index: nat): nat
      requires capacity > 0
    {
      index % capacity
    }
  }

  function Empty<T>(capacity: nat): Ring<T> {
    Ring(capacity, 0, 0, [])
  }

  function Push<T>(r: Ring<T>, v: T): Ring<T>
    requires |r.buffer| <= r.capacity && r.capacity > 0
  {
    Ring(r.capacity,
         if r.size < r.capacity then r.size + 1 else r.size,
         r.insertCount + 1,
         if |r.buffer| < r.capacity then r.buffer + [v] else r.buffer[r.insertCount % r.capacity := v])
  }

  function Jumped<T>(r: Ring<T>, index: nat): nat {
    if index < r.Front() then r.Front() else index
  }

  /** The ring holds the end of the log, and its `size` last entries are the visible ones. */
  ghost predicate Refines<T>(r: Ring<T>, log: seq<T>) {
    && r.capacity > 0
    && r.insertCount == |log| <= END
    && |r.buffer| == Min(|log|, r.capacity)
    && r.size <= |r.buffer|
    && forall i :: |log| - |r.buffer| <= i < |log| ==> Holds(r, log, i)
  }

  ghost predicate Holds<T>(r: Ring<T>, log: seq<T>, i: int)
    requires 0 <= i < |log| && r.capacity > 0
  {
    r.Slot(i) < |r.buffer| && r.buffer[r.Slot(i)] == log[i]
  }

  /** The visible entries: what the buffer's size, accessors and iterators agree on. */
  ghost function Window<T>(r: Ring<T>, log: seq<T>): seq<T>
    requires r.size <= |log|
  {
    log[|log| - r.size..]
  }

  lemma MultiplesApart(a: int, b: int, m: int)
    requires m > 0 && a != b
    ensures b * m <= a * m - m || b * m >= a * m + m
  {
    if a < b {
      MulMonotone(a + 1, b, m);
    } else {
      MulMonotone(b, a - 1, m);
    }
  }

  /** Two positions less than a capacity apart never share a slot. */
  lemma SlotsDiffer(i: nat, j: nat, m: nat)
    requires i < j < i + m
    ensures i % m != j % m
  {
    assert i == (i / m) * m + i % m && j == (j / m) * m + j % m;
    if i / m != j / m {
      MultiplesApart(i / m, j / m, m);
    }
  }

  lemma EmptyRefines<T>(capacity: nat)
    requires capacity > 0
    ensures Refines(Empty<T>(capacity), []) && Window(Empty<T>(capacity), []) == []
  {
  }

  lemma SmallMod(i: nat, m: nat)
    requires i < m
    ensures i % m == i
  {
  }

  /** A push appends to the log and drops the oldest visible entry only when the window is full. */
  lemma PushRefines<T>(r: Ring<T>, log: seq<T>, v: T)
    requires Refines(r, log) && |log| < END
    ensures Refines(Push(r, v), log + [v])
    ensures Window(Push(r, v), log + [v]) ==
            if r.size < r.capacity then Window(r, log) + [v] else Window(r, log)[1..] + [v]
  {
    var r', log' := Push(r, v), log + [v];
    var n := |log|;
    if |r.buffer| < r.capacity {
      SmallMod(n, r.capacity);
      forall i | |log'| - |r'.buffer| <= i < |log'| ensures Holds(r', log', i) {
        SmallMod(i, r.capacity);
        if i < n {
          assert Holds(r, log, i);
        }
      }
    } else {
      forall i | |log'| - |r'.buffer| <= i < |log'| ensures Holds(r', log', i) {
        if i < n {
          assert Holds(r, log, i);
          SlotsDiffer(i, n, r.capacity);
        }
      }
    }
  }

  /** Any visible position can be read from its slot. */
  lemma ReadsLog<T>(r: Ring<T>, log: seq<T>, i: nat)
    requires Refines(r, log) && r.Front() <= i < r.insertCount
    ensures r.Slot(i) < |r.buffer| && r.buffer[r.Slot(i)] == log[i]
  {
    assert Holds(r, log, i);
  }

  /** What a sequence of operations does to the log and to how much of it is visible. */
  datatype Op<T> = PushOp(v: T) | PopOp | ClearOp

  function ApplyOp<T>(r: Ring<T>, op: Op<T>): Ring<T>
    requires |r.buffer| <= r.capacity && r.capacity > 0
  {
    match op
    case PushOp(v) => Push(r, v)
    case PopOp => if r.size == 0 then r else r.(size := r.size - 1)
    case ClearOp => Empty(r.capacity)
  }

  /** The same operations on an unbounded queue that forgets its oldest entry beyond the capacity. */
  function QueueOp<T>(q: seq<T>, capacity: nat, op: Op<T>): seq<T> {
    match op
    case PushOp(v) => if |q| < capacity || q == [] then q + [v] else q[1..] + [v]
    case PopOp => if q == [] then q else q[1..]
    case ClearOp => []
  }

  function RunQueue<T>(capacity: nat, ops: seq<Op<T>>): seq<T> {
    if ops == [] then []
    else QueueOp(RunQueue(capacity, ops[..|ops| - 1]), capacity, ops[|ops| - 1])
  }

  /** Everything pushed since the last clear. */
  function RunLog<T>(ops: seq<Op<T>>): seq<T> {
    if ops == [] then []
    else
      var log := RunLog(ops[..|ops| - 1]);
      match ops[|ops| - 1]
      case PushOp(v) => log + [v]
      case PopOp => log
      case ClearOp => []
  }

  function RunRing<T>(capacity: nat, ops: seq<Op<T>>): (r: Ring<T>)
    requires capacity > 0
    ensures r.capacity == capacity && |r.buffer| <= capacity
  {
    if ops == [] then Empty(capacity)
    else ApplyOp(RunRing(capacity, ops[..|ops| - 1]), ops[|ops| - 1])
  }

  /** After any run of pushes, pops and clears the ring refines the log, and its window is what a bounded
      queue would hold. */
  lemma {:induction false} RunRefines<T>(capacity: nat, ops: seq<Op<T>>)
    requires 0 < capacity && |ops| < END
    ensures |RunLog(ops)| <= |ops|
    ensures Refines(RunRing(capacity, ops), RunLog(ops))
    ensures Window(RunRing(capacity, ops), RunLog(ops)) == RunQueue(capacity, ops)
  {
    if ops != [] {
      var before := ops[..|ops| - 1];
      RunRefines(capacity, before);
      var r, log := RunRing(capacity, before), RunLog(before);
      match ops[|ops| - 1]
      case PushOp(v) => PushRefines(r, log, v);
      case PopOp =>
        var r' := ApplyOp(r, PopOp);
        forall i | |log| - |r'.buffer| <= i < |log| ensures Holds(r', log, i) {
          assert Holds(r, log, i);
        }
      case ClearOp =>
    }
  }

  // ---------------------------------------------------------------- the class

  datatype RangeError = RangeError

  class Buffer<T> {
    const capacity: nat
    var size: nat
    var insertCount: nat
    var buffer: seq<T>
    ghost var log: seq<T>

    function State(): Ring<T>
      reads this
    {
      Ring(capacity, size, insertCount, buffer)
    }

    ghost predicate Valid()
      reads this
    {
      Refines(State(), log)
    }

    /** What a reader of the buffer can see. */
    ghost function Contents(): seq<T>
      requires Valid()
      reads this
    {
      Window(State(), log)
    }

    constructor (capacity: nat)
      requires capacity > 0
      ensures Valid() && this.capacity == capacity && log == [] && Contents() == []
    {
      this.capacity := capacity;
      size, insertCount, buffer := 0, 0, [];
      log := [];
      new;
      EmptyRefines<T>(capacity);
    }

    method PushBack(v: T)
      requires Valid() && insertCount < END
      modifies this
      ensures Valid() && log == old(log) + [v] && State() == Push(old(State()), v)
      ensures Contents() == (if |old(Contents())| < capacity then old(Contents()) else old(Contents())[1..]) + [v]
    {
      PushRefines(State(), log, v);
      if |buffer| < capacity {
        buffer := buffer + [v];
      } else {
        buffer := buffer[insertCount % capacity := v];
      }
      insertCount := insertCount + 1;
      if size < capacity {
        size := size + 1;
      }
      log := log + [v];
    }

    method PopFront() returns (res: Result<(), RangeError>)
      requires Valid()
      modifies this`size
      ensures Valid()
      ensures State() == ApplyOp(old(State()), PopOp)
      ensures res.Failure? <==> old(Contents()) == []
      ensures Contents() == if old(Contents()) == [] then [] else old(Contents())[1..]
    {
      if size == 0 { return Failure(RangeError); }
      ghost var r := State();
      size := size - 1;
      assert Valid() by {
        forall i | |log| - |buffer| <= i < |log| ensures Holds(State(), log, i) {
          assert Holds(r, log, i);
        }
      }
      return Success(());
    }

    method At(index: nat) returns (res: Result<T, RangeError>)
      requires Valid()
      ensures res == if index < |Contents()| then Success(Contents()[index]) else Failure(RangeError)
    {
      if index >= size { return Failure(RangeError); }
      ReadsLog(State(), log, State().Front() + index);
      return Success(buffer[State().Slot(State().Front() + index)]);
    }

    method Front() returns (res: Result<T, RangeError>)
      requires Valid()
      ensures res == if Contents() != [] then Success(Contents()[0]) else Failure(RangeError)
    {
      if size == 0 { return Failure(RangeError); }
      ReadsLog(State(), log, State().Front());
      return Success(buffer[State().Slot(State().Front())]);
    }

    method Back() returns (res: Result<T, RangeError>)
      requires Valid()
      ensures res == if Contents() != [] then Success(Contents()[|Contents()| - 1]) else Failure(RangeError)
    {
      if size == 0 { return Failure(RangeError); }
      ReadsLog(State(), log, insertCount - 1);
      return Success(buffer[State().Slot(insertCount - 1)]);
    }

    method Clear()
      requires Valid()
      modifies this
      ensures Valid() && State() == Empty(capacity) && Contents() == []
    {
      buffer := [];
      size := 0;
      insertCount := 0;
      log := [];
    }
  }

  /** A position in the log. Overrun, it jumps forward to the front; the jump of a dereference is written
      back, so that an increment goes on from the entry that was read. */
  class Iterator<T> {
    const buffer: Buffer<T>
    var index: nat

    constructor Begin(buffer: Buffer<T>)
      requires buffer.Valid()
      ensures this.buffer == buffer && index == buffer.State().Front()
    {
      this.buffer := buffer;
      index := buffer.State().Front();
    }

    constructor End(buffer: Buffer<T>)
      ensures this.buffer == buffer && index == END
    {
      this.buffer := buffer;
      index := END;
    }

    predicate IsEnd()
      reads this, buffer
    {
      buffer.State().IsEnd(index)
    }

    method JumpToFront()
      modifies this
      ensures index == Jumped(buffer.State(), old(index))
    {
      var front := buffer.State().Front();
      if index < front {
        index := front;
      }
    }

    method Increment()
      requires buffer.Valid() && index < END
      modifies this
      ensures index == Jumped(buffer.State(), old(index) + 1)
    {
      index := index + 1;
      JumpToFront();
    }

    method Add(n: nat)
      requires buffer.Valid() && index + n <= END
      modifies this
      ensures index == Jumped(buffer.State(), old(index) + n)
    {
      index := index + n;
      JumpToFront();
    }

    /** All end positions are equal; others are equal when position and buffer agree. */
    method Equals(other: Iterator<T>) returns (same: bool)
      ensures other.index == END ==> (same <==> IsEnd())
      ensures same <==> (IsEnd() && other.IsEnd()) ||
                        (!IsEnd() && !other.IsEnd() && index == other.index && buffer == other.buffer)
    {
      if buffer.State().IsEnd(index) || other.buffer.State().IsEnd(other.index) {
        return buffer.State().IsEnd(index) == other.buffer.State().IsEnd(other.index);
      }
      return index == other.index && buffer == other.buffer;
    }

    /** Reads the entry the iterator stands on, or the front if that one was overwritten. */
    method Deref() returns (v: T)
      requires buffer.Valid() && !buffer.State().IsEnd(Jumped(buffer.State(), index))
      modifies this
      ensures index == Jumped(buffer.State(), old(index))
      ensures buffer.State().Front() <= index < |buffer.log| && v == buffer.log[index]
    {
      JumpToFront();
      ReadsLog(buffer.State(), buffer.log, index);
      v := buffer.buffer[buffer.State().Slot(index)];
    }
  }

  /** A range-for loop over an undisturbed buffer yields its contents in order. */
  method Iterate<T>(buffer: Buffer<T>) returns (out: seq<T>)
    requires buffer.Valid()
    ensures out == buffer.Contents()
  {
    out := [];
    var itr := new Iterator.Begin(buffer);
    var end := new Iterator.End(buffer);
    while true
      invariant itr.buffer == buffer && end.buffer == buffer && end.index == END && fresh(itr)
      invariant buffer.State().Front() <= itr.index <= buffer.insertCount
      invariant out == buffer.log[buffer.State().Front()..itr.index]
      decreases buffer.insertCount - itr.index
    {
      var atEnd := itr.Equals(end);
      if atEnd { break; }
      var v := itr.Deref();
      out := out + [v];
      itr.Increment();
    }
  }
}
