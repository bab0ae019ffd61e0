/**
 The multi-reader stream of containers/buffered_stream.h.

 Each reader is a program counter walking through the coroutine `stream()`, one access to shared state at a
 time: the running flag, the locked end test, the locked dereference and the locked increment are separate
 steps, and a push, another reader, or the destructor may run between any two of them.
 */
module BufferedStream {
  import opened Arithmetic
  import opened Wrappers
  import opened CircularBuffer

  type Id = nat

  /** The next thing a reader does. A generator starts lazily: until its first resumption it is Created and has
      touched nothing.  Begin: registered, about to take its iterator.  OuterRunning, OuterEnd: the two halves of
      the outer loop's test.  InnerEnd: the inner loop's test.  Suspended: at the yield, about to increment.
      CheckRunning: the break.  WaitEnd, WaitRunning: the two halves of the wait predicate.  ResetToken,
      DestroyFrame: the two places that can deregister. */
  datatype Pc =
    | Created | Begin | OuterRunning | OuterEnd | InnerEnd | Deref | Suspended
    | CheckRunning | WaitEnd | WaitRunning | Asleep | ResetToken | DestroyFrame | Done

  /** `token` is the source's clean-up pointer. The last four fields are history: the positions and values
      yielded, the buffer's insert count at the last end test that found the end, and how often the reader
      was erased from the registry. */
  datatype Reader<T> = Reader(
    pc: Pc, index: nat, token: bool, abandoned: bool,
    positions: seq<nat>, values: seq<T>, lastEnd: Option<nat>, erased: nat)

  datatype Destructor = Alive | Signalling | Checking | Finished

  /** `startedLate` are the readers first resumed after the destructor had returned. Such a reader uses an object
      that is gone; the model records it and follows it no further. */
  datatype Stream<T> = Stream(
    ring: Ring<T>, log: seq<T>, running: bool, destructor: Destructor,
    registry: set<Id>, readers: map<Id, Reader<T>>, startedLate: set<Id>)

  datatype Step<T> =
    | PushBack(v: T)
    | Destruct
    | Create(id: Id)
    | Start(id: Id)
    | Read(id: Id)
    | Abandon(id: Id)
    | Drop(id: Id)

  ghost predicate Init<T>(s: Stream<T>) {
    && s.ring.capacity > 0
    && s == Stream(Empty(s.ring.capacity), [], true, Alive, {}, map[], {})
  }

  predicate Enabled<T>(s: Stream<T>, step: Step<T>) {
    match step
    case PushBack(_) => s.destructor != Finished && |s.log| < END
    case Destruct => s.destructor != Finished
    case Create(id) => s.destructor != Finished && id !in s.readers
    case Start(id) => id in s.readers && s.readers[id].pc == Created
    case Read(id) => id in s.readers && s.readers[id].pc !in {Created, Done}
    case Abandon(id) => id in s.readers && s.readers[id].pc == Suspended
    case Drop(id) => id in s.readers && s.readers[id].pc == Created
  }

  function Destructed<T>(s: Stream<T>): Stream<T> {
    match s.destructor
    case Alive => s.(running := false, destructor := Signalling)
    case Signalling => s.(destructor := Checking)
    case Checking => if s.registry == {} then s.(destructor := Finished) else s
    case Finished => s
  }

  /** The reader's own next step. Reading slot contents needs the slot to exist; a reader that would look
      beside the buffer is left where it is (DereferenceIsInRange shows there is none). */
  function Advanced<T>(r: Reader<T>, ring: Ring<T>, running: bool): Reader<T>
    requires ring.capacity > 0
  {
    match r.pc
    case Begin => r.(index := ring.Front(), pc := OuterRunning)
    case OuterRunning => r.(pc := if running then InnerEnd else OuterEnd)
    case OuterEnd =>
      if ring.IsEnd(r.index) then r.(lastEnd := Some(ring.insertCount), pc := ResetToken) else r.(pc := InnerEnd)
    case InnerEnd =>
      if ring.IsEnd(r.index) then r.(lastEnd := Some(ring.insertCount), pc := CheckRunning) else r.(pc := Deref)
    case Deref =>
      var at := Jumped(ring, r.index);
      if ring.Slot(at) < |ring.buffer| then
        r.(index := at, pc := Suspended,
           positions := r.positions + [at], values := r.values + [ring.buffer[ring.Slot(at)]])
      else r
    case Suspended => r.(index := Jumped(ring, r.index + 1), pc := InnerEnd)
    case CheckRunning => r.(pc := if running then WaitEnd else ResetToken)
    case WaitEnd =>
      if ring.IsEnd(r.index) then r.(lastEnd := Some(ring.insertCount), pc := WaitRunning) else r.(pc := OuterRunning)
    case WaitRunning => r.(pc := if running then Asleep else OuterRunning)
    case Asleep => r.(pc := WaitEnd)
    case ResetToken => r.(pc := DestroyFrame, token := false, erased := if r.token then r.erased + 1 else r.erased)
    case DestroyFrame => r.(pc := Done, token := false, erased := if r.token then r.erased + 1 else r.erased)
    case Created => r
    case Done => r
  }

  /** The two steps that can take a reader off the registry do so if its token is still set. */
  predicate Erases<T>(r: Reader<T>) {
    r.pc in {ResetToken, DestroyFrame} && r.token
  }

  function Apply<T>(s: Stream<T>, step: Step<T>): Stream<T>
    requires s.ring.capacity > 0 && |s.ring.buffer| <= s.ring.capacity
    requires Enabled(s, step)
  {
    match step
    case PushBack(v) => s.(ring := Push(s.ring, v), log := s.log + [v])
    case Destruct => Destructed(s)
    case Create(id) => s.(readers := s.readers[id := Reader(Created, 0, false, false, [], [], None, 0)])
    case Start(id) =>
      if s.destructor == Finished then s.(startedLate := s.startedLate + {id})
      else
        s.(registry := s.registry + {id},
           readers := s.readers[id := s.readers[id].(pc := Begin, token := true)])
    case Read(id) =>
      var r := s.readers[id];
      s.(readers := s.readers[id := Advanced(r, s.ring, s.running)],
         registry := if Erases(r) then s.registry - {id} else s.registry)
    case Abandon(id) =>
      s.(readers := s.readers[id := s.readers[id].(pc := DestroyFrame, abandoned := true)])
    case Drop(id) => s.(readers := s.readers - {id})
  }

  // ---------------------------------------------------------------- invariants

  ghost predicate RingInv<T>(ring: Ring<T>, log: seq<T>) {
    Refines(ring, log) && ring.size == Min(|log|, ring.capacity)
  }

  predicate Increasing(positions: seq<nat>) {
    forall i, j :: 0 <= i < j < |positions| ==> positions[i] < positions[j]
  }

  /** The first position the reader has not dealt with. */
  function Next<T>(r: Reader<T>): nat {
    if r.pc == Suspended || r.abandoned then r.index + 1 else r.index
  }

  /** What the reader has yielded is a subsequence of the log, and every position it has passed was yielded
      or has fallen behind the front. */
  ghost predicate Yields<T>(r: Reader<T>, ring: Ring<T>, log: seq<T>) {
    && |r.values| == |r.positions|
    && Increasing(r.positions)
    && (forall k :: 0 <= k < |r.positions| ==>
          r.positions[k] < |log| && r.positions[k] < Next(r) && r.values[k] == log[r.positions[k]])
    && (forall p :: 0 <= p < Next(r) ==> p in r.positions || p < ring.Front())
  }

  /** A reader that has left the loop by itself rather than by being abandoned. */
  predicate Left<T>(r: Reader<T>) {
    r.pc == ResetToken || (r.pc in {DestroyFrame, Done} && !r.abandoned)
  }

  predicate Placed<T>(r: Reader<T>, log: seq<T>) {
    && r.index <= |log|
    && (r.pc in {Created, Begin} ==> r.index == 0 && r.positions == [])
    && (r.pc in {Deref, Suspended} || r.abandoned ==> r.index < |log|)
    && (r.abandoned ==> r.pc in {DestroyFrame, Done})
    && (r.pc in {CheckRunning, WaitRunning, Asleep} || Left(r) ==> r.lastEnd == Some(r.index))
    && (r.lastEnd.Some? ==> r.lastEnd.value <= r.index)
  }

  predicate Registered<T>(r: Reader<T>, here: bool) {
    && (r.token <==> here)
    && (r.pc !in {Created, DestroyFrame, Done} ==> r.token)
    && (r.pc == DestroyFrame ==> r.token == r.abandoned)
    && (r.pc in {Created, Done} ==> !r.token)
    && r.erased == (if r.token || r.pc == Created then 0 else 1)
  }

  /** Only a reader of a stream that has stopped leaves, or is about to look whether it may. */
  predicate StaysWhile<T>(r: Reader<T>, running: bool) {
    running ==> r.pc != OuterEnd && !Left(r)
  }

  ghost predicate ReaderInv<T>(r: Reader<T>, s: Stream<T>, id: Id) {
    Yields(r, s.ring, s.log) && Placed(r, s.log) && Registered(r, id in s.registry) && StaysWhile(r, s.running)
  }

  ghost predicate Inv<T>(s: Stream<T>) {
    && RingInv(s.ring, s.log)
    && s.registry <= s.readers.Keys
    && (s.destructor != Alive <==> !s.running)
    && (s.destructor == Finished ==> s.registry == {})
    && forall id :: id in s.readers ==> ReaderInv(s.readers[id], s, id)
  }

  /** A push leaves every reader's record true: the log grows at its end and the front only advances. */
  lemma PushKeepsReader<T>(r: Reader<T>, ring: Ring<T>, log: seq<T>, v: T)
    requires RingInv(ring, log) && |log| < END && Yields(r, ring, log) && Placed(r, log)
    ensures RingInv(Push(ring, v), log + [v])
    ensures Yields(r, Push(ring, v), log + [v]) && Placed(r, log + [v])
  {
    PushRefines(ring, log, v);
  }

  /** A dereference after a passed end test finds its entry, however many pushes came in between. */
  lemma DereferenceIsInRange<T>(r: Reader<T>, ring: Ring<T>, log: seq<T>)
    requires RingInv(ring, log) && r.index < |log|
    ensures var at := Jumped(ring, r.index);
            && ring.Front() <= at < |log| && r.index <= at
            && ring.Slot(at) < |ring.buffer| && ring.buffer[ring.Slot(at)] == log[at]
  {
    ReadsLog(ring, log, Jumped(ring, r.index));
  }

  /** A dereference appends one position, behind all earlier ones. */
  lemma DerefYields<T>(r: Reader<T>, ring: Ring<T>, log: seq<T>, running: bool)
    requires RingInv(ring, log) && Yields(r, ring, log) && Placed(r, log) && r.pc == Deref
    ensures Yields(Advanced(r, ring, running), ring, log)
  {
    var r' := Advanced(r, ring, running);
    DereferenceIsInRange(r, ring, log);
    var at := Jumped(ring, r.index);
    assert r'.positions == r.positions + [at];
    forall p | 0 <= p < Next(r') ensures p in r'.positions || p < ring.Front() {
      if p == at {
        assert r'.positions[|r.positions|] == at;
      } else if p < r.index {
        assert p in r.positions ==> p in r'.positions;
      }
    }
  }

  lemma AdvanceYields<T>(r: Reader<T>, ring: Ring<T>, log: seq<T>, running: bool)
    requires RingInv(ring, log) && Yields(r, ring, log) && Placed(r, log) && r.pc != Done
    ensures Yields(Advanced(r, ring, running), ring, log)
  {
    hide Refines;
    if r.pc == Deref {
      DerefYields(r, ring, log, running);
    }
  }

  lemma AdvancePlaced<T>(r: Reader<T>, ring: Ring<T>, log: seq<T>, running: bool)
    requires RingInv(ring, log) && Placed(r, log) && r.pc != Done
    ensures Placed(Advanced(r, ring, running), log)
  {
    if r.pc == Deref {
      DereferenceIsInRange(r, ring, log);
    }
  }

  lemma PushStep<T>(s: Stream<T>, v: T)
    requires Inv(s) && Enabled(s, PushBack(v))
    ensures Inv(Apply(s, PushBack(v)))
  {
    var s' := Apply(s, PushBack(v));
    PushRefines(s.ring, s.log, v);
    forall id | id in s'.readers ensures ReaderInv(s'.readers[id], s', id) {
      assert ReaderInv(s.readers[id], s, id);
      PushKeepsReader(s.readers[id], s.ring, s.log, v);
    }
  }

  lemma DestructStep<T>(s: Stream<T>)
    requires Inv(s) && Enabled(s, Destruct)
    ensures Inv(Apply(s, Destruct))
  {
    var s' := Apply(s, Destruct);
    forall id | id in s'.readers ensures ReaderInv(s'.readers[id], s', id) {
      assert ReaderInv(s.readers[id], s, id);
    }
  }

  /** A step that touches one reader and nothing another reader's invariant speaks of. */
  lemma OneReaderStep<T>(s: Stream<T>, s': Stream<T>, id: Id)
    requires Inv(s) && s'.ring == s.ring && s'.log == s.log
    requires s'.running == s.running && s'.destructor == s.destructor
    requires id in s'.readers && s'.readers == s.readers[id := s'.readers[id]]
    requires s'.registry - {id} == s.registry - {id} && (s.destructor == Finished ==> id !in s'.registry)
    requires ReaderInv(s'.readers[id], s', id)
    ensures Inv(s')
  {
    forall k | k in s'.registry ensures k in s'.readers {
      assert k != id ==> k in s.registry - {id};
    }
    forall k | k in s'.readers ensures ReaderInv(s'.readers[k], s', k) {
      if k != id {
        assert ReaderInv(s.readers[k], s, k);
        assert k in s.registry <==> k in s.registry - {id};
        assert k in s'.registry <==> k in s'.registry - {id};
      }
    }
  }

  lemma AdvanceRegistered<T>(r: Reader<T>, ring: Ring<T>, running: bool, here: bool)
    requires ring.capacity > 0 && Registered(r, here) && r.pc != Done && (r.abandoned ==> r.pc == DestroyFrame)
    ensures Registered(Advanced(r, ring, running), here && !Erases(r))
  {
  }

  lemma AdvanceStays<T>(r: Reader<T>, ring: Ring<T>, running: bool)
    requires ring.capacity > 0 && StaysWhile(r, running) && r.pc != Done && (r.abandoned ==> r.pc == DestroyFrame)
    ensures StaysWhile(Advanced(r, ring, running), running)
  {
  }

  lemma ReadStep<T>(s: Stream<T>, id: Id)
    requires Inv(s) && Enabled(s, Read(id))
    ensures Inv(Apply(s, Read(id)))
  {
    hide Advanced, Yields, Registered, StaysWhile;
    var r, s' := s.readers[id], Apply(s, Read(id));
    assert ReaderInv(s'.readers[id], s', id) by {
      assert ReaderInv(r, s, id);
      AdvanceYields(r, s.ring, s.log, s.running);
      AdvancePlaced(r, s.ring, s.log, s.running);
      AdvanceRegistered(r, s.ring, s.running, id in s.registry);
      AdvanceStays(r, s.ring, s.running);
    }
    OneReaderStep(s, s', id);
  }

  lemma CreateStep<T>(s: Stream<T>, id: Id)
    requires Inv(s) && Enabled(s, Create(id))
    ensures Inv(Apply(s, Create(id)))
  {
    OneReaderStep(s, Apply(s, Create(id)), id);
  }

  lemma StartStep<T>(s: Stream<T>, id: Id)
    requires Inv(s) && Enabled(s, Start(id))
    ensures Inv(Apply(s, Start(id)))
  {
    assert ReaderInv(s.readers[id], s, id);
    OneReaderStep(s, Apply(s, Start(id)), id);
  }

  lemma DropStep<T>(s: Stream<T>, id: Id)
    requires Inv(s) && Enabled(s, Drop(id))
    ensures Inv(Apply(s, Drop(id)))
  {
    var s' := Apply(s, Drop(id));
    assert ReaderInv(s.readers[id], s, id);
    forall k | k in s'.readers ensures ReaderInv(s'.readers[k], s', k) {
      assert ReaderInv(s.readers[k], s, k);
    }
  }

  lemma AbandonStep<T>(s: Stream<T>, id: Id)
    requires Inv(s) && Enabled(s, Abandon(id))
    ensures Inv(Apply(s, Abandon(id)))
  {
    assert ReaderInv(s.readers[id], s, id);
    OneReaderStep(s, Apply(s, Abandon(id)), id);
  }

  /** Every step of every thread keeps the invariant. */
  lemma StepKeepsInv<T>(s: Stream<T>, step: Step<T>)
    requires Inv(s) && Enabled(s, step)
    ensures Inv(Apply(s, step))
  {
    hide Apply, ReaderInv;
    match step
    case PushBack(v) => PushStep(s, v);
    case Destruct => DestructStep(s);
    case Create(id) => CreateStep(s, id);
    case Start(id) => StartStep(s, id);
    case Read(id) => ReadStep(s, id);
    case Abandon(id) => AbandonStep(s, id);
    case Drop(id) => DropStep(s, id);
  }

  // ---------------------------------------------------------------- whole runs

  ghost predicate Run<T>(states: seq<Stream<T>>, steps: seq<Step<T>>) {
    && |states| == |steps| + 1
    && Init(states[0])
    && forall i :: 0 <= i < |steps| ==>
         && 0 < states[i].ring.capacity && |states[i].ring.buffer| <= states[i].ring.capacity
         && Enabled(states[i], steps[i])
         && states[i + 1] == Apply(states[i], steps[i])
  }

  lemma InitHasInv<T>(s: Stream<T>)
    requires Init(s)
    ensures Inv(s)
  {
    EmptyRefines<T>(s.ring.capacity);
  }

  /** The invariant holds in every state of every run. */
  lemma {:induction false} RunKeepsInv<T>(states: seq<Stream<T>>, steps: seq<Step<T>>, i: nat)
    requires Run(states, steps) && i < |states|
    ensures Inv(states[i])
  {
    hide Init, Inv, Enabled, Apply;
    if i == 0 {
      InitHasInv(states[0]);
    } else {
      RunKeepsInv(states, steps, i - 1);
      StepKeepsInv(states[i - 1], steps[i - 1]);
    }
  }

  /** Evicted: pushed out of the buffer by later pushes. */
  predicate Evicted<T>(s: Stream<T>, p: nat) {
    p < s.ring.Front()
  }

  /** In every state of every run each reader has yielded an order-preserving, duplicate-free subsequence
      of the pushed log, and has passed over nothing that was still in the buffer. */
  lemma ReadersYieldSubsequences<T>(states: seq<Stream<T>>, steps: seq<Step<T>>, i: nat, id: Id)
    requires Run(states, steps) && i < |states| && id in states[i].readers
    ensures var s := states[i]; var r := s.readers[id];
            && |r.values| == |r.positions|
            && Increasing(r.positions)
            && (forall k :: 0 <= k < |r.positions| ==> r.positions[k] < |s.log| && r.values[k] == s.log[r.positions[k]])
            && (forall p :: 0 <= p < Next(r) ==> p in r.positions || Evicted(s, p))
  {
    RunKeepsInv(states, steps, i);
    assert ReaderInv(states[i].readers[id], states[i], id);
  }

  /** In every run a dereference step reads a retained entry: it finds the front no later than the last
      push, moves the reader forward only, and yields exactly one value. */
  lemma DereferencesSucceed<T>(states: seq<Stream<T>>, steps: seq<Step<T>>, i: nat, id: Id)
    requires Run(states, steps) && i < |steps| && steps[i] == Read(id) && states[i].readers[id].pc == Deref
    ensures var s := states[i]; var r, r' := s.readers[id], states[i + 1].readers[id];
            && r.index <= r'.index < |s.log| && s.ring.Front() <= r'.index
            && r'.positions == r.positions + [r'.index] && r'.values == r.values + [s.log[r'.index]]
            && (forall p :: r.index <= p < r'.index ==> Evicted(s, p))
  {
    RunKeepsInv(states, steps, i);
    assert ReaderInv(states[i].readers[id], states[i], id);
    DereferenceIsInRange(states[i].readers[id], states[i].ring, states[i].log);
  }

  /** A reader leaves the loop only once the stream has stopped. It has then yielded everything pushed before its
      last end test, but for what was evicted; and it has yielded all that is retained exactly when nothing was
      pushed after that test. */
  lemma DrainedOnExit<T>(states: seq<Stream<T>>, steps: seq<Step<T>>, i: nat, id: Id)
    requires Run(states, steps) && i < |states| && id in states[i].readers && Left(states[i].readers[id])
    ensures var s := states[i]; var r := s.readers[id];
            && !s.running && r.lastEnd.Some? && r.lastEnd.value <= |s.log|
            && (forall p :: 0 <= p < r.lastEnd.value ==> p in r.positions || Evicted(s, p))
            && ((forall p :: 0 <= p < |s.log| ==> p in r.positions || Evicted(s, p)) <==> |s.log| == r.lastEnd.value)
  {
    RunKeepsInv(states, steps, i);
    var s := states[i];
    var r := s.readers[id];
    assert ReaderInv(r, s, id);
    if r.lastEnd.value < |s.log| {
      var last := |s.log| - 1;
      assert !Evicted(s, last);
      forall k | 0 <= k < |r.positions| ensures r.positions[k] < last {
        assert r.positions[k] < Next(r);
      }
      assert last !in r.positions;
    }
  }

  /** Each reader that has started is erased from the registry exactly once, by the end of its frame, and only
      while it is registered; the destructor returns only when no started reader will touch the stream again. */
  lemma DeregisteredOnce<T>(states: seq<Stream<T>>, steps: seq<Step<T>>, i: nat, id: Id)
    requires Run(states, steps) && i < |states| && id in states[i].readers
    ensures var r := states[i].readers[id];
            && r.erased <= 1
            && (r.erased == 0 <==> r.pc == Created || id in states[i].registry)
            && (r.pc == Done ==> r.erased == 1)
    ensures states[i].destructor == Finished ==>
              && states[i].registry == {}
              && states[i].readers[id].pc in {Created, DestroyFrame, Done}
              && (states[i].readers[id].pc != Created ==> states[i].readers[id].erased == 1)
  {
    RunKeepsInv(states, steps, i);
    assert ReaderInv(states[i].readers[id], states[i], id);
  }

  /** A first resumption that comes after the destructor has returned. */
  predicate StartsLate<T>(s: Stream<T>, step: Step<T>) {
    step.Start? && s.destructor == Finished
  }

  /** No reader ever uses a stream that is gone exactly when none is first resumed after the destructor. */
  lemma {:induction false} UsedOnlyWhileAlive<T>(states: seq<Stream<T>>, steps: seq<Step<T>>, i: nat)
    requires Run(states, steps) && i < |states|
    ensures states[i].startedLate == {} <==> forall j :: 0 <= j < i ==> !StartsLate(states[j], steps[j])
  {
    if i > 0 {
      UsedOnlyWhileAlive(states, steps, i - 1);
      StartedLateGrows(states[i - 1], steps[i - 1]);
    }
  }

  lemma StartedLateGrows<T>(s: Stream<T>, step: Step<T>)
    requires s.ring.capacity > 0 && |s.ring.buffer| <= s.ring.capacity && Enabled(s, step)
    ensures Apply(s, step).startedLate == {} <==> s.startedLate == {} && !StartsLate(s, step)
  {
    if StartsLate(s, step) {
      assert step.id in Apply(s, step).startedLate;
    }
  }

  // ---------------------------------------------------------------- progress of a scheduled reader

  predicate InLoop<T>(r: Reader<T>) {
    r.pc in {Begin, OuterRunning, OuterEnd, InnerEnd, Deref, Suspended, CheckRunning, WaitEnd, WaitRunning, Asleep}
  }

  /** About to leave a stopped stream without another end test. */
  predicate Leaving<T>(r: Reader<T>, running: bool) {
    r.pc == CheckRunning && !running
  }

  /** How many of its own steps separate a reader with something to read from its dereference. */
  function ReadsToDeref<T>(r: Reader<T>, running: bool): nat {
    var outer := if running then 2 else 3;
    match r.pc
    case InnerEnd => 1
    case OuterEnd => 2
    case Suspended => 2
    case OuterRunning => outer
    case Begin => outer + 1
    case WaitEnd => outer + 1
    case CheckRunning => outer + 2
    case Asleep => outer + 2
    case WaitRunning => if running then outer + 3 else outer + 1
    case _ => 0
  }

  lemma ReadMovesTowardsYield<T>(r: Reader<T>, ring: Ring<T>, log: seq<T>, running: bool)
    requires RingInv(ring, log) && Placed(r, log) && InLoop(r) && Next(r) < |log| && !Leaving(r, running)
    ensures var r' := Advanced(r, ring, running); var at := Jumped(ring, Next(r));
            && at < |log|
            && (r.pc == Deref ==> r'.values == r.values + [log[at]] && r'.positions == r.positions + [at])
            && (r.pc != Deref ==>
                  && r'.values == r.values && r'.positions == r.positions
                  && InLoop(r') && Next(r') < |log| && !Leaving(r', running) && Jumped(ring, Next(r')) == at
                  && ReadsToDeref(r', running) == ReadsToDeref(r, running) - 1)
  {
    if r.pc == Deref {
      DereferenceIsInRange(r, ring, log);
    }
  }

  /** The reader's own steps leave the rest of the stream as it is. */
  lemma ReadKeepsStream<T>(s: Stream<T>, id: Id)
    requires s.ring.capacity > 0 && |s.ring.buffer| <= s.ring.capacity && Enabled(s, Read(id))
    ensures var s' := Apply(s, Read(id));
            && s'.ring == s.ring && s'.log == s.log && s'.running == s.running
            && id in s'.readers && s'.readers[id] == Advanced(s.readers[id], s.ring, s.running)
  {
    hide Advanced;
  }

  predicate CanYield<T>(s: Stream<T>, id: Id) {
    && id in s.readers && InLoop(s.readers[id]) && Next(s.readers[id]) < |s.log|
    && !Leaving(s.readers[id], s.running)
  }

  ghost predicate ReadsOnly<T>(steps: seq<Step<T>>, i: nat, n: nat, id: Id) {
    i + n <= |steps| && forall j :: i <= j < i + n ==> steps[j] == Read(id)
  }

  lemma {:induction false} YieldsAfter<T>(states: seq<Stream<T>>, steps: seq<Step<T>>, i: nat, id: Id)
    requires Run(states, steps) && i < |states| && CanYield(states[i], id)
    requires ReadsOnly(steps, i, ReadsToDeref(states[i].readers[id], states[i].running) + 1, id)
    ensures var s := states[i]; var r := s.readers[id];
            var n := ReadsToDeref(r, s.running) + 1; var at := Jumped(s.ring, Next(r));
            && id in states[i + n].readers && at < |s.log|
            && states[i + n].readers[id].values == r.values + [s.log[at]]
            && states[i + n].readers[id].positions == r.positions + [at]
    decreases |states| - i
  {
    hide Apply, Enabled, Init, Advanced, RingInv, Yields, Placed, Registered, StaysWhile, InLoop, Leaving, ReadsToDeref;
    var s := states[i];
    RunKeepsInv(states, steps, i);
    assert ReaderInv(s.readers[id], s, id);
    ReadMovesTowardsYield(s.readers[id], s.ring, s.log, s.running);
    ReadKeepsStream(s, id);
    DerefIsLast(s.readers[id], s.running);
    if s.readers[id].pc != Deref {
      YieldsAfter(states, steps, i + 1, id);
    }
  }

  lemma DerefIsLast<T>(r: Reader<T>, running: bool)
    requires InLoop(r)
    ensures ReadsToDeref(r, running) <= 5
    ensures r.pc == Deref <==> ReadsToDeref(r, running) == 0
  {
  }

  /** A reader in its loop with something left to read, other than one that has stopped looking, yields within six
      of its own steps, from wherever it is: exactly one value, the log's at the next retained position. */
  lemma ScheduledReaderYields<T>(states: seq<Stream<T>>, steps: seq<Step<T>>, i: nat, id: Id) returns (n: nat)
    requires Run(states, steps) && i < |states| && CanYield(states[i], id) && ReadsOnly(steps, i, 6, id)
    ensures var s := states[i]; var r := s.readers[id];
            var next := if r.pc == Suspended then r.index + 1 else r.index;
            var at := if next < s.ring.Front() then s.ring.Front() else next;
            && at < |s.log|
            && 1 <= n <= 6 && id in states[i + n].readers
            && states[i + n].readers[id].values == r.values + [s.log[at]]
            && states[i + n].readers[id].positions == r.positions + [at]
  {
    var s := states[i];
    RunKeepsInv(states, steps, i);
    assert ReaderInv(s.readers[id], s, id);
    NotAbandonedInLoop(s.readers[id], s.log);
    DerefIsLast(s.readers[id], s.running);
    hide Inv, ReaderInv, Apply, Enabled, Init, Advanced, InLoop, Leaving, ReadsToDeref;
    n := ReadsToDeref(s.readers[id], s.running) + 1;
    YieldsAfter(states, steps, i, id);
  }

  lemma NotAbandonedInLoop<T>(r: Reader<T>, log: seq<T>)
    requires Placed(r, log) && InLoop(r)
    ensures !r.abandoned
  {
  }

  /** How many steps of its own a reader of a stopped stream has left, with `left` positions to read. */
  function StepsLeft(pc: Pc, left: nat): nat {
    var inner := 3 * left + 4;
    var outerEnd := if left == 0 then 3 else inner + 1;
    match pc
    case Created => 0
    case Begin => outerEnd + 2
    case OuterRunning => outerEnd + 1
    case OuterEnd => outerEnd
    case InnerEnd => inner
    case Deref => inner - 1
    case Suspended => inner + 1
    case CheckRunning => 3
    case WaitEnd => if left == 0 then outerEnd + 3 else outerEnd + 2
    case WaitRunning => outerEnd + 2
    case Asleep => if left == 0 then outerEnd + 4 else outerEnd + 3
    case ResetToken => 2
    case DestroyFrame => 1
    case Done => 0
  }

  /** The positions still to be read: those from the next one on that are retained. */
  function LeftToRead<T>(r: Reader<T>, ring: Ring<T>, log: seq<T>): nat {
    if Jumped(ring, Next(r)) < |log| then |log| - Jumped(ring, Next(r)) else 0
  }

  function StepsToDone<T>(r: Reader<T>, ring: Ring<T>, log: seq<T>): nat {
    StepsLeft(r.pc, LeftToRead(r, ring, log))
  }

  lemma AtEndIff<T>(r: Reader<T>, ring: Ring<T>, log: seq<T>)
    requires RingInv(ring, log) && Placed(r, log) && r.pc != Suspended && !r.abandoned
    ensures ring.IsEnd(r.index) <==> LeftToRead(r, ring, log) == 0
    ensures ring.IsEnd(r.index) <==> r.index == |log|
    ensures Jumped(ring, Jumped(ring, r.index)) == Jumped(ring, r.index)
  {
  }

  /** Each step brings a reader of a stopped stream one step nearer to its end. */
  lemma ReadCountsDown<T>(r: Reader<T>, ring: Ring<T>, log: seq<T>)
    requires RingInv(ring, log) && Placed(r, log) && r.pc !in {Created, Done}
    ensures var r' := Advanced(r, ring, false);
            r'.pc != Created && StepsToDone(r', ring, log) == StepsToDone(r, ring, log) - 1
  {
    if r.pc == Deref {
      DereferenceIsInRange(r, ring, log);
    } else if r.pc != Suspended && !r.abandoned {
      AtEndIff(r, ring, log);
    }
  }

  /** The reader will see everything there is: it has not stopped looking with something left. */
  predicate WillDrain<T>(r: Reader<T>, log: seq<T>) {
    !r.abandoned && (r.pc in {CheckRunning, ResetToken, DestroyFrame, Done} ==> r.index == |log|)
  }

  lemma ReadKeepsDraining<T>(r: Reader<T>, ring: Ring<T>, log: seq<T>)
    requires RingInv(ring, log) && Placed(r, log) && r.pc != Created && WillDrain(r, log)
    ensures WillDrain(Advanced(r, ring, false), log)
  {
    if r.pc != Suspended {
      AtEndIff(r, ring, log);
    }
  }

  /** One step of a reader of a stopped stream. */
  lemma StoppedRead<T>(s: Stream<T>, id: Id)
    requires Inv(s) && Enabled(s, Read(id)) && !s.running
    ensures var r := s.readers[id]; var s' := Apply(s, Read(id));
            && s'.ring == s.ring && s'.log == s.log && id in s'.readers && !s'.running
            && s'.readers[id].pc != Created
            && StepsToDone(s'.readers[id], s.ring, s.log) == StepsToDone(r, s.ring, s.log) - 1
            && (WillDrain(r, s.log) ==> WillDrain(s'.readers[id], s.log))
  {
    hide Apply, Advanced, Yields, Placed, Registered, StaysWhile, StepsToDone, WillDrain;
    assert ReaderInv(s.readers[id], s, id);
    ReadKeepsStream(s, id);
    ReadCountsDown(s.readers[id], s.ring, s.log);
    if WillDrain(s.readers[id], s.log) {
      ReadKeepsDraining(s.readers[id], s.ring, s.log);
    }
  }

  lemma {:induction false} CountsDown<T>(states: seq<Stream<T>>, steps: seq<Step<T>>, i: nat, n: nat, id: Id)
    requires Run(states, steps) && ReadsOnly(steps, i, n, id)
    requires id in states[i].readers && states[i].readers[id].pc != Created && !states[i].running
    ensures var s, s' := states[i], states[i + n];
            && s'.ring == s.ring && s'.log == s.log && id in s'.readers && !s'.running
            && s'.readers[id].pc != Created
            && n <= StepsToDone(s.readers[id], s.ring, s.log)
            && StepsToDone(s'.readers[id], s.ring, s.log) == StepsToDone(s.readers[id], s.ring, s.log) - n
            && (WillDrain(s.readers[id], s.log) ==> WillDrain(s'.readers[id], s.log))
    decreases n
  {
    hide Init, Inv, Enabled, Apply, StepsToDone, WillDrain;
    if n > 0 {
      CountsDown(states, steps, i, n - 1, id);
      RunKeepsInv(states, steps, i + n - 1);
      assert steps[i + n - 1] == Read(id);
      StoppedRead(states[i + n - 1], id);
    }
  }

  lemma DoneIsZero<T>(r: Reader<T>, ring: Ring<T>, log: seq<T>)
    requires r.pc != Created
    ensures StepsToDone(r, ring, log) == 0 <==> r.pc == Done
    ensures StepsToDone(r, ring, log) <= 3 * LeftToRead(r, ring, log) + 8
  {
  }

  /** A reader of a stopped stream is done after as many steps of its own as StepsToDone says, at most three for
      each position it has left and eight more. It has then yielded all that is retained, unless it had stopped
      looking with something left or was abandoned. */
  lemma StoppedReaderFinishes<T>(states: seq<Stream<T>>, steps: seq<Step<T>>, i: nat, n: nat, id: Id)
    requires Run(states, steps) && ReadsOnly(steps, i, n, id)
    requires id in states[i].readers && states[i].readers[id].pc != Created && !states[i].running
    ensures id in states[i + n].readers
    ensures var s := states[i]; var r, r' := s.readers[id], states[i + n].readers[id];
            && n <= StepsToDone(r, s.ring, s.log) <= 3 * LeftToRead(r, s.ring, s.log) + 8
            && (n == StepsToDone(r, s.ring, s.log) <==> r'.pc == Done)
            && (r'.pc == Done && InLoop(r) && (r.pc == CheckRunning ==> r.index == |s.log|) ==>
                  forall p :: 0 <= p < |s.log| ==> p in r'.positions || Evicted(s, p))
  {
    CountsDown(states, steps, i, n, id);
    var s, s' := states[i], states[i + n];
    DoneIsZero(s.readers[id], s.ring, s.log);
    DoneIsZero(s'.readers[id], s.ring, s.log);
    RunKeepsInv(states, steps, i);
    RunKeepsInv(states, steps, i + n);
    assert ReaderInv(s.readers[id], s, id);
    assert ReaderInv(s'.readers[id], s', id);
    hide Init, Enabled, Apply, StepsToDone, RingInv, Registered, StaysWhile;
    if InLoop(s.readers[id]) {
      NotAbandonedInLoop(s.readers[id], s.log);
    }
  }

  /** How many of its own steps separate a reader that has read everything of a running stream from its sleep. */
  function ReadsToSleep(pc: Pc): nat {
    match pc
    case WaitRunning => 1
    case WaitEnd => 2
    case CheckRunning => 3
    case InnerEnd => 4
    case OuterRunning => 5
    case Suspended => 5
    case Begin => 6
    case _ => 0
  }

  predicate HasReadAll<T>(s: Stream<T>, id: Id) {
    && id in s.readers && InLoop(s.readers[id]) && s.readers[id].pc !in {OuterEnd, Deref}
    && Next(s.readers[id]) == |s.log| && s.running
  }

  lemma ReadMovesTowardsSleep<T>(r: Reader<T>, ring: Ring<T>, log: seq<T>)
    requires RingInv(ring, log) && Placed(r, log) && InLoop(r) && r.pc !in {OuterEnd, Deref, Asleep}
    requires Next(r) == |log|
    ensures var r' := Advanced(r, ring, true);
            && InLoop(r') && r'.pc !in {OuterEnd, Deref} && Next(r') == |log| && r'.values == r.values
            && ReadsToSleep(r'.pc) == ReadsToSleep(r.pc) - 1
  {
  }

  /** A reader that has read everything of a running stream is asleep within six of its own steps, having yielded
      nothing. */
  lemma {:induction false} ScheduledReaderSleeps<T>(states: seq<Stream<T>>, steps: seq<Step<T>>, i: nat, id: Id)
    requires Run(states, steps) && i < |states| && HasReadAll(states[i], id)
    requires ReadsOnly(steps, i, ReadsToSleep(states[i].readers[id].pc), id)
    ensures var n := ReadsToSleep(states[i].readers[id].pc);
            && n <= 6 && id in states[i + n].readers
            && states[i + n].readers[id].pc == Asleep
            && states[i + n].readers[id].values == states[i].readers[id].values
    decreases |states| - i
  {
    hide Apply, Enabled, Init, Advanced, RingInv, Yields, Placed, Registered, StaysWhile;
    var s := states[i];
    if s.readers[id].pc != Asleep {
      RunKeepsInv(states, steps, i);
      assert ReaderInv(s.readers[id], s, id);
      ReadMovesTowardsSleep(s.readers[id], s.ring, s.log);
      ReadKeepsStream(s, id);
      ScheduledReaderSleeps(states, steps, i + 1, id);
    }
  }

  /** A reader begins at the oldest visible position. */
  lemma BeginsAtFront<T>(states: seq<Stream<T>>, steps: seq<Step<T>>, i: nat, id: Id)
    requires Run(states, steps) && i < |steps| && steps[i] == Read(id) && states[i].readers[id].pc == Begin
    ensures states[i + 1].readers[id].index == states[i].ring.Front()
    ensures states[i + 1].readers[id].pc == OuterRunning
  {
    RunKeepsInv(states, steps, i);
  }

  /** The destructor stops the stream first, and once it looks it returns exactly when no reader is registered. */
  lemma DestructorWaitsForReaders<T>(states: seq<Stream<T>>, steps: seq<Step<T>>, i: nat)
    requires Run(states, steps) && i < |steps| && steps[i] == Destruct
    ensures !states[i + 1].running
    ensures states[i].destructor == Checking ==> (states[i + 1].destructor == Finished <==> states[i].registry == {})
    ensures states[i].destructor == Alive ==> states[i + 1].destructor == Signalling
    ensures states[i].destructor == Signalling ==> states[i + 1].destructor == Checking
  {
    RunKeepsInv(states, steps, i);
  }

  lemma Extend<T>(states: seq<Stream<T>>, steps: seq<Step<T>>, step: Step<T>)
    returns (states': seq<Stream<T>>, steps': seq<Step<T>>)
    requires Run(states, steps)
    requires var s := states[|steps|];
             0 < s.ring.capacity && |s.ring.buffer| <= s.ring.capacity && Enabled(s, step)
    ensures Run(states', steps') && |steps'| == |steps| + 1
    ensures states'[|steps'|] == Apply(states[|steps|], step)
  {
    hide Apply, Enabled, Init;
    states' := states + [Apply(states[|steps|], step)];
    steps' := steps + [step];
  }

  /** A run in which a reader leaves without an item that is still in the buffer: the push and the start of
      the destructor fell between its last end test and its look at the running flag. */
  lemma ItemCanBeMissed<T>(capacity: nat, v: T) returns (states: seq<Stream<T>>, steps: seq<Step<T>>)
    requires capacity > 0
    ensures Run(states, steps)
    ensures var s := states[|steps|];
            && s.log == [v] && !Evicted(s, 0)
            && 0 in s.readers && Left(s.readers[0]) && s.readers[0].positions == []
  {
    states, steps := [Stream(Empty(capacity), [], true, Alive, {}, map[], {})], [];
    states, steps := Extend(states, steps, Create(0));
    states, steps := Extend(states, steps, Start(0));
    states, steps := Extend(states, steps, Read(0));
    states, steps := Extend(states, steps, Read(0));
    states, steps := Extend(states, steps, Read(0));
    states, steps := Extend(states, steps, PushBack(v));
    states, steps := Extend(states, steps, Destruct);
    states, steps := Extend(states, steps, Read(0));
  }

  /** A run in which the destructor returns although a reader exists, because it has not started yet, and the
      reader then starts. */
  lemma UnstartedReaderOutlivesStream<T>(capacity: nat) returns (states: seq<Stream<T>>, steps: seq<Step<T>>)
    requires capacity > 0
    ensures Run(states, steps)
    ensures var s := states[|steps|]; s.destructor == Finished && 0 in s.readers && s.startedLate == {0}
  {
    states, steps := [Stream(Empty(capacity), [], true, Alive, {}, map[], {})], [];
    states, steps := Extend(states, steps, Create(0));
    states, steps := Extend(states, steps, Destruct);
    states, steps := Extend(states, steps, Destruct);
    states, steps := Extend(states, steps, Destruct);
    states, steps := Extend(states, steps, Start(0));
  }
}
