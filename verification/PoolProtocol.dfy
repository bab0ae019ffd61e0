/**
 The resource pool shared by many threads.

 A step is one lock region of ResourcePool together with the condition-variable signal sent inside it, or
 something that happens outside the lock: a factory finishing, a handle moving, time passing. Steps of
 different threads interleave freely; a time-out or a spurious wake may strike any waiter at any moment.
 */
module PoolProtocol {
  import opened Arithmetic
  import opened ResourcePool

  type Thread = nat
  type Holder = nat

  /** `blocked` threads wait with no signal under way; `notified` ones were signalled and have not run
      yet; `creating` ones are inside the factory. `held` says which handle owns which lent-out resource, `live`
      are the resources handed over by the factory and not yet destroyed, and `lost` counts the slots given up
      for ever because a health check threw. */
  datatype System = System(
    pool: PoolState,
    held: map<Holder, Resource>,
    blocked: set<Thread>,
    notified: set<Thread>,
    creating: set<Thread>,
    live: set<Resource>,
    lost: nat,
    now: int,
    nextResource: nat)
  {
    function Free(opts: Options): int {
      opts.maxSize - |held| - |creating| - lost
    }
  }

  datatype Step =
    | Tick(elapsed: nat)
    | Acquire(t: Thread, h: Holder, health: Resource -> Health)
    | Wake(t: Thread, timedOut: bool, h: Holder, health: Resource -> Health)
    | CreateOk(t: Thread, h: Holder)
    | CreateFail(t: Thread, chosen: Thread)
    | CreateCheckThrew(t: Thread)
    | Move(from: Holder, to: Holder)
    | Release(h: Holder, healthy: bool, chosen: Thread)
    | ReleaseCheckThrew(h: Holder)
    | Close

  predicate CanChoose(s: System, chosen: Thread) {
    s.blocked == {} || chosen in s.blocked
  }

  predicate Enabled(opts: Options, s: System, step: Step) {
    match step
    case Tick(_) => true
    case Acquire(t, h, _) => t !in s.blocked + s.notified + s.creating && h !in s.held
    case Wake(t, timedOut, h, _) =>
      t in s.blocked + s.notified && h !in s.held && (timedOut ==> opts.acquireTimeout > 0)
    case CreateOk(t, h) => t in s.creating && h !in s.held
    case CreateFail(t, chosen) => t in s.creating && CanChoose(s, chosen)
    case CreateCheckThrew(t) => t in s.creating
    case Move(from, to) => from in s.held && to !in s.held
    case Release(h, _, chosen) => h in s.held && CanChoose(s, chosen)
    case ReleaseCheckThrew(h) => h in s.held
    case Close => true
  }

  /** notify_one: one blocked thread, if there is any, becomes notified. */
  function SignalOne(s: System, chosen: Thread): System {
    if chosen in s.blocked then s.(blocked := s.blocked - {chosen}, notified := s.notified + {chosen})
    else s
  }

  /** A pass of the acquire loop by thread `t`, which is neither waiting nor creating when it starts. */
  function Pass(opts: Options, s: System, t: Thread, h: Holder, health: Resource -> Health): System
    requires |s.pool.idle| <= s.pool.total
  {
    var (pool', o) := AcquireRegion(s.pool, opts, s.now, health);
    Settle(s.(pool := pool', live := s.live - Destroyed(s.pool, opts, s.now, health)), t, h, o)
  }

  /** Where the outcome of a pass leaves the thread and what it took. */
  function Settle(s': System, t: Thread, h: Holder, o: Outcome): System {
    match o
    case WasClosed => s'
    case Reuse(r) => s'.(held := s'.held[h := r])
    case CheckThrew(_) => s'.(lost := s'.lost + 1)
    case BeginCreate => s'.(creating := s'.creating + {t})
    case MustWait => s'.(blocked := s'.blocked + {t})
  }

  /** A waiter runs again: the predicate decides whether it leaves the wait, and a time-out that finds it
      false gives up. */
  function Woken(opts: Options, s: System, t: Thread, timedOut: bool, h: Holder, health: Resource -> Health): System
    requires |s.pool.idle| <= s.pool.total
  {
    var awake := Awake(s, t);
    if s.pool.CanAcquire(opts) then Pass(opts, awake, t, h, health)
    else if timedOut then awake
    else awake.(blocked := awake.blocked + {t})
  }

  function Awake(s: System, t: Thread): System {
    s.(blocked := s.blocked - {t}, notified := s.notified - {t})
  }

  function CreationFailed(s: System, t: Thread, chosen: Thread): System {
    SignalOne(s.(creating := s.creating - {t}, pool := CreateFailedRegion(s.pool)), chosen)
  }

  function Released(opts: Options, s: System, h: Holder, healthy: bool, chosen: Thread): System
    requires h in s.held
  {
    var r := s.held[h];
    SignalOne(s.(held := s.held - {h}, pool := ReleaseRegion(s.pool, opts, r, healthy, s.now),
                 live := if Keeps(s.pool, opts, healthy) then s.live else s.live - {r}), chosen)
  }

  function Created(s: System, t: Thread, h: Holder): System {
    s.(creating := s.creating - {t}, held := s.held[h := s.nextResource],
       live := s.live + {s.nextResource}, nextResource := s.nextResource + 1)
  }

  function CheckThrewOnRelease(s: System, h: Holder): System
    requires h in s.held
  {
    s.(held := s.held - {h}, live := s.live - {s.held[h]}, lost := s.lost + 1)
  }

  function Closed(s: System): System {
    s.(pool := CloseRegion(s.pool), live := s.live - IdleResources(s.pool.idle),
       blocked := {}, notified := s.notified + s.blocked)
  }

  function IdleResources(idle: seq<Entry>): set<Resource> {
    set i | 0 <= i < |idle| :: idle[i].resource
  }

  function Moved(s: System, from: Holder, to: Holder): System
    requires from in s.held
  {
    s.(held := (s.held - {from})[to := s.held[from]])
  }

  function Apply(opts: Options, s: System, step: Step): System
    requires |s.pool.idle| <= s.pool.total
    requires Enabled(opts, s, step)
  {
    match step
    case Tick(elapsed) => s.(now := s.now + elapsed)
    case Acquire(t, h, health) => Pass(opts, s, t, h, health)
    case Wake(t, timedOut, h, health) =>
      Woken(opts, s, t, timedOut, h, health)
    case CreateOk(t, h) =>
      Created(s, t, h)
    case CreateFail(t, chosen) =>
      CreationFailed(s, t, chosen)
    case CreateCheckThrew(t) =>
      s.(creating := s.creating - {t}, lost := s.lost + 1)
    case Move(from, to) =>
      Moved(s, from, to)
    case Release(h, healthy, chosen) =>
      Released(opts, s, h, healthy, chosen)
    case ReleaseCheckThrew(h) =>
      CheckThrewOnRelease(s, h)
    case Close =>
      Closed(s)
  }

  predicate Init(opts: Options, s: System) {
    && opts.Valid()
    && !s.pool.closed && s.pool.total == |s.pool.idle| <= opts.minSize
    && s.held == map[] && s.blocked == {} && s.notified == {} && s.creating == {} && s.lost == 0
    && Distinct(s.pool.idle) && Sorted(s.pool.idle) && s.live == IdleResources(s.pool.idle)
    && forall i :: 0 <= i < |s.pool.idle| ==>
         s.pool.idle[i].resource < s.nextResource && s.pool.idle[i].lastUsed <= s.now
  }

  // ---------------------------------------------------------------- the invariant

  predicate Distinct(idle: seq<Entry>) {
    forall i, j :: 0 <= i < j < |idle| ==> idle[i].resource != idle[j].resource
  }

  /** Every slot is accounted for. */
  predicate Conserved(opts: Options, s: System) {
    && s.pool.Valid(opts)
    && (!s.pool.closed ==> s.pool.InUse() == |s.held| + |s.creating| + s.lost)
  }

  /** No lost wake-up: while a thread is blocked unsignalled, every free slot has a signalled thread
      on its way to it. After close nobody is left blocked. */
  predicate NoLostWakeup(opts: Options, s: System) {
    && (!s.pool.closed && s.blocked != {} ==> s.Free(opts) <= |s.notified|)
    && (s.pool.closed ==> s.blocked == {})
    && s.blocked !! s.notified && s.blocked !! s.creating && s.notified !! s.creating
  }

  /** No resource has two owners: idle entries and handles all own different ones. */
  ghost predicate ExclusivelyOwned(s: System) {
    && Distinct(s.pool.idle)
    && (forall i :: 0 <= i < |s.pool.idle| ==> s.pool.idle[i].resource < s.nextResource)
    && (forall h :: h in s.held ==> s.held[h] < s.nextResource)
    && (forall h, i :: h in s.held && 0 <= i < |s.pool.idle| ==> s.held[h] != s.pool.idle[i].resource)
    && (forall h, k :: h in s.held && k in s.held && h != k ==> s.held[h] != s.held[k])
  }

  predicate IsIdle(s: System, r: Resource) {
    exists i :: 0 <= i < |s.pool.idle| && s.pool.idle[i].resource == r
  }

  predicate IsHeld(s: System, r: Resource) {
    exists h :: h in s.held && s.held[h] == r
  }

  predicate IsOwned(s: System, r: Resource) {
    IsIdle(s, r) || IsHeld(s, r)
  }

  /** The live resources are those that have an owner: none is leaked, and none is owned after it is gone. */
  ghost predicate Accounted(s: System) {
    forall r :: r in s.live <==> IsOwned(s, r)
  }

  /** The idle deque stays sorted by age. */
  predicate SortedByAge(s: System) {
    && Sorted(s.pool.idle)
    && forall i :: 0 <= i < |s.pool.idle| ==> s.pool.idle[i].lastUsed <= s.now
  }

  ghost predicate Owns(s: System) {
    ExclusivelyOwned(s) && SortedByAge(s)
  }

  ghost predicate Inv(opts: Options, s: System) {
    Counts(opts, s) && Owns(s) && Accounted(s)
  }

  lemma RemovedOne<K, V>(m: map<K, V>, k: K)
    requires k in m
    ensures |m - {k}| == |m| - 1
  {
    assert (m - {k}).Keys == m.Keys - {k};
    assert |(m - {k}).Keys| == |m.Keys| - 1;
  }

  lemma AddedOne<K, V>(m: map<K, V>, k: K, v: V)
    requires k !in m
    ensures |m[k := v]| == |m| + 1
  {
    assert m[k := v].Keys == m.Keys + {k};
    assert |m[k := v].Keys| == |m.Keys| + 1;
  }

  /** The signals a state owes: what NoLostWakeup says, with `credit` free slots to spare. */
  predicate Owes(opts: Options, s: System, credit: nat) {
    && (!s.pool.closed && s.blocked != {} ==> s.Free(opts) <= |s.notified| + credit)
    && (s.pool.closed ==> s.blocked == {})
    && s.blocked !! s.notified && s.blocked !! s.creating && s.notified !! s.creating
  }

  /** The counting half of a pass, from what it did to the pool. */
  lemma SettleCounts(
    opts: Options, s: System, pool': PoolState, live': set<Resource>, t: Thread, h: Holder, o: Outcome)
    requires Conserved(opts, s) && pool'.Valid(opts) && pool'.closed == s.pool.closed
    requires o.WasClosed? <==> s.pool.closed
    requires pool'.InUse() == s.pool.InUse() + (if o.WasClosed? || o.MustWait? then 0 else 1)
    requires o.MustWait? ==> pool'.InUse() == opts.maxSize
    requires Owes(opts, s, if o.MustWait? then 0 else 1)
    requires t !in s.blocked + s.notified + s.creating && h !in s.held
    ensures Conserved(opts, Settle(s.(pool := pool', live := live'), t, h, o))
    ensures NoLostWakeup(opts, Settle(s.(pool := pool', live := live'), t, h, o))
  {
    if o.Reuse? {
      AddedOne(s.held, h, o.resource);
    }
  }

  /** The thread that runs may have been the signalled one, so one more slot may be free than there are
      signalled threads, provided the wait predicate holds. */
  lemma PassCounts(opts: Options, s: System, t: Thread, h: Holder, health: Resource -> Health)
    requires Conserved(opts, s) && Owes(opts, s, if s.pool.CanAcquire(opts) then 1 else 0)
    requires t !in s.blocked + s.notified + s.creating && h !in s.held
    ensures Conserved(opts, Pass(opts, s, t, h, health)) && NoLostWakeup(opts, Pass(opts, s, t, h, health))
  {
    var (pool', o) := AcquireRegion(s.pool, opts, s.now, health);
    AcquireWaitsOnlyWhenFull(s.pool, opts, s.now, health);
    AcquireAccounts(s.pool, opts, s.now, health);
    SettleCounts(opts, s, pool', s.live - Destroyed(s.pool, opts, s.now, health), t, h, o);
  }

  /** The deque after a pass is a run of the deque before it, and a reused resource lies outside the run. */
  lemma SubrunOwns(s: System, idle': seq<Entry>, k: nat)
    requires ExclusivelyOwned(s) && SortedByAge(s)
    requires k + |idle'| <= |s.pool.idle| && idle' == s.pool.idle[k..k + |idle'|]
    ensures ExclusivelyOwned(s.(pool := s.pool.(idle := idle')))
    ensures SortedByAge(s.(pool := s.pool.(idle := idle')))
    ensures forall i, j :: k + |idle'| <= i < |s.pool.idle| && 0 <= j < |idle'| ==>
              s.pool.idle[i].resource != idle'[j].resource
  {
    forall j | 0 <= j < |idle'| ensures idle'[j] == s.pool.idle[k + j] {
    }
  }

  lemma SettleOwns(s: System, pool': PoolState, live': set<Resource>, k: nat, t: Thread, h: Holder, o: Outcome)
    requires ExclusivelyOwned(s) && h !in s.held
    requires ExclusivelyOwned(s.(pool := s.pool.(idle := pool'.idle)))
    requires SortedByAge(s.(pool := s.pool.(idle := pool'.idle)))
    requires forall i, j :: k + |pool'.idle| <= i < |s.pool.idle| && 0 <= j < |pool'.idle| ==>
               s.pool.idle[i].resource != pool'.idle[j].resource
    requires o.Reuse? ==> k + |pool'.idle| < |s.pool.idle| && s.pool.idle[k + |pool'.idle|].resource == o.resource
    ensures ExclusivelyOwned(Settle(s.(pool := pool', live := live'), t, h, o))
    ensures SortedByAge(Settle(s.(pool := pool', live := live'), t, h, o))
  {
  }

  lemma PassOwns(opts: Options, s: System, t: Thread, h: Holder, health: Resource -> Health)
    requires Conserved(opts, s) && Owns(s) && h !in s.held
    ensures Owns(Pass(opts, s, t, h, health))
  {
    if !s.pool.closed {
      var (pool', o) := AcquireRegion(s.pool, opts, s.now, health);
      AcquireKeepsRun(s.pool, opts, s.now, health);
      AcquireTakesMostRecent(s.pool, opts, s.now, health);
      var k := PruneCount(s.pool.idle, opts, s.now);
      SubrunOwns(s, pool'.idle, k);
      SettleOwns(s, pool', s.live - Destroyed(s.pool, opts, s.now, health), k, t, h, o);
    }
  }

  predicate Counts(opts: Options, s: System) {
    Conserved(opts, s) && NoLostWakeup(opts, s)
  }

  lemma WokenCounts(opts: Options, s: System, t: Thread, timedOut: bool, h: Holder, health: Resource -> Health)
    requires Counts(opts, s) && t in s.blocked + s.notified && h !in s.held
    ensures Counts(opts, Woken(opts, s, t, timedOut, h, health))
  {
    if s.pool.CanAcquire(opts) {
      PassCounts(opts, Awake(s, t), t, h, health);
    }
  }

  lemma CreationFailedCounts(opts: Options, s: System, t: Thread, chosen: Thread)
    requires Counts(opts, s) && t in s.creating && CanChoose(s, chosen)
    ensures Counts(opts, CreationFailed(s, t, chosen))
  {
  }

  lemma ReleasedCounts(opts: Options, s: System, h: Holder, healthy: bool, chosen: Thread)
    requires Counts(opts, s) && h in s.held && CanChoose(s, chosen)
    ensures Counts(opts, Released(opts, s, h, healthy, chosen))
  {
    RemovedOne(s.held, h);
  }

  lemma MovedCounts(opts: Options, s: System, from: Holder, to: Holder)
    requires Counts(opts, s) && from in s.held && to !in s.held
    ensures Counts(opts, Moved(s, from, to))
  {
    RemovedOne(s.held, from);
    AddedOne(s.held - {from}, to, s.held[from]);
  }

  /** Every step of every thread conserves slots and loses no wake-up. */
  lemma StepCounts(opts: Options, s: System, step: Step)
    requires Counts(opts, s) && Enabled(opts, s, step)
    ensures Counts(opts, Apply(opts, s, step))
  {
    match step
    case Tick(_) =>
    case Acquire(t, h, health) => PassCounts(opts, s, t, h, health);
    case Wake(t, timedOut, h, health) => WokenCounts(opts, s, t, timedOut, h, health);
    case CreateOk(t, h) => AddedOne(s.held, h, s.nextResource);
    case CreateFail(t, chosen) => CreationFailedCounts(opts, s, t, chosen);
    case CreateCheckThrew(t) =>
    case Move(from, to) => MovedCounts(opts, s, from, to);
    case Release(h, healthy, chosen) => ReleasedCounts(opts, s, h, healthy, chosen);
    case ReleaseCheckThrew(h) => RemovedOne(s.held, h);
    case Close =>
  }

  lemma MovedOwns(s: System, from: Holder, to: Holder)
    requires Owns(s) && from in s.held && to !in s.held
    ensures Owns(Moved(s, from, to))
  {
  }

  lemma ReleasedOwns(opts: Options, s: System, h: Holder, healthy: bool, chosen: Thread)
    requires Owns(s) && h in s.held
    ensures Owns(Released(opts, s, h, healthy, chosen))
  {
  }

  lemma CreatedOwns(opts: Options, s: System, t: Thread, h: Holder)
    requires Conserved(opts, s) && Owns(s) && Enabled(opts, s, CreateOk(t, h))
    ensures Owns(Apply(opts, s, CreateOk(t, h)))
  {
  }

  /** Giving resources up, or waiting, upsets nobody's ownership. */
  lemma FewerOwned(s: System, s': System)
    requires Owns(s) && (s'.pool.idle == s.pool.idle || s'.pool.idle == [])
    requires forall h :: h in s'.held ==> h in s.held && s'.held[h] == s.held[h]
    requires s'.nextResource == s.nextResource && s'.now >= s.now
    ensures Owns(s')
  {
  }

  lemma WokenOwns(opts: Options, s: System, t: Thread, timedOut: bool, h: Holder, health: Resource -> Health)
    requires Conserved(opts, s) && Owns(s) && h !in s.held
    ensures Owns(Woken(opts, s, t, timedOut, h, health))
  {
    hide Pass, Owns;
    FewerOwned(s, Awake(s, t));
    PassOwns(opts, Awake(s, t), t, h, health);
    if !s.pool.CanAcquire(opts) {
      FewerOwned(s, Woken(opts, s, t, timedOut, h, health));
    }
  }

  /** Every step of every thread keeps ownership exclusive and the idle deque sorted. */
  lemma StepOwns(opts: Options, s: System, step: Step)
    requires Conserved(opts, s) && Owns(s) && Enabled(opts, s, step)
    ensures Owns(Apply(opts, s, step))
  {
    hide Pass, Woken, Moved, Released, Owns;
    match step
    case Acquire(t, h, health) => PassOwns(opts, s, t, h, health);
    case Wake(t, timedOut, h, health) => WokenOwns(opts, s, t, timedOut, h, health);
    case CreateOk(t, h) => CreatedOwns(opts, s, t, h);
    case Move(from, to) => MovedOwns(s, from, to);
    case Release(h, healthy, chosen) => ReleasedOwns(opts, s, h, healthy, chosen);
    case _ => FewerOwned(s, Apply(opts, s, step));
  }

  // Nothing leaks: what each region destroys is what it leaves without an owner.

  lemma ResourcesDiffer(s: System, i: nat, j: nat)
    requires Distinct(s.pool.idle) && i < |s.pool.idle| && j < |s.pool.idle|
    requires s.pool.idle[i].resource == s.pool.idle[j].resource
    ensures i == j
  {
  }

  /** A pass keeps the run of entries from k to m and, if it reuses one, hands out entry m. */
  predicate KeepsRunAndLends(s: System, s': System, k: nat, m: nat, reused: bool, h: Holder) {
    && h !in s.held && k <= m <= |s.pool.idle|
    && s'.pool.idle == s.pool.idle[k..m]
    && (reused ==> m < |s.pool.idle|)
    && s'.held == (if reused then s.held[h := s.pool.idle[m].resource] else s.held)
  }

  lemma EntryAfterPass(s: System, s': System, k: nat, m: nat, reused: bool, h: Holder, i: nat)
    requires ExclusivelyOwned(s) && KeepsRunAndLends(s, s', k, m, reused, h) && i < |s.pool.idle|
    ensures IsOwned(s', s.pool.idle[i].resource) <==> k <= i < m || (reused && i == m)
  {
    var r := s.pool.idle[i].resource;
    if k <= i < m {
      assert s'.pool.idle[i - k] == s.pool.idle[i];
    } else if reused && i == m {
      assert s'.held[h] == r;
    } else {
      forall i' | 0 <= i' < |s'.pool.idle| ensures s'.pool.idle[i'].resource != r {
        assert s'.pool.idle[i'] == s.pool.idle[k + i'];
      }
    }
  }

  lemma OwnedAfterPass(s: System, s': System, k: nat, m: nat, reused: bool, h: Holder, r: Resource)
    requires KeepsRunAndLends(s, s', k, m, reused, h)
    ensures IsOwned(s', r) ==> IsOwned(s, r)
    ensures IsHeld(s, r) ==> IsOwned(s', r)
  {
    if IsIdle(s', r) {
      var i :| 0 <= i < |s'.pool.idle| && s'.pool.idle[i].resource == r;
      assert s.pool.idle[k + i].resource == r;
    }
    if IsHeld(s', r) {
      var h' :| h' in s'.held && s'.held[h'] == r;
      if h' == h {
        assert s.pool.idle[m].resource == r;
      } else {
        assert s.held[h'] == r;
      }
    }
    if IsHeld(s, r) {
      var h' :| h' in s.held && s.held[h'] == r;
      assert s'.held[h'] == r;
    }
  }

  lemma SettleLends(s: System, pool': PoolState, live': set<Resource>, k: nat, t: Thread, h: Holder, o: Outcome)
    requires h !in s.held && k + |pool'.idle| <= |s.pool.idle| && pool'.idle == s.pool.idle[k..k + |pool'.idle|]
    requires o.Reuse? ==> k + |pool'.idle| < |s.pool.idle| && s.pool.idle[k + |pool'.idle|].resource == o.resource
    ensures var s' := Settle(s.(pool := pool', live := live'), t, h, o);
            KeepsRunAndLends(s, s', k, k + |pool'.idle|, o.Reuse?, h) && s'.live == live'
  {
  }

  lemma RunAccounted(s: System, s': System, k: nat, m: nat, reused: bool, h: Holder)
    requires ExclusivelyOwned(s) && Accounted(s) && KeepsRunAndLends(s, s', k, m, reused, h)
    requires s'.live == s.live - Others(s.pool.idle, k, m, reused)
    ensures Accounted(s')
  {
    forall r ensures r in s'.live <==> IsOwned(s', r) {
      OwnedAfterPass(s, s', k, m, reused, h, r);
      if IsIdle(s, r) {
        var i :| 0 <= i < |s.pool.idle| && s.pool.idle[i].resource == r;
        EntryAfterPass(s, s', k, m, reused, h, i);
        forall j | 0 <= j < |s.pool.idle| && s.pool.idle[j].resource == r ensures i == j {
          ResourcesDiffer(s, i, j);
        }
      }
    }
  }

  /** A pass destroys exactly what it takes from the deque and hands to nobody. */
  lemma OpenPassAccounted(
    opts: Options, s: System, pool': PoolState, o: Outcome, t: Thread, h: Holder, health: Resource -> Health)
    requires s.pool.Valid(opts) && !s.pool.closed && ExclusivelyOwned(s) && Accounted(s) && h !in s.held
    requires AcquireRegion(s.pool, opts, s.now, health) == (pool', o)
    ensures Accounted(Settle(s.(pool := pool', live := s.live - Destroyed(s.pool, opts, s.now, health)), t, h, o))
  {
    hide AcquireRegion, Destroyed, PruneCount, Others, Settle, KeepsRunAndLends, Accounted, ExclusivelyOwned;
    PassDestroysTheRest(s.pool, opts, s.now, health);
    var k := PruneCount(s.pool.idle, opts, s.now);
    var live' := s.live - Destroyed(s.pool, opts, s.now, health);
    SettleLends(s, pool', live', k, t, h, o);
    RunAccounted(s, Settle(s.(pool := pool', live := live'), t, h, o), k, k + |pool'.idle|, o.Reuse?, h);
  }

  lemma PassAccounted(opts: Options, s: System, t: Thread, h: Holder, health: Resource -> Health)
    requires Conserved(opts, s) && ExclusivelyOwned(s) && Accounted(s) && h !in s.held
    ensures Accounted(Pass(opts, s, t, h, health))
  {
    if s.pool.closed {
      SameOwners(s, Pass(opts, s, t, h, health));
    } else {
      hide AcquireRegion, Destroyed, Settle, Accounted, ExclusivelyOwned;
      var (pool', o) := AcquireRegion(s.pool, opts, s.now, health);
      OpenPassAccounted(opts, s, pool', o, t, h, health);
    }
  }

  lemma SameOwners(s: System, s': System)
    requires Accounted(s) && s'.live == s.live && s'.pool.idle == s.pool.idle && s'.held == s.held
    ensures Accounted(s')
  {
    forall r ensures r in s'.live <==> IsOwned(s', r) {
      assert IsIdle(s, r) <==> IsIdle(s', r);
      assert IsHeld(s, r) <==> IsHeld(s', r);
    }
  }

  lemma WokenAccounted(opts: Options, s: System, t: Thread, timedOut: bool, h: Holder, health: Resource -> Health)
    requires Conserved(opts, s) && ExclusivelyOwned(s) && Accounted(s) && h !in s.held
    ensures Accounted(Woken(opts, s, t, timedOut, h, health))
  {
    SameOwners(s, Awake(s, t));
    if s.pool.CanAcquire(opts) {
      PassAccounted(opts, Awake(s, t), t, h, health);
    } else {
      SameOwners(s, Woken(opts, s, t, timedOut, h, health));
    }
  }

  lemma CreatedAccounted(s: System, t: Thread, h: Holder)
    requires Accounted(s) && h !in s.held
    ensures Accounted(Created(s, t, h))
  {
    var s' := Created(s, t, h);
    forall r ensures r in s'.live <==> IsOwned(s', r) {
      assert IsIdle(s, r) <==> IsIdle(s', r);
      if IsHeld(s, r) {
        var k :| k in s.held && s.held[k] == r;
        assert s'.held[k] == r;
      }
      assert s'.held[h] == s.nextResource;
    }
  }

  /** A handle that lets go of its resource: the deque takes it over, or it is destroyed. */
  lemma LetGoAccounted(s: System, s': System, h: Holder, kept: bool)
    requires ExclusivelyOwned(s) && Accounted(s) && h in s.held && s'.held == s.held - {h}
    requires kept ==>
               && s'.live == s.live
               && exists e: Entry :: e.resource == s.held[h] && s'.pool.idle == s.pool.idle + [e]
    requires !kept ==> s'.live == s.live - {s.held[h]} && s'.pool.idle == s.pool.idle
    ensures Accounted(s')
  {
    forall r ensures r in s'.live <==> IsOwned(s', r) {
      if IsIdle(s, r) {
        var i :| 0 <= i < |s.pool.idle| && s.pool.idle[i].resource == r;
        assert s'.pool.idle[i].resource == r;
      }
      if IsHeld(s, r) {
        var k :| k in s.held && s.held[k] == r;
        if k != h {
          assert s'.held[k] == r;
        }
      }
      if kept {
        assert s'.pool.idle[|s.pool.idle|].resource == s.held[h];
      }
    }
  }

  lemma ReleasedAccounted(opts: Options, s: System, h: Holder, healthy: bool, chosen: Thread)
    requires ExclusivelyOwned(s) && Accounted(s) && h in s.held
    ensures Accounted(Released(opts, s, h, healthy, chosen))
  {
    var s' := Released(opts, s, h, healthy, chosen);
    if Keeps(s.pool, opts, healthy) {
      var e := Entry(s.held[h], s.now);
      assert e.resource == s.held[h] && s'.pool.idle == s.pool.idle + [e];
    }
    LetGoAccounted(s, s', h, Keeps(s.pool, opts, healthy));
  }

  lemma MovedAccounted(s: System, from: Holder, to: Holder)
    requires Accounted(s) && from in s.held && to !in s.held
    ensures Accounted(Moved(s, from, to))
  {
    var s' := Moved(s, from, to);
    forall r ensures r in s'.live <==> IsOwned(s', r) {
      assert IsIdle(s, r) <==> IsIdle(s', r);
      if IsHeld(s, r) {
        var k :| k in s.held && s.held[k] == r;
        assert s'.held[if k == from then to else k] == r;
      }
      if IsHeld(s', r) {
        var k :| k in s'.held && s'.held[k] == r;
        assert s.held[if k == to then from else k] == r;
      }
    }
  }

  lemma ClosedAccounted(s: System)
    requires ExclusivelyOwned(s) && Accounted(s)
    ensures Accounted(Closed(s))
  {
    var s' := Closed(s);
    forall r ensures r in s'.live <==> IsOwned(s', r) {
      assert IsHeld(s, r) <==> IsHeld(s', r);
      assert r in IdleResources(s.pool.idle) <==> IsIdle(s, r);
    }
  }

  /** Every step destroys exactly the resources it leaves without an owner. */
  lemma StepAccounts(opts: Options, s: System, step: Step)
    requires Conserved(opts, s) && Owns(s) && Accounted(s) && Enabled(opts, s, step)
    ensures Accounted(Apply(opts, s, step))
  {
    hide Pass, Woken, Created, Moved, Released, Closed, Accounted;
    match step
    case Acquire(t, h, health) => PassAccounted(opts, s, t, h, health);
    case Wake(t, timedOut, h, health) => WokenAccounted(opts, s, t, timedOut, h, health);
    case CreateOk(t, h) => CreatedAccounted(s, t, h);
    case Move(from, to) => MovedAccounted(s, from, to);
    case Release(h, healthy, chosen) => ReleasedAccounted(opts, s, h, healthy, chosen);
    case ReleaseCheckThrew(h) => LetGoAccounted(s, Apply(opts, s, step), h, false);
    case Close => ClosedAccounted(s);
    case _ => SameOwners(s, Apply(opts, s, step));
  }

  lemma StepKeepsInv(opts: Options, s: System, step: Step)
    requires Inv(opts, s) && Enabled(opts, s, step)
    ensures Inv(opts, Apply(opts, s, step))
  {
    hide Owns, Accounted, Apply;
    StepCounts(opts, s, step);
    StepOwns(opts, s, step);
    StepAccounts(opts, s, step);
  }

  // ---------------------------------------------------------------- whole runs

  ghost predicate Run(opts: Options, states: seq<System>, steps: seq<Step>) {
    && |states| == |steps| + 1
    && Init(opts, states[0])
    && forall i :: 0 <= i < |steps| ==>
         && |states[i].pool.idle| <= states[i].pool.total
         && Enabled(opts, states[i], steps[i])
         && states[i + 1] == Apply(opts, states[i], steps[i])
  }

  lemma InitHasInv(opts: Options, s: System)
    requires Init(opts, s)
    ensures Inv(opts, s)
  {
    forall r ensures r in s.live <==> IsOwned(s, r) {
    }
  }

  /** The invariant holds in every state of every run. */
  lemma {:induction false} RunKeepsInv(opts: Options, states: seq<System>, steps: seq<Step>, i: nat)
    requires Run(opts, states, steps) && i < |states|
    ensures Inv(opts, states[i])
  {
    hide Init, Inv, Enabled, Apply;
    if i == 0 {
      InitHasInv(opts, states[0]);
    } else {
      RunKeepsInv(opts, states, steps, i - 1);
      StepKeepsInv(opts, states[i - 1], steps[i - 1]);
    }
  }

  // ---------------------------------------------------------------- slots lost to throwing health checks

  /** A health check throws in this step: one run after the factory, one run by a release, or one that a pass of
      the acquire loop reaches. */
  predicate Threw(opts: Options, s: System, step: Step)
    requires |s.pool.idle| <= s.pool.total
  {
    || step.CreateCheckThrew? || step.ReleaseCheckThrew?
    || ((step.Acquire? || (step.Wake? && s.pool.CanAcquire(opts))) &&
        AcquireRegion(s.pool, opts, s.now, step.health).1.CheckThrew?)
  }

  /** A step gives up a slot for ever exactly when a health check throws in it. */
  lemma LosesWhenThrown(opts: Options, s: System, step: Step)
    requires |s.pool.idle| <= s.pool.total && Enabled(opts, s, step)
    ensures Apply(opts, s, step).lost == s.lost + (if Threw(opts, s, step) then 1 else 0)
  {
    hide AcquireRegion, Destroyed;
  }

  ghost predicate ThrewAt(opts: Options, states: seq<System>, steps: seq<Step>, j: nat)
    requires Run(opts, states, steps) && j < |steps|
  {
    Threw(opts, states[j], steps[j])
  }

  /** How many health checks have thrown before state i. */
  ghost function ThrowsBefore(opts: Options, states: seq<System>, steps: seq<Step>, i: nat): (n: nat)
    requires Run(opts, states, steps) && i <= |steps|
    ensures n == 0 <==> forall j :: 0 <= j < i ==> !ThrewAt(opts, states, steps, j)
  {
    if i == 0 then 0
    else ThrowsBefore(opts, states, steps, i - 1) + (if ThrewAt(opts, states, steps, i - 1) then 1 else 0)
  }

  lemma {:induction false} LostCountsThrows(opts: Options, states: seq<System>, steps: seq<Step>, i: nat)
    requires Run(opts, states, steps) && i < |states|
    ensures states[i].lost == ThrowsBefore(opts, states, steps, i)
  {
    hide Inv, Enabled, Apply, Threw;
    if i == 0 {
      StartsWithNoLoss(opts, states[0]);
    } else {
      LostCountsThrows(opts, states, steps, i - 1);
      LosesWhenThrown(opts, states[i - 1], steps[i - 1]);
    }
  }

  lemma StartsWithNoLoss(opts: Options, s: System)
    requires Init(opts, s)
    ensures s.lost == 0
  {
  }

  /** While the pool is open its counter is the number of resources that exist or are being made, and one more
      for each health check that has thrown: it is exact exactly when none has. The counter stays within its
      bound, so the over-the-maximum branch of release never fires, and no decrement meets zero. */
  lemma CounterIsExact(opts: Options, states: seq<System>, steps: seq<Step>, i: nat)
    requires Run(opts, states, steps) && i < |states| && !states[i].pool.closed
    ensures var s := states[i];
            && s.pool.total <= opts.maxSize
            && s.pool.total == |s.pool.idle| + |s.held| + |s.creating| + ThrowsBefore(opts, states, steps, i)
            && (s.pool.total == |s.pool.idle| + |s.held| + |s.creating| <==>
                forall j :: 0 <= j < i ==> !ThrewAt(opts, states, steps, j))
    ensures i < |steps| && (steps[i].Release? || steps[i].CreateFail?) ==>
              states[i].pool.total > |states[i].pool.idle|
  {
    RunKeepsInv(opts, states, steps, i);
    LostCountsThrows(opts, states, steps, i);
    if i < |steps| && steps[i].Release? {
      RemovedOne(states[i].held, steps[i].h);
    }
  }

  /** Among the slots neither lent out nor used for a creation, those without a signalled thread on its way to
      them are at most as many as health checks have thrown. */
  lemma FreeSlotsAreSignalled(opts: Options, states: seq<System>, steps: seq<Step>, i: nat)
    requires Run(opts, states, steps) && i < |states| && !states[i].pool.closed && states[i].blocked != {}
    ensures var s := states[i];
            && opts.maxSize - |s.held| - |s.creating| <= |s.notified| + ThrowsBefore(opts, states, steps, i)
            && ((forall j :: 0 <= j < i ==> !ThrewAt(opts, states, steps, j)) ==>
                  opts.maxSize - |s.held| - |s.creating| <= |s.notified|)
  {
    RunKeepsInv(opts, states, steps, i);
    LostCountsThrows(opts, states, steps, i);
  }

  /** A state of an open pool with a thread blocked and none signalled has every slot lent out, being created, or
      lost to a throwing health check. All of them are lent out or being created, so that no thread sleeps beside
      a slot nobody uses, exactly when no health check has thrown. */
  lemma BlockedMeansFull(opts: Options, states: seq<System>, steps: seq<Step>, i: nat)
    requires Run(opts, states, steps) && i < |states|
    requires !states[i].pool.closed && states[i].blocked != {} && states[i].notified == {}
    ensures var s := states[i];
            && |s.held| + |s.creating| + ThrowsBefore(opts, states, steps, i) == opts.maxSize
            && (|s.held| + |s.creating| == opts.maxSize <==>
                forall j :: 0 <= j < i ==> !ThrewAt(opts, states, steps, j))
            && s.pool.idle == [] && !s.pool.CanAcquire(opts)
  {
    RunKeepsInv(opts, states, steps, i);
    LostCountsThrows(opts, states, steps, i);
  }

  lemma SettleTakes(s: System, t: Thread, h: Holder, o: Outcome)
    requires !o.MustWait? && !o.WasClosed? && t !in s.blocked + s.notified + s.creating && h !in s.held
    ensures var s' := Settle(s, t, h, o);
            && s'.blocked == s.blocked && s'.notified == s.notified
            && |s'.held| + |s'.creating| + s'.lost == |s.held| + |s.creating| + s.lost + 1
            && (h in s'.held || t in s'.creating || o.CheckThrew?)
  {
    if o.Reuse? {
      AddedOne(s.held, h, o.resource);
    }
  }

  /** A thread that wakes to a true predicate in an open pool leaves the lock holding a resource, creating
      one, or failing with the exception of a health check. It never waits or times out. */
  lemma WakeTakesSlot(opts: Options, s: System, step: Step)
    requires Inv(opts, s) && Enabled(opts, s, step) && step.Wake?
    requires s.pool.CanAcquire(opts) && !s.pool.closed
    ensures var s' := Apply(opts, s, step);
            && step.t !in s'.blocked + s'.notified
            && s'.Free(opts) == s.Free(opts) - 1
            && (step.h in s'.held || step.t in s'.creating || Threw(opts, s, step))
  {
    hide AcquireRegion, Owns, Accounted, Destroyed, Settle;
    AcquireWaitsOnlyWhenFull(s.pool, opts, s.now, step.health);
    AcquireAccounts(s.pool, opts, s.now, step.health);
    var (pool', o) := AcquireRegion(s.pool, opts, s.now, step.health);
    var awake := Awake(s, step.t).(pool := pool', live := s.live - Destroyed(s.pool, opts, s.now, step.health));
    SettleTakes(awake, step.t, step.h, o);
  }

  lemma SettleOutcome(s: System, t: Thread, h: Holder, o: Outcome)
    requires t !in s.blocked + s.notified + s.creating && h !in s.held
    ensures var s' := Settle(s, t, h, o);
            && (t in s'.blocked <==> o.MustWait?)
            && (h in s'.held <==> o.Reuse?) && (o.Reuse? ==> s'.held[h] == o.resource)
            && (t in s'.creating <==> o.BeginCreate?)
            && s'.pool == s.pool
  {
  }

  /** A healthy idle entry, fresh unless nobody expires or the minimum size kept it. */
  predicate MayBeReused(opts: Options, e: Entry, now: int, left: nat, health: Resource -> Health) {
    && health(e.resource) == Healthy
    && (opts.idleTimeout <= 0 || now - e.lastUsed < opts.idleTimeout || left < opts.minSize)
  }

  /** A thread that calls acquire on an open pool waits exactly when nothing is idle and the counter is at its
      maximum; otherwise it comes away with a resource, creates one, or fails with the exception of a health check.
      A resource it comes away with was idle and healthy, and had not been idle for the time-out, unless the
      minimum size kept it. */
  lemma AcquireOutcome(opts: Options, s: System, step: Step)
    requires Inv(opts, s) && Enabled(opts, s, step) && step.Acquire? && !s.pool.closed
    ensures var s' := Apply(opts, s, step);
            && (step.t in s'.blocked <==> s.pool.idle == [] && s.pool.total >= opts.maxSize)
            && (step.t !in s'.blocked ==> step.h in s'.held || step.t in s'.creating || Threw(opts, s, step))
            && (step.h in s'.held ==>
                  exists m: nat :: m < |s.pool.idle| && s.pool.idle[m].resource == s'.held[step.h] &&
                                   MayBeReused(opts, s.pool.idle[m], s.now, |s'.pool.idle|, step.health))
  {
    hide AcquireRegion, Owns, Accounted, Destroyed, Settle;
    AcquireWaitsOnlyWhenFull(s.pool, opts, s.now, step.health);
    AcquireAccounts(s.pool, opts, s.now, step.health);
    AcquireTakesMostRecent(s.pool, opts, s.now, step.health);
    assert Sorted(s.pool.idle) by {
      IdleIsSorted(s);
    }
    var k, m := ReusedIsFresh(s.pool, opts, s.now, step.health);
    var (pool', o) := AcquireRegion(s.pool, opts, s.now, step.health);
    SettleOutcome(s.(pool := pool', live := s.live - Destroyed(s.pool, opts, s.now, step.health)), step.t, step.h, o);
    if o.Reuse? {
      assert MayBeReused(opts, s.pool.idle[m], s.now, |pool'.idle|, step.health);
    }
  }

  lemma IdleIsSorted(s: System)
    requires Owns(s)
    ensures Sorted(s.pool.idle)
  {
  }

  /** A waiter that wakes and finds nothing to take changes nothing but its own place: timed out it leaves, otherwise
      it goes back to wait. */
  lemma WaiterThatFindsNothing(opts: Options, s: System, step: Step)
    requires Inv(opts, s) && Enabled(opts, s, step) && step.Wake?
    requires !s.pool.closed && s.pool.idle == [] && s.pool.total >= opts.maxSize
    ensures var s' := Apply(opts, s, step);
            && s'.pool == s.pool && s'.held == s.held && s'.creating == s.creating && s'.live == s.live
            && step.t !in s'.notified
            && (step.t in s'.blocked <==> !step.timedOut)
            && s'.blocked - {step.t} == s.blocked - {step.t}
  {
    hide Owns, Accounted, Pass;
  }

  /** Close empties the pool, wakes every waiter, and leaves handles and creations to their owners. */
  lemma CloseWakesEveryone(opts: Options, s: System)
    requires Inv(opts, s)
    ensures var s' := Apply(opts, s, Close);
            && s'.pool.closed && s'.pool.idle == [] && s'.pool.total == 0
            && s'.blocked == {} && (forall t :: t in s.blocked || t in s.notified ==> t in s'.notified)
            && s'.held == s.held && s'.creating == s.creating
            && (forall r :: r in s'.live <==> IsHeld(s, r))
  {
    ClosedAccounted(s);
    forall r ensures r in Closed(s).live <==> IsHeld(s, r) {
      assert IsHeld(s, r) <==> IsHeld(Closed(s), r);
    }
  }

  lemma PassOverAged(opts: Options, s: System, t: Thread, h: Holder, health: Resource -> Health)
    requires s.pool.Valid(opts) && !s.pool.closed && opts.idleTimeout > 0
    requires forall i :: 0 <= i < |s.pool.idle| ==> s.now - s.pool.idle[i].lastUsed >= opts.idleTimeout
    ensures |Pass(opts, s, t, h, health).pool.idle| <= opts.minSize
  {
    hide AcquireRegion, Destroyed;
    PassPrunesLongIdle(s.pool, opts, s.now, health);
  }

  /** After everything has been idle for the time-out, the next acquire leaves no more than the minimum idle. */
  lemma LongIdleIsPruned(
    opts: Options, s: System, s1: System, s2: System, elapsed: nat, t: Thread, h: Holder, health: Resource -> Health)
    requires Inv(opts, s) && !s.pool.closed && 0 < opts.idleTimeout <= elapsed
    requires s1 == Apply(opts, s, Tick(elapsed)) && Enabled(opts, s1, Step.Acquire(t, h, health))
    requires s2 == Apply(opts, s1, Step.Acquire(t, h, health))
    ensures |s2.pool.idle| <= opts.minSize
  {
    hide Owns, Accounted, Pass;
    forall i | 0 <= i < |s.pool.idle| ensures s1.now - s.pool.idle[i].lastUsed >= opts.idleTimeout {
      LastUsedBefore(s, i);
    }
    PassOverAged(opts, s1, t, h, health);
  }

  lemma LastUsedBefore(s: System, i: nat)
    requires Owns(s) && i < |s.pool.idle|
    ensures s.pool.idle[i].lastUsed <= s.now
  {
  }

  /** A waiter of an open pool that leaves with nothing, neither resource nor creation nor exception, timed out
      in a state with every slot taken or lost. */
  lemma GivingUpMeansFull(opts: Options, states: seq<System>, steps: seq<Step>, i: nat)
    requires Run(opts, states, steps) && i < |steps| && steps[i].Wake? && !states[i].pool.closed
    requires steps[i].t !in states[i + 1].blocked + states[i + 1].creating && steps[i].h !in states[i + 1].held
    requires !ThrewAt(opts, states, steps, i)
    ensures steps[i].timedOut && opts.acquireTimeout > 0 && states[i].pool.idle == []
    ensures |states[i].held| + |states[i].creating| + ThrowsBefore(opts, states, steps, i) == opts.maxSize
  {
    RunKeepsInv(opts, states, steps, i);
    LostCountsThrows(opts, states, steps, i);
    if states[i].pool.CanAcquire(opts) {
      WakeTakesSlot(opts, states[i], steps[i]);
    }
  }

  // ---------------------------------------------------------------- runs in which a check throws

  lemma Extend(opts: Options, states: seq<System>, steps: seq<Step>, step: Step)
    returns (states': seq<System>, steps': seq<Step>)
    requires Run(opts, states, steps)
    requires |states[|steps|].pool.idle| <= states[|steps|].pool.total && Enabled(opts, states[|steps|], step)
    ensures Run(opts, states', steps') && steps' == steps + [step]
    ensures states' == states + [Apply(opts, states[|steps|], step)]
  {
    hide Init, Enabled, Apply;
    states', steps' := states + [Apply(opts, states[|steps|], step)], steps + [step];
  }

  lemma NothingDestroyed(p: PoolState, opts: Options, now: int, health: Resource -> Health)
    requires p.idle == []
    ensures Destroyed(p, opts, now, health) == {}
  {
    hide LastUsable, PruneCount, Expired;
  }

  lemma EmptyRegion(p: PoolState, opts: Options, now: int, health: Resource -> Health)
    requires p.Valid(opts) && !p.closed && p.idle == []
    ensures AcquireRegion(p, opts, now, health) ==
            if p.total < opts.maxSize then (PoolState([], p.total + 1, false), BeginCreate) else (p, MustWait)
  {
    assert PruneCount(p.idle, opts, now) == 0;
    assert Pruned(p, opts, now) == p;
    assert LastUsable(p.idle, health) == -1;
  }

  lemma LessNothing(live: set<Resource>)
    ensures live - {} == live
  {
  }

  /** A pass over an empty deque creates while there is room, and waits when there is none. */
  lemma PassOverEmptyPool(opts: Options, s: System, t: Thread, h: Holder, health: Resource -> Health)
    requires s.pool.Valid(opts) && !s.pool.closed && s.pool.idle == []
    ensures Pass(opts, s, t, h, health) ==
            if s.pool.total < opts.maxSize then
              s.(pool := PoolState([], s.pool.total + 1, false), creating := s.creating + {t})
            else s.(blocked := s.blocked + {t})
  {
    hide AcquireRegion, Destroyed;
    EmptyRegion(s.pool, opts, s.now, health);
    NothingDestroyed(s.pool, opts, s.now, health);
    LessNothing(s.live);
  }

  function Fresh(): System {
    System(PoolState([], 0, false), map[], {}, {}, {}, {}, 0, 0, 0)
  }

  /** A run in which the counter says one resource exists and none does: the health check of the first created
      resource threw. */
  lemma CounterCanOvercount(opts: Options) returns (states: seq<System>, steps: seq<Step>)
    requires opts.Valid()
    ensures Run(opts, states, steps) && |steps| == 2
    ensures states[2] == Fresh().(pool := PoolState([], 1, false), lost := 1)
  {
    hide Pass;
    var health := (r: Resource) => Healthy;
    states, steps := [Fresh()], [];
    PassOverEmptyPool(opts, states[0], 7, 0, health);
    states, steps := Extend(opts, states, steps, Step.Acquire(7, 0, health));
    states, steps := Extend(opts, states, steps, CreateCheckThrew(7));
  }

  /** A run of a pool of one, after which a thread waits unsignalled and nothing is lent out or being created:
      nobody is left to wake it. */
  lemma ThrowingCheckStarves(opts: Options) returns (states: seq<System>, steps: seq<Step>)
    requires opts.Valid() && opts.maxSize == 1
    ensures Run(opts, states, steps) && |steps| == 3
    ensures var s := states[3];
            && !s.pool.closed && s.blocked == {8} && s.notified == {} && s.creating == {}
            && s.held == map[] && s.pool.idle == []
  {
    hide Pass;
    var health := (r: Resource) => Healthy;
    states, steps := CounterCanOvercount(opts);
    PassOverEmptyPool(opts, states[2], 8, 1, health);
    states, steps := Extend(opts, states, steps, Step.Acquire(8, 1, health));
  }

  datatype Owner = Slot(i: nat) | Handle(h: Holder)

  predicate OwnedBy(s: System, r: Resource, o: Owner) {
    match o
    case Slot(i) => i < |s.pool.idle| && s.pool.idle[i].resource == r
    case Handle(h) => h in s.held && s.held[h] == r
  }

  /** In every state of every run each live resource has exactly one owner, and no other resource has any; a
      handle move changes the owner of one resource and the live resources not at all. */
  lemma OwnershipIsExclusive(opts: Options, states: seq<System>, steps: seq<Step>, i: nat)
    requires Run(opts, states, steps) && i < |states|
    ensures forall r :: r in states[i].live <==> exists o :: OwnedBy(states[i], r, o)
    ensures forall r, o, o' :: OwnedBy(states[i], r, o) && OwnedBy(states[i], r, o') ==> o == o'
    ensures i < |steps| && steps[i].Move? ==>
              && states[i + 1].live == states[i].live
              && states[i + 1].held.Values == states[i].held.Values
              && states[i + 1].held[steps[i].to] == states[i].held[steps[i].from]
  {
    RunKeepsInv(opts, states, steps, i);
    forall r ensures r in states[i].live <==> exists o :: OwnedBy(states[i], r, o) {
      OwnedSomewhere(states[i], r);
    }
    forall r, o, o' | OwnedBy(states[i], r, o) && OwnedBy(states[i], r, o') ensures o == o' {
      OneOwner(states[i], r, o, o');
    }
    if i < |steps| && steps[i].Move? {
      MoveKeepsValues(states[i], steps[i].from, steps[i].to);
    }
  }

  lemma OwnedSomewhere(s: System, r: Resource)
    ensures IsOwned(s, r) <==> exists o :: OwnedBy(s, r, o)
  {
    if IsIdle(s, r) {
      var i: nat :| i < |s.pool.idle| && s.pool.idle[i].resource == r;
      assert OwnedBy(s, r, Slot(i));
    }
    if IsHeld(s, r) {
      var h :| h in s.held && s.held[h] == r;
      assert OwnedBy(s, r, Handle(h));
    }
  }

  lemma OneOwner(s: System, r: Resource, o: Owner, o': Owner)
    requires ExclusivelyOwned(s) && OwnedBy(s, r, o) && OwnedBy(s, r, o')
    ensures o == o'
  {
  }

  lemma MoveKeepsValues(s: System, from: Holder, to: Holder)
    requires from in s.held && to !in s.held
    ensures Moved(s, from, to).held.Values == s.held.Values
  {
    var m, m' := s.held, Moved(s, from, to).held;
    forall r | r in m.Values ensures r in m'.Values {
      var h :| h in m && m[h] == r;
      assert m'[if h == from then to else h] == r;
    }
  }

  /** In every reachable state the front-only scan is exact: it drops the oldest entries, as many as are expired
      or as the minimum size allows. */
  lemma PruningIsExactInRuns(opts: Options, states: seq<System>, steps: seq<Step>, i: nat, now: int)
    requires Run(opts, states, steps) && i < |states| && now >= states[i].now
    requires opts.idleTimeout > 0 && |states[i].pool.idle| > opts.minSize
    ensures var idle := states[i].pool.idle;
            var k := PruneCount(idle, opts, now);
            && k == Min(ExpiredCount(idle, opts, now), |idle| - opts.minSize)
            && (forall i :: 0 <= i < k ==> Expired(idle[i], opts, now))
            && (forall i, j :: 0 <= i < k <= j < |idle| ==> idle[i].lastUsed <= idle[j].lastUsed)
  {
    RunKeepsInv(opts, states, steps, i);
    PruneIsExact(states[i].pool.idle, opts, now);
  }

  // ---------------------------------------------------------------- close

  /** What no step undoes once the pool is closed at `s0`. */
  predicate StaysClosed(s0: System, s: System) {
    && s.pool == PoolState([], 0, true)
    && s.creating <= s0.creating
    && s0.nextResource <= s.nextResource
    && (s.nextResource - s0.nextResource) + |s.creating| <= |s0.creating|
    && forall h :: h in s.held ==> s.held[h] in s0.held.Values || s0.nextResource <= s.held[h] < s.nextResource
  }

  lemma ClosedStep(opts: Options, s0: System, s: System, step: Step)
    requires Inv(opts, s) && Enabled(opts, s, step) && StaysClosed(s0, s)
    ensures StaysClosed(s0, Apply(opts, s, step))
  {
  }

  lemma ClosedNow(opts: Options, s: System)
    requires Inv(opts, s) && s.pool.closed
    ensures StaysClosed(s, s)
  {
    forall h | h in s.held ensures s.held[h] in s.held.Values {
    }
  }

  /** Close is absorbing: from the first closed state on nothing is idle and the counter is zero, and the
      only resources that appear in handles are those whose creation was under way. */
  lemma {:induction false} CloseIsAbsorbing(opts: Options, states: seq<System>, steps: seq<Step>, c: nat, i: nat)
    requires Run(opts, states, steps) && c <= i < |states| && states[c].pool.closed
    ensures StaysClosed(states[c], states[i])
  {
    if c == i {
      RunKeepsInv(opts, states, steps, c);
      ClosedNow(opts, states[c]);
    } else {
      CloseIsAbsorbing(opts, states, steps, c, i - 1);
      RunKeepsInv(opts, states, steps, i - 1);
      ClosedStep(opts, states[c], states[i - 1], steps[i - 1]);
    }
  }

  /** No thread is left blocked once the pool is closed, and none that runs afterwards comes away with a
      resource or a creation. */
  lemma NobodyWaitsOnClosed(opts: Options, states: seq<System>, steps: seq<Step>, i: nat)
    requires Run(opts, states, steps) && i < |steps| && states[i].pool.closed
    ensures states[i].blocked == {}
    ensures steps[i].Acquire? || steps[i].Wake? ==>
              && states[i + 1].held == states[i].held && states[i + 1].creating == states[i].creating
              && states[i + 1].blocked == {}
    ensures steps[i].Wake? ==> states[i + 1].notified == states[i].notified - {steps[i].t}
  {
    RunKeepsInv(opts, states, steps, i);
  }

  /** A release after close destroys: the resource is no longer live, in no handle and in no idle entry. */
  lemma ReleaseAfterCloseDestroys(opts: Options, s: System, step: Step)
    requires Inv(opts, s) && Enabled(opts, s, step) && step.Release? && s.pool.closed
    ensures var s' := Apply(opts, s, step);
            s'.pool.idle == [] && s.held[step.h] !in s'.held.Values && s'.live == s.live - {s.held[step.h]}
  {
  }
}
