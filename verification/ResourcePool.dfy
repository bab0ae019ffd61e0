/**
 The blocking resource pool of containers/resource_pool.{h,cc}, one lock region at a time.

 `PoolState` is what the mutex protects. Each region the source runs under the lock is a function on
 `PoolState`; the class `Pool` runs the source's own statements and is proved against those functions,
 and PoolProtocol interleaves the same functions among threads.

 Health checks and factories are oracles: a check may answer, or throw. Clock readings are arguments.
 */
module ResourcePool {
  import opened Arithmetic
  import opened Wrappers

  type Resource = nat

  datatype Health = Healthy | Unhealthy | Throws

  datatype Entry = Entry(resource: Resource, lastUsed: int)

  datatype Options = Options(minSize: nat, maxSize: nat, acquireTimeout: int, idleTimeout: int) {
    predicate Valid() {
      0 < maxSize && minSize <= maxSize
    }
  }

  datatype PoolState = PoolState(idle: seq<Entry>, total: nat, closed: bool) {
    /** What the wait predicate tests. */
    predicate CanAcquire(opts: Options) {
      closed || idle != [] || total < opts.maxSize
    }

    /** Slots that are neither free nor idle: lent out, being created, or lost. */
    function InUse(): int {
      total - |idle|
    }

    predicate Valid(opts: Options) {
      && opts.Valid()
      && (if closed then idle == [] && total == 0 else |idle| <= total <= opts.maxSize)
    }
  }

  /** What the region tells the condition variable to do before the lock is given up. */
  datatype Notify = NotifyNone | NotifyOne | NotifyAll

  /** How one pass of the acquire loop leaves the lock. */
  datatype Outcome =
    | WasClosed
    | Reuse(resource: Resource)
    | BeginCreate
    | MustWait
    | CheckThrew(resource: Resource)

  function Decremented(n: nat): nat {
    if n > 0 then n - 1 else 0
  }

  // ---------------------------------------------------------------- pruning

  predicate Expired(e: Entry, opts: Options, now: int) {
    now - e.lastUsed >= opts.idleTimeout
  }

  /** How many entries the front-only scan drops. */
  function PruneCount(idle: seq<Entry>, opts: Options, now: int): (k: nat)
    ensures k <= |idle|
  {
    if opts.idleTimeout <= 0 || |idle| <= opts.minSize || !Expired(idle[0], opts, now) then 0
    else 1 + PruneCount(idle[1..], opts, now)
  }

  function Pruned(s: PoolState, opts: Options, now: int): PoolState
    requires |s.idle| <= s.total
  {
    var k := PruneCount(s.idle, opts, now);
    s.(idle := s.idle[k..], total := s.total - k)
  }

  predicate Sorted(idle: seq<Entry>) {
    forall i, j :: 0 <= i < j < |idle| ==> idle[i].lastUsed <= idle[j].lastUsed
  }

  /** The number of expired entries anywhere in the deque. */
  function ExpiredCount(idle: seq<Entry>, opts: Options, now: int): (k: nat)
    ensures k <= |idle|
  {
    if idle == [] then 0
    else (if Expired(idle[0], opts, now) then 1 else 0) + ExpiredCount(idle[1..], opts, now)
  }

  lemma {:induction false} NoneExpired(idle: seq<Entry>, opts: Options, now: int)
    requires forall i :: 0 <= i < |idle| ==> !Expired(idle[i], opts, now)
    ensures ExpiredCount(idle, opts, now) == 0
  {
    if idle != [] {
      NoneExpired(idle[1..], opts, now);
    }
  }

  /** On a deque sorted by age the front-only scan loses nothing: it drops as many entries as are
      expired anywhere, short only of the minimum size, and the ones it drops are the oldest. */
  lemma {:induction false} PruneIsExact(idle: seq<Entry>, opts: Options, now: int)
    requires Sorted(idle)
    ensures opts.idleTimeout > 0 && |idle| > opts.minSize ==>
              PruneCount(idle, opts, now) == Min(ExpiredCount(idle, opts, now), |idle| - opts.minSize)
    ensures opts.idleTimeout <= 0 || |idle| <= opts.minSize ==> PruneCount(idle, opts, now) == 0
    ensures var k := PruneCount(idle, opts, now);
            && (forall i :: 0 <= i < k ==> Expired(idle[i], opts, now))
            && (forall i, j :: 0 <= i < k <= j < |idle| ==> idle[i].lastUsed <= idle[j].lastUsed)
  {
    if opts.idleTimeout > 0 && |idle| > opts.minSize {
      if Expired(idle[0], opts, now) {
        PruneIsExact(idle[1..], opts, now);
        var k := PruneCount(idle, opts, now);
        forall i | 0 <= i < k ensures Expired(idle[i], opts, now) {
          assert i > 0 ==> idle[i] == idle[1..][i - 1];
        }
      } else {
        NoneExpired(idle, opts, now);
      }
    }
  }

  /** Pruning by the clock alone: it drops entries from the front that have been idle for the time-out or longer,
      keeps the minimum size, and stops at an entry that has not; on a deque sorted by age no entry left has,
      unless the minimum size keeps it. Without a time-out it drops nothing. */
  lemma PrunedByAge(s: PoolState, opts: Options, now: int)
    requires |s.idle| <= s.total
    ensures var s' := Pruned(s, opts, now); var k := |s.idle| - |s'.idle|;
            && k >= 0 && s'.idle == s.idle[k..] && s'.total == s.total - k && s'.closed == s.closed
            && (opts.idleTimeout <= 0 ==> k == 0)
            && (forall i :: 0 <= i < k ==> now - s.idle[i].lastUsed >= opts.idleTimeout)
            && (k > 0 ==> |s'.idle| >= opts.minSize)
            && (opts.idleTimeout > 0 && |s'.idle| > opts.minSize ==>
                  now - s'.idle[0].lastUsed < opts.idleTimeout)
            && (opts.idleTimeout > 0 && |s'.idle| > opts.minSize && Sorted(s.idle) ==>
                  forall i :: 0 <= i < |s'.idle| ==> now - s'.idle[i].lastUsed < opts.idleTimeout)
    ensures |Pruned(s, opts, now).idle| == |s.idle| - PruneCount(s.idle, opts, now)
  {
    StopsAtTheYoung(s.idle, opts, now);
    var k := PruneCount(s.idle, opts, now);
    assert s.idle[k..] == Pruned(s, opts, now).idle;
  }

  lemma {:induction false} StopsAtTheYoung(idle: seq<Entry>, opts: Options, now: int)
    ensures var k := PruneCount(idle, opts, now);
            && (opts.idleTimeout <= 0 ==> k == 0)
            && (forall i :: 0 <= i < k ==> now - idle[i].lastUsed >= opts.idleTimeout)
            && (k > 0 ==> |idle| - k >= opts.minSize)
            && (opts.idleTimeout > 0 && |idle| - k > opts.minSize ==> now - idle[k].lastUsed < opts.idleTimeout)
  {
    var k := PruneCount(idle, opts, now);
    if k > 0 {
      StopsAtTheYoung(idle[1..], opts, now);
      forall i | 0 <= i < k ensures now - idle[i].lastUsed >= opts.idleTimeout {
        assert i > 0 ==> idle[i] == idle[1..][i - 1];
      }
    }
  }

  // ---------------------------------------------------------------- one pass of acquire

  /** The position of the entry the discard loop stops at: the last one not found unhealthy, or -1. */
  function LastUsable(idle: seq<Entry>, health: Resource -> Health): (j: int)
    ensures -1 <= j < |idle|
    ensures j >= 0 ==> health(idle[j].resource) != Unhealthy
    ensures forall i :: j < i < |idle| ==> health(idle[i].resource) == Unhealthy
  {
    if idle == [] then -1
    else
      var last := |idle| - 1;
      if health(idle[last].resource) != Unhealthy then last else LastUsable(idle[..last], health)
  }

  /** What follows the pruning: discard, then take an entry, a free slot, or neither. */
  function TakeRegion(p: PoolState, opts: Options, health: Resource -> Health): (PoolState, Outcome)
    requires |p.idle| <= p.total
  {
    var j := LastUsable(p.idle, health);
    var total := p.total - (|p.idle| - 1 - j);
    if j >= 0 then
      var r := p.idle[j].resource;
      (p.(idle := p.idle[..j], total := total), if health(r) == Healthy then Reuse(r) else CheckThrew(r))
    else if total < opts.maxSize then (p.(idle := [], total := total + 1), BeginCreate)
    else (p.(idle := [], total := total), MustWait)
  }

  function AcquireRegion(s: PoolState, opts: Options, now: int, health: Resource -> Health): (PoolState, Outcome)
    requires |s.idle| <= s.total
  {
    if s.closed then (s, WasClosed) else TakeRegion(Pruned(s, opts, now), opts, health)
  }

  /** What a pass destroys: the pruned entries, the discarded ones, and the one whose health check threw. */
  function Destroyed(s: PoolState, opts: Options, now: int, health: Resource -> Health): set<Resource> {
    if s.closed then {}
    else
      var k := PruneCount(s.idle, opts, now);
      var last := k + LastUsable(s.idle[k..], health);
      set i | 0 <= i < |s.idle| && (i < k || last < i || (i == last && health(s.idle[i].resource) == Throws))
        :: s.idle[i].resource
  }

  /** A thread whose wait predicate holds never goes back to waiting: after the pruning and the
      discarding it still finds an entry or a free slot. Waiting means every slot is really taken. */
  lemma AcquireWaitsOnlyWhenFull(s: PoolState, opts: Options, now: int, health: Resource -> Health)
    requires s.Valid(opts)
    ensures var (s', o) := AcquireRegion(s, opts, now, health);
            && s'.Valid(opts)
            && (o.MustWait? <==> !s.CanAcquire(opts))
            && (o.MustWait? ==> s' == s && s.idle == [] && s.total == opts.maxSize)
  {
  }

  /** Pruning and discarding free slots without changing how many are in use; taking uses one more. */
  lemma AcquireAccounts(s: PoolState, opts: Options, now: int, health: Resource -> Health)
    requires s.Valid(opts)
    ensures var (s', o) := AcquireRegion(s, opts, now, health);
            && s'.InUse() == s.InUse() + (if o.WasClosed? || o.MustWait? then 0 else 1)
            && s'.closed == s.closed
            && (o.WasClosed? <==> s.closed)
  {
  }

  /** What survives a pass is a contiguous run of the old deque. */
  lemma AcquireKeepsRun(s: PoolState, opts: Options, now: int, health: Resource -> Health)
    requires s.Valid(opts) && !s.closed
    ensures var (s', o) := AcquireRegion(s, opts, now, health);
            var k := PruneCount(s.idle, opts, now);
            && k + |s'.idle| <= |s.idle|
            && s'.idle == s.idle[k..k + |s'.idle|]
            && (o.BeginCreate? || o.MustWait? ==> s'.idle == [])
            && (o.Reuse? || o.CheckThrew? ==> |s'.idle| == LastUsable(s.idle[k..], health))
            && (o.BeginCreate? || o.MustWait? ==> LastUsable(s.idle[k..], health) == -1)
  {
  }

  /** The entry handed out came from just behind the run: the most recently released one that is not
      unhealthy, all younger ones being unhealthy. Creating or waiting means all were. */
  lemma AcquireTakesMostRecent(s: PoolState, opts: Options, now: int, health: Resource -> Health)
    requires s.Valid(opts) && !s.closed
    ensures var (s', o) := AcquireRegion(s, opts, now, health);
            var k := PruneCount(s.idle, opts, now);
            && k + |s'.idle| <= |s.idle|
            && (o.Reuse? || o.CheckThrew? ==>
                  && k + |s'.idle| < |s.idle|
                  && s.idle[k + |s'.idle|].resource == o.resource
                  && (o.Reuse? <==> health(o.resource) == Healthy)
                  && forall i :: k + |s'.idle| < i < |s.idle| ==> health(s.idle[i].resource) == Unhealthy)
            && (o.BeginCreate? || o.MustWait? ==>
                  forall i :: k <= i < |s.idle| ==> health(s.idle[i].resource) == Unhealthy)
  {
    AcquireKeepsRun(s, opts, now, health);
    YoungerAreUnhealthy(s.idle, PruneCount(s.idle, opts, now), health);
  }

  /** By the clock alone: everything pruned had been idle for the time-out or longer, and a resource handed out of
      a deque still longer than the minimum size had not. */
  lemma ReusedIsFresh(s: PoolState, opts: Options, now: int, health: Resource -> Health) returns (k: nat, m: nat)
    requires s.Valid(opts) && !s.closed && Sorted(s.idle)
    ensures var (s', o) := AcquireRegion(s, opts, now, health);
            && k <= m <= |s.idle| && s'.idle == s.idle[k..m]
            && (forall i :: 0 <= i < k ==> now - s.idle[i].lastUsed >= opts.idleTimeout > 0)
            && (o.Reuse? ==> m < |s.idle| && s.idle[m].resource == o.resource)
            && (o.Reuse? && opts.idleTimeout > 0 && |s.idle| - k > opts.minSize ==>
                  now - s.idle[m].lastUsed < opts.idleTimeout)
  {
    hide AcquireRegion, Pruned, PruneCount, LastUsable, Sorted;
    var (s', o) := AcquireRegion(s, opts, now, health);
    AcquireKeepsRun(s, opts, now, health);
    AcquireTakesMostRecent(s, opts, now, health);
    PrunedByAge(s, opts, now);
    k := PruneCount(s.idle, opts, now);
    m := k + |s'.idle|;
    if m < |s.idle| {
      assert s.idle[m] == Pruned(s, opts, now).idle[m - k];
    }
  }

  lemma PrunedLongIdle(s: PoolState, opts: Options, now: int)
    requires |s.idle| <= s.total && opts.idleTimeout > 0
    requires forall i :: 0 <= i < |s.idle| ==> now - s.idle[i].lastUsed >= opts.idleTimeout
    ensures |Pruned(s, opts, now).idle| <= opts.minSize
  {
    hide Pruned, PruneCount, Sorted;
    PrunedByAge(s, opts, now);
    var k := |s.idle| - |Pruned(s, opts, now).idle|;
    assert k < |s.idle| ==> s.idle[k..][0] == s.idle[k];
  }

  /** When everything has been idle for the time-out, a pass leaves no more than the minimum idle. */
  lemma PassPrunesLongIdle(s: PoolState, opts: Options, now: int, health: Resource -> Health)
    requires s.Valid(opts) && !s.closed && opts.idleTimeout > 0
    requires forall i :: 0 <= i < |s.idle| ==> now - s.idle[i].lastUsed >= opts.idleTimeout
    ensures |AcquireRegion(s, opts, now, health).0.idle| <= opts.minSize
  {
    hide AcquireRegion, PruneCount, LastUsable, Sorted;
    PrunedLongIdle(s, opts, now);
    AcquireKeepsRun(s, opts, now, health);
  }

  /** The resources of all entries but those from k to m and, if it is lent out, entry m. */
  function Others(idle: seq<Entry>, k: nat, m: nat, lent: bool): set<Resource> {
    set i | 0 <= i < |idle| && !(k <= i < m || (lent && i == m)) :: idle[i].resource
  }

  /** A pass keeps a run, may hand out the entry behind it, and destroys the rest. */
  lemma PassDestroysTheRest(s: PoolState, opts: Options, now: int, health: Resource -> Health)
    requires s.Valid(opts) && !s.closed
    ensures var (s', o) := AcquireRegion(s, opts, now, health);
            var k := PruneCount(s.idle, opts, now); var m := k + |s'.idle|;
            && m <= |s.idle| && s'.idle == s.idle[k..m]
            && (o.Reuse? ==> m < |s.idle| && s.idle[m].resource == o.resource)
            && Destroyed(s, opts, now, health) == Others(s.idle, k, m, o.Reuse?)
  {
    hide AcquireRegion, LastUsable, PruneCount;
    AcquireAccounts(s, opts, now, health);
    AcquireKeepsRun(s, opts, now, health);
    AcquireTakesMostRecent(s, opts, now, health);
    var (s', o) := AcquireRegion(s, opts, now, health);
    var k := PruneCount(s.idle, opts, now);
    var last := k + LastUsable(s.idle[k..], health);
    forall i | 0 <= i < |s.idle|
      ensures (i < k || last < i || (i == last && health(s.idle[i].resource) == Throws)) <==>
              !(k <= i < k + |s'.idle| || (o.Reuse? && i == k + |s'.idle|))
    {
      if o.Reuse? || o.CheckThrew? {
        assert s.idle[k..][last - k] == s.idle[last];
      }
    }
  }

  lemma YoungerAreUnhealthy(idle: seq<Entry>, k: nat, health: Resource -> Health)
    requires k <= |idle|
    ensures var j := LastUsable(idle[k..], health);
            && (j >= 0 ==> k + j < |idle| && idle[k..][j] == idle[k + j])
            && forall i :: k <= i < |idle| && k + j < i ==> health(idle[i].resource) == Unhealthy
  {
    var kept := idle[k..];
    var j := LastUsable(kept, health);
    forall i | k <= i < |idle| && k + j < i ensures health(idle[i].resource) == Unhealthy {
      assert idle[i] == kept[i - k];
    }
  }

  // ---------------------------------------------------------------- the other regions

  function CreateFailedRegion(s: PoolState): PoolState {
    s.(total := Decremented(s.total))
  }

  /** Whether a released resource is kept for reuse; otherwise it is destroyed. */
  predicate Keeps(s: PoolState, opts: Options, healthy: bool) {
    !(s.closed || !healthy || s.total > opts.maxSize)
  }

  function ReleaseRegion(s: PoolState, opts: Options, r: Resource, healthy: bool, now: int): PoolState {
    if Keeps(s, opts, healthy) then s.(idle := s.idle + [Entry(r, now)]) else s.(total := Decremented(s.total))
  }

  /** A healthy resource that is released is the next one handed out, unless it has expired meanwhile; an
      unhealthy one frees its slot for another. */
  lemma ReleasedIsReused(
    s: PoolState, opts: Options, r: Resource, released: int, now: int, health: Resource -> Health)
    requires s.Valid(opts) && !s.closed && s.InUse() > 0
    requires health(r) == Healthy && (opts.idleTimeout > 0 ==> now - released < opts.idleTimeout)
    ensures var s1 := ReleaseRegion(s, opts, r, true, released);
            && s1.Valid(opts) && s1.InUse() == s.InUse() - 1
            && AcquireRegion(s1, opts, now, health).1 == Reuse(r)
    ensures var s1 := ReleaseRegion(s, opts, r, false, released);
            s1.Valid(opts) && s1.idle == s.idle && s1.total == s.total - 1
  {
    var s1 := ReleaseRegion(s, opts, r, true, released);
    PruneSparesLast(s1.idle, opts, now);
    var kept := Pruned(s1, opts, now).idle;
    assert kept[|kept| - 1] == Entry(r, released);
  }

  lemma {:induction false} PruneSparesLast(idle: seq<Entry>, opts: Options, now: int)
    requires idle != [] && (opts.idleTimeout > 0 ==> !Expired(idle[|idle| - 1], opts, now))
    ensures PruneCount(idle, opts, now) < |idle|
  {
    if opts.idleTimeout > 0 && |idle| > 1 && Expired(idle[0], opts, now) {
      PruneSparesLast(idle[1..], opts, now);
    }
  }

  function CloseRegion(s: PoolState): PoolState {
    PoolState([], 0, true)
  }

  /** What a factory call can do. */
  datatype Made = Made(resource: Resource, health: Health) | MadeNull | FactoryThrew

  datatype PoolError =
    | NullFactory | ZeroMaxSize | MinExceedsMax
    | Closed | TimedOut | CreationFailed | FactoryException | Exception

  /** The entries a prepopulation keeps: the healthy ones, in order of creation. */
  function Prepopulated(made: seq<Made>, times: seq<int>): (idle: seq<Entry>)
    requires |made| == |times|
    ensures |idle| <= |made|
  {
    if made == [] then []
    else
      var n := |made| - 1;
      Prepopulated(made[..n], times[..n]) +
      (if made[n].Made? && made[n].health == Healthy then [Entry(made[n].resource, times[n])] else [])
  }

  predicate IsGood(m: Made) {
    m.Made? && m.health == Healthy
  }

  /** The idle entries are those of the healthy products, in the order they were made; `at` says which. */
  ghost predicate HealthyOnes(idle: seq<Entry>, made: seq<Made>, times: seq<int>, at: seq<nat>)
    requires |made| == |times|
  {
    && |at| == |idle|
    && (forall j, k :: 0 <= j < k < |at| ==> at[j] < at[k])
    && (forall k :: 0 <= k < |at| ==>
          at[k] < |made| && made[at[k]].Made? && idle[k] == Entry(made[at[k]].resource, times[at[k]]))
    && (forall i :: 0 <= i < |made| ==> (i in at <==> made[i].Made? && made[i].health == Healthy))
  }

  lemma OneMoreMade(idle: seq<Entry>, made: seq<Made>, times: seq<int>, at: seq<nat>, m: Made, time: int)
    requires |made| == |times| && HealthyOnes(idle, made, times, at)
    ensures HealthyOnes(if IsGood(m) then idle + [Entry(m.resource, time)] else idle, made + [m], times + [time],
                        if IsGood(m) then at + [|made|] else at)
  {
    var all, at' := made + [m], if IsGood(m) then at + [|made|] else at;
    forall i | 0 <= i < |all| ensures i in at' <==> all[i].Made? && all[i].health == Healthy {
      assert i in at' <==> i in at || (IsGood(m) && i == |made|);
      assert i < |made| ==> all[i] == made[i];
    }
  }

  lemma PrepopulatedStep(made: seq<Made>, times: seq<int>, m: Made, time: int)
    requires |made| == |times|
    ensures Prepopulated(made + [m], times + [time]) ==
            if IsGood(m) then Prepopulated(made, times) + [Entry(m.resource, time)] else Prepopulated(made, times)
  {
    assert (made + [m])[..|made|] == made && (times + [time])[..|times|] == times;
  }

  lemma NothingMade()
    ensures HealthyOnes(Prepopulated([], []), [], [], [])
  {
  }

  /** What a prepopulated pool holds. */
  lemma {:induction false} PrepopulatedKeepsHealthy(made: seq<Made>, times: seq<int>) returns (at: seq<nat>)
    requires |made| == |times|
    ensures HealthyOnes(Prepopulated(made, times), made, times, at)
  {
    hide Prepopulated, HealthyOnes, IsGood;
    if made == [] {
      NothingMade();
      at := [];
    } else {
      var n := |made| - 1;
      var init := PrepopulatedKeepsHealthy(made[..n], times[..n]);
      at := if IsGood(made[n]) then init + [n] else init;
      OneMoreMade(Prepopulated(made[..n], times[..n]), made[..n], times[..n], init, made[n], times[n]);
      PrepopulatedStep(made[..n], times[..n], made[n], times[n]);
      assert made == made[..n] + [made[n]] && times == times[..n] + [times[n]];
    }
  }

  predicate Blows(m: Made) {
    m.FactoryThrew? || (m.Made? && m.health == Throws)
  }

  /** The creations that fail inside the source's two handlers. */
  predicate GivesSlotBack(m: Made) {
    m.FactoryThrew? || m.MadeNull? || (m.Made? && m.health == Unhealthy)
  }

  class Pool {
    const opts: Options
    var available: seq<Entry>
    var totalAllocated: nat
    var closed: bool

    function State(): PoolState
      reads this
    {
      PoolState(available, totalAllocated, closed)
    }

    ghost predicate Valid()
      reads this
    {
      State().Valid(opts)
    }

    constructor Empty(opts: Options)
      requires opts.Valid()
      ensures this.opts == opts && State() == PoolState([], 0, false) && Valid()
    {
      this.opts := opts;
      available, totalAllocated, closed := [], 0, false;
    }

    /** The constructor of the source: rejects bad options, then fills the pool to its minimum size.
        The factory is called at most `minSize` times; `made` and `times` are what the calls produced. */
    static method Create(hasFactory: bool, opts: Options, made: seq<Made>, times: seq<int>)
      returns (res: Result<Pool, PoolError>)
      requires |made| == |times| == opts.minSize
      ensures !hasFactory ==> res == Failure(NullFactory)
      ensures hasFactory && opts.maxSize == 0 ==> res == Failure(ZeroMaxSize)
      ensures hasFactory && 0 < opts.maxSize < opts.minSize ==> res == Failure(MinExceedsMax)
      ensures hasFactory && opts.Valid() ==>
                (res.Success? <==> forall i :: 0 <= i < |made| ==> !Blows(made[i]))
      ensures hasFactory && opts.Valid() && res.Failure? ==> res.error == Exception
      ensures res.Success? ==>
                && fresh(res.value) && res.value.opts == opts && res.value.Valid()
                && res.value.State() == PoolState(Prepopulated(made, times), |Prepopulated(made, times)|, false)
    {
      if !hasFactory { return Failure(NullFactory); }
      if opts.maxSize == 0 { return Failure(ZeroMaxSize); }
      if opts.minSize > opts.maxSize { return Failure(MinExceedsMax); }
      var pool := new Pool.Empty(opts);
      for i := 0 to opts.minSize
        invariant fresh(pool) && pool.opts == opts
        invariant forall k :: 0 <= k < i ==> !Blows(made[k])
        invariant pool.State() ==
                  PoolState(Prepopulated(made[..i], times[..i]), |Prepopulated(made[..i], times[..i])|, false)
      {
        assert made[..i + 1][..i] == made[..i] && times[..i + 1][..i] == times[..i];
        if Blows(made[i]) { return Failure(Exception); }
        if made[i].Made? && made[i].health == Healthy {
          pool.available := pool.available + [Entry(made[i].resource, times[i])];
          pool.totalAllocated := pool.totalAllocated + 1;
        }
      }
      assert made[..opts.minSize] == made && times[..opts.minSize] == times;
      return Success(pool);
    }

    method DecrementTotalAllocated()
      modifies this`totalAllocated
      ensures totalAllocated == Decremented(old(totalAllocated))
    {
      if totalAllocated > 0 {
        totalAllocated := totalAllocated - 1;
      }
    }

    method PruneIdleLocked(now: int)
      requires Valid()
      modifies this`available, this`totalAllocated
      ensures Valid()
      ensures State() == Pruned(old(State()), opts, now)
    {
      if opts.idleTimeout <= 0 { return; }
      ghost var before := State();
      ghost var k := 0;
      while |available| > opts.minSize
        invariant closed == before.closed && Valid()
        invariant k <= |before.idle| && available == before.idle[k..] && totalAllocated == before.total - k
        invariant PruneCount(before.idle, opts, now) == k + PruneCount(available, opts, now)
        decreases |available|
      {
        if now - available[0].lastUsed < opts.idleTimeout { break; }
        available := available[1..];
        DecrementTotalAllocated();
        k := k + 1;
      }
    }

    /** One pass of the acquire loop, from taking the lock (or waking with it) to giving it up. */
    method AcquirePass(now: int, health: Resource -> Health) returns (o: Outcome)
      requires Valid()
      modifies this`available, this`totalAllocated
      ensures Valid()
      ensures (State(), o) == AcquireRegion(old(State()), opts, now, health)
    {
      hide Pruned, Expired;
      if closed { return WasClosed; }
      PruneIdleLocked(now);
      ghost var p := State();
      ghost var j := LastUsable(p.idle, health);
      while available != []
        invariant !closed && Valid()
        invariant |available| <= |p.idle| && available == p.idle[..|available|] && j == LastUsable(available, health)
        invariant totalAllocated == p.total - (|p.idle| - |available|)
        decreases |available|
      {
        var entry := available[|available| - 1];
        assert entry == p.idle[|available| - 1];
        available := available[..|available| - 1];
        assert available == p.idle[..|available|];
        match health(entry.resource)
        case Healthy => return Reuse(entry.resource);
        case Throws => return CheckThrew(entry.resource);
        case Unhealthy => DecrementTotalAllocated();
      }
      if totalAllocated < opts.maxSize {
        totalAllocated := totalAllocated + 1;
        return BeginCreate;
      }
      return MustWait;
    }

    /** The region entered when the factory threw, returned null, or made something unhealthy. */
    method CreateFailed() returns (notify: Notify)
      modifies this`totalAllocated
      ensures State() == CreateFailedRegion(old(State())) && notify == NotifyOne
    {
      DecrementTotalAllocated();
      notify := NotifyOne;
    }

    /** A whole acquire with no other thread about. Waiting can then only time out; with no time-out set it
        would never end. A factory that fails gives its slot back, one whose product's health check throws does
        not. */
    method Acquire(now: int, health: Resource -> Health, made: Made) returns (res: Result<Resource, PoolError>)
      requires Valid() && (opts.acquireTimeout > 0 || State().CanAcquire(opts))
      modifies this`available, this`totalAllocated
      ensures old(closed) <==> res == Failure(Closed)
      ensures !old(State()).CanAcquire(opts) <==> res == Failure(TimedOut)
      ensures var (s', o) := AcquireRegion(old(State()), opts, now, health);
              && (res.Success? <==> o.Reuse? || (o.BeginCreate? && made.Made? && made.health == Healthy))
              && (res.Success? ==> res.value == if o.Reuse? then o.resource else made.resource)
              && (res == Failure(CreationFailed) <==>
                    o.BeginCreate? && (made.MadeNull? || (made.Made? && made.health == Unhealthy)))
              && (res == Failure(FactoryException) <==> o.BeginCreate? && made.FactoryThrew?)
              && State() == (if o.BeginCreate? && GivesSlotBack(made) then CreateFailedRegion(s') else s')
      ensures State().InUse() == old(State()).InUse() + (if res.Success? || res == Failure(Exception) then 1 else 0)
    {
      AcquireWaitsOnlyWhenFull(State(), opts, now, health);
      AcquireAccounts(State(), opts, now, health);
      var o := AcquirePass(now, health);
      match o
      case WasClosed => return Failure(Closed);
      case MustWait => return Failure(TimedOut);
      case Reuse(r) => return Success(r);
      case CheckThrew(_) => return Failure(Exception);
      case BeginCreate =>
        match made
        case Made(r, Healthy) => return Success(r);
        case Made(_, Throws) => return Failure(Exception);
        case FactoryThrew =>
          var _ := CreateFailed();
          return Failure(FactoryException);
        case _ =>
          var _ := CreateFailed();
          return Failure(CreationFailed);
    }

    /** Gives a resource back. The check and the reset run before the lock is taken; a throwing check
        escapes before the region is entered. */
    method Release(resource: Option<Resource>, health: Health, resetThrows: bool, now: int) returns (notify: Notify)
      requires Valid()
      modifies this`available, this`totalAllocated
      ensures resource.None? || health.Throws? ==> State() == old(State()) && notify == NotifyNone
      ensures resource.Some? && !health.Throws? ==>
                && notify == NotifyOne
                && State() == ReleaseRegion(old(State()), opts, resource.value, health.Healthy? && !resetThrows, now)
      ensures old(closed) || old(State()).InUse() > 0 ==> Valid()
    {
      if resource.None? { return NotifyNone; }
      if health.Throws? { return NotifyNone; }
      var healthy := health.Healthy?;
      if healthy {
        if resetThrows { healthy := false; }
      }
      if closed || !healthy || totalAllocated > opts.maxSize {
        DecrementTotalAllocated();
      } else {
        available := available + [Entry(resource.value, now)];
      }
      notify := NotifyOne;
    }

    method Close() returns (notify: Notify)
      modifies this`available, this`totalAllocated, this`closed
      ensures State() == CloseRegion(old(State())) && notify == NotifyAll
    {
      closed := true;
      available := [];
      totalAllocated := 0;
      notify := NotifyAll;
    }
  }

  // ---------------------------------------------------------------- handles

  /** The pool after a handle that owned `owned` let go of it. */
  function GivenBack(
    s: PoolState, opts: Options, owned: Option<Resource>, health: Health, resetThrows: bool, now: int): PoolState
  {
    if owned.None? || health.Throws? then s
    else ReleaseRegion(s, opts, owned.value, health.Healthy? && !resetThrows, now)
  }

  /** Letting go of an owned resource uses one slot less, and a healthy one that resets becomes the youngest idle
      entry; letting go of nothing, or a throwing check, changes nothing. */
  lemma GivingBackFreesSlot(
    s: PoolState, opts: Options, owned: Option<Resource>, health: Health, resetThrows: bool, now: int)
    requires s.Valid(opts) && !s.closed && s.InUse() > 0
    ensures var s' := GivenBack(s, opts, owned, health, resetThrows, now);
            && (owned.None? || health.Throws? ==> s' == s)
            && (owned.Some? && !health.Throws? ==> s'.Valid(opts) && s'.InUse() == s.InUse() - 1)
            && (owned.Some? && health.Healthy? && !resetThrows ==> s'.idle == s.idle + [Entry(owned.value, now)])
            && (owned.Some? && (health.Unhealthy? || (health.Healthy? && resetThrows)) ==> s'.idle == s.idle)
  {
  }

  /** The scoped handle: owns at most one resource, and only with the pool to give it back to. */
  class ScopedResource {
    var pool: Pool?
    var resource: Option<Resource>

    ghost predicate Valid()
      reads this
    {
      pool == null ==> resource.None?
    }

    constructor ()
      ensures pool == null && resource.None?
    {
      pool, resource := null, None;
    }

    constructor Of(pool: Pool, resource: Resource)
      ensures this.pool == pool && this.resource == Some(resource)
    {
      this.pool, this.resource := pool, Some(resource);
    }

    /** Move construction: the new handle owns what the other one did, which now owns nothing. */
    constructor Move(other: ScopedResource)
      requires other.Valid()
      modifies other
      ensures Valid() && other.Valid()
      ensures pool == old(other.pool) && resource == old(other.resource)
      ensures other.pool == null && other.resource.None?
    {
      pool := other.pool;
      resource := other.resource;
      new;
      other.resource := None;
      other.pool := null;
    }

    /** Gives the resource back exactly once; a second reset does nothing. If the health check throws, the
        resource is gone but its slot was not given back, and the handle still names the pool. */
    method Reset(health: Health, resetThrows: bool, now: int) returns (threw: bool)
      requires Valid()
      requires pool != null ==> pool.Valid()
      modifies this, if pool == null then {} else {pool}
      ensures Valid() && resource.None?
      ensures threw <==> old(resource).Some? && health.Throws?
      ensures pool == if threw then old(pool) else null
      ensures old(pool) != null ==>
                old(pool).State() ==
                GivenBack(old(pool.State()), old(pool).opts, old(resource), health, resetThrows, now)
    {
      if pool != null && resource.Some? {
        var r := resource;
        resource := None;
        var _ := pool.Release(r, health, resetThrows, now);
        if health.Throws? { return true; }
      }
      pool := null;
      resource := None;
      return false;
    }

    /** Move assignment: first gives back what this handle owned, then takes over the other's; assigning
        a handle to itself changes nothing. It is noexcept: a health check that throws terminates the program,
        before anything was taken over. */
    method MoveAssign(other: ScopedResource, health: Health, resetThrows: bool, now: int) returns (terminated: bool)
      requires Valid() && other.Valid()
      requires pool != null ==> pool.Valid()
      modifies this, other, if pool == null || this == other then {} else {pool}
      ensures Valid() && other.Valid()
      ensures terminated <==> this != other && old(resource).Some? && health.Throws?
      ensures terminated ==>
                resource.None? && other.pool == old(other.pool) && other.resource == old(other.resource)
      ensures !terminated ==> pool == old(other.pool) && resource == old(other.resource)
      ensures !terminated && this != other ==> other.pool == null && other.resource.None?
      ensures old(pool) != null && this != other ==>
                old(pool).State() ==
                GivenBack(old(pool.State()), old(pool).opts, old(resource), health, resetThrows, now)
    {
      if this != other {
        terminated := Reset(health, resetThrows, now);
        if terminated { return true; }
        pool := other.pool;
        resource := other.resource;
        other.resource := None;
        other.pool := null;
      }
      return false;
    }
  }
}
