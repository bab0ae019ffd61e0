/**
 The memoised service registry of services/registry.

 A factory is the list of the services its arguments retrieve; calling it retrieves them, in an order the
 language leaves open, and then builds one new instance or throws. `rank` is a ghost witness that the
 registered factories form no cycle; on a cycle the source recurses without end.
 */
module Registry {
  import opened Wrappers

  type Type = nat
  type Instance = nat

  /** For each type with a factory, the types its factory retrieves, repetitions and all. */
  type Factories = map<Type, seq<Type>>

  datatype Error = NoFactory(of: Type) | FactoryThrew(of: Type) | Duplicate(of: Type)

  datatype State = State(factories: Factories, cache: map<Type, Instance>, instances: nat, calls: map<Type, nat>)

  predicate Acyclic(fs: Factories, rank: map<Type, nat>) {
    && fs.Keys <= rank.Keys
    && forall t, d :: t in fs && d in fs[t] && d in fs ==> rank[d] < rank[t]
  }

  function Height(fs: Factories, rank: map<Type, nat>, t: Type): nat
    requires Acyclic(fs, rank)
  {
    if t in fs then rank[t] + 1 else 0
  }

  // ---------------------------------------------------------------- what a retrieval has to build

  /** What a retrieval of t has to build: t and whatever it depends on, down to what is cached. */
  ghost function Needed(fs: Factories, cached: set<Type>, rank: map<Type, nat>, t: Type): set<Type>
    requires Acyclic(fs, rank)
    decreases Height(fs, rank, t)
  {
    if t in cached then {}
    else if t !in fs then {t}
    else {t} + set d, x | d in fs[t] && x in Needed(fs, cached, rank, d) :: x
  }

  /** What several retrievals have to build between them. */
  ghost function NeededByAll(fs: Factories, cached: set<Type>, rank: map<Type, nat>, ds: seq<Type>): set<Type>
    requires Acyclic(fs, rank)
  {
    set d, x | d in ds && x in Needed(fs, cached, rank, d) :: x
  }

  lemma {:induction false} NeededIsBelow(fs: Factories, cached: set<Type>, rank: map<Type, nat>, t: Type, x: Type)
    requires Acyclic(fs, rank) && x in Needed(fs, cached, rank, t)
    ensures x !in cached && Height(fs, rank, x) <= Height(fs, rank, t)
    decreases Height(fs, rank, t)
  {
    if x != t {
      var d :| d in fs[t] && x in Needed(fs, cached, rank, d);
      NeededIsBelow(fs, cached, rank, d, x);
    }
  }

  /** What a needed type needs is needed. */
  lemma {:induction false} NeededIsTransitive(fs: Factories, cached: set<Type>, rank: map<Type, nat>, t: Type, x: Type)
    requires Acyclic(fs, rank) && x in Needed(fs, cached, rank, t)
    ensures Needed(fs, cached, rank, x) <= Needed(fs, cached, rank, t)
    decreases Height(fs, rank, t)
  {
    if x != t {
      var d :| d in fs[t] && x in Needed(fs, cached, rank, d);
      NeededIsTransitive(fs, cached, rank, d, x);
    }
  }

  /** Having built all that one type needs changes what is still to build for another, never what is built in
      the end. */
  lemma {:induction false} NeededAfter(fs: Factories, c0: set<Type>, u: Type, rank: map<Type, nat>, t: Type)
    requires Acyclic(fs, rank)
    ensures var c := c0 + Needed(fs, c0, rank, u);
            Needed(fs, c, rank, t) == Needed(fs, c0, rank, t) - c
    decreases Height(fs, rank, t)
  {
    var c := c0 + Needed(fs, c0, rank, u);
    if t in c {
      if t !in c0 {
        NeededIsTransitive(fs, c0, rank, u, t);
      }
    } else if t in fs {
      forall d | d in fs[t] ensures Needed(fs, c, rank, d) == Needed(fs, c0, rank, d) - c {
        NeededAfter(fs, c0, u, rank, d);
      }
      forall x | x in Needed(fs, c, rank, t) ensures x in Needed(fs, c0, rank, t) - c {
        if x != t {
          var d :| d in fs[t] && x in Needed(fs, c, rank, d);
          assert x in Needed(fs, c0, rank, d);
        }
      }
      forall x | x in Needed(fs, c0, rank, t) - c ensures x in Needed(fs, c, rank, t) {
        if x != t {
          var d :| d in fs[t] && x in Needed(fs, c0, rank, d);
          assert x in Needed(fs, c, rank, d);
        }
      }
    }
  }

  lemma NeededByOneOrOthers(fs: Factories, c0: set<Type>, rank: map<Type, nat>, ds: seq<Type>, i: nat)
    requires Acyclic(fs, rank) && i < |ds|
    ensures NeededByAll(fs, c0, rank, ds) ==
            Needed(fs, c0, rank, ds[i]) + NeededByAll(fs, c0, rank, ds[..i] + ds[i + 1..])
  {
    var others := ds[..i] + ds[i + 1..];
    forall x | x in NeededByAll(fs, c0, rank, ds)
      ensures x in Needed(fs, c0, rank, ds[i]) || x in NeededByAll(fs, c0, rank, others)
    {
      var d :| d in ds && x in Needed(fs, c0, rank, d);
      assert d == ds[i] || d in others;
    }
  }

  lemma NeededByAllAfter(fs: Factories, c0: set<Type>, u: Type, rank: map<Type, nat>, ds: seq<Type>)
    requires Acyclic(fs, rank)
    ensures var c := c0 + Needed(fs, c0, rank, u);
            NeededByAll(fs, c, rank, ds) == NeededByAll(fs, c0, rank, ds) - c
  {
    var c := c0 + Needed(fs, c0, rank, u);
    forall x | x in NeededByAll(fs, c, rank, ds) ensures x in NeededByAll(fs, c0, rank, ds) - c {
      var d :| d in ds && x in Needed(fs, c, rank, d);
      NeededAfter(fs, c0, u, rank, d);
      assert x in Needed(fs, c0, rank, d);
    }
    forall x | x in NeededByAll(fs, c0, rank, ds) - c ensures x in NeededByAll(fs, c, rank, ds) {
      var d :| d in ds && x in Needed(fs, c0, rank, d);
      NeededAfter(fs, c0, u, rank, d);
      assert x in Needed(fs, c, rank, d);
    }
  }

  lemma NeededByAllAvoidsCache(fs: Factories, c0: set<Type>, rank: map<Type, nat>, ds: seq<Type>)
    requires Acyclic(fs, rank)
    ensures NeededByAll(fs, c0, rank, ds) !! c0
  {
    forall x | x in NeededByAll(fs, c0, rank, ds) ensures x !in c0 {
      var d :| d in ds && x in Needed(fs, c0, rank, d);
      NeededIsBelow(fs, c0, rank, d, x);
    }
  }

  /** Retrieving one of several first splits what they need: what it needs, and what the rest still need. */
  lemma SplitNeeds(fs: Factories, c0: set<Type>, rank: map<Type, nat>, ds: seq<Type>, i: nat)
    requires Acyclic(fs, rank) && i < |ds|
    ensures var first := Needed(fs, c0, rank, ds[i]);
            var rest := NeededByAll(fs, c0 + first, rank, ds[..i] + ds[i + 1..]);
            NeededByAll(fs, c0, rank, ds) == first + rest
  {
    NeededByOneOrOthers(fs, c0, rank, ds, i);
    NeededByAllAfter(fs, c0, ds[i], rank, ds[..i] + ds[i + 1..]);
    NeededByAllAvoidsCache(fs, c0, rank, ds[..i] + ds[i + 1..]);
  }

  lemma FactoryNeeds(fs: Factories, cached: set<Type>, rank: map<Type, nat>, t: Type)
    requires Acyclic(fs, rank) && t in fs && t !in cached
    ensures Needed(fs, cached, rank, t) == {t} + NeededByAll(fs, cached, rank, fs[t])
  {
  }

  lemma ArgumentsNeedNotThis(fs: Factories, cached: set<Type>, rank: map<Type, nat>, t: Type)
    requires Acyclic(fs, rank) && t in fs && t !in cached
    ensures t !in NeededByAll(fs, cached, rank, fs[t])
  {
    forall d | d in fs[t] ensures t !in Needed(fs, cached, rank, d) {
      if t in Needed(fs, cached, rank, d) {
        NeededIsBelow(fs, cached, rank, d, t);
      }
    }
  }

  lemma ArgumentsAreLower(fs: Factories, rank: map<Type, nat>, t: Type)
    requires Acyclic(fs, rank) && t in fs
    ensures forall d :: d in fs[t] ==> Height(fs, rank, d) < Height(fs, rank, t)
  {
  }

  // ---------------------------------------------------------------- what a retrieval promises

  /** No factory has completed more than once, and what one built is cached with all its dependencies. */
  ghost predicate Sound(s: State) {
    && (forall t :: t in s.calls ==>
          && s.calls[t] == 1
          && t in s.cache && t in s.factories
          && forall d :: d in s.factories[t] ==> d in s.cache)
    && (forall t :: t in s.cache ==> s.cache[t] < s.instances)
  }

  /** Later retrievals return the same instances; the factory calls in between are one for each new entry. */
  ghost predicate Extends(a: State, b: State) {
    && b.factories == a.factories && a.instances <= b.instances
    && a.cache.Keys <= b.cache.Keys
    && (forall t :: t in a.cache ==> b.cache[t] == a.cache[t])
    && b.calls.Keys == a.calls.Keys + (b.cache.Keys - a.cache.Keys)
  }

  lemma ExtendsTransitive(a: State, b: State, c: State)
    requires Extends(a, b) && Extends(b, c)
    ensures Extends(a, c)
  {
  }

  /** A needed type that cannot be built is what an error names. */
  ghost predicate AtFault(fs: Factories, throwing: set<Type>, needed: set<Type>, e: Error) {
    && e.of in needed
    && ((e.NoFactory? && e.of !in fs) || (e.FactoryThrew? && e.of in fs && e.of in throwing))
  }

  /** How a retrieval that needs to build `needed` ends: it succeeds exactly when all of it has factories that
      do not throw, and has then cached exactly that; otherwise it has cached nothing beyond it, and names one
      of the needed types that cannot be built. */
  ghost predicate Outcome<R>(
    fs: Factories, throwing: set<Type>, before: set<Type>, needed: set<Type>, after: set<Type>, res: Result<R, Error>)
  {
    && (res.Success? <==> needed <= fs.Keys - throwing)
    && (res.Success? ==> after == before + needed)
    && after <= before + needed
    && (res.Failure? ==> AtFault(fs, throwing, needed, res.error))
  }

  /** What every retrieval ensures of the registry's state. */
  ghost predicate Retrieved<R>(
    before: State, after: State, throwing: set<Type>, needed: set<Type>, res: Result<R, Error>)
  {
    && Sound(after) && Extends(before, after)
    && Outcome(before.factories, throwing, before.cache.Keys, needed, after.cache.Keys, res)
  }

  lemma OutcomeOfTwo(
    fs: Factories, throwing: set<Type>, c0: set<Type>, first: set<Type>, r: Instance,
    c1: set<Type>, rest: set<Type>, c2: set<Type>, res: Result<(), Error>)
    requires Outcome(fs, throwing, c0, first, c1, Success(r)) && Outcome(fs, throwing, c1, rest, c2, res)
    ensures Outcome(fs, throwing, c0, first + rest, c2, res)
  {
  }

  lemma OutcomeOfFactory(
    fs: Factories, throwing: set<Type>, c0: set<Type>, needed: set<Type>, t: Type, c1: set<Type>,
    args: Result<(), Error>, r: Instance)
    requires t in fs && Outcome(fs, throwing, c0, needed, c1, args)
    ensures args.Failure? ==> Outcome<Instance>(fs, throwing, c0, {t} + needed, c1, Failure(args.error))
    ensures args.Success? && t in throwing ==>
              Outcome<Instance>(fs, throwing, c0, {t} + needed, c1, Failure(FactoryThrew(t)))
    ensures args.Success? && t !in throwing ==>
              Outcome(fs, throwing, c0, {t} + needed, c1 + {t}, Success(r))
  {
  }

  /** A first dependency failed: so did retrieving them all. */
  lemma FirstFailed(
    s0: State, s1: State, rank: map<Type, nat>, throwing: set<Type>, ds: seq<Type>, i: nat, e: Error)
    requires Acyclic(s0.factories, rank) && i < |ds|
    requires Retrieved<Instance>(s0, s1, throwing, Needed(s0.factories, s0.cache.Keys, rank, ds[i]), Failure(e))
    ensures Retrieved<()>(s0, s1, throwing, NeededByAll(s0.factories, s0.cache.Keys, rank, ds), Failure(e))
  {
    NeededByOneOrOthers(s0.factories, s0.cache.Keys, rank, ds, i);
  }

  /** A first dependency was retrieved, and then the others. */
  lemma FirstThenOthers(
    s0: State, s1: State, s2: State, rank: map<Type, nat>, throwing: set<Type>, ds: seq<Type>, i: nat, r: Instance,
    res: Result<(), Error>)
    requires Acyclic(s0.factories, rank) && i < |ds|
    requires Retrieved(s0, s1, throwing, Needed(s0.factories, s0.cache.Keys, rank, ds[i]), Success(r))
    requires s1.factories == s0.factories
    requires Retrieved(s1, s2, throwing,
                       NeededByAll(s0.factories, s1.cache.Keys, rank, ds[..i] + ds[i + 1..]), res)
    ensures Retrieved(s0, s2, throwing, NeededByAll(s0.factories, s0.cache.Keys, rank, ds), res)
  {
    SplitNeeds(s0.factories, s0.cache.Keys, rank, ds, i);
    ExtendsTransitive(s0, s1, s2);
    OutcomeOfTwo(s0.factories, throwing, s0.cache.Keys, Needed(s0.factories, s0.cache.Keys, rank, ds[i]), r,
                 s1.cache.Keys, NeededByAll(s0.factories, s1.cache.Keys, rank, ds[..i] + ds[i + 1..]),
                 s2.cache.Keys, res);
  }

  /** Retrieving them all leaves each of them cached. */
  lemma AllCached(s0: State, s1: State, rank: map<Type, nat>, throwing: set<Type>, ds: seq<Type>)
    requires Acyclic(s0.factories, rank)
    requires Retrieved(s0, s1, throwing, NeededByAll(s0.factories, s0.cache.Keys, rank, ds), Success(()))
    ensures forall d :: d in ds ==> d in s1.cache
  {
    forall d | d in ds ensures d in s1.cache {
      if d !in s0.cache {
        assert d in Needed(s0.factories, s0.cache.Keys, rank, d);
      }
    }
  }

  /** Two retrievals of the same type from the same state, whatever orders they took: both succeed or both
      fail, and if they succeed they leave the same types cached and every service cached before unchanged. */
  lemma OrderDoesNotMatter(
    s0: State, a: State, b: State, throwing: set<Type>, needed: set<Type>, resA: Result<Instance, Error>,
    resB: Result<Instance, Error>)
    requires Retrieved(s0, a, throwing, needed, resA) && Retrieved(s0, b, throwing, needed, resB)
    ensures resA.Success? <==> resB.Success?
    ensures resA.Success? ==> a.cache.Keys == b.cache.Keys && a.calls == b.calls
    ensures forall t :: t in s0.cache ==> a.cache[t] == b.cache[t] == s0.cache[t]
  {
    if resA.Success? {
      forall t | t in a.calls ensures t in b.calls && a.calls[t] == b.calls[t] {
      }
    }
  }

  function Built(s: State, t: Type): State {
    State(s.factories, s.cache[t := s.instances], s.instances + 1,
          s.calls[t := if t in s.calls then s.calls[t] + 1 else 1])
  }

  /** The factory call after its arguments failed, or when it throws itself. */
  lemma FactoryFails(
    s0: State, s1: State, rank: map<Type, nat>, throwing: set<Type>, t: Type, args: Result<(), Error>)
    requires Acyclic(s0.factories, rank) && t in s0.factories && t !in s0.cache
    requires Retrieved(s0, s1, throwing, NeededByAll(s0.factories, s0.cache.Keys, rank, s0.factories[t]), args)
    requires args.Failure? || t in throwing
    ensures Retrieved<Instance>(s0, s1, throwing, Needed(s0.factories, s0.cache.Keys, rank, t),
                                Failure(if args.Failure? then args.error else FactoryThrew(t)))
  {
    FactoryNeeds(s0.factories, s0.cache.Keys, rank, t);
    OutcomeOfFactory(s0.factories, throwing, s0.cache.Keys,
                     NeededByAll(s0.factories, s0.cache.Keys, rank, s0.factories[t]), t, s1.cache.Keys, args, 0);
  }

  lemma BuildsSoundly(s0: State, s1: State, rank: map<Type, nat>, throwing: set<Type>, t: Type)
    requires Acyclic(s0.factories, rank) && t in s0.factories && t !in s0.cache
    requires Retrieved(s0, s1, throwing, NeededByAll(s0.factories, s0.cache.Keys, rank, s0.factories[t]), Success(()))
    ensures Sound(Built(s1, t)) && Extends(s0, Built(s1, t))
  {
    ArgumentsNeedNotThis(s0.factories, s0.cache.Keys, rank, t);
    AllCached(s0, s1, rank, throwing, s0.factories[t]);
    BuildingIsSound(s1, t);
    ExtendsTransitive(s0, s1, Built(s1, t));
  }

  /** The factory call that succeeds, leaving state s2. */
  lemma FactoryBuilds(
    s0: State, s1: State, s2: State, rank: map<Type, nat>, throwing: set<Type>, t: Type, made: Instance)
    requires Acyclic(s0.factories, rank) && t in s0.factories && t !in s0.cache && t !in throwing
    requires Outcome(s0.factories, throwing, s0.cache.Keys,
                     NeededByAll(s0.factories, s0.cache.Keys, rank, s0.factories[t]), s1.cache.Keys, Success(()))
    requires Sound(s2) && Extends(s0, s2) && s2.cache.Keys == s1.cache.Keys + {t}
    ensures Retrieved(s0, s2, throwing, Needed(s0.factories, s0.cache.Keys, rank, t), Success(made))
  {
    FactoryNeeds(s0.factories, s0.cache.Keys, rank, t);
    OutcomeOfFactory(s0.factories, throwing, s0.cache.Keys,
                     NeededByAll(s0.factories, s0.cache.Keys, rank, s0.factories[t]), t, s1.cache.Keys,
                     Success(()), made);
  }

  lemma FactorySucceeds(s0: State, s1: State, s2: State, rank: map<Type, nat>, throwing: set<Type>, t: Type)
    requires Acyclic(s0.factories, rank) && t in s0.factories && t !in s0.cache && t !in throwing
    requires Retrieved(s0, s1, throwing, NeededByAll(s0.factories, s0.cache.Keys, rank, s0.factories[t]), Success(()))
    requires s2 == Built(s1, t)
    ensures Retrieved(s0, s2, throwing, Needed(s0.factories, s0.cache.Keys, rank, t), Success(s1.instances))
  {
    BuildsSoundly(s0, s1, rank, throwing, t);
    assert s2.cache.Keys == s1.cache.Keys + {t};
    FactoryBuilds(s0, s1, s2, rank, throwing, t, s1.instances);
  }

  lemma BuildingIsSound(s: State, t: Type)
    requires Sound(s) && t in s.factories && t !in s.cache && forall d :: d in s.factories[t] ==> d in s.cache
    ensures Sound(Built(s, t)) && Extends(s, Built(s, t))
  {
  }

  class Registry {
    var factories: Factories
    var cache: map<Type, Instance>
    var instances: nat
    /** How often each factory has completed. */
    ghost var calls: map<Type, nat>

    ghost function View(): State
      reads this
    {
      State(factories, cache, instances, calls)
    }

    constructor ()
      ensures Sound(View()) && factories == map[] && cache == map[] && calls == map[]
    {
      factories, cache, instances, calls := map[], map[], 0, map[];
    }

    method StoreServiceFactory(t: Type, dependencies: seq<Type>) returns (res: Result<(), Error>)
      requires Sound(View())
      modifies this`factories
      ensures Sound(View())
      ensures t in old(factories) ==> res == Failure(Duplicate(t)) && factories == old(factories)
      ensures t !in old(factories) ==> res == Success(()) && factories == old(factories)[t := dependencies]
    {
      if t in factories { return Failure(Duplicate(t)); }
      factories := factories[t := dependencies];
      return Success(());
    }

    /** Injects an instance made elsewhere. */
    method StoreService(t: Type) returns (res: Result<(), Error>)
      requires Sound(View())
      modifies this`cache, this`instances
      ensures Sound(View())
      ensures t in old(cache) ==> res == Failure(Duplicate(t)) && cache == old(cache)
      ensures t !in old(cache) ==> res == Success(()) && cache == old(cache)[t := old(instances)]
    {
      if t in cache { return Failure(Duplicate(t)); }
      cache := cache[t := instances];
      instances := instances + 1;
      return Success(());
    }

    /** Retrieval. `throwing` are the types whose factory throws. Whatever the order in which dependencies are
        retrieved, it succeeds exactly when every type it needs has a factory that does not throw; it then has
        built exactly what was needed, and a failure names a needed type at fault. */
    method Retrieve(t: Type, throwing: set<Type>, ghost rank: map<Type, nat>) returns (res: Result<Instance, Error>)
      requires Sound(View()) && Acyclic(factories, rank)
      modifies this
      ensures Retrieved(old(View()), View(), throwing, Needed(old(factories), old(cache).Keys, rank, t), res)
      ensures res.Success? ==> t in cache && res.value == cache[t]
      decreases Height(factories, rank, t), 2, 0
    {
      if t in cache { return Success(cache[t]); }
      if t !in factories { return Failure(NoFactory(t)); }
      res := CallFactory(t, throwing, rank);
    }

    /** The registered closure: retrieves the arguments, then runs the factory and caches what it built. */
    method CallFactory(t: Type, throwing: set<Type>, ghost rank: map<Type, nat>) returns (res: Result<Instance, Error>)
      requires Sound(View()) && Acyclic(factories, rank) && t in factories && t !in cache
      modifies this
      ensures Retrieved(old(View()), View(), throwing, Needed(old(factories), old(cache).Keys, rank, t), res)
      ensures res.Success? ==> t in cache && res.value == cache[t]
      decreases Height(factories, rank, t), 1, 0
    {
      ghost var before := View();
      ArgumentsAreLower(factories, rank, t);
      var args := RetrieveAll(factories[t], throwing, rank, Height(factories, rank, t));
      if args.Failure? || t in throwing {
        FactoryFails(before, View(), rank, throwing, t, args);
        return Failure(if args.Failure? then args.error else FactoryThrew(t));
      }
      ghost var middle := View();
      var made := Build(t);
      FactorySucceeds(before, middle, View(), rank, throwing, t);
      return Success(made);
    }

    /** The factory's own work, its arguments being at hand. */
    method Build(t: Type) returns (made: Instance)
      modifies this`cache, this`instances, this`calls
      ensures View() == Built(old(View()), t) && made == old(instances)
    {
      made := instances;
      cache := cache[t := made];
      instances := instances + 1;
      calls := calls[t := if t in calls then calls[t] + 1 else 1];
    }

    /** The arguments of one factory call, in whatever order they come. */
    method RetrieveAll(ds: seq<Type>, throwing: set<Type>, ghost rank: map<Type, nat>, ghost bound: nat)
      returns (res: Result<(), Error>)
      requires Sound(View()) && Acyclic(factories, rank)
      requires forall d :: d in ds ==> Height(factories, rank, d) < bound
      modifies this
      ensures Retrieved(old(View()), View(), throwing, NeededByAll(old(factories), old(cache).Keys, rank, ds), res)
      decreases bound, 0, |ds|
    {
      if ds == [] { return Success(()); }
      ghost var before := View();
      var i: nat :| i < |ds|;
      var first := Retrieve(ds[i], throwing, rank);
      if first.Failure? {
        FirstFailed(before, View(), rank, throwing, ds, i, first.error);
        return Failure(first.error);
      }
      ghost var middle := View();
      res := RetrieveAll(ds[..i] + ds[i + 1..], throwing, rank, bound);
      FirstThenOthers(before, middle, View(), rank, throwing, ds, i, first.value, res);
    }
  }
}
