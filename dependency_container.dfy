/** The tree of scopes that resolves types into instances
    (src/dependency-container.ts). */
module Containers {
  import opened Wrappers
  import opened ObjectTypes
  import opened Descriptors
  import opened Errors
  import opened Collections

  /** The value `resolve` compares each requested type with before anything
      else: `DependencyContainer.constructor`, which for a class is the global
      `Function`. Asking for it yields the resolving container itself. Its
      `id` 0 is reserved for it: no other key carries that identity. */
  const FunctionConstructor: ObjectType := Object(0, "Function", Some("Function"))

  // ---------------------------------------------------------------------------
  // Object construction
  // ---------------------------------------------------------------------------

  /** What calling the constructor of a type does: it builds an object, it
      yields a falsy value, or it throws (for example when the type is not a
      function at all). */
  datatype Construction = Builds | YieldsNothing | Throws(message: string)

  /** One object built: its type and the arguments its constructor received. */
  datatype Record = Record(objectType: ObjectType, arguments: seq<Value>)

  /** The construction oracle. Object `Instance(i)` is the one recorded at
      position `i` of `log`, so each object built is distinct from every
      object built before it. */
  class Factory {
    const behaviour: ObjectType -> Construction
    var log: seq<Record>

    constructor (behaviour: ObjectType -> Construction)
      ensures this.behaviour == behaviour && log == []
    {
      this.behaviour := behaviour;
      log := [];
    }

    /** `new T(...arguments)`. */
    method Construct(objectType: ObjectType, arguments: seq<Value>) returns (r: Result<Option<Value>, Error>)
      modifies this
      ensures behaviour(objectType) == Builds ==>
                r == Success(Some(Instance(|old(log)|))) && log == old(log) + [Record(objectType, arguments)]
      ensures behaviour(objectType) == YieldsNothing ==> r == Success(None) && log == old(log)
      ensures behaviour(objectType).Throws? ==>
                r == Failure(Thrown(behaviour(objectType).message)) && log == old(log)
    {
      match behaviour(objectType)
      case Builds =>
        r := Success(Some(Instance(|log|)));
        log := log + [Record(objectType, arguments)];
      case YieldsNothing =>
        r := Success(None);
      case Throws(message) =>
        r := Failure(Thrown(message));
    }
  }

  /** `v` is an object built after the oracle had built `start` objects and
      before it had built `end`. */
  ghost predicate NewBetween(start: nat, end: nat, v: Value)
  {
    v.Instance? && start <= v.id < end
  }

  /** `v` is an object built for `t` after the oracle had built `start`
      objects, as `log` records it. */
  ghost predicate BuiltFor(log: seq<Record>, start: nat, t: ObjectType, v: Value)
  {
    v.Instance? && start <= v.id < |log| && log[v.id].objectType == t
  }

  // ---------------------------------------------------------------------------
  // Termination of resolution
  // ---------------------------------------------------------------------------

  /** Every registered dependency that resolution recurses into ranks below
      the type that depends on it. Resolution has no visited set, so on any
      cycle among registered types, self dependencies included, it would not
      terminate. */
  ghost predicate ResolutionRanked(types: Registry, rank: Rank)
  {
    forall k, d ::
      (k in types && k in rank && d in types[k].dependencies && d != FunctionConstructor && d in types)
      ==> d in rank && rank[d] < rank[k]
  }

  /** The requested type is ranked whenever resolution will look it up. */
  ghost predicate Covers(types: Registry, rank: Rank, k: ObjectType)
  {
    k != FunctionConstructor && k in types ==> k in rank
  }

  ghost function Height(types: Registry, rank: Rank, k: ObjectType): nat
  {
    if k != FunctionConstructor && k in types && k in rank then rank[k] + 1 else 0
  }
  /** Every dependency of a ranked type is covered, and lower. */
  lemma DependencyCovered(types: Registry, rank: Rank, k: ObjectType, d: ObjectType)
    requires ResolutionRanked(types, rank) && k != FunctionConstructor && k in types && k in rank
    requires d in types[k].dependencies
    ensures Covers(types, rank, d) && Height(types, rank, d) < Height(types, rank, k)
  {
  }


  // ---------------------------------------------------------------------------
  // When resolution succeeds, and when it cannot
  // ---------------------------------------------------------------------------

  /** Resolving `k` succeeds whatever is cached: every type reachable through
      dependencies is the sentinel, or is registered with a lifetime the node
      accepts and is built by its constructor. */
  ghost predicate Buildable(types: Registry, rank: Rank, inRoot: bool, behaviour: ObjectType -> Construction,
                            k: ObjectType)
    decreases Height(types, rank, k)
  {
    if k == FunctionConstructor then true
    else
      && k in types
      && behaviour(k) == Builds
      && (types[k].lifeTime == Transient || types[k].lifeTime == Singleton
          || (types[k].lifeTime == Scoped && !inRoot))
      && forall d :: d in types[k].dependencies ==>
           Height(types, rank, d) < Height(types, rank, k) && Buildable(types, rank, inRoot, behaviour, d)
  }

  /** Resolving `k` fails whatever is cached: `k` is not registered, has an
      unknown lifetime, is scoped and asked of the root, or is transient
      (never cached) and either its constructor does not build or one of its
      dependencies is doomed likewise. */
  ghost predicate Doomed(types: Registry, rank: Rank, inRoot: bool, behaviour: ObjectType -> Construction,
                         k: ObjectType)
    decreases Height(types, rank, k)
  {
    && k != FunctionConstructor
    && (|| k !in types
        || types[k].lifeTime.Unrecognized?
        || (types[k].lifeTime == Scoped && inRoot)
        || (&& types[k].lifeTime == Transient
            && (|| behaviour(k) != Builds
                || exists d :: && d in types[k].dependencies && Height(types, rank, d) < Height(types, rank, k)
                               && Doomed(types, rank, inRoot, behaviour, d))))
  }

  /** Resolving `k` from `s` has to build it, and building it fails: `k` is
      transient, or a singleton without an instance, or scoped in a child
      without an entry there, and either its constructor does not build or
      one of its dependencies is doomed. */
  ghost predicate MissFails(s: State, rank: Rank, inRoot: bool, behaviour: ObjectType -> Construction, k: ObjectType)
  {
    && k != FunctionConstructor && k in s.types && k in s.instances
    && (|| s.types[k].lifeTime == Transient
        || (s.types[k].lifeTime == Singleton && s.instances[k].None?)
        || (s.types[k].lifeTime == Scoped && !inRoot && k !in s.scoped))
    && (|| behaviour(k) != Builds
        || exists d :: d in s.types[k].dependencies && Doomed(s.types, rank, inRoot, behaviour, d))
  }

  /** No type is both: the two conditions under which the outcome of
      `resolve` is known in advance never overlap. */
  lemma {:induction false} BuildableExcludesDoomed(types: Registry, rank: Rank, inRoot: bool,
                                                   behaviour: ObjectType -> Construction, k: ObjectType)
    requires ResolutionRanked(types, rank) && Covers(types, rank, k)
    ensures !(Buildable(types, rank, inRoot, behaviour, k) && Doomed(types, rank, inRoot, behaviour, k))
    decreases Height(types, rank, k)
  {
    if k != FunctionConstructor && k in types && Buildable(types, rank, inRoot, behaviour, k) {
      forall d | d in types[k].dependencies
        ensures !Doomed(types, rank, inRoot, behaviour, d)
      {
        BuildableExcludesDoomed(types, rank, inRoot, behaviour, d);
      }
    }
  }

  // ---------------------------------------------------------------------------
  // The shape of a resolution failure
  // ---------------------------------------------------------------------------

  /** `e` is what resolving `k` throws: the wrapper naming `k` around either a
      root cause found at `k` or the failure of one of its dependencies. */
  ghost predicate FailureChain(types: Registry, behaviour: ObjectType -> Construction, k: ObjectType, inRoot: bool,
                               e: Error)
    decreases e, 0
  {
    && e.CouldNotInstantiate?
    && e.objectType == k
    && var c := e.inner;
       if c.NotRegistered? then c.objectType == k && k != FunctionConstructor && k !in types
       else if c.ScopedInGlobalContainer? then inRoot && k in types && types[k].lifeTime == Scoped
       else if c.LifeTimeNotRecognized? then k in types && types[k].lifeTime.Unrecognized?
       else
         && k != FunctionConstructor && k in types && !types[k].lifeTime.Unrecognized?
         && ConstructionFailure(types, behaviour, k, inRoot, c)
  }

  /** `e` is what building `k` throws: the failure of one of its dependencies,
      the error for a construction that yields nothing, or the exception
      the construction itself raised. */
  ghost predicate ConstructionFailure(types: Registry, behaviour: ObjectType -> Construction, k: ObjectType,
                                      inRoot: bool, e: Error)
    requires k in types
    decreases e, 1
  {
    if e.CouldNotInstantiate? then
      e.objectType in types[k].dependencies && FailureChain(types, behaviour, e.objectType, inRoot, e)
    else if e.UnableToInstantiate? then e.objectType == k && behaviour(k) == YieldsNothing
    else e.Thrown? && behaviour(k) == Throws(e.message)
  }

  /** The wrapper `resolve` puts around a construction failure of `k`. */
  lemma WrapConstructionFailure(types: Registry, behaviour: ObjectType -> Construction, k: ObjectType,
                                inRoot: bool, e: Error)
    requires k != FunctionConstructor && k in types && !types[k].lifeTime.Unrecognized?
    requires ConstructionFailure(types, behaviour, k, inRoot, e)
    ensures FailureChain(types, behaviour, k, inRoot, CouldNotInstantiate(k, e))
  {
  }

  /** The root cause `c` arose at the type `t`. */
  ghost predicate RootCause(types: Registry, behaviour: ObjectType -> Construction, t: ObjectType, inRoot: bool,
                            c: Error)
  {
    match c
    case NotRegistered(x) => x == t && t !in types
    case ScopedInGlobalContainer => inRoot && t in types && types[t].lifeTime == Scoped
    case LifeTimeNotRecognized => t in types && types[t].lifeTime.Unrecognized?
    case UnableToInstantiate(x) => x == t && t in types && behaviour(t) == YieldsNothing
    case Thrown(m) => t in types && behaviour(t) == Throws(m)
    case _ => false
  }

  /** The frames of a resolution failure follow a path of dependency edges
      from the requested type, and the root cause arose at the last of them.
      With `MessageIsFramesThenCause` the message thus names that path, one
      "Couldn't instantiate" prefix per type, outermost first. */
  lemma {:induction false} ChainIsDependencyPath(types: Registry, behaviour: ObjectType -> Construction,
                                                k: ObjectType, inRoot: bool, e: Error)
    requires FailureChain(types, behaviour, k, inRoot, e)
    ensures |Frames(e)| >= 1 && Frames(e)[0] == k
    ensures forall i :: 0 <= i < |Frames(e)| - 1 ==>
              Frames(e)[i] in types && Frames(e)[i + 1] in types[Frames(e)[i]].dependencies
    ensures RootCause(types, behaviour, Frames(e)[|Frames(e)| - 1], inRoot, Cause(e))
    decreases e
  {
    var inner := e.inner;
    if inner.CouldNotInstantiate? {
      var d := inner.objectType;
      assert ConstructionFailure(types, behaviour, k, inRoot, inner);
      assert d in types[k].dependencies && FailureChain(types, behaviour, d, inRoot, inner);
      ChainIsDependencyPath(types, behaviour, d, inRoot, inner);
      var fs := Frames(inner);
      assert Frames(e) == [k] + fs && Cause(e) == Cause(inner);
      forall i | 0 <= i < |Frames(e)| - 1
        ensures Frames(e)[i] in types && Frames(e)[i + 1] in types[Frames(e)[i]].dependencies
      {
        if i > 0 {
          assert Frames(e)[i] == fs[i - 1] && Frames(e)[i + 1] == fs[i];
        }
      }
    } else {
      assert Frames(e) == [k] && Cause(e) == inner;
      if !(inner.NotRegistered? || inner.ScopedInGlobalContainer? || inner.LifeTimeNotRecognized?) {
        assert ConstructionFailure(types, behaviour, k, inRoot, inner);
      }
    }
  }

  // ---------------------------------------------------------------------------
  // What a resolution denotes, on snapshots of the state
  // ---------------------------------------------------------------------------

  /** A snapshot of one node's state: the registry, the cached instance of
      each registered descriptor, the node's scoped map and the oracle's log. */
  datatype State = State(types: Registry, instances: map<ObjectType, Option<Value>>,
                         scoped: map<ObjectType, Value>, log: seq<Record>)

  /** What resolving `d` on the node `self` denotes in `s`: the node itself
      for the sentinel, the descriptor's instance for a singleton, the node's
      own entry for a scoped type, an object built for `d` for a transient. */
  ghost predicate Resolved(s: State, self: object, d: ObjectType, v: Value)
  {
    if d == FunctionConstructor then v == ContainerRef(self)
    else
      && d in s.types && d in s.instances
      && match s.types[d].lifeTime
         case Singleton => s.instances[d] == Some(v)
         case Scoped => d in s.scoped && s.scoped[d] == v
         case Transient => v.Instance? && v.id < |s.log| && s.log[v.id].objectType == d
         case Unrecognized(_) => false
  }

  /** `v` was built for `k` from arguments that are, in order, the
      resolutions of the dependencies of `k`. */
  ghost predicate BuiltFrom(s: State, self: object, k: ObjectType, v: Value)
    requires k in s.types
  {
    var deps := s.types[k].dependencies;
    && v.Instance? && v.id < |s.log|
    && s.log[v.id].objectType == k
    && |s.log[v.id].arguments| == |deps|
    && forall i :: 0 <= i < |deps| ==> Resolved(s, self, deps[i], s.log[v.id].arguments[i])
  }

  /** How a resolution may change the state: the registry stays; the log only
      grows; scoped entries and cached instances are never replaced or
      removed; every entry or instance that appears is an object built
      meanwhile for its own type; only scoped types get entries and only
      singleton types get instances. */
  ghost predicate Grows(s0: State, s1: State)
  {
    && s1.types == s0.types
    && s1.instances.Keys == s0.instances.Keys
    && s0.log <= s1.log
    && (forall k :: k in s0.scoped ==> k in s1.scoped && s1.scoped[k] == s0.scoped[k])
    && (forall k :: k in s1.scoped && k !in s0.scoped ==> BuiltFor(s1.log, |s0.log|, k, s1.scoped[k]))
    && (forall k :: k in s0.instances && s0.instances[k].Some? ==> s1.instances[k] == s0.instances[k])
    && (forall k :: k in s0.instances && s0.instances[k].None? && s1.instances[k].Some? ==>
          BuiltFor(s1.log, |s0.log|, k, s1.instances[k].value))
    && (forall t :: Added(s0, s1, t) ==> t in s0.types && s0.types[t].lifeTime == Scoped)
    && (forall t :: Replaced(s0, s1, t) ==> t in s0.types && s0.types[t].lifeTime == Singleton)
  }

  lemma GrowsTransitive(s0: State, s1: State, s2: State)
    requires Grows(s0, s1) && Grows(s1, s2)
    ensures Grows(s0, s2)
  {
  }

  /** A resolution stays valid across any change `Grows` allows. */
  lemma ResolvedKept(s0: State, s1: State, self: object, d: ObjectType, v: Value)
    requires Grows(s0, s1) && Resolved(s0, self, d, v)
    ensures Resolved(s1, self, d, v)
  {
  }

  /** What `resolve` does with `k`, case by case as its switch does, from
      the state `s0` before to `s1` after, on the node `self`, which is the
      root exactly when `inRoot`. */
  ghost predicate ResolveOutcome(s0: State, s1: State, self: object, inRoot: bool, k: ObjectType,
                                 r: Result<Value, Error>)
  {
    if k == FunctionConstructor then
      // the container itself, without consulting the collection
      r == Success(ContainerRef(self)) && s1 == s0
    else if k !in s0.types then
      r == Failure(CouldNotInstantiate(k, NotRegistered(k))) && s1 == s0
    else
      match s0.types[k].lifeTime
      case Singleton => SingletonOutcome(s0, s1, self, k, r)
      case Scoped => ScopedOutcome(s0, s1, self, inRoot, k, r)
      case Transient => TransientOutcome(s0, s1, self, k, r)
      case Unrecognized(_) => r == Failure(CouldNotInstantiate(k, LifeTimeNotRecognized)) && s1 == s0
  }

  /** A cached singleton instance is returned as it is; otherwise one is
      built for `k` and cached, and a failure to build it leaves the
      descriptor without one. */
  ghost predicate SingletonOutcome(s0: State, s1: State, self: object, k: ObjectType, r: Result<Value, Error>)
  {
    && k in s0.instances
    && if s0.instances[k].Some? then r == Success(s0.instances[k].value) && s1 == s0
       else
         && (r.Success? ==> NewObject(s0, s1, self, k, r.value))
         && (r.Failure? ==> !Touched(s0, s1, k))
  }

  /** A scoped type is refused in the root, and otherwise cached in the
      node's own map, built for `k` on first use; a failure to build it
      leaves the map without an entry for `k`. */
  ghost predicate ScopedOutcome(s0: State, s1: State, self: object, inRoot: bool, k: ObjectType,
                                r: Result<Value, Error>)
  {
    if inRoot then r == Failure(CouldNotInstantiate(k, ScopedInGlobalContainer)) && s1 == s0
    else if k in s0.scoped then r == Success(s0.scoped[k]) && s1 == s0
    else
      && (r.Success? ==> NewObject(s0, s1, self, k, r.value))
      && (r.Failure? ==> !Touched(s0, s1, k))
  }

  /** A transient resolution is always a new object built for `k`; a failed
      one has built nothing for `k`. */
  ghost predicate TransientOutcome(s0: State, s1: State, self: object, k: ObjectType, r: Result<Value, Error>)
  {
    && (r.Success? ==> NewObject(s0, s1, self, k, r.value))
    && (r.Failure? ==> !Touched(s0, s1, k))
  }

  /** `v` was built for `k` during the step from `s0` to `s1`, from the
      resolutions of the dependencies of `k`, and everything the step built
      is the construction of `v`. */
  ghost predicate NewObject(s0: State, s1: State, self: object, k: ObjectType, v: Value)
  {
    && NewBetween(|s0.log|, |s1.log|, v)
    && k in s1.types
    && BuiltFrom(s1, self, k, v)
    && Constructs(s1.types, s1.log, |s0.log|, k, v)
  }

  /** Resolving `d` builds a new object every time. */
  ghost predicate BuiltEachTime(types: Registry, d: ObjectType)
  {
    d != FunctionConstructor && d in types && types[d].lifeTime == Transient
  }

  /** Resolving `d` to `v` built exactly the objects `log` records from
      position `start` on: none when `v` was cached or is the container
      itself, and otherwise the construction of `v` for `d`. A transient `d`
      is constructed every time. */
  ghost predicate Window(types: Registry, log: seq<Record>, start: nat, d: ObjectType, v: Value)
    decreases |log|, 2
  {
    && start <= |log|
    && (|| (start == |log| && !BuiltEachTime(types, d))
        || Constructs(types, log, start, d, v))
  }

  /** The objects `log` records from `start` on are the construction of `v`
      for `d`: `v` is the last of them, and it was built from one argument
      per dependency of `d`, whose resolutions built the objects before it,
      each in its own window, in the order of the dependencies. */
  ghost predicate Constructs(types: Registry, log: seq<Record>, start: nat, d: ObjectType, v: Value)
    decreases |log|, 1
  {
    && start < |log| && v == Instance(|log| - 1)
    && Last(log).objectType == d && d in types
    && |Last(log).arguments| == |types[d].dependencies|
    && exists marks :: Windows(types, Front(log), start, types[d].dependencies, Last(log).arguments, marks)
  }

  ghost function Last(log: seq<Record>): Record
    requires |log| > 0
  {
    log[|log| - 1]
  }

  ghost function Front(log: seq<Record>): seq<Record>
    requires |log| > 0
  {
    log[..|log| - 1]
  }

  /** Resolving the first `|args|` of `deps` to `args`, one after the other,
      built what `log` records from `start` on: the `p`-th resolution built
      the objects from `marks[p]` to `marks[p + 1]`. */
  ghost predicate Windows(types: Registry, log: seq<Record>, start: nat, deps: seq<ObjectType>, args: seq<Value>,
                          marks: seq<nat>)
    decreases |log|, 4
  {
    && |args| <= |deps| && |marks| == |args| + 1
    && marks[0] == start && marks[|args|] == |log|
    && (forall i, j :: 0 <= i <= j < |marks| ==> marks[i] <= marks[j])
    && forall p: nat :: p < |args| ==> WindowAt(types, log, deps, args, marks, p)
  }

  /** The `p`-th resolution of a walk built exactly the objects `log`
      records from `marks[p]` to `marks[p + 1]`. */
  ghost predicate WindowAt(types: Registry, log: seq<Record>, deps: seq<ObjectType>, args: seq<Value>,
                           marks: seq<nat>, p: nat)
    requires p < |args| <= |deps| && |marks| == |args| + 1
    decreases |log|, 3
  {
    marks[p + 1] <= |log| && Window(types, log[..marks[p + 1]], marks[p], deps[p], args[p])
  }

  /** The arguments a construction received for its transient dependencies
      are objects it built, each after the ones before it: no two of them
      are the same object. */
  lemma ConstructedArguments(types: Registry, log: seq<Record>, start: nat, d: ObjectType, v: Value)
    requires Constructs(types, log, start, d, v)
    ensures forall p :: 0 <= p < |types[d].dependencies| && BuiltEachTime(types, types[d].dependencies[p]) ==>
              NewBetween(start, v.id, log[v.id].arguments[p])
    ensures forall i, j :: 0 <= i < j < |types[d].dependencies|
              && BuiltEachTime(types, types[d].dependencies[i]) && BuiltEachTime(types, types[d].dependencies[j])
              ==> log[v.id].arguments[i].Instance? && log[v.id].arguments[j].Instance?
                  && log[v.id].arguments[i].id < log[v.id].arguments[j].id
  {
    var deps, args := types[d].dependencies, Last(log).arguments;
    var marks :| Windows(types, Front(log), start, deps, args, marks);
    forall p | 0 <= p < |deps| && BuiltEachTime(types, deps[p])
      ensures args[p].Instance? && marks[p] <= args[p].id < marks[p + 1] && NewBetween(start, v.id, args[p])
    {
      assert marks[0] <= marks[p] && marks[p + 1] <= marks[|args|];
      assert WindowAt(types, Front(log), deps, args, marks, p);
      var window := Front(log)[..marks[p + 1]];
      assert Window(types, window, marks[p], deps[p], args[p]);
      assert Constructs(types, window, marks[p], deps[p], args[p]);
    }
    forall i, j | 0 <= i < j < |deps| && BuiltEachTime(types, deps[i]) && BuiltEachTime(types, deps[j])
      ensures args[i].id < args[j].id
    {
      assert marks[i + 1] <= marks[j];
    }
  }

  /** `t` is `k` or a type that resolving `k` recurses into, through
      dependency edges that each lead to a lower rank. */
  ghost predicate Reaches(types: Registry, rank: Rank, k: ObjectType, t: ObjectType)
    decreases Height(types, rank, k)
  {
    || t == k
    || (&& k != FunctionConstructor && k in types && k in rank
        && exists d :: d in types[k].dependencies && Height(types, rank, d) < Height(types, rank, k)
                       && Reaches(types, rank, d, t))
  }

  /** `t` got a scoped entry on the step from `s0` to `s1`. */
  ghost predicate Added(s0: State, s1: State, t: ObjectType)
  {
    t in s1.scoped && t !in s0.scoped
  }

  /** The descriptor instance of `t` changed on the step from `s0` to `s1`. */
  ghost predicate Replaced(s0: State, s1: State, t: ObjectType)
  {
    t in s0.instances && t in s1.instances && s1.instances[t] != s0.instances[t]
  }

  /** The step from `s0` to `s1` touched `t`: gave it a scoped entry or a
      descriptor instance, or built an object for it. */
  ghost predicate Touched(s0: State, s1: State, t: ObjectType)
  {
    || Added(s0, s1, t) || Replaced(s0, s1, t)
    || exists i :: |s0.log| <= i < |s1.log| && s1.log[i].objectType == t
  }

  /** Resolving `k` touches only types `k` reaches. */
  ghost predicate TouchesOnly(s0: State, s1: State, rank: Rank, k: ObjectType)
  {
    forall t :: Touched(s0, s1, t) ==> Reaches(s0.types, rank, k, t)
  }

  /** `t` is reached from one of the first `n` of `roots`. */
  ghost predicate ReachedFrom(types: Registry, rank: Rank, roots: seq<ObjectType>, n: nat, t: ObjectType)
  {
    exists j :: 0 <= j < n && j < |roots| && Reaches(types, rank, roots[j], t)
  }

  /** Resolving the first `n` of `roots` one after the other touches only
      types one of them reaches. */
  ghost predicate TouchesOnlyFrom(s0: State, s1: State, rank: Rank, roots: seq<ObjectType>, n: nat)
  {
    forall t :: Touched(s0, s1, t) ==> ReachedFrom(s0.types, rank, roots, n, t)
  }

  /** What two steps touched, one of them did. */
  lemma TouchedSplit(s0: State, s1: State, s2: State, t: ObjectType)
    requires Grows(s0, s1) && Grows(s1, s2) && Touched(s0, s2, t)
    ensures Touched(s0, s1, t) || Touched(s1, s2, t)
  {
    if !Added(s0, s2, t) && !Replaced(s0, s2, t) {
      var i :| |s0.log| <= i < |s2.log| && s2.log[i].objectType == t;
      if i < |s1.log| {
        assert s2.log[i] == s1.log[i];
      }
    }
  }

  /** Every type `a` reaches other than `a` itself is lower than `a`. */
  lemma {:induction false} ReachesBelow(types: Registry, rank: Rank, a: ObjectType, t: ObjectType)
    requires Reaches(types, rank, a, t)
    ensures t == a || Height(types, rank, t) < Height(types, rank, a)
    decreases Height(types, rank, a)
  {
    if t != a {
      var d :| d in types[a].dependencies && Height(types, rank, d) < Height(types, rank, a)
               && Reaches(types, rank, d, t);
      ReachesBelow(types, rank, d, t);
    }
  }

  /** Under the ranking no dependency of `k` leads back to `k`. */
  lemma NotReachedFromDependencies(types: Registry, rank: Rank, k: ObjectType, n: nat)
    requires ResolutionRanked(types, rank) && k != FunctionConstructor && k in types && k in rank
    ensures !ReachedFrom(types, rank, types[k].dependencies, n, k)
  {
    var deps := types[k].dependencies;
    forall j | 0 <= j < n && j < |deps|
      ensures !Reaches(types, rank, deps[j], k)
    {
      DependencyCovered(types, rank, k, deps[j]);
      if Reaches(types, rank, deps[j], k) {
        ReachesBelow(types, rank, deps[j], k);
      }
    }
  }

  /** Resolving some of the dependencies of `k` touches only what `k`
      reaches, and nothing of `k`'s own. */
  lemma TouchesBelow(s0: State, s1: State, rank: Rank, k: ObjectType, n: nat)
    requires ResolutionRanked(s0.types, rank) && k != FunctionConstructor && k in s0.types && k in rank
    requires TouchesOnlyFrom(s0, s1, rank, s0.types[k].dependencies, n)
    ensures TouchesOnly(s0, s1, rank, k) && !Touched(s0, s1, k)
  {
    var deps := s0.types[k].dependencies;
    NotReachedFromDependencies(s0.types, rank, k, n);
    forall t | ReachedFrom(s0.types, rank, deps, n, t)
      ensures Reaches(s0.types, rank, k, t)
    {
      var j :| 0 <= j < n && j < |deps| && Reaches(s0.types, rank, deps[j], t);
      DependencyCovered(s0.types, rank, k, deps[j]);
    }
  }

  /** What the walk over the first `m` roots touched, the walk over the first
      `n` may touch. */
  lemma WidenRoots(s0: State, s1: State, rank: Rank, roots: seq<ObjectType>, m: nat, n: nat)
    requires m <= n && TouchesOnlyFrom(s0, s1, rank, roots, m)
    ensures TouchesOnlyFrom(s0, s1, rank, roots, n)
  {
    forall t | ReachedFrom(s0.types, rank, roots, m, t)
      ensures ReachedFrom(s0.types, rank, roots, n, t)
    {
    }
  }

  /** Resolving one more root extends what the walk touches by what that root
      touched. */
  lemma TouchesOnlyFromSnoc(s0: State, s1: State, s2: State, rank: Rank, roots: seq<ObjectType>, n: nat)
    requires n < |roots| && Grows(s0, s1) && Grows(s1, s2)
    requires TouchesOnlyFrom(s0, s1, rank, roots, n) && TouchesOnly(s1, s2, rank, roots[n])
    ensures TouchesOnlyFrom(s0, s2, rank, roots, n + 1)
  {
    forall t | Touched(s0, s2, t)
      ensures ReachedFrom(s0.types, rank, roots, n + 1, t)
    {
      TouchedSplit(s0, s1, s2, t);
    }
  }

  /** Building one object for `k` from the resolved dependencies `args`
      makes it a new object for `k` and fills no cache. */
  lemma Constructed(s0: State, s1: State, s2: State, self: object, rank: Rank, k: ObjectType, args: seq<Value>,
                     marks: seq<nat>)
    requires k in s1.types && |args| == |s1.types[k].dependencies|
    requires ResolvedPrefix(s0, s1, self, s1.types[k].dependencies, args, marks)
    requires Grows(s0, s1) && TouchesOnly(s0, s1, rank, k)
    requires s2 == s1.(log := s1.log + [Record(k, args)])
    ensures NewObject(s0, s2, self, k, Instance(|s1.log|))
    ensures Grows(s0, s2) && TouchesOnly(s0, s2, rank, k)
  {
    var deps := s1.types[k].dependencies;
    assert Grows(s1, s2);
    forall j | 0 <= j < |deps|
      ensures Resolved(s2, self, deps[j], args[j])
    {
      ResolvedKept(s1, s2, self, deps[j], args[j]);
    }
    assert Front(s2.log) == s1.log;
    BuiltOneMore(s0, s1, s2, rank, k, args);
  }

  /** One more object built for `k` is one more for a type `k` reaches. */
  lemma BuiltOneMore(s0: State, s1: State, s2: State, rank: Rank, k: ObjectType, args: seq<Value>)
    requires Grows(s0, s1) && TouchesOnly(s0, s1, rank, k)
    requires s2 == s1.(log := s1.log + [Record(k, args)])
    ensures TouchesOnly(s0, s2, rank, k)
  {
    forall t | Touched(s0, s2, t)
      ensures Reaches(s0.types, rank, k, t)
    {
      assert Grows(s1, s2);
      TouchedSplit(s0, s1, s2, t);
      if !Touched(s0, s1, t) {
        var i :| |s1.log| <= i < |s2.log| && s2.log[i].objectType == t;
      }
    }
  }

  /** Caching the object built for `k` itself leaves the resolutions of its
      dependencies as they were, since under the ranking none of them is `k`. */
  lemma NewObjectKept(s0: State, s1: State, s2: State, self: object, rank: Rank, k: ObjectType, v: Value)
    requires ResolutionRanked(s1.types, rank) && k != FunctionConstructor && k in s1.types && k in rank
    requires NewObject(s0, s1, self, k, v)
    requires s2.types == s1.types && s2.log == s1.log
    requires forall t :: t != k && t in s1.instances ==> t in s2.instances && s2.instances[t] == s1.instances[t]
    requires forall t :: t != k && t in s1.scoped ==> t in s2.scoped && s2.scoped[t] == s1.scoped[t]
    ensures NewObject(s0, s2, self, k, v)
  {
    var deps := s1.types[k].dependencies;
    var args := s1.log[v.id].arguments;
    forall i | 0 <= i < |deps|
      ensures Resolved(s2, self, deps[i], args[i])
    {
      assert Resolved(s1, self, deps[i], args[i]);
      if deps[i] != FunctionConstructor {
        assert deps[i] in rank && rank[deps[i]] < rank[k];
      }
    }
  }

  // ---------------------------------------------------------------------------
  // The container
  // ---------------------------------------------------------------------------

  /** A node of the scope tree. Every node resolves against the same
      collection: the source reads one module-level collection, which the
      model passes to the root and hands down to every child. */
  class DependencyContainer {
    var scopedInstances: map<ObjectType, Value>
    const parent: DependencyContainer?
    const name: string
    const collection: DependencyCollection
    /** The number of ancestors, and the set of them. */
    ghost const depth: nat
    ghost const above: set<DependencyContainer>

    ghost predicate Valid()
      decreases depth
      ensures Valid() ==> forall c :: c in above ==> c.depth < depth
    {
      if parent == null then depth == 0 && above == {}
      else
        && depth == parent.depth + 1
        && above == {parent} + parent.above
        && collection == parent.collection
        && parent.Valid()
    }

    /** The global container: the one node without a parent. */
    constructor Root(name: string, collection: DependencyCollection)
      ensures Valid() && parent == null
      ensures this.name == name && this.collection == collection && scopedInstances == map[]
    {
      scopedInstances := map[];
      parent := null;
      this.name := name;
      this.collection := collection;
      depth := 0;
      above := {};
    }

    /** A child scope of `parent`, with an empty scoped map of its own. */
    constructor Child(parent: DependencyContainer, name: string)
      requires parent.Valid()
      ensures Valid() && this.parent == parent
      ensures this.name == name && collection == parent.collection && scopedInstances == map[]
    {
      scopedInstances := map[];
      this.parent := parent;
      this.name := name;
      collection := parent.collection;
      depth := parent.depth + 1;
      above := {parent} + parent.above;
    }

    method CreateScopedInjector(name: string) returns (child: DependencyContainer)
      requires Valid()
      ensures fresh(child) && child.Valid() && child.parent == this && child.name == name
      ensures child.collection == collection && child.scopedInstances == map[]
    {
      child := new DependencyContainer.Child(this, name);
    }

    /** The nearest scoped instance of `objectType`, walking up from this node
        to the root; `None` when no node on the way holds one. */
    function GetInstance(objectType: ObjectType): (r: Option<Value>)
      requires Valid()
      reads this, above
      decreases depth
      ensures objectType in scopedInstances ==> r == Some(scopedInstances[objectType])
      ensures r.None? <==>
                objectType !in scopedInstances && forall c :: c in above ==> objectType !in c.scopedInstances
      ensures r.Some? ==>
                exists c :: c in {this} + above && objectType in c.scopedInstances
                  && r.value == c.scopedInstances[objectType]
                  && forall c' :: c' in {this} + above && c'.depth > c.depth ==> objectType !in c'.scopedInstances
    {
      if objectType in scopedInstances then Some(scopedInstances[objectType])
      else if parent != null then parent.GetInstance(objectType)
      else None
    }

    /** The part of the state a resolution observes or changes. */
    ghost function Snapshot(factory: Factory): State
      reads this, collection, collection.types.Values, factory
    {
      State(collection.types, map k | k in collection.types :: collection.types[k].instance,
            scopedInstances, factory.log)
    }

    /** Resolves `objectType` on this node. `rank` bounds the recursion. */
    method Resolve(objectType: ObjectType, factory: Factory, ghost rank: Rank) returns (r: Result<Value, Error>)
      requires Valid() && Unshared(collection.types)
      requires ResolutionRanked(collection.types, rank) && Covers(collection.types, rank, objectType)
      modifies this, factory, collection.types.Values
      decreases Height(collection.types, rank, objectType), 5
      ensures unchanged(above)
      ensures r.Success? ==> Resolved(Snapshot(factory), this, objectType, r.value)
      ensures r.Failure? ==> FailureChain(collection.types, factory.behaviour, objectType, parent == null, r.error)
      ensures ResolveOutcome(old(Snapshot(factory)), Snapshot(factory), this, parent == null, objectType, r)
      ensures Buildable(collection.types, rank, parent == null, factory.behaviour, objectType) ==> r.Success?
      ensures Doomed(collection.types, rank, parent == null, factory.behaviour, objectType) ==> r.Failure?
      ensures MissFails(old(Snapshot(factory)), rank, parent == null, factory.behaviour, objectType) ==> r.Failure?
      ensures r.Success? ==> Window(collection.types, factory.log, old(|factory.log|), objectType, r.value)
      ensures Grows(old(Snapshot(factory)), Snapshot(factory))
      ensures TouchesOnly(old(Snapshot(factory)), Snapshot(factory), rank, objectType)
    {
      if objectType == FunctionConstructor {
        return Success(ContainerRef(this));
      }
      var found := collection.Get(objectType);
      if found.Failure? {
        return Failure(CouldNotInstantiate(objectType, found.error));
      }
      r := ResolveRegistered(objectType, found.value, factory, rank);
    }

    /** The `switch` of `Resolve` on the lifetime of a registered type's
        descriptor. */
    method ResolveRegistered(objectType: ObjectType, descriptor: DependencyDescriptor, factory: Factory,
                             ghost rank: Rank) returns (r: Result<Value, Error>)
      requires Valid() && Unshared(collection.types)
      requires ResolutionRanked(collection.types, rank) && Covers(collection.types, rank, objectType)
      requires objectType != FunctionConstructor && objectType in collection.types
      requires descriptor == collection.types[objectType]
      modifies this, factory, collection.types.Values
      decreases Height(collection.types, rank, objectType), 4
      ensures unchanged(above)
      ensures r.Success? ==> Resolved(Snapshot(factory), this, objectType, r.value)
      ensures r.Failure? ==> FailureChain(collection.types, factory.behaviour, objectType, parent == null, r.error)
      ensures ResolveOutcome(old(Snapshot(factory)), Snapshot(factory), this, parent == null, objectType, r)
      ensures Buildable(collection.types, rank, parent == null, factory.behaviour, objectType) ==> r.Success?
      ensures Doomed(collection.types, rank, parent == null, factory.behaviour, objectType) ==> r.Failure?
      ensures MissFails(old(Snapshot(factory)), rank, parent == null, factory.behaviour, objectType) ==> r.Failure?
      ensures r.Success? ==> Window(collection.types, factory.log, old(|factory.log|), objectType, r.value)
      ensures Grows(old(Snapshot(factory)), Snapshot(factory))
      ensures TouchesOnly(old(Snapshot(factory)), Snapshot(factory), rank, objectType)
    {
      match descriptor.lifeTime {
        case Singleton =>
          r := ResolveSingleton(objectType, descriptor, factory, rank);
        case Scoped =>
          r := ResolveScoped(objectType, descriptor, factory, rank);
        case Transient =>
          r := ResolveTransient(objectType, descriptor, factory, rank);
        case Unrecognized(_) =>
          r := Failure(CouldNotInstantiate(objectType, LifeTimeNotRecognized));
      }
    }

    /** The singleton branch of `Resolve`: the descriptor's instance, built
        and cached on first use. */
    method ResolveSingleton(objectType: ObjectType, descriptor: DependencyDescriptor, factory: Factory,
                            ghost rank: Rank) returns (r: Result<Value, Error>)
      requires Valid() && Unshared(collection.types) && ResolutionRanked(collection.types, rank)
      requires objectType != FunctionConstructor && objectType in collection.types && objectType in rank
      requires descriptor == collection.types[objectType] && descriptor.lifeTime == Singleton
      modifies this, factory, collection.types.Values
      decreases Height(collection.types, rank, objectType), 3
      ensures r.Success? ==> Resolved(Snapshot(factory), this, objectType, r.value)
      ensures r.Failure? ==> FailureChain(collection.types, factory.behaviour, objectType, parent == null, r.error)
      ensures SingletonOutcome(old(Snapshot(factory)), Snapshot(factory), this, objectType, r)
      ensures Buildable(collection.types, rank, parent == null, factory.behaviour, objectType) ==> r.Success?
      ensures Doomed(collection.types, rank, parent == null, factory.behaviour, objectType) ==> r.Failure?
      ensures MissFails(old(Snapshot(factory)), rank, parent == null, factory.behaviour, objectType) ==> r.Failure?
      ensures r.Success? ==> Window(collection.types, factory.log, old(|factory.log|), objectType, r.value)
      ensures Grows(old(Snapshot(factory)), Snapshot(factory))
      ensures TouchesOnly(old(Snapshot(factory)), Snapshot(factory), rank, objectType)
    {
      if descriptor.instance.Some? {
        return Success(descriptor.instance.value);
      }
      ghost var s0 := Snapshot(factory);
      var created, _ := CreateInstance(objectType, descriptor, factory, rank);
      if created.Failure? {
        WrapConstructionFailure(collection.types, factory.behaviour, objectType, parent == null, created.error);
        return Failure(CouldNotInstantiate(objectType, created.error));
      }
      ghost var s1 := Snapshot(factory);
      StoreInstance(objectType, descriptor, created.value, factory);
      CacheSingleton(s0, s1, Snapshot(factory), this, rank, objectType, created.value);
      r := created;
    }

    /** `descriptor.instance = instance`: the object built for the singleton
        `objectType` becomes its descriptor's instance, and no other
        descriptor's changes. */
    method StoreInstance(objectType: ObjectType, descriptor: DependencyDescriptor, v: Value, factory: Factory)
      requires Unshared(collection.types) && objectType in collection.types
      requires descriptor == collection.types[objectType]
      modifies descriptor
      ensures Snapshot(factory) == old(Snapshot(factory)).(instances := old(Snapshot(factory)).instances[objectType := Some(v)])
    {
      descriptor.instance := Some(v);
    }

    /** The scoped branch of `Resolve`: refused in the root container,
        otherwise this node's own entry, built and cached on first use. */
    method ResolveScoped(objectType: ObjectType, descriptor: DependencyDescriptor, factory: Factory,
                         ghost rank: Rank) returns (r: Result<Value, Error>)
      requires Valid() && Unshared(collection.types) && ResolutionRanked(collection.types, rank)
      requires objectType != FunctionConstructor && objectType in collection.types && objectType in rank
      requires descriptor == collection.types[objectType] && descriptor.lifeTime == Scoped
      modifies this, factory, collection.types.Values
      decreases Height(collection.types, rank, objectType), 3
      ensures r.Success? ==> Resolved(Snapshot(factory), this, objectType, r.value)
      ensures r.Failure? ==> FailureChain(collection.types, factory.behaviour, objectType, parent == null, r.error)
      ensures ScopedOutcome(old(Snapshot(factory)), Snapshot(factory), this, parent == null, objectType, r)
      ensures Buildable(collection.types, rank, parent == null, factory.behaviour, objectType) ==> r.Success?
      ensures Doomed(collection.types, rank, parent == null, factory.behaviour, objectType) ==> r.Failure?
      ensures MissFails(old(Snapshot(factory)), rank, parent == null, factory.behaviour, objectType) ==> r.Failure?
      ensures r.Success? ==> Window(collection.types, factory.log, old(|factory.log|), objectType, r.value)
      ensures Grows(old(Snapshot(factory)), Snapshot(factory))
      ensures TouchesOnly(old(Snapshot(factory)), Snapshot(factory), rank, objectType)
    {
      if parent == null {
        return Failure(CouldNotInstantiate(objectType, ScopedInGlobalContainer));
      }
      if objectType in scopedInstances {
        return Success(scopedInstances[objectType]);
      }
      ghost var s0 := Snapshot(factory);
      var created, _ := CreateInstance(objectType, descriptor, factory, rank);
      if created.Failure? {
        WrapConstructionFailure(collection.types, factory.behaviour, objectType, parent == null, created.error);
        return Failure(CouldNotInstantiate(objectType, created.error));
      }
      ghost var s1 := Snapshot(factory);
      StoreScoped(objectType, created.value, factory);
      CacheScoped(s0, s1, Snapshot(factory), this, rank, objectType, created.value);
      r := created;
    }

    /** `this.scopedInstances.set(objectType, instance)`: the object built for
        the scoped `objectType` becomes this node's entry for it. */
    method StoreScoped(objectType: ObjectType, v: Value, factory: Factory)
      modifies this
      ensures Snapshot(factory) == old(Snapshot(factory)).(scoped := old(scopedInstances)[objectType := v])
    {
      scopedInstances := scopedInstances[objectType := v];
    }

    /** The transient branch of `Resolve`: a new object every time. */
    method ResolveTransient(objectType: ObjectType, descriptor: DependencyDescriptor, factory: Factory,
                            ghost rank: Rank) returns (r: Result<Value, Error>)
      requires Valid() && Unshared(collection.types) && ResolutionRanked(collection.types, rank)
      requires objectType != FunctionConstructor && objectType in collection.types && objectType in rank
      requires descriptor == collection.types[objectType] && descriptor.lifeTime == Transient
      modifies this, factory, collection.types.Values
      decreases Height(collection.types, rank, objectType), 3
      ensures r.Success? ==> Resolved(Snapshot(factory), this, objectType, r.value)
      ensures r.Failure? ==> FailureChain(collection.types, factory.behaviour, objectType, parent == null, r.error)
      ensures TransientOutcome(old(Snapshot(factory)), Snapshot(factory), this, objectType, r)
      ensures Buildable(collection.types, rank, parent == null, factory.behaviour, objectType) ==> r.Success?
      ensures Doomed(collection.types, rank, parent == null, factory.behaviour, objectType) ==> r.Failure?
      ensures MissFails(old(Snapshot(factory)), rank, parent == null, factory.behaviour, objectType) ==> r.Failure?
      ensures r.Success? ==> Window(collection.types, factory.log, old(|factory.log|), objectType, r.value)
      ensures Grows(old(Snapshot(factory)), Snapshot(factory))
      ensures TouchesOnly(old(Snapshot(factory)), Snapshot(factory), rank, objectType)
    {
      ghost var prefix;
      r, prefix := CreateInstance(objectType, descriptor, factory, rank);
      if r.Failure? {
        WrapConstructionFailure(collection.types, factory.behaviour, objectType, parent == null, r.error);
        r := Failure(CouldNotInstantiate(objectType, r.error));
      }
    }

    /** Resolves the dependencies of `objectType` on this node, then
        constructs it from them; a falsy result is an error. When a dependency
        fails, `prefix` holds the resolutions of the dependencies before it. */
    method CreateInstance(objectType: ObjectType, descriptor: DependencyDescriptor, factory: Factory, ghost rank: Rank)
      returns (r: Result<Value, Error>, ghost prefix: seq<Value>)
      requires Valid() && Unshared(collection.types) && ResolutionRanked(collection.types, rank)
      requires objectType != FunctionConstructor && objectType in collection.types && objectType in rank
      requires descriptor == collection.types[objectType]
      modifies this, factory, collection.types.Values
      decreases Height(collection.types, rank, objectType), 2
      ensures r.Success? ==> NewObject(old(Snapshot(factory)), Snapshot(factory), this, objectType, r.value)
      ensures r.Failure? ==> ConstructionFailure(collection.types, factory.behaviour, objectType, parent == null, r.error)
      ensures r.Failure? ==>
                && !Touched(old(Snapshot(factory)), Snapshot(factory), objectType)
                && TouchesOnlyFrom(old(Snapshot(factory)), Snapshot(factory), rank, descriptor.dependencies,
                                   |descriptor.dependencies|)
      ensures r.Failure? && r.error.CouldNotInstantiate? ==>
                && FirstFailure(Snapshot(factory), this, descriptor.dependencies, prefix, r.error)
                && TouchesOnlyFrom(old(Snapshot(factory)), Snapshot(factory), rank, descriptor.dependencies,
                                   |prefix| + 1)
      ensures (&& factory.behaviour(objectType) == Builds
               && forall d :: d in descriptor.dependencies ==>
                    Buildable(collection.types, rank, parent == null, factory.behaviour, d)) ==> r.Success?
      ensures (|| factory.behaviour(objectType) != Builds
               || exists d :: d in descriptor.dependencies &&
                    Doomed(collection.types, rank, parent == null, factory.behaviour, d)) ==> r.Failure?
      ensures Grows(old(Snapshot(factory)), Snapshot(factory))
      ensures TouchesOnly(old(Snapshot(factory)), Snapshot(factory), rank, objectType)
    {
      ghost var s0 := Snapshot(factory);
      var arguments;
      ghost var marks;
      arguments, prefix, marks := ResolveDependencies(objectType, descriptor.dependencies, factory, rank);
      if arguments.Failure? {
        WidenRoots(s0, Snapshot(factory), rank, descriptor.dependencies, |prefix| + 1, |descriptor.dependencies|);
        TouchesBelow(s0, Snapshot(factory), rank, objectType, |descriptor.dependencies|);
        return Failure(arguments.error), prefix;
      }
      ghost var before := Snapshot(factory);
      TouchesBelow(s0, before, rank, objectType, |descriptor.dependencies|);
      r := Instantiate(objectType, arguments.value, factory);
      if r.Success? {
        Constructed(s0, before, Snapshot(factory), this, rank, objectType, arguments.value, marks);
      }
    }

    /** `new objectType(...arguments)`, refused when it yields no object. */
    method Instantiate(objectType: ObjectType, arguments: seq<Value>, factory: Factory) returns (r: Result<Value, Error>)
      requires objectType in collection.types
      modifies factory
      ensures r.Success? <==> factory.behaviour(objectType) == Builds
      ensures r.Success? ==>
                && r.value == Instance(old(|factory.log|))
                && Snapshot(factory) == old(Snapshot(factory)).(log := old(factory.log) + [Record(objectType, arguments)])
      ensures r.Failure? ==>
                && ConstructionFailure(collection.types, factory.behaviour, objectType, parent == null, r.error)
                && !r.error.CouldNotInstantiate?
                && Snapshot(factory) == old(Snapshot(factory))
    {
      var constructed := factory.Construct(objectType, arguments);
      if constructed.Failure? {
        r := Failure(constructed.error);
      } else if constructed.value.None? {
        r := Failure(UnableToInstantiate(objectType));
      } else {
        r := Success(constructed.value.value);
      }
    }

    /** The callback `x => this.resolve(x)` the dependency list `deps` of
        `objectType` is mapped with, applied to the dependency after `args`,
        the resolutions so far of a walk that started in the state `s0`, each
        of which built the objects between two consecutive `marks`. */
    method ResolveArgument(objectType: ObjectType, deps: seq<ObjectType>, ghost s0: State, args: seq<Value>,
                           ghost marks: seq<nat>, factory: Factory, ghost rank: Rank)
      returns (r: Result<Value, Error>)
      requires Valid() && Unshared(collection.types) && ResolutionRanked(collection.types, rank)
      requires objectType != FunctionConstructor && objectType in collection.types && objectType in rank
      requires deps == collection.types[objectType].dependencies && |args| < |deps|
      requires ResolvedPrefix(s0, Snapshot(factory), this, deps, args, marks)
      requires Grows(s0, Snapshot(factory)) && TouchesOnlyFrom(s0, Snapshot(factory), rank, deps, |args|)
      modifies this, factory, collection.types.Values
      decreases Height(collection.types, rank, objectType), 0
      ensures r.Success? ==> Window(collection.types, factory.log, old(|factory.log|), deps[|args|], r.value)
      ensures r.Success? ==> ResolvedPrefix(s0, Snapshot(factory), this, deps, args + [r.value], marks + [|factory.log|])
      ensures r.Failure? ==>
                && FirstFailure(Snapshot(factory), this, deps, args, r.error)
                && FailureChain(collection.types, factory.behaviour, deps[|args|], parent == null, r.error)
      ensures Buildable(collection.types, rank, parent == null, factory.behaviour, deps[|args|]) ==> r.Success?
      ensures Doomed(collection.types, rank, parent == null, factory.behaviour, deps[|args|]) ==> r.Failure?
      ensures Grows(s0, Snapshot(factory)) && TouchesOnlyFrom(s0, Snapshot(factory), rank, deps, |args| + 1)
    {
      ghost var s1 := Snapshot(factory);
      var d := deps[|args|];
      assert d in deps;
      DependencyCovered(collection.types, rank, objectType, d);
      r := Resolve(d, factory, rank);
      WalkStep(s0, s1, Snapshot(factory), this, rank, deps, args, marks, r);
    }

    /** Resolves `deps`, the dependencies of `objectType`, left to right on
        this node, as the `map` over them does; the first failure ends the
        walk, and `prefix` then holds the resolutions before it. On success the
        `p`-th resolution built the objects from `marks[p]` to `marks[p + 1]`. */
    method ResolveDependencies(objectType: ObjectType, deps: seq<ObjectType>, factory: Factory, ghost rank: Rank)
      returns (r: Result<seq<Value>, Error>, ghost prefix: seq<Value>, ghost marks: seq<nat>)
      requires Valid() && Unshared(collection.types) && ResolutionRanked(collection.types, rank)
      requires objectType != FunctionConstructor && objectType in collection.types && objectType in rank
      requires deps == collection.types[objectType].dependencies
      modifies this, factory, collection.types.Values
      decreases Height(collection.types, rank, objectType), 1
      ensures r.Success? ==>
                && |r.value| == |deps|
                && ResolvedPrefix(old(Snapshot(factory)), Snapshot(factory), this, deps, r.value, marks)
                && TouchesOnlyFrom(old(Snapshot(factory)), Snapshot(factory), rank, deps, |deps|)
      ensures r.Failure? ==>
                && FirstFailure(Snapshot(factory), this, deps, prefix, r.error)
                && FailureChain(collection.types, factory.behaviour, r.error.objectType, parent == null, r.error)
                && TouchesOnlyFrom(old(Snapshot(factory)), Snapshot(factory), rank, deps, |prefix| + 1)
      ensures (forall d :: d in deps ==> Buildable(collection.types, rank, parent == null, factory.behaviour, d)) ==>
                r.Success?
      ensures (exists d :: d in deps && Doomed(collection.types, rank, parent == null, factory.behaviour, d)) ==>
                r.Failure?
      ensures Grows(old(Snapshot(factory)), Snapshot(factory))
    {
      ghost var s0 := Snapshot(factory);
      ghost var types, inRoot, behaviour := collection.types, parent == null, factory.behaviour;
      var arguments: seq<Value> := [];
      marks := [|factory.log|];
      while |arguments| < |deps|
        invariant collection.types == types && |arguments| <= |deps|
        invariant ResolvedPrefix(s0, Snapshot(factory), this, deps, arguments, marks)
        invariant NoneDoomed(types, rank, inRoot, behaviour, deps, |arguments|)
        invariant Grows(s0, Snapshot(factory)) && TouchesOnlyFrom(s0, Snapshot(factory), rank, deps, |arguments|)
        decreases |deps| - |arguments|
      {
        assert deps[|arguments|] in deps;
        var resolved := ResolveArgument(objectType, deps, s0, arguments, marks, factory, rank);
        if resolved.Failure? {
          return Failure(resolved.error), arguments, marks;
        }
        NotDoomedSnoc(types, rank, inRoot, behaviour, deps, |arguments|);
        arguments, marks := arguments + [resolved.value], marks + [|factory.log|];
      }
      forall d | d in deps
        ensures !Doomed(types, rank, inRoot, behaviour, d)
      {
        var j :| 0 <= j < |deps| && deps[j] == d;
      }
      r, prefix := Success(arguments), arguments;
    }
  }

  /** None of the first `n` dependencies is doomed. */
  ghost predicate NoneDoomed(types: Registry, rank: Rank, inRoot: bool, behaviour: ObjectType -> Construction,
                             deps: seq<ObjectType>, n: nat)
  {
    forall j :: 0 <= j < n && j < |deps| ==> !Doomed(types, rank, inRoot, behaviour, deps[j])
  }

  lemma NotDoomedSnoc(types: Registry, rank: Rank, inRoot: bool, behaviour: ObjectType -> Construction,
                      deps: seq<ObjectType>, n: nat)
    requires n < |deps| && NoneDoomed(types, rank, inRoot, behaviour, deps, n)
    requires !Doomed(types, rank, inRoot, behaviour, deps[n])
    ensures NoneDoomed(types, rank, inRoot, behaviour, deps, n + 1)
  {
  }

  /** The first `|args|` dependencies resolved to `args` in `s1`, and
      between `s0` and `s1` each of those resolutions built exactly the
      objects from `marks[p]` to `marks[p + 1]`. */
  ghost predicate ResolvedPrefix(s0: State, s1: State, self: object, deps: seq<ObjectType>, args: seq<Value>,
                                 marks: seq<nat>)
  {
    && |args| <= |deps|
    && (forall j :: 0 <= j < |args| ==> Resolved(s1, self, deps[j], args[j]))
    && Windows(s1.types, s1.log, |s0.log|, deps, args, marks)
  }

  /** A resolution failed at the dependency `deps[|prefix|]`, after the ones
      before it had resolved to `prefix`. */
  ghost predicate FirstFailure(s: State, self: object, deps: seq<ObjectType>, prefix: seq<Value>, e: Error)
  {
    && |prefix| < |deps|
    && (forall j :: 0 <= j < |prefix| ==> Resolved(s, self, deps[j], prefix[j]))
    && e.CouldNotInstantiate? && e.objectType == deps[|prefix|]
  }

  /** One more dependency resolved to `v` extends the resolved prefix. */
  lemma PrefixSnoc(s0: State, s1: State, s2: State, self: object, deps: seq<ObjectType>, args: seq<Value>,
                    marks: seq<nat>, v: Value)
    requires |args| < |deps|
    requires ResolvedPrefix(s0, s1, self, deps, args, marks) && Grows(s1, s2)
    requires Resolved(s2, self, deps[|args|], v) && Window(s1.types, s2.log, |s1.log|, deps[|args|], v)
    ensures ResolvedPrefix(s0, s2, self, deps, args + [v], marks + [|s2.log|])
  {
    forall j | 0 <= j < |args|
      ensures Resolved(s2, self, deps[j], args[j])
    {
      ResolvedKept(s1, s2, self, deps[j], args[j]);
    }
    var args', marks' := args + [v], marks + [|s2.log|];
    forall p: nat | p < |args'|
      ensures WindowAt(s2.types, s2.log, deps, args', marks', p)
    {
      if p < |args| {
        assert WindowAt(s1.types, s1.log, deps, args, marks, p);
        assert s2.log[..marks[p + 1]] == s1.log[..marks[p + 1]];
      } else {
        assert s2.log[..|s2.log|] == s2.log;
      }
    }
  }

  /** One step of the walk over `deps`: the next dependency resolved from
      `s1` to `s2` with the outcome `r` extends the resolved prefix `args`
      on success and ends the walk on failure; either way the walk has now
      touched only what the first `|args| + 1` dependencies reach. */
  lemma WalkStep(s0: State, s1: State, s2: State, self: object, rank: Rank, deps: seq<ObjectType>,
                 args: seq<Value>, marks: seq<nat>, r: Result<Value, Error>)
    requires |args| < |deps| && ResolvedPrefix(s0, s1, self, deps, args, marks)
    requires Grows(s0, s1) && TouchesOnlyFrom(s0, s1, rank, deps, |args|)
    requires Grows(s1, s2) && TouchesOnly(s1, s2, rank, deps[|args|])
    requires r.Success? ==>
               Resolved(s2, self, deps[|args|], r.value) && Window(s1.types, s2.log, |s1.log|, deps[|args|], r.value)
    requires r.Failure? ==> r.error.CouldNotInstantiate? && r.error.objectType == deps[|args|]
    ensures Grows(s0, s2) && TouchesOnlyFrom(s0, s2, rank, deps, |args| + 1)
    ensures r.Success? ==> ResolvedPrefix(s0, s2, self, deps, args + [r.value], marks + [|s2.log|])
    ensures r.Failure? ==> FirstFailure(s2, self, deps, args, r.error)
  {
    GrowsTransitive(s0, s1, s2);
    TouchesOnlyFromSnoc(s0, s1, s2, rank, deps, |args|);
    if r.Success? {
      PrefixSnoc(s0, s1, s2, self, deps, args, marks, r.value);
    } else {
      PrefixStops(s0, s1, s2, self, deps, args, marks, r.error);
    }
  }

  /** A failure at the next dependency ends the walk there. */
  lemma PrefixStops(s0: State, s1: State, s2: State, self: object, deps: seq<ObjectType>, args: seq<Value>,
                     marks: seq<nat>, e: Error)
    requires |args| < |deps|
    requires ResolvedPrefix(s0, s1, self, deps, args, marks) && Grows(s1, s2)
    requires e.CouldNotInstantiate? && e.objectType == deps[|args|]
    ensures FirstFailure(s2, self, deps, args, e)
  {
    forall j | 0 <= j < |args|
      ensures Resolved(s2, self, deps[j], args[j])
    {
      ResolvedKept(s1, s2, self, deps[j], args[j]);
    }
  }

  /** Caching the object built for a singleton `k` on its descriptor. */
  lemma CacheSingleton(s0: State, s1: State, s2: State, self: object, rank: Rank, k: ObjectType, v: Value)
    requires ResolutionRanked(s1.types, rank) && k != FunctionConstructor && k in s1.types && k in rank
    requires s1.types[k].lifeTime == Singleton
    requires Grows(s0, s1) && TouchesOnly(s0, s1, rank, k) && NewObject(s0, s1, self, k, v)
    requires k in s0.instances && s0.instances[k].None?
    requires s2 == s1.(instances := s1.instances[k := Some(v)])
    ensures Grows(s0, s2) && TouchesOnly(s0, s2, rank, k) && NewObject(s0, s2, self, k, v)
  {
    NewObjectKept(s0, s1, s2, self, rank, k, v);
  }

  /** Caching the object built for a scoped `k` in the node's own map. */
  lemma CacheScoped(s0: State, s1: State, s2: State, self: object, rank: Rank, k: ObjectType, v: Value)
    requires ResolutionRanked(s1.types, rank) && k != FunctionConstructor && k in s1.types && k in rank
    requires s1.types[k].lifeTime == Scoped
    requires Grows(s0, s1) && TouchesOnly(s0, s1, rank, k) && NewObject(s0, s1, self, k, v)
    requires k !in s0.scoped
    requires s2 == s1.(scoped := s1.scoped[k := v])
    ensures Grows(s0, s2) && TouchesOnly(s0, s2, rank, k) && NewObject(s0, s2, self, k, v)
  {
    NewObjectKept(s0, s1, s2, self, rank, k, v);
  }
}
