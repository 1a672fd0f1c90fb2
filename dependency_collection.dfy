/** The registry of types and its validation pass (src/dependency-collection.ts). */
module Collections {
  import opened Wrappers
  import opened ObjectTypes
  import opened Descriptors
  import opened Errors

  /** The registered types and their descriptors. */
  type Registry = map<ObjectType, DependencyDescriptor>

  /** A ghost ranking of types; the recursive passes descend along it. */
  type Rank = map<ObjectType, nat>

  // ---------------------------------------------------------------------------
  // Termination of the validation pass
  // ---------------------------------------------------------------------------

  /** `validateType(k)` recurses only into the registered dependencies that come
      before the first occurrence of `k` itself in its dependency list (it
      returns at that occurrence). Each of those must rank below `k`. Self
      dependencies are allowed; a cycle of two or more types is not, since the
      pass has no visited set and would not terminate on it. */
  ghost predicate ValidationRankedAt(types: Registry, rank: Rank, k: ObjectType)
    requires k in types && k in rank
  {
    var deps := types[k].dependencies;
    forall i :: 0 <= i < |deps| && k !in deps[..i + 1] && deps[i] in types ==>
      deps[i] in rank && rank[deps[i]] < rank[k]
  }

  ghost predicate ValidationRanked(types: Registry, rank: Rank)
  {
    forall k :: k in types && k in rank ==> ValidationRankedAt(types, rank, k)
  }

  /** The ranking covers every registered type. */
  ghost predicate FullyRanked(types: Registry, rank: Rank)
  {
    ValidationRanked(types, rank) && types.Keys <= rank.Keys
  }

  /** The dependencies `ds` of `k` may be recursed into. */
  ghost predicate EdgesRanked(types: Registry, rank: Rank, k: ObjectType, ds: seq<ObjectType>)
    requires k in rank
  {
    forall d :: d in ds ==> d != k && (d in types ==> d in rank && rank[d] < rank[k])
  }

  lemma RankedWithoutSelf(types: Registry, rank: Rank, k: ObjectType)
    requires ValidationRanked(types, rank) && k in types && k in rank
    requires k !in types[k].dependencies
    ensures EdgesRanked(types, rank, k, types[k].dependencies)
  {
    var deps := types[k].dependencies;
    assert ValidationRankedAt(types, rank, k);
    forall d | d in deps
      ensures d != k && (d in types ==> d in rank && rank[d] < rank[k])
    {
      var i :| 0 <= i < |deps| && deps[i] == d;
      assert forall x :: x in deps[..i + 1] ==> x in deps;
    }
  }

  lemma SliceSnoc<T>(s: seq<T>, i: nat)
    requires i < |s|
    ensures s[..i + 1] == s[..i] + [s[i]] && s[..i + 1][..i] == s[..i]
  {
  }

  // ---------------------------------------------------------------------------
  // What validateType reports
  // ---------------------------------------------------------------------------

  /** The problems `validateType(k)` reports: the circular-dependency problem
      alone when `k` depends on itself, otherwise the problems of each
      dependency edge in order. */
  ghost function TypeProblems(types: Registry, rank: Rank, k: ObjectType): seq<Problem>
    requires ValidationRanked(types, rank) && k in types && k in rank
    decreases rank[k], 1
  {
    var deps := types[k].dependencies;
    if k in deps then [CircularDependency(k)]
    else
      RankedWithoutSelf(types, rank, k);
      EdgesProblems(types, rank, k, deps)
  }

  /** The problems of the edges from `k` to each of `ds`, in order. */
  ghost function EdgesProblems(types: Registry, rank: Rank, k: ObjectType, ds: seq<ObjectType>): seq<Problem>
    requires ValidationRanked(types, rank) && k in types && k in rank
    requires EdgesRanked(types, rank, k, ds)
    decreases rank[k], 0, |ds|
  {
    if ds == [] then []
    else
      assert forall x :: x in ds[..|ds| - 1] ==> x in ds;
      EdgesProblems(types, rank, k, ds[..|ds| - 1]) + EdgeProblems(types, rank, k, ds[|ds| - 1])
  }

  /** The problems of one edge from `k` to `d`: `d` is not registered; or the
      problems of `d` itself, followed by a lifetime violation when a
      singleton consumes a scoped type. */
  ghost function EdgeProblems(types: Registry, rank: Rank, k: ObjectType, d: ObjectType): seq<Problem>
    requires ValidationRanked(types, rank) && k in types && k in rank
    requires d != k && (d in types ==> d in rank && rank[d] < rank[k])
    decreases rank[k], 0, 0
  {
    if d !in types then [UnregisteredDependency(k, d)]
    else
      TypeProblems(types, rank, d)
      + (if types[k].lifeTime == Singleton && types[d].lifeTime == Scoped
         then [ScopedFromSingleton(d, k)] else [])
  }

  /** The problems of the types `keys`, in order, as `validate` collects them. */
  ghost function AllProblems(types: Registry, rank: Rank, keys: seq<ObjectType>): seq<Problem>
    requires ValidationRanked(types, rank)
    requires forall k :: k in keys ==> k in types && k in rank
  {
    if keys == [] then []
    else
      assert forall x :: x in keys[..|keys| - 1] ==> x in keys;
      AllProblems(types, rank, keys[..|keys| - 1]) + TypeProblems(types, rank, keys[|keys| - 1])
  }

  /** The error text `validate` builds: the texts of `validateType` over
      `keys`, concatenated as strings. */
  ghost function ValidationText(types: Registry, rank: Rank, keys: seq<ObjectType>): string
    requires ValidationRanked(types, rank)
    requires forall k :: k in keys ==> k in types && k in rank
  {
    if keys == [] then ""
    else
      assert forall x :: x in keys[..|keys| - 1] ==> x in keys;
      ValidationText(types, rank, keys[..|keys| - 1]) + ProblemsText(TypeProblems(types, rank, keys[|keys| - 1]))
  }

  /** Extending the edge list by one dependency appends that edge's problems. */
  lemma EdgesProblemsSnoc(types: Registry, rank: Rank, k: ObjectType, ds: seq<ObjectType>, d: ObjectType)
    requires ValidationRanked(types, rank) && k in types && k in rank
    requires EdgesRanked(types, rank, k, ds + [d])
    ensures EdgesRanked(types, rank, k, ds)
    ensures EdgesProblems(types, rank, k, ds + [d]) == EdgesProblems(types, rank, k, ds) + EdgeProblems(types, rank, k, d)
  {
    assert (ds + [d])[..|ds|] == ds;
  }

  /** The dependencies before position `i + 1` may be recursed into, as long as
      `k` does not occur among them. */
  lemma RankedPrefix(types: Registry, rank: Rank, k: ObjectType, i: nat)
    requires ValidationRanked(types, rank) && k in types && k in rank
    requires i < |types[k].dependencies|
    requires k !in types[k].dependencies[..i + 1]
    ensures EdgesRanked(types, rank, k, types[k].dependencies[..i + 1])
  {
    var deps := types[k].dependencies;
    assert ValidationRankedAt(types, rank, k);
    forall d | d in deps[..i + 1]
      ensures d != k && (d in types ==> d in rank && rank[d] < rank[k])
    {
      var j :| 0 <= j <= i && deps[j] == d;
      assert deps[..i + 1][..j + 1] == deps[..j + 1];
    }
  }

  // ---------------------------------------------------------------------------
  // What the problems mean
  // ---------------------------------------------------------------------------

  /** `k` has no defect of its own: it does not depend on itself, every
      dependency is registered, and it is not a singleton consuming a scoped
      type. */
  ghost predicate LocallyValid(types: Registry, k: ObjectType)
    requires k in types
  {
    forall d :: d in types[k].dependencies ==>
      d != k && d in types && !(types[k].lifeTime == Singleton && types[d].lifeTime == Scoped)
  }

  /** A reported problem describes a real defect of the registry. */
  ghost predicate Genuine(types: Registry, p: Problem)
  {
    match p
    case CircularDependency(t) =>
      t in types && t in types[t].dependencies
    case UnregisteredDependency(dependent, dependency) =>
      dependent in types && dependency in types[dependent].dependencies && dependency !in types
    case ScopedFromSingleton(scoped, singleton) =>
      singleton in types && scoped in types[singleton].dependencies && scoped in types
      && types[singleton].lifeTime == Singleton && types[scoped].lifeTime == Scoped
  }

  /** Every problem `validateType` reports is a real defect. */
  lemma {:induction false} ProblemsAreGenuine(types: Registry, rank: Rank, k: ObjectType)
    requires ValidationRanked(types, rank) && k in types && k in rank
    ensures forall p :: p in TypeProblems(types, rank, k) ==> Genuine(types, p)
    decreases rank[k], 1
  {
    var deps := types[k].dependencies;
    if k !in deps {
      RankedWithoutSelf(types, rank, k);
      EdgesProblemsAreGenuine(types, rank, k, deps);
    }
  }

  lemma {:induction false} EdgesProblemsAreGenuine(types: Registry, rank: Rank, k: ObjectType, ds: seq<ObjectType>)
    requires ValidationRanked(types, rank) && k in types && k in rank
    requires EdgesRanked(types, rank, k, ds)
    requires forall d :: d in ds ==> d in types[k].dependencies
    ensures forall p :: p in EdgesProblems(types, rank, k, ds) ==> Genuine(types, p)
    decreases rank[k], 0, |ds|
  {
    if ds != [] {
      var d := ds[|ds| - 1];
      assert forall x :: x in ds[..|ds| - 1] ==> x in ds;
      EdgesProblemsAreGenuine(types, rank, k, ds[..|ds| - 1]);
      if d in types {
        ProblemsAreGenuine(types, rank, d);
      }
    }
  }

  /** The problems of every registered dependency of `k` are reported again
      under `k` (unless `k` depends on itself), so a lifetime violation several
      hops down the graph surfaces at every type above it. */
  lemma {:induction false} DependencyProblemsPropagate(types: Registry, rank: Rank, k: ObjectType, d: ObjectType)
    requires ValidationRanked(types, rank) && k in types && k in rank
    requires k !in types[k].dependencies && d in types[k].dependencies && d in types
    ensures d in rank
    ensures forall p :: p in TypeProblems(types, rank, d) ==> p in TypeProblems(types, rank, k)
  {
    RankedWithoutSelf(types, rank, k);
    EdgesProblemsContain(types, rank, k, types[k].dependencies, d);
  }

  lemma {:induction false} EdgesProblemsContain(types: Registry, rank: Rank, k: ObjectType, ds: seq<ObjectType>, d: ObjectType)
    requires ValidationRanked(types, rank) && k in types && k in rank
    requires EdgesRanked(types, rank, k, ds)
    requires d in ds && d in types
    ensures d in rank
    ensures forall p :: p in TypeProblems(types, rank, d) ==> p in EdgesProblems(types, rank, k, ds)
    decreases |ds|
  {
    var front := ds[..|ds| - 1];
    assert forall x :: x in front ==> x in ds;
    if d != ds[|ds| - 1] {
      assert d in front by { assert ds == front + [ds[|ds| - 1]]; }
      EdgesProblemsContain(types, rank, k, front, d);
    }
  }

  /** No edge problems exactly when every edge is free of problems. */
  lemma {:induction false} EdgesProblemsEmpty(types: Registry, rank: Rank, k: ObjectType, ds: seq<ObjectType>)
    requires ValidationRanked(types, rank) && k in types && k in rank
    requires EdgesRanked(types, rank, k, ds)
    ensures EdgesProblems(types, rank, k, ds) == [] <==> forall d :: d in ds ==> EdgeProblems(types, rank, k, d) == []
    decreases |ds|
  {
    if ds != [] {
      var front, last := ds[..|ds| - 1], ds[|ds| - 1];
      assert ds == front + [last];
      EdgesProblemsEmpty(types, rank, k, front);
      assert EdgesProblems(types, rank, k, ds)
          == EdgesProblems(types, rank, k, front) + EdgeProblems(types, rank, k, last);
      if EdgesProblems(types, rank, k, ds) == [] {
        forall d | d in ds ensures EdgeProblems(types, rank, k, d) == [] {
          if d != last {
            assert d in front;
          }
        }
      }
      if forall d :: d in ds ==> EdgeProblems(types, rank, k, d) == [] {
        assert last in ds;
        assert forall d :: d in front ==> d in ds;
      }
    }
  }

  /** One level of the characterisation: `k` reports nothing exactly when it
      is locally valid and none of its dependencies reports anything. */
  lemma NoProblemsIff(types: Registry, rank: Rank, k: ObjectType)
    requires FullyRanked(types, rank) && k in types
    ensures TypeProblems(types, rank, k) == [] <==>
            LocallyValid(types, k)
            && forall d :: d in types[k].dependencies ==> TypeProblems(types, rank, d) == []
  {
    var deps := types[k].dependencies;
    if k !in deps {
      RankedWithoutSelf(types, rank, k);
      EdgesProblemsEmpty(types, rank, k, deps);
    }
  }

  /** When every registered type is locally valid, no type reports anything. */
  lemma {:induction false} LocallyValidEverywhere(types: Registry, rank: Rank, k: ObjectType)
    requires FullyRanked(types, rank) && k in types
    requires forall t :: t in types ==> LocallyValid(types, t)
    ensures TypeProblems(types, rank, k) == []
    decreases rank[k]
  {
    var deps := types[k].dependencies;
    assert LocallyValid(types, k);
    RankedWithoutSelf(types, rank, k);
    forall d | d in deps
      ensures TypeProblems(types, rank, d) == []
    {
      LocallyValidEverywhere(types, rank, d);
    }
    NoProblemsIff(types, rank, k);
  }

  /** The whole registry reports nothing exactly when every registered type is
      locally valid: validation is both sound and complete for the three
      defects it looks for. */
  lemma ValidIffLocallyValid(types: Registry, rank: Rank)
    requires FullyRanked(types, rank)
    ensures (forall k :: k in types ==> TypeProblems(types, rank, k) == [])
            <==> (forall k :: k in types ==> LocallyValid(types, k))
  {
    if forall k :: k in types ==> LocallyValid(types, k) {
      forall k | k in types ensures TypeProblems(types, rank, k) == [] {
        LocallyValidEverywhere(types, rank, k);
      }
    }
    if forall k :: k in types ==> TypeProblems(types, rank, k) == [] {
      forall k | k in types ensures LocallyValid(types, k) {
        NoProblemsIff(types, rank, k);
      }
    }
  }

  lemma {:induction false} AllProblemsEmpty(types: Registry, rank: Rank, keys: seq<ObjectType>)
    requires ValidationRanked(types, rank)
    requires forall k :: k in keys ==> k in types && k in rank
    ensures AllProblems(types, rank, keys) == [] <==> forall k :: k in keys ==> TypeProblems(types, rank, k) == []
  {
    if keys != [] {
      var front := keys[..|keys| - 1];
      assert forall x :: x in front ==> x in keys;
      var last := keys[|keys| - 1];
      AllProblemsEmpty(types, rank, front);
      assert keys == front + [last];
      assert AllProblems(types, rank, keys) == AllProblems(types, rank, front) + TypeProblems(types, rank, last);
      assert (forall k :: k in keys ==> TypeProblems(types, rank, k) == [])
             <==> (forall k :: k in front ==> TypeProblems(types, rank, k) == []) && TypeProblems(types, rank, last) == [];
    }
  }

  /** Rendering the collected problems gives the string the source builds by
      appending the text of each `validateType` call. */
  lemma {:induction false} AllProblemsText(types: Registry, rank: Rank, keys: seq<ObjectType>)
    requires ValidationRanked(types, rank)
    requires forall k :: k in keys ==> k in types && k in rank
    ensures ProblemsText(AllProblems(types, rank, keys)) == ValidationText(types, rank, keys)
  {
    if keys != [] {
      var front := keys[..|keys| - 1];
      assert forall x :: x in front ==> x in keys;
      var last := keys[|keys| - 1];
      AllProblemsText(types, rank, front);
      assert AllProblems(types, rank, keys) == AllProblems(types, rank, front) + TypeProblems(types, rank, last);
      ProblemsTextAppend(AllProblems(types, rank, front), TypeProblems(types, rank, last));
    }
  }

  /** The reported problems do not depend on the ranking used to define them. */
  lemma {:induction false} TypeProblemsRankIndependent(types: Registry, r1: Rank, r2: Rank, k: ObjectType)
    requires ValidationRanked(types, r1) && ValidationRanked(types, r2)
    requires k in types && k in r1 && k in r2
    ensures TypeProblems(types, r1, k) == TypeProblems(types, r2, k)
    decreases r1[k], 1
  {
    var deps := types[k].dependencies;
    if k !in deps {
      RankedWithoutSelf(types, r1, k);
      RankedWithoutSelf(types, r2, k);
      EdgesProblemsRankIndependent(types, r1, r2, k, deps);
    }
  }

  lemma {:induction false} EdgesProblemsRankIndependent(types: Registry, r1: Rank, r2: Rank, k: ObjectType, ds: seq<ObjectType>)
    requires ValidationRanked(types, r1) && ValidationRanked(types, r2)
    requires k in types && k in r1 && k in r2
    requires EdgesRanked(types, r1, k, ds) && EdgesRanked(types, r2, k, ds)
    ensures EdgesProblems(types, r1, k, ds) == EdgesProblems(types, r2, k, ds)
    decreases r1[k], 0, |ds|
  {
    if ds != [] {
      var d := ds[|ds| - 1];
      assert forall x :: x in ds[..|ds| - 1] ==> x in ds;
      EdgesProblemsRankIndependent(types, r1, r2, k, ds[..|ds| - 1]);
      if d in types {
        TypeProblemsRankIndependent(types, r1, r2, d);
      }
    }
  }

  // ---------------------------------------------------------------------------
  // The collection
  // ---------------------------------------------------------------------------

  /** Every registered type has a descriptor of its own: registration always
      creates a new one. */
  ghost predicate Unshared(types: Registry)
  {
    forall a, b :: a in types && b in types && a != b ==> types[a] != types[b]
  }

  /** An append-only map from types to descriptors. `order` is the insertion
      order of the JavaScript `Map`, which `validate` iterates in. */
  class DependencyCollection {
    var types: Registry
    var order: seq<ObjectType>

    ghost predicate Valid()
      reads this
    {
      && (forall k :: k in types <==> k in order)
      && (forall i, j :: 0 <= i < j < |order| ==> order[i] != order[j])
      && Unshared(types)
    }

    constructor ()
      ensures Valid() && types == map[] && order == []
    {
      types := map[];
      order := [];
    }

    /** Never fails and changes nothing. */
    function Contains(objectType: ObjectType): (r: bool)
      reads this
      ensures Valid() ==> (r <==> objectType in order)
    {
      objectType in types
    }

    /** The stored descriptor, or the not-registered error. */
    function Get(objectType: ObjectType): (r: Result<DependencyDescriptor, Error>)
      reads this
      ensures r.Success? <==> Contains(objectType)
      ensures r.Success? ==> r.value == types[objectType]
      ensures r.Failure? ==> r.error == NotRegistered(objectType)
    {
      if objectType !in types then Failure(NotRegistered(objectType))
      else Success(types[objectType])
    }

    /** The effect of registering `objectType`: the duplicate check comes
        first, then the instance check; a failure changes nothing; a success
        adds exactly one fresh descriptor and leaves every other entry alone. */
    twostate predicate Registers(objectType: ObjectType, lifeTime: DependencyLifeTime,
                                 dependencies: seq<ObjectType>, instance: Option<Value>, new r: Outcome<Error>)
      reads this, types.Values
    {
      && (old(objectType in types) ==> r == Fail(AlreadyRegistered(objectType)))
      && (old(objectType !in types) && instance.Some? && lifeTime != Singleton ==> r == Fail(InstanceOnNonSingleton))
      && (r.Pass? <==> old(objectType !in types) && (instance.None? || lifeTime == Singleton))
      && (r.Fail? ==> types == old(types) && order == old(order))
      && (r.Pass? ==>
            && objectType in types
            && fresh(types[objectType])
            && types == old(types)[objectType := types[objectType]]
            && order == old(order) + [objectType]
            && types[objectType].lifeTime == lifeTime
            && types[objectType].dependencies == dependencies
            && types[objectType].instance == instance)
    }

    /** `dependencies` is the constructor's parameter list, which the source
        reads from reflection metadata. */
    method Register(objectType: ObjectType, lifeTime: DependencyLifeTime,
                    dependencies: seq<ObjectType>, instance: Option<Value>) returns (r: Outcome<Error>)
      requires Valid()
      modifies this
      ensures Valid()
      ensures Registers(objectType, lifeTime, dependencies, instance, r)
      ensures r.Pass? ==> Contains(objectType)
    {
      if Contains(objectType) {
        return Fail(AlreadyRegistered(objectType));
      }
      if instance.Some? && lifeTime != Singleton {
        return Fail(InstanceOnNonSingleton);
      }
      var descriptor := new DependencyDescriptor(lifeTime, dependencies, instance);
      types := types[objectType := descriptor];
      order := order + [objectType];
      r := Pass;
    }

    method RegisterTransient(objectType: ObjectType, dependencies: seq<ObjectType>) returns (r: Outcome<Error>)
      requires Valid()
      modifies this
      ensures Valid()
      ensures Registers(objectType, Transient, dependencies, None, r)
    {
      r := Register(objectType, Transient, dependencies, None);
    }

    method RegisterScoped(objectType: ObjectType, dependencies: seq<ObjectType>) returns (r: Outcome<Error>)
      requires Valid()
      modifies this
      ensures Valid()
      ensures Registers(objectType, Scoped, dependencies, None, r)
    {
      r := Register(objectType, Scoped, dependencies, None);
    }

    /** `instance` defaults to null in the source. */
    method RegisterSingleton(objectType: ObjectType, dependencies: seq<ObjectType>, instance: Option<Value>)
      returns (r: Outcome<Error>)
      requires Valid()
      modifies this
      ensures Valid()
      ensures Registers(objectType, Singleton, dependencies, instance, r)
    {
      r := Register(objectType, Singleton, dependencies, instance);
    }

    /** The recursive check of one registered type. */
    method ValidateType(ghost rank: Rank, objectType: ObjectType) returns (problems: seq<Problem>)
      requires ValidationRanked(types, rank) && objectType in types && objectType in rank
      ensures problems == TypeProblems(types, rank, objectType)
      ensures objectType in types[objectType].dependencies ==> problems == [CircularDependency(objectType)]
      decreases rank[objectType]
    {
      var descriptor := types[objectType];
      var deps := descriptor.dependencies;
      problems := [];
      for i := 0 to |deps|
        invariant objectType !in deps[..i]
        invariant EdgesRanked(types, rank, objectType, deps[..i])
        invariant problems == EdgesProblems(types, rank, objectType, deps[..i])
      {
        var dependencyType := deps[i];
        SliceSnoc(deps, i);
        if dependencyType == objectType {
          problems := [CircularDependency(objectType)];
          return;
        }
        RankedPrefix(types, rank, objectType, i);
        EdgesProblemsSnoc(types, rank, objectType, deps[..i], dependencyType);
        ghost var before := problems;
        if !Contains(dependencyType) {
          problems := problems + [UnregisteredDependency(objectType, dependencyType)];
        } else {
          var dependencyDescriptor := types[dependencyType];
          var found := ValidateType(rank, dependencyType);
          problems := problems + found;
          if descriptor.lifeTime == Singleton && dependencyDescriptor.lifeTime == Scoped {
            problems := problems + [ScopedFromSingleton(dependencyType, objectType)];
          }
        }
        assert problems == before + EdgeProblems(types, rank, objectType, dependencyType);
      }
      assert deps[..|deps|] == deps;
    }

    /** Fails, with every problem of every registered type in registration
        order, exactly when some registered type has a defect. */
    method Validate(ghost rank: Rank) returns (r: Outcome<Error>)
      requires Valid() && FullyRanked(types, rank)
      ensures r.Fail? <==> AllProblems(types, rank, order) != []
      ensures r.Fail? ==> r.error == InvalidConfiguration(AllProblems(types, rank, order))
      ensures r.Fail? ==> Message(r.error) == ConfigurationHeader + ValidationText(types, rank, order)
      ensures r.Pass? <==> forall k :: k in types ==> LocallyValid(types, k)
    {
      var problems: seq<Problem> := [];
      for i := 0 to |order|
        invariant problems == AllProblems(types, rank, order[..i])
      {
        var found := ValidateType(rank, order[i]);
        SliceSnoc(order, i);
        problems := problems + found;
      }
      assert order[..|order|] == order;
      ProblemsTextEmpty(problems);
      if |ProblemsText(problems)| > 0 {
        r := Fail(InvalidConfiguration(problems));
      } else {
        r := Pass;
      }
      AllProblemsText(types, rank, order);
      AllProblemsEmpty(types, rank, order);
      ValidIffLocallyValid(types, rank);
    }
  }
}
