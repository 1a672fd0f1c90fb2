/** Concrete configurations from the repository's container tests
    (tests/dependency-container.test.ts), each with what the model proves
    about it. The dependencies that the source reads from reflection
    metadata are written out, and every class builds unless stated. */
module Scenarios {
  import opened Wrappers
  import opened ObjectTypes
  import opened Descriptors
  import opened Errors
  import opened Collections
  import opened Containers

  const ClassA: ObjectType := Object(1, "ClassA", Some("Function"))
  const ClassB: ObjectType := Object(2, "ClassB", Some("Function"))
  const ClassC: ObjectType := Object(3, "ClassC", Some("Function"))

  /** `objectType` alone, with the given lifetime and dependencies, in a new
      collection. */
  method RegisterOne(objectType: ObjectType, lifeTime: DependencyLifeTime, dependencies: seq<ObjectType>)
    returns (collection: DependencyCollection)
    ensures fresh(collection) && fresh(collection.types.Values)
    ensures collection.types.Keys == {objectType}
    ensures collection.types[objectType].lifeTime == lifeTime
    ensures collection.types[objectType].dependencies == dependencies
    ensures collection.types[objectType].instance == None
  {
    collection := new DependencyCollection();
    var _ := collection.Register(objectType, lifeTime, dependencies, None);
  }

  /** A single registered type without dependencies resolves wherever its
      lifetime is accepted, when its constructor builds. */
  lemma SingleBuildable(types: Registry, behaviour: ObjectType -> Construction, inRoot: bool)
    requires types.Keys == {ClassA} && types[ClassA].dependencies == [] && behaviour(ClassA) == Builds
    requires types[ClassA].lifeTime in {Transient, Singleton} || (types[ClassA].lifeTime == Scoped && !inRoot)
    ensures ResolutionRanked(types, map[ClassA := 0])
    ensures Buildable(types, map[ClassA := 0], inRoot, behaviour, ClassA)
  {
  }

  /** A transient type yields a new object on every resolution. */
  method TransientIsNewEachTime() returns (first: Value, second: Value)
    ensures first != second
  {
    var collection := RegisterOne(ClassA, Transient, []);
    var factory := new Factory(_ => Builds);
    var root := new DependencyContainer.Root("global", collection);
    var rank := map[ClassA := 0];
    SingleBuildable(collection.types, factory.behaviour, true);
    var r1 := root.Resolve(ClassA, factory, rank);
    var r2 := root.Resolve(ClassA, factory, rank);
    first, second := r1.value, r2.value;
  }

  /** A step that may cache only by lifetime leaves a registry holding only
      the transient `ClassA` without scoped entries or instances. */
  lemma NothingCached(s0: State, s1: State)
    requires Grows(s0, s1) && s0.scoped == map[] && s0.types.Keys == {ClassA}
    requires s0.types[ClassA].lifeTime == Transient && ClassA in s0.instances && s0.instances[ClassA] == None
    ensures s1.scoped == map[] && s1.instances[ClassA] == None
  {
    forall t | t in s1.scoped
      ensures false
    {
      assert Added(s0, s1, t);
    }
    assert !Replaced(s0, s1, ClassA);
  }

  /** Resolving a transient type fills no cache: the child scope's map stays
      empty and the descriptor holds no instance. */
  method TransientIsNotCached() returns (entries: map<ObjectType, Value>, cached: Option<Value>)
    ensures entries == map[] && cached == None
  {
    var collection := RegisterOne(ClassA, Transient, []);
    var factory := new Factory(_ => Builds);
    var root := new DependencyContainer.Root("global", collection);
    var child := root.CreateScopedInjector("child");
    var rank := map[ClassA := 0];
    SingleBuildable(collection.types, factory.behaviour, false);
    ghost var s0 := child.Snapshot(factory);
    var r := child.Resolve(ClassA, factory, rank);
    NothingCached(s0, child.Snapshot(factory));
    entries := child.scopedInstances;
    cached := collection.types[ClassA].instance;
  }

  /** A failed construction caches nothing: a singleton `ClassA` whose
      constructor throws keeps its descriptor without an instance. */
  method FailedSingletonIsNotCached() returns (failed: bool, cached: Option<Value>)
    ensures failed && cached == None
  {
    var collection := RegisterOne(ClassA, Singleton, []);
    var factory := new Factory(_ => Throws("boom"));
    var root := new DependencyContainer.Root("global", collection);
    ghost var s0 := root.Snapshot(factory);
    var r := root.Resolve(ClassA, factory, map[ClassA := 0]);
    assert !Replaced(s0, root.Snapshot(factory), ClassA);
    failed := r.Failure?;
    cached := collection.types[ClassA].instance;
  }

  /** A failed construction caches nothing: a scoped `ClassA` whose
      constructor throws gets no entry in the child scope's map. */
  method FailedScopedIsNotCached() returns (failed: bool, entries: map<ObjectType, Value>)
    ensures failed && ClassA !in entries
  {
    var collection := RegisterOne(ClassA, Scoped, []);
    var factory := new Factory(_ => Throws("boom"));
    var root := new DependencyContainer.Root("global", collection);
    var child := root.CreateScopedInjector("child");
    ghost var s0 := child.Snapshot(factory);
    var r := child.Resolve(ClassA, factory, map[ClassA := 0]);
    assert !Added(s0, child.Snapshot(factory), ClassA);
    failed := r.Failure?;
    entries := child.scopedInstances;
  }

  /** A singleton is built once and then shared. */
  method SingletonIsShared() returns (first: Value, second: Value)
    ensures first == second
  {
    var collection := RegisterOne(ClassA, Singleton, []);
    var factory := new Factory(_ => Builds);
    var root := new DependencyContainer.Root("global", collection);
    var rank := map[ClassA := 0];
    SingleBuildable(collection.types, factory.behaviour, true);
    var r1 := root.Resolve(ClassA, factory, rank);
    var r2 := root.Resolve(ClassA, factory, rank);
    first, second := r1.value, r2.value;
  }

  /** A scoped type is shared within a child scope, cached in that scope's
      own map, and leaves the root's map alone. */
  method ScopedIsSharedInItsScope() returns (first: Value, second: Value, seen: Option<Value>,
                                             atRoot: map<ObjectType, Value>)
    ensures first == second && seen == Some(first) && atRoot == map[]
  {
    var collection := RegisterOne(ClassA, Scoped, []);
    var factory := new Factory(_ => Builds);
    var root := new DependencyContainer.Root("global", collection);
    var child := root.CreateScopedInjector("child");
    var rank := map[ClassA := 0];
    SingleBuildable(collection.types, factory.behaviour, false);
    var r1 := child.Resolve(ClassA, factory, rank);
    var r2 := child.Resolve(ClassA, factory, rank);
    first, second := r1.value, r2.value;
    seen := child.GetInstance(ClassA);
    atRoot := root.scopedInstances;
  }

  /** `ClassA` without dependencies and `ClassB` depending on it, with the
      given lifetimes, registered in a new collection. */
  method RegisterPair(lifeA: DependencyLifeTime, lifeB: DependencyLifeTime) returns (collection: DependencyCollection)
    ensures fresh(collection) && fresh(collection.types.Values)
    ensures collection.types.Keys == {ClassA, ClassB}
    ensures collection.types[ClassA].lifeTime == lifeA && collection.types[ClassA].dependencies == []
    ensures collection.types[ClassA].instance == None
    ensures collection.types[ClassB].lifeTime == lifeB && collection.types[ClassB].dependencies == [ClassA]
    ensures collection.types[ClassB].instance == None
  {
    collection := new DependencyCollection();
    var _ := collection.Register(ClassA, lifeA, [], None);
    var _ := collection.Register(ClassB, lifeB, [ClassA], None);
  }

  /** In a child scope, where every lifetime but an unknown one is accepted,
      the pair resolves when both constructors build. */
  lemma PairBuildable(types: Registry, behaviour: ObjectType -> Construction, inRoot: bool)
    requires types.Keys == {ClassA, ClassB}
    requires types[ClassA].dependencies == [] && types[ClassB].dependencies == [ClassA]
    requires !types[ClassA].lifeTime.Unrecognized? && !types[ClassB].lifeTime.Unrecognized?
    requires inRoot ==> types[ClassA].lifeTime != Scoped && types[ClassB].lifeTime != Scoped
    requires behaviour(ClassA) == Builds && behaviour(ClassB) == Builds
    ensures ResolutionRanked(types, map[ClassA := 0, ClassB := 1])
    ensures Buildable(types, map[ClassA := 0, ClassB := 1], inRoot, behaviour, ClassA)
    ensures Buildable(types, map[ClassA := 0, ClassB := 1], inRoot, behaviour, ClassB)
  {
    assert Buildable(types, map[ClassA := 0, ClassB := 1], inRoot, behaviour, ClassA);
  }

  /** The singleton dependency a transient object was built from is the
      instance the descriptor already held. */
  lemma SingletonArgumentIsCached(s0: State, s1: State, self: object, k: ObjectType, d: ObjectType,
                                  v: Value, cached: Value)
    requires Grows(s0, s1) && d in s0.instances && s0.instances[d] == Some(cached) && d != FunctionConstructor
    requires k in s1.types && s1.types[k].dependencies == [d] && d in s1.types && s1.types[d].lifeTime == Singleton
    requires v.Instance? && v.id < |s1.log| && BuiltFrom(s1, self, k, v)
    ensures s1.log[v.id].arguments == [cached]
  {
    assert Resolved(s1, self, d, s1.log[v.id].arguments[0]);
  }

  /** A transient type resolved in a child scope receives the singleton the
      root built before. */
  method SingletonReachesChildScope() returns (reference1: Value, arguments: seq<Value>)
    ensures arguments == [reference1]
  {
    var collection := RegisterPair(Singleton, Transient);
    var factory := new Factory(_ => Builds);
    var root := new DependencyContainer.Root("global", collection);
    var rank := map[ClassA := 0, ClassB := 1];
    PairBuildable(collection.types, factory.behaviour, true);
    var r1 := root.Resolve(ClassA, factory, rank);
    reference1 := r1.value;
    var child := root.CreateScopedInjector("child");
    PairBuildable(collection.types, factory.behaviour, false);
    ghost var s0 := child.Snapshot(factory);
    var r2 := child.Resolve(ClassB, factory, rank);
    ghost var s1 := child.Snapshot(factory);
    SingletonArgumentIsCached(s0, s1, child, ClassB, ClassA, r2.value, reference1);
    arguments := factory.log[r2.value.id].arguments;
  }

  /** On a cache miss, a singleton that depends on a transient type is given
      the object built for itself, not the one built for its dependency. */
  method SingletonIsBuiltForItsType() returns (built: ObjectType)
    ensures built == ClassB
  {
    var collection := RegisterPair(Transient, Singleton);
    var factory := new Factory(_ => Builds);
    var root := new DependencyContainer.Root("global", collection);
    var rank := map[ClassA := 0, ClassB := 1];
    PairBuildable(collection.types, factory.behaviour, true);
    var r := root.Resolve(ClassB, factory, rank);
    built := factory.log[r.value.id].objectType;
  }

  /** The same for a scoped type resolved in a child scope. */
  method ScopedIsBuiltForItsType() returns (built: ObjectType)
    ensures built == ClassB
  {
    var collection := RegisterPair(Transient, Scoped);
    var factory := new Factory(_ => Builds);
    var root := new DependencyContainer.Root("global", collection);
    var child := root.CreateScopedInjector("child");
    var rank := map[ClassA := 0, ClassB := 1];
    PairBuildable(collection.types, factory.behaviour, false);
    var r := child.Resolve(ClassB, factory, rank);
    built := factory.log[r.value.id].objectType;
  }

  /** A transient type with a transient dependency gets a new argument on
      every resolution. */
  method TransientArgumentsAreNew() returns (first: seq<Value>, second: seq<Value>)
    ensures |first| == 1 && |second| == 1 && first[0] != second[0]
  {
    var collection := RegisterPair(Transient, Transient);
    var factory := new Factory(_ => Builds);
    var root := new DependencyContainer.Root("global", collection);
    var rank := map[ClassA := 0, ClassB := 1];
    PairBuildable(collection.types, factory.behaviour, true);
    var r1 := root.Resolve(ClassB, factory, rank);
    ConstructedArguments(collection.types, factory.log, 0, ClassB, r1.value);
    first := factory.log[r1.value.id].arguments;
    ghost var between := |factory.log|;
    var r2 := root.Resolve(ClassB, factory, rank);
    ConstructedArguments(collection.types, factory.log, between, ClassB, r2.value);
    second := factory.log[r2.value.id].arguments;
  }

  /** The scoped dependency a transient object was built from, on a node
      whose map held no entry for it before, is new. */
  lemma ScopedArgumentIsNew(s0: State, s1: State, self: object, k: ObjectType, d: ObjectType, v: Value)
    requires Grows(s0, s1) && d !in s0.scoped && d != FunctionConstructor
    requires k in s1.types && s1.types[k].dependencies == [d] && d in s1.types && s1.types[d].lifeTime == Scoped
    requires v.Instance? && v.id < |s1.log| && BuiltFrom(s1, self, k, v)
    ensures var arguments := s1.log[v.id].arguments;
            |arguments| == 1 && NewBetween(|s0.log|, |s1.log|, arguments[0])
  {
    assert Resolved(s1, self, d, s1.log[v.id].arguments[0]);
  }

  /** A scoped type is cached per node and not looked up in the ancestors, so
      a grandchild builds its own instance rather than reusing the one its
      parent holds. */
  method ScopedIsNotInherited() returns (reference1: Value, arguments: seq<Value>)
    ensures |arguments| == 1 && arguments[0] != reference1
  {
    var collection := RegisterPair(Scoped, Transient);
    var factory := new Factory(_ => Builds);
    var root := new DependencyContainer.Root("global", collection);
    var rank := map[ClassA := 0, ClassB := 1];
    var scope1 := root.CreateScopedInjector("scope1");
    PairBuildable(collection.types, factory.behaviour, false);
    var r1 := scope1.Resolve(ClassA, factory, rank);
    reference1 := r1.value;
    var scope2 := scope1.CreateScopedInjector("scope2");
    ghost var s0 := scope2.Snapshot(factory);
    var r2 := scope2.Resolve(ClassB, factory, rank);
    ghost var s1 := scope2.Snapshot(factory);
    ScopedArgumentIsNew(s0, s1, scope2, ClassB, ClassA, r2.value);
    arguments := factory.log[r2.value.id].arguments;
  }

  /** A dependency whose recorded type is the sentinel receives the node
      that resolves it. */
  lemma ContainerArgument(s: State, self: object, k: ObjectType, v: Value)
    requires k in s.types && s.types[k].dependencies == [FunctionConstructor]
    requires v.Instance? && v.id < |s.log| && BuiltFrom(s, self, k, v)
    ensures s.log[v.id].arguments == [ContainerRef(self)]
  {
    assert Resolved(s, self, FunctionConstructor, s.log[v.id].arguments[0]);
  }

  /** Such a type resolves on every node when its constructor builds. */
  lemma ContainerDependencyBuildable(types: Registry, behaviour: ObjectType -> Construction, inRoot: bool)
    requires ClassA in types && types[ClassA].lifeTime == Transient && types[ClassA].dependencies == [FunctionConstructor]
    requires behaviour(ClassA) == Builds
    ensures ResolutionRanked(types, map[ClassA := 0])
    ensures Buildable(types, map[ClassA := 0], inRoot, behaviour, ClassA)
  {
    assert Buildable(types, map[ClassA := 0], inRoot, behaviour, FunctionConstructor);
  }

  /** A transient type whose constructor takes the container receives the
      root from the root, and the child scope from the child scope. The
      parameter's recorded type is the sentinel `resolve` compares with. */
  method ContainerIsInjected() returns (fromRoot: seq<Value>, fromChild: seq<Value>, root: DependencyContainer,
                                        child: DependencyContainer)
    ensures fromRoot == [ContainerRef(root)] && fromChild == [ContainerRef(child)] && child != root
  {
    var collection := RegisterOne(ClassA, Transient, [FunctionConstructor]);
    var factory := new Factory(_ => Builds);
    root := new DependencyContainer.Root("global", collection);
    var rank := map[ClassA := 0];
    ContainerDependencyBuildable(collection.types, factory.behaviour, true);
    var r1 := root.Resolve(ClassA, factory, rank);
    ContainerArgument(root.Snapshot(factory), root, ClassA, r1.value);
    fromRoot := factory.log[r1.value.id].arguments;
    child := root.CreateScopedInjector("child");
    ContainerDependencyBuildable(collection.types, factory.behaviour, false);
    var r2 := child.Resolve(ClassA, factory, rank);
    ContainerArgument(child.Snapshot(factory), child, ClassA, r2.value);
    fromChild := factory.log[r2.value.id].arguments;
  }

  // ---------------------------------------------------------------------------
  // Registration and validation
  // ---------------------------------------------------------------------------

  lemma AlreadyRegisteredText()
    ensures Message(AlreadyRegistered(ClassA)) == "The type ClassA is already registered."
  {
    assert GetObjectTypeName(ClassA) == "ClassA";
  }

  /** A second registration of a type is refused. */
  method DuplicateRegistrationFails() returns (first: Outcome<Error>, second: Outcome<Error>, message: string)
    ensures first == Pass && second == Fail(AlreadyRegistered(ClassA))
    ensures message == "The type ClassA is already registered."
  {
    var collection := new DependencyCollection();
    first := collection.RegisterTransient(ClassA, []);
    second := collection.RegisterTransient(ClassA, []);
    AlreadyRegisteredText();
    message := Message(second.error);
  }

  /** Only a singleton may be registered with an instance; a singleton may. */
  method InstanceNeedsSingleton() returns (transient: Outcome<Error>, singleton: Outcome<Error>)
    ensures transient == Fail(InstanceOnNonSingleton) && singleton == Pass
  {
    var collection := new DependencyCollection();
    transient := collection.Register(ClassA, Transient, [], Some(Supplied(0)));
    singleton := collection.RegisterSingleton(ClassB, [], Some(Supplied(0)));
  }

  /** A singleton that consumes a scoped type is reported by validation. */
  lemma ScopedFromSingletonProblems(types: Registry)
    requires types.Keys == {ClassA, ClassB}
    requires types[ClassA].lifeTime == Scoped && types[ClassA].dependencies == []
    requires types[ClassB].lifeTime == Singleton && types[ClassB].dependencies == [ClassA]
    ensures FullyRanked(types, map[ClassA := 0, ClassB := 1])
    ensures AllProblems(types, map[ClassA := 0, ClassB := 1], [ClassA, ClassB]) == [ScopedFromSingleton(ClassA, ClassB)]
  {
    var rank := map[ClassA := 0, ClassB := 1];
    assert ValidationRankedAt(types, rank, ClassB) by {
      assert [ClassA][..1] == [ClassA];
    }
    assert ValidationRanked(types, rank);
    var a := TypeProblems(types, rank, ClassA);
    assert a == [] by {
      assert ClassA !in types[ClassA].dependencies;
      assert EdgesProblems(types, rank, ClassA, []) == [];
    }
    var b := TypeProblems(types, rank, ClassB);
    assert b == [ScopedFromSingleton(ClassA, ClassB)] by {
      assert ClassB !in types[ClassB].dependencies;
      assert EdgeProblems(types, rank, ClassB, ClassA) == a + [ScopedFromSingleton(ClassA, ClassB)];
      EdgesProblemsSnoc(types, rank, ClassB, [], ClassA);
      assert [] + [ClassA] == [ClassA];
    }
    var keys := [ClassA, ClassB];
    assert AllProblems(types, rank, keys[..1]) == [] by {
      assert keys[..1] == [ClassA] && [ClassA][..0] == [];
    }
    assert AllProblems(types, rank, keys) == AllProblems(types, rank, keys[..1]) + b;
  }

  method ScopedFromSingletonIsReported() returns (r: Outcome<Error>)
    ensures r == Fail(InvalidConfiguration([ScopedFromSingleton(ClassA, ClassB)]))
  {
    var collection := new DependencyCollection();
    var _ := collection.RegisterScoped(ClassA, []);
    var _ := collection.RegisterSingleton(ClassB, [ClassA], None);
    ScopedFromSingletonProblems(collection.types);
    r := collection.Validate(map[ClassA := 0, ClassB := 1]);
  }

  // ---------------------------------------------------------------------------
  // Failures and their messages
  // ---------------------------------------------------------------------------

  /** A plain object registered as a type: its name is its constructor's,
      and constructing it raises the exception of `bind`. */
  const PlainObject: ObjectType := Object(4, "", Some("Object"))
  const BindError: string := "Bind must be called on a function"

  /** The prefix every frame of a failure puts in front of the message. The
      expected messages below are split at these prefixes. */
  lemma FramePrefixes()
    ensures FramePrefix(ClassA) == "Couldn't instantiate the type ClassA.\n\t - "
    ensures FramePrefix(ClassB) == "Couldn't instantiate the type ClassB.\n\t - "
    ensures FramePrefix(ClassC) == "Couldn't instantiate the type ClassC.\n\t - "
    ensures FramePrefix(PlainObject) == "Couldn't instantiate the type Object.\n\t - "
  {
    assert GetObjectTypeName(ClassA) == "ClassA";
    assert GetObjectTypeName(ClassB) == "ClassB";
    assert GetObjectTypeName(ClassC) == "ClassC";
    assert GetObjectTypeName(PlainObject) == "Object";
  }

  lemma NotRegisteredText()
    ensures Message(NotRegistered(ClassA)) == "The type ClassA is not registered."
  {
    assert GetObjectTypeName(ClassA) == "ClassA";
  }

  /** The messages of the failures reported by a single frame. */
  lemma SingleFrameTexts()
    ensures Message(CouldNotInstantiate(ClassA, NotRegistered(ClassA)))
            == "Couldn't instantiate the type ClassA.\n\t - " + "The type ClassA is not registered."
    ensures Message(CouldNotInstantiate(ClassA, ScopedInGlobalContainer))
            == "Couldn't instantiate the type ClassA.\n\t - " + "Can not instantiate a scoped type in the global container."
    ensures Message(CouldNotInstantiate(ClassA, LifeTimeNotRecognized))
            == "Couldn't instantiate the type ClassA.\n\t - " + "Life time parameter not recognized as a valid life time."
  {
    FramePrefixes();
    NotRegisteredText();
  }

  /** An unregistered type fails with the not-registered message. */
  method UnregisteredFails() returns (message: string)
    ensures message == "Couldn't instantiate the type ClassA.\n\t - " + "The type ClassA is not registered."
  {
    var collection := new DependencyCollection();
    var factory := new Factory(_ => Builds);
    var root := new DependencyContainer.Root("global", collection);
    var r := root.Resolve(ClassA, factory, map[]);
    SingleFrameTexts();
    message := Message(r.error);
  }

  /** `ClassC` depends on `ClassB`, which depends on the unregistered
      `ClassA`: the resolution fails whatever the node, and the failure names
      every frame of the path. */
  lemma ChainFailure(types: Registry, behaviour: ObjectType -> Construction, inRoot: bool, e: Error)
    requires types.Keys == {ClassB, ClassC}
    requires types[ClassB].lifeTime == Transient && types[ClassB].dependencies == [ClassA]
    requires types[ClassC].lifeTime == Transient && types[ClassC].dependencies == [ClassB]
    requires behaviour(ClassB) == Builds && behaviour(ClassC) == Builds
    ensures ResolutionRanked(types, map[ClassA := 0, ClassB := 1, ClassC := 2])
    ensures Doomed(types, map[ClassA := 0, ClassB := 1, ClassC := 2], inRoot, behaviour, ClassC)
    ensures FailureChain(types, behaviour, ClassC, inRoot, e) ==>
              e == CouldNotInstantiate(ClassC, CouldNotInstantiate(ClassB, CouldNotInstantiate(ClassA, NotRegistered(ClassA))))
  {
    var rank := map[ClassA := 0, ClassB := 1, ClassC := 2];
    assert Doomed(types, rank, inRoot, behaviour, ClassA);
    assert Doomed(types, rank, inRoot, behaviour, ClassB) by {
      assert ClassA in types[ClassB].dependencies;
    }
    assert ClassB in types[ClassC].dependencies;
    if FailureChain(types, behaviour, ClassC, inRoot, e) {
      assert ConstructionFailure(types, behaviour, ClassC, inRoot, e.inner);
      assert FailureChain(types, behaviour, ClassB, inRoot, e.inner);
      assert ConstructionFailure(types, behaviour, ClassB, inRoot, e.inner.inner);
      assert FailureChain(types, behaviour, ClassA, inRoot, e.inner.inner) && ClassA !in types;
    }
  }

  lemma ChainText()
    ensures Message(CouldNotInstantiate(ClassC, CouldNotInstantiate(ClassB, CouldNotInstantiate(ClassA, NotRegistered(ClassA)))))
            == "Couldn't instantiate the type ClassC.\n\t - "
               + ("Couldn't instantiate the type ClassB.\n\t - "
                  + ("Couldn't instantiate the type ClassA.\n\t - " + "The type ClassA is not registered."))
  {
    FramePrefixes();
    NotRegisteredText();
  }

  method UnregisteredDependencyFails() returns (message: string)
    ensures message == "Couldn't instantiate the type ClassC.\n\t - "
                       + ("Couldn't instantiate the type ClassB.\n\t - "
                          + ("Couldn't instantiate the type ClassA.\n\t - " + "The type ClassA is not registered."))
  {
    var collection := new DependencyCollection();
    var _ := collection.RegisterTransient(ClassB, [ClassA]);
    var _ := collection.RegisterTransient(ClassC, [ClassB]);
    var factory := new Factory(_ => Builds);
    var root := new DependencyContainer.Root("global", collection);
    ChainFailure(collection.types, factory.behaviour, true, Thrown(""));
    var r := root.Resolve(ClassC, factory, map[ClassA := 0, ClassB := 1, ClassC := 2]);
    ChainFailure(collection.types, factory.behaviour, true, r.error);
    ChainText();
    message := Message(r.error);
  }

  /** The transient `ClassA` and the transient `ClassC` depending on
      `ClassA` and the unregistered `ClassB`, in a new collection. */
  method RegisterWalk() returns (collection: DependencyCollection)
    ensures fresh(collection) && fresh(collection.types.Values)
    ensures collection.types.Keys == {ClassA, ClassC}
    ensures collection.types[ClassA].lifeTime == Transient && collection.types[ClassA].dependencies == []
    ensures collection.types[ClassA].instance == None
    ensures collection.types[ClassC].lifeTime == Transient && collection.types[ClassC].dependencies == [ClassA, ClassB]
    ensures collection.types[ClassC].instance == None
  {
    collection := new DependencyCollection();
    var _ := collection.RegisterTransient(ClassA, []);
    var _ := collection.RegisterTransient(ClassC, [ClassA, ClassB]);
  }

  /** The transient `ClassA`, the singleton `ClassB` depending on `ClassA`,
      and the transient `ClassC` depending on `ClassB` and then `ClassA`, in
      a new collection. */
  method RegisterShared() returns (collection: DependencyCollection)
    ensures fresh(collection) && fresh(collection.types.Values)
    ensures collection.types.Keys == {ClassA, ClassB, ClassC}
    ensures collection.types[ClassA].lifeTime == Transient && collection.types[ClassA].dependencies == []
    ensures collection.types[ClassB].lifeTime == Singleton && collection.types[ClassB].dependencies == [ClassA]
    ensures collection.types[ClassC].lifeTime == Transient && collection.types[ClassC].dependencies == [ClassB, ClassA]
    ensures collection.types[ClassB].instance == None
  {
    collection := new DependencyCollection();
    var _ := collection.RegisterTransient(ClassA, []);
    var _ := collection.RegisterSingleton(ClassB, [ClassA], None);
    var _ := collection.RegisterTransient(ClassC, [ClassB, ClassA]);
  }

  /** A construction of `ClassA`, which has no dependencies, built that one
      object and nothing else. */
  lemma LeafConstruction(types: Registry, log: seq<Record>, start: nat, v: Value)
    requires ClassA in types && types[ClassA].dependencies == []
    requires Constructs(types, log, start, ClassA, v)
    ensures |log| == start + 1 && v == Instance(start) && log[start] == Record(ClassA, [])
  {
  }

  /** A construction of `ClassB` built a new `ClassA` and then `ClassB` from
      it. */
  lemma PairConstruction(types: Registry, log: seq<Record>, start: nat, v: Value)
    requires ClassA in types && types[ClassA].lifeTime == Transient && types[ClassA].dependencies == []
    requires ClassB in types && types[ClassB].dependencies == [ClassA]
    requires Constructs(types, log, start, ClassB, v)
    ensures |log| == start + 2 && v == Instance(start + 1)
    ensures log[start] == Record(ClassA, []) && log[start + 1] == Record(ClassB, [Instance(start)])
  {
    var front, args := Front(log), Last(log).arguments;
    var marks :| Windows(types, front, start, [ClassA], args, marks);
    assert WindowAt(types, front, [ClassA], args, marks, 0);
    assert front[..marks[1]] == front;
    assert Window(types, front, start, ClassA, args[0]);
    assert Constructs(types, front, start, ClassA, args[0]);
    LeafConstruction(types, front, start, args[0]);
  }

  /** Building `ClassC` from an empty log, with no instance for `ClassB`
      yet, builds `ClassA` for the singleton `ClassB`, then `ClassB`, then a
      second `ClassA` for `ClassC`, then `ClassC`; `ClassB` keeps the object
      built for it. */
  lemma SharedLog(s0: State, s1: State, self: object, v: Value)
    requires s0.log == [] && ClassB in s0.instances && s0.instances[ClassB] == None && Grows(s0, s1)
    requires ClassA in s1.types && s1.types[ClassA].lifeTime == Transient && s1.types[ClassA].dependencies == []
    requires ClassB in s1.types && s1.types[ClassB].lifeTime == Singleton
    requires ClassC in s1.types && s1.types[ClassB].dependencies == [ClassA]
    requires s1.types[ClassC].dependencies == [ClassB, ClassA]
    requires NewObject(s0, s1, self, ClassC, v)
    ensures s1.log == [Record(ClassA, []), Record(ClassB, [Instance(0)]),
                       Record(ClassA, []), Record(ClassC, [Instance(1), Instance(2)])]
    ensures s1.instances[ClassB] == Some(Instance(1))
  {
    var types, log := s1.types, s1.log;
    assert Constructs(types, log, 0, ClassC, v);
    var front, args := Front(log), Last(log).arguments;
    var marks :| Windows(types, front, 0, [ClassB, ClassA], args, marks);
    assert Resolved(s1, self, ClassB, args[0]);
    assert BuiltFor(log, 0, ClassB, args[0]);
    assert WindowAt(types, front, [ClassB, ClassA], args, marks, 1);
    assert front[..marks[2]] == front;
    assert Window(types, front, marks[1], ClassA, args[1]);
    assert Constructs(types, front, marks[1], ClassA, args[1]);
    LeafConstruction(types, front, marks[1], args[1]);
    assert WindowAt(types, front, [ClassB, ClassA], args, marks, 0);
    var first := front[..marks[1]];
    assert Window(types, first, 0, ClassB, args[0]);
    assert Constructs(types, first, 0, ClassB, args[0]);
    PairConstruction(types, first, 0, args[0]);
    assert args == [Instance(1), Instance(2)];
    assert log == first + [front[2], Last(log)];
  }

  /** A singleton shared through a deeper dependency is the object built
      for it, and the transient dependency the singleton was built from is
      not the one later given to the dependent. */
  method SharedDependencyIsNotAliased() returns (cached: Option<Value>, built: seq<Record>)
    ensures cached == Some(Instance(1))
    ensures built == [Record(ClassA, []), Record(ClassB, [Instance(0)]),
                      Record(ClassA, []), Record(ClassC, [Instance(1), Instance(2)])]
  {
    var collection := RegisterShared();
    var factory := new Factory(_ => Builds);
    var root := new DependencyContainer.Root("global", collection);
    var rank := map[ClassA := 0, ClassB := 1, ClassC := 2];
    assert Buildable(collection.types, rank, true, factory.behaviour, ClassB);
    assert Buildable(collection.types, rank, true, factory.behaviour, ClassC);
    ghost var s0 := root.Snapshot(factory);
    var r := root.Resolve(ClassC, factory, rank);
    SharedLog(s0, root.Snapshot(factory), root, r.value);
    cached, built := collection.types[ClassB].instance, factory.log;
  }

  /** The dependencies are resolved left to right and the first failure
      ends the walk: the transient `ClassA` before it has been built when the
      unregistered `ClassB` fails, and the error names `ClassB`. */
  method FirstFailureEndsTheWalk() returns (error: Error, built: seq<Record>)
    ensures error == CouldNotInstantiate(ClassB, NotRegistered(ClassB))
    ensures exists i :: 0 <= i < |built| && built[i].objectType == ClassA
    ensures forall i :: 0 <= i < |built| ==> built[i].objectType != ClassC
  {
    var collection := RegisterWalk();
    var factory := new Factory(_ => Builds);
    var root := new DependencyContainer.Root("global", collection);
    var rank := map[ClassA := 0, ClassC := 1];
    assert ClassB in collection.types[ClassC].dependencies && Doomed(collection.types, rank, true, factory.behaviour, ClassB);
    ghost var s0 := root.Snapshot(factory);
    var r, prefix := root.CreateInstance(ClassC, collection.types[ClassC], factory, rank);
    assert s0.log == [];
    StopsAtClassB(root.Snapshot(factory), root, factory.behaviour, prefix, r.error);
    error := r.error;
    built := factory.log;
  }

  /** Of the dependencies `[ClassA, ClassB]` of `ClassC`, only the
      unregistered `ClassB` can fail, so a walk that stops stops there, after
      an object was built for `ClassA`. */
  lemma StopsAtClassB(s: State, self: object, behaviour: ObjectType -> Construction, prefix: seq<Value>, e: Error)
    requires ClassA in s.types && ClassB !in s.types && ClassC in s.types
    requires s.types[ClassA].lifeTime == Transient && s.types[ClassA].dependencies == [] && behaviour(ClassA) == Builds
    requires s.types[ClassC].dependencies == [ClassA, ClassB] && behaviour(ClassC) == Builds
    requires ConstructionFailure(s.types, behaviour, ClassC, true, e)
    requires e.CouldNotInstantiate? ==> FirstFailure(s, self, [ClassA, ClassB], prefix, e)
    ensures e == CouldNotInstantiate(ClassB, NotRegistered(ClassB))
    ensures exists i :: 0 <= i < |s.log| && s.log[i].objectType == ClassA
  {
    if |prefix| == 0 {
      assert !ConstructionFailure(s.types, behaviour, ClassA, true, e.inner);
    }
    assert Resolved(s, self, ClassA, prefix[0]);
  }

  /** The singleton `ClassA` and the transient `ClassC` depending first on
      the unregistered `ClassB` and then on `ClassA`, in a new collection. */
  method RegisterDoomedFirst() returns (collection: DependencyCollection)
    ensures fresh(collection) && fresh(collection.types.Values)
    ensures collection.types.Keys == {ClassA, ClassC}
    ensures collection.types[ClassA].lifeTime == Singleton && collection.types[ClassA].dependencies == []
    ensures collection.types[ClassA].instance == None
    ensures collection.types[ClassC].lifeTime == Transient && collection.types[ClassC].dependencies == [ClassB, ClassA]
    ensures collection.types[ClassC].instance == None
  {
    collection := new DependencyCollection();
    var _ := collection.RegisterSingleton(ClassA, [], None);
    var _ := collection.RegisterTransient(ClassC, [ClassB, ClassA]);
  }

  /** A walk over `[ClassB, ClassA]` that fails stops at the unregistered
      `ClassB`, before it reaches `ClassA`, so it leaves the singleton
      `ClassA` without an instance. */
  lemma StopsBeforeClassA(s0: State, s1: State, self: object, rank: Rank, prefix: seq<Value>, e: Error)
    requires ClassA in s0.types && ClassB !in s0.types && ClassA in s0.instances && s0.instances[ClassA] == None
    requires Grows(s0, s1) && FirstFailure(s1, self, [ClassB, ClassA], prefix, e)
    requires TouchesOnlyFrom(s0, s1, rank, [ClassB, ClassA], |prefix| + 1)
    ensures e.objectType == ClassB && s1.instances[ClassA] == None
  {
    assert forall v :: !Resolved(s1, self, ClassB, v);
    assert |prefix| > 0 ==> Resolved(s1, self, [ClassB, ClassA][0], prefix[0]);
    assert !Reaches(s0.types, rank, ClassB, ClassA);
    assert !Touched(s0, s1, ClassA);
  }

  /** A failure ends the walk before the later dependencies: the
      unregistered first dependency of `ClassC` fails, and the singleton
      second one is left unbuilt and uncached. */
  method FailureLeavesLaterSingletonAlone() returns (failed: bool, cached: Option<Value>)
    ensures failed && cached == None
  {
    var collection := RegisterDoomedFirst();
    var factory := new Factory(_ => Builds);
    var root := new DependencyContainer.Root("global", collection);
    var rank := map[ClassA := 0, ClassC := 1];
    assert ClassB in collection.types[ClassC].dependencies && Doomed(collection.types, rank, true, factory.behaviour, ClassB);
    ghost var s0 := root.Snapshot(factory);
    var r, prefix := root.CreateInstance(ClassC, collection.types[ClassC], factory, rank);
    StopsBeforeClassA(s0, root.Snapshot(factory), root, rank, prefix, r.error);
    failed := r.Failure?;
    cached := collection.types[ClassA].instance;
  }

  /** A scoped type cannot be resolved on the root. */
  method ScopedInRootFails() returns (message: string)
    ensures message == "Couldn't instantiate the type ClassA.\n\t - " + "Can not instantiate a scoped type in the global container."
  {
    var collection := RegisterOne(ClassA, Scoped, []);
    var factory := new Factory(_ => Builds);
    var root := new DependencyContainer.Root("global", collection);
    var r := root.Resolve(ClassA, factory, map[ClassA := 0]);
    SingleFrameTexts();
    message := Message(r.error);
  }

  /** Nor can a transient type that depends on one. */
  lemma ScopedDependencyInRoot(types: Registry, behaviour: ObjectType -> Construction, e: Error)
    requires types.Keys == {ClassA, ClassB}
    requires types[ClassA].lifeTime == Scoped && types[ClassA].dependencies == []
    requires types[ClassB].lifeTime == Transient && types[ClassB].dependencies == [ClassA]
    requires behaviour(ClassA) == Builds && behaviour(ClassB) == Builds
    ensures ResolutionRanked(types, map[ClassA := 0, ClassB := 1])
    ensures Doomed(types, map[ClassA := 0, ClassB := 1], true, behaviour, ClassB)
    ensures FailureChain(types, behaviour, ClassB, true, e) ==>
              e == CouldNotInstantiate(ClassB, CouldNotInstantiate(ClassA, ScopedInGlobalContainer))
  {
    assert ClassA in types[ClassB].dependencies;
    if FailureChain(types, behaviour, ClassB, true, e) {
      assert ConstructionFailure(types, behaviour, ClassB, true, e.inner);
      assert FailureChain(types, behaviour, ClassA, true, e.inner);
      assert !ConstructionFailure(types, behaviour, ClassA, true, e.inner.inner);
    }
  }

  lemma ScopedDependencyText()
    ensures Message(CouldNotInstantiate(ClassB, CouldNotInstantiate(ClassA, ScopedInGlobalContainer)))
            == "Couldn't instantiate the type ClassB.\n\t - "
               + ("Couldn't instantiate the type ClassA.\n\t - "
                  + "Can not instantiate a scoped type in the global container.")
  {
    FramePrefixes();
  }

  method ScopedDependencyInRootFails() returns (message: string)
    ensures message == "Couldn't instantiate the type ClassB.\n\t - "
                       + ("Couldn't instantiate the type ClassA.\n\t - "
                          + "Can not instantiate a scoped type in the global container.")
  {
    var collection := RegisterPair(Scoped, Transient);
    var factory := new Factory(_ => Builds);
    var root := new DependencyContainer.Root("global", collection);
    ScopedDependencyInRoot(collection.types, factory.behaviour, Thrown(""));
    var r := root.Resolve(ClassB, factory, map[ClassA := 0, ClassB := 1]);
    ScopedDependencyInRoot(collection.types, factory.behaviour, r.error);
    ScopedDependencyText();
    message := Message(r.error);
  }

  /** A lifetime outside the enumeration is refused when resolving. */
  method UnrecognizedLifeTimeFails() returns (message: string)
    ensures message == "Couldn't instantiate the type ClassA.\n\t - " + "Life time parameter not recognized as a valid life time."
  {
    var collection := RegisterOne(ClassA, Unrecognized(-1), []);
    var factory := new Factory(_ => Builds);
    var root := new DependencyContainer.Root("global", collection);
    var r := root.Resolve(ClassA, factory, map[ClassA := 0]);
    SingleFrameTexts();
    message := Message(r.error);
  }

  /** The exception raised by the construction is the cause of the failure. */
  lemma PlainObjectFailure(types: Registry, behaviour: ObjectType -> Construction, e: Error)
    requires PlainObject in types && types[PlainObject].lifeTime == Transient && types[PlainObject].dependencies == []
    requires behaviour(PlainObject) == Throws(BindError)
    ensures Doomed(types, map[PlainObject := 0], true, behaviour, PlainObject)
    ensures FailureChain(types, behaviour, PlainObject, true, e) ==> e == CouldNotInstantiate(PlainObject, Thrown(BindError))
  {
    if FailureChain(types, behaviour, PlainObject, true, e) {
      assert ConstructionFailure(types, behaviour, PlainObject, true, e.inner);
    }
  }

  lemma PlainObjectText()
    ensures Message(CouldNotInstantiate(PlainObject, Thrown(BindError)))
            == "Couldn't instantiate the type Object.\n\t - " + "Bind must be called on a function"
  {
    FramePrefixes();
  }

  method PlainObjectFails() returns (message: string)
    ensures message == "Couldn't instantiate the type Object.\n\t - " + "Bind must be called on a function"
  {
    var collection := RegisterOne(PlainObject, Transient, []);
    var factory := new Factory(_ => Throws(BindError));
    var root := new DependencyContainer.Root("global", collection);
    PlainObjectFailure(collection.types, factory.behaviour, Thrown(""));
    var r := root.Resolve(PlainObject, factory, map[PlainObject := 0]);
    PlainObjectFailure(collection.types, factory.behaviour, r.error);
    PlainObjectText();
    message := Message(r.error);
  }
}
