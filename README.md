# Paradigm.Web.DI: registry and resolution, modelled in Dafny

This project models the core of a small TypeScript dependency-injection library:
- the dependency descriptor;
- the dependency collection (registration, lookup and validation of the dependency graph);
- the dependency container (a tree of scopes that resolves a type to an instance according to its lifetime);
- the function that names a type in diagnostics.

The model follows the source's branches, error conditions and messages. Object construction is an explicit oracle. The proofs state properties of this model: what each operation returns, how the state may change, and what the configurations of the repository's tests lead to.

Modules, one per source file, plus the shared pieces:

- `ObjectTypes` (`object_type.dfy`): the values the library accepts as keys, and `GetObjectTypeName`.
- `Descriptors` (`dependency_descriptor.dfy`): the lifetimes, the resolved values, and the `DependencyDescriptor` class. Its `instance` field is the only field written after construction.
- `Errors` (`errors.dfy`): every error the core throws, with its exact message text. This includes the validation problems and the "Couldn't instantiate" wrapper.
- `Collections` (`dependency_collection.dfy`): the `DependencyCollection` class and its operations.
  - `Register` and its three lifetime shorthands, `Get`, `Contains`, and the looping `ValidateType` and `Validate`.
  - Each is proved against the ghost functions `TypeProblems` and `AllProblems`.
  - Lemmas say what those problems mean.
- `Containers` (`dependency_container.dfy`): the construction oracle `Factory` and the `DependencyContainer` class.
  - `Resolve` is a recursive method, mutually recursive with the walk over the dependencies, that writes singleton instances into the shared descriptors and scoped instances into the node's own map.
  - It is proved against value-level snapshots of the state it observes.
- `Scenarios` (`scenarios.dfy`): the configurations of the repository's tests, each with the outcome the model proves for it.

Objects are identified as follows:
- A key is an `ObjectType`: `Null`, `Undefined`, or an `Object` with an identity and the two names that `getObjectTypeName` inspects.
- An `Object`'s identity is its `id`; equality of keys is the source's `===` on references.
- `resolve` compares the requested key with `DependencyContainer.constructor`. For a class, that is the global `Function`. The model names this key `FunctionConstructor`.
- Building an object goes through the `Factory` oracle. Its fixed `behaviour` says, per type, whether the construction builds an object, yields nothing, or throws a given message.
- Each built object is `Instance(i)`, where `i` is its position in the oracle's log. The log entry records the type and the arguments it was built from, so identity ("the same instance") and freshness ("a new instance") are statements about log positions.
- An object the caller supplies at registration is `Supplied(i)`, so it is never mistaken for one the oracle built.
- No two registered keys share a descriptor (`Unshared`). Registration always creates a fresh one, and resolution relies on this when it writes a singleton's instance.

The recursions have no visited set, so termination rests on a ghost ranking:
- `Resolve` takes a `rank` under which every registered dependency ranks below its dependent (`ResolutionRanked`).
- `ValidateType` and `Validate` take one under which this holds only for dependencies before the first self-dependency (`ValidationRanked`). This is because `validateType` returns at a self-dependency.

## Model

How `resolve` and `createInstance` map onto the methods:
- `resolve`'s switch is `ResolveRegistered`, whose branches are `ResolveSingleton`, `ResolveScoped` and `ResolveTransient`. The cache writes are `StoreInstance` and `StoreScoped`.
- The `map` over the dependency list is the loop in `ResolveDependencies`, which resolves the dependencies left to right as the `map` does and stops at the first failure, as the exception does; its callback is `ResolveArgument`.
- `new` and the falsy check after it (src/dependency-container.ts:97-100) are the method `Instantiate`.
- Each built object is a position in the oracle's log. What a resolution built is a segment of the log. `Constructs` says that such a segment is exactly the construction of one object: the last entry, preceded by one consecutive window per dependency, in order, each holding what that argument's resolution built. `Window` allows a segment to be empty when the value was cached or is the node itself, but never for a transient type.

| member | source | states |
|---|---|---|
| ObjectTypes.GetObjectTypeName | src/object-type.ts:3-15 | Always non-empty: "null object" for null and undefined, else the value's own non-empty name, else its constructor's non-empty name, else "unknown type". |
| Descriptors.DependencyDescriptor.constructor | src/dependency-descriptor.ts:6-11 | Stores lifetime, dependency list and instance exactly as passed, with any lifetime; lifetime and dependencies are constants. |
| Errors.ProblemText | src/dependency-collection.ts:79-97 | Every validation problem renders as a non-empty line. |
| Errors.MessageIsFramesThenCause | src/dependency-container.ts:88-91 | A resolution failure's message is one "Couldn't instantiate the type N." prefix per wrapping frame, outermost first, followed by the root cause's message. |
| Errors.ProblemsTextAppend | src/dependency-collection.ts:59-64 | Rendering distributes over concatenation, so appending texts in the loop is rendering the appended problem lists. |
| Errors.ProblemsTextEmpty | src/dependency-collection.ts:66-69 | The rendered text is empty exactly when there are no problems. |
| Collections.DependencyCollection.constructor | src/dependency-collection.ts:10-13 | A new collection is empty. |
| Collections.DependencyCollection.Contains | src/dependency-collection.ts:52-55 | True exactly when the type is registered; it never fails and changes nothing. |
| Collections.DependencyCollection.Get | src/dependency-collection.ts:44-50 | The stored descriptor exactly when `Contains` holds, else the not-registered error for that type. |
| Collections.DependencyCollection.Register | src/dependency-collection.ts:15-27 | Duplicate check first (already-registered error); then an instance on a non-singleton is refused; a failure changes nothing; a success adds exactly one fresh descriptor with the given lifetime, dependencies and instance, appends the type to the insertion order and leaves every other entry alone. |
| Collections.DependencyCollection.RegisterTransient | src/dependency-collection.ts:29-32 | Exactly `Register` with the transient lifetime and no instance. |
| Collections.DependencyCollection.RegisterScoped | src/dependency-collection.ts:34-37 | Exactly `Register` with the scoped lifetime and no instance. |
| Collections.DependencyCollection.RegisterSingleton | src/dependency-collection.ts:39-42 | Exactly `Register` with the singleton lifetime and the given instance. |
| Collections.DependencyCollection.ValidateType | src/dependency-collection.ts:72-102 | The loop returns `TypeProblems`: a self-dependency yields exactly the single circular-dependency problem, dropping what came before; otherwise, per dependency in order, the unregistered problem, or the dependency's own problems followed by the scoped-from-singleton problem. |
| Collections.DependencyCollection.Validate | src/dependency-collection.ts:57-70 | Fails exactly when the problems of all registered types, in registration order, are non-empty; the error carries them, its message is the header followed by the concatenated `validateType` texts; it fails exactly when some registered type is not locally valid; nothing changes. |
| Collections.ProblemsAreGenuine | src/dependency-collection.ts:77-98 | Every reported problem is a real defect of the registry (a self-dependency, an unregistered dependency, a singleton consuming a scoped type). |
| Collections.DependencyProblemsPropagate | src/dependency-collection.ts:88-91 | Without a self-dependency, every problem of a registered dependency is reported again by its dependent. |
| Collections.EdgesProblemsEmpty | src/dependency-collection.ts:77-99 | The dependencies report nothing exactly when each edge reports nothing. |
| Collections.NoProblemsIff | src/dependency-collection.ts:77-98 | A type reports nothing exactly when it is locally valid and none of its registered dependencies reports anything. |
| Collections.LocallyValidEverywhere | src/dependency-collection.ts:72-102 | When every registered type is locally valid, every type reports nothing. |
| Collections.ValidIffLocallyValid | src/dependency-collection.ts:57-70 | The registry reports nothing exactly when every registered type is locally valid. |
| Collections.AllProblemsEmpty | src/dependency-collection.ts:61-66 | The collected problems are empty exactly when every visited type reports nothing. |
| Collections.AllProblemsText | src/dependency-collection.ts:59-64 | The rendered problems equal the string built by appending each `validateType` text. |
| Collections.TypeProblemsRankIndependent | src/dependency-collection.ts:72-102 | The problems a type reports do not depend on the ghost ranking used to define them. |
| Containers.Factory.Construct | src/dependency-container.ts:96-100 | Builds a new object numbered by the log and records its type and arguments, or yields nothing, or fails with the thrown message, as the type's behaviour says; only a build changes the log. |
| Containers.BuildableExcludesDoomed | src/dependency-container.ts:41-92 | No type is both certain to resolve and certain to fail. |
| Containers.ChainIsDependencyPath | src/dependency-container.ts:88-101 | The frames of a failure start at the requested type and follow dependency edges; the root cause arose at the last frame (unregistered, scoped in the root, unknown lifetime, construction yielding nothing, or the construction's own exception). |
| Containers.DependencyContainer.Root | src/dependency-container.ts:29-34 | A node without a parent, with an empty scoped map. |
| Containers.DependencyContainer.Child | src/dependency-container.ts:29-34 | A node under the given parent, sharing its collection, with an empty scoped map. |
| Containers.DependencyContainer.CreateScopedInjector | src/dependency-container.ts:36-39 | A new node whose parent is the receiver, with the given name and an empty scoped map. |
| Containers.DependencyContainer.GetInstance | src/dependency-container.ts:105-114 | The node's own entry when it has one; `None` exactly when no node up to the root holds one; otherwise the entry of the nearest ancestor that holds one. |
| Containers.DependencyContainer.Resolve | src/dependency-container.ts:41-92 | The sentinel yields this node and changes nothing. An unregistered type fails with the not-registered cause and changes nothing. Otherwise it dispatches by lifetime as `ResolveRegistered` does. A success denotes the cached or built object, and the objects logged during the call are exactly its construction (`Window`): none when it was cached or is the sentinel, and always one when the type is transient. A failure is a chain of frames. The state only grows. Every scoped entry or singleton instance that appears, by nested resolutions too, is an object built during the call for its own type. It builds objects, adds scoped entries and sets singleton instances only for types reachable from the requested one. Only scoped types get entries and only singleton types get instances. Ancestors are untouched. It succeeds whenever every reachable type builds under an accepted lifetime. It fails whenever the failure is certain, and whenever the type must be built and its constructor does not build or one of its dependencies is certain to fail. |
| Containers.DependencyContainer.ResolveRegistered | src/dependency-container.ts:51-86 | The switch on a registered type's lifetime: the singleton, scoped or transient branch, or the unknown-lifetime cause with nothing changed, with the same guarantees as `Resolve`, including that what it logs is exactly the construction of the result and that every new entry or instance is an object built for its own type. |
| Containers.DependencyContainer.ResolveSingleton | src/dependency-container.ts:58-62 | A held instance is returned and nothing is built or changed. Otherwise a success is an object built during the call for this type, from the resolutions of its dependencies. The objects logged during the call are exactly its construction (`Constructs`): one consecutive window per dependency, in order, each the construction of that argument, or empty when it was cached. So each transient argument is a distinct object built for its own dependency. The object is stored on the shared descriptor. Every other instance or entry that nested resolutions add is an object built for its own type. A failure leaves the descriptor without an instance and builds nothing for the type. A miss fails whenever the constructor does not build or a dependency is certain to fail. Only reachable types are touched. |
| Containers.DependencyContainer.StoreInstance | src/dependency-container.ts:60 | Sets the descriptor's instance and changes nothing else of the observed state. |
| Containers.DependencyContainer.ResolveScoped | src/dependency-container.ts:69-76 | Fails with the global-container cause on the root. Otherwise it returns this node's entry unchanged, building nothing. On a miss, a success is an object built during the call for this type, from the resolutions of its dependencies, and the objects logged during the call are exactly its construction, one window per dependency in order. It is stored in this node's map only. Entries and instances that nested resolutions add are objects built for their own types. A failure adds no entry and builds nothing for the type. A miss fails whenever the constructor does not build or a dependency is certain to fail. |
| Containers.DependencyContainer.StoreScoped | src/dependency-container.ts:74 | Adds the entry to this node's map and changes nothing else of the observed state. |
| Containers.DependencyContainer.ResolveTransient | src/dependency-container.ts:81-82 | A success is an object built during the call for this type, from the resolutions of its dependencies. The objects logged during the call are exactly its construction, one window per dependency in order, so each transient argument is a distinct object built for its own dependency. It never adds a scoped entry or an instance for the type itself. Entries and instances that nested resolutions add are objects built for their own types. A failure builds nothing for the type. It fails whenever the constructor does not build or a dependency is certain to fail. |
| Containers.DependencyContainer.CreateInstance | src/dependency-container.ts:94-103 | The new object is built from arguments that each denote the resolution of the matching dependency on this node. The objects logged during the call are exactly its construction (`Constructs`): it is the last one, and before it each dependency's resolution built its own consecutive window, in dependency order. A failure is a dependency's failure, the nothing-built error, or the construction's exception. A dependency's failure is the first one: it names the dependency at the end of the resolved prefix. On that failure nothing is built for the type, and only types reached from the dependencies up to the failing one are touched. |
| Containers.DependencyContainer.ResolveArgument | src/dependency-container.ts:96 | The callback `x => this.resolve(x)` for the dependency after the resolved prefix. A success extends the prefix with the dependency's resolution. The objects logged during the call are exactly that resolution's construction, or none when it was cached, and for a transient dependency always a new object built in this call. That window is appended to the prefix's windows. A failure is a chain that starts at that dependency and is the walk's first failure. Either way the walk has touched only types reached from the dependencies up to this one. |
| Containers.DependencyContainer.Instantiate | src/dependency-container.ts:97-100 | Succeeds exactly when the type's behaviour builds. The result is then the object the oracle logs next, and only the log changes. Otherwise the error is the nothing-built error or the thrown message, and nothing changes. |
| Containers.DependencyContainer.ResolveDependencies | src/dependency-container.ts:96 | The loop resolves the dependencies left to right on this node: one argument per dependency, each denoting its resolution. The ghost `marks` split the objects logged during the walk into one consecutive window per dependency, in order. Each window is the construction of that argument, or empty when it was cached. The first failure ends the walk. It is a chain starting at the dependency after the resolved prefix, and the walk has touched only types reached from the dependencies up to that one. |
| Containers.WalkStep | src/dependency-container.ts:96 | One step of the walk: a success extends the resolved prefix and its windows by the step's own window, a failure ends the walk there, and what the walk touched stays within what the dependencies up to this one reach. |
| Containers.TouchesBelow | src/dependency-container.ts:94-103 | What the walk over a type's dependencies touches, the type reaches, and the type itself is not among it. |
| Containers.NotReachedFromDependencies | src/dependency-container.ts:96 | Under the ranking, no dependency of a type reaches the type back. |
| Containers.ConstructedArguments | src/dependency-container.ts:94-97 | In a construction, the argument for each transient dependency is an object built during it, before the dependent, and for two transient dependencies the earlier one's argument was built first, so no two of them are the same object. |
| Scenarios.TransientIsNewEachTime | tests/dependency-container.test.ts:14-30 | Two resolutions of a transient type give different objects. |
| Scenarios.NothingCached | src/dependency-container.ts:81-82 | A step that fills caches only by lifetime leaves a registry holding only a transient type without entries or instances. |
| Scenarios.TransientIsNotCached | src/dependency-container.ts:81-82 | Resolving a transient type in a child leaves the child's map empty and the descriptor without an instance. |
| Scenarios.FailedSingletonIsNotCached | src/dependency-container.ts:59-60 | A singleton whose constructor throws fails on the root and leaves its descriptor without an instance. |
| Scenarios.FailedScopedIsNotCached | src/dependency-container.ts:73-74 | A scoped type whose constructor throws fails in a child and gets no entry in the child's map. |
| Scenarios.SingletonIsShared | tests/dependency-container.test.ts:32-48 | Two resolutions of a singleton give the same object. |
| Scenarios.ScopedIsSharedInItsScope | tests/dependency-container.test.ts:50-66 | Two resolutions of a scoped type in a child give the same object, which `GetInstance` finds there, while the root's map stays empty. |
| Scenarios.SingletonArgumentIsCached | src/dependency-container.ts:58-62 | A singleton dependency is passed as the instance the descriptor already held. |
| Scenarios.SingletonReachesChildScope | tests/dependency-container.test.ts:68-95 | A transient type resolved in a child is built from the singleton the root built before. |
| Scenarios.SingletonIsBuiltForItsType | src/dependency-container.ts:58-62 | On a cache miss, a singleton depending on a transient type is given the object built for itself. |
| Scenarios.ScopedIsBuiltForItsType | src/dependency-container.ts:73-76 | On a cache miss in a child, a scoped type depending on a transient type is given the object built for itself. |
| Scenarios.TransientArgumentsAreNew | src/dependency-container.ts:81-82 | Two resolutions of a transient type with a transient dependency are built from different arguments, each built during its own resolution. |
| Scenarios.ScopedArgumentIsNew | src/dependency-container.ts:73-76 | A scoped dependency on a node whose map held no entry for it is a newly built object. |
| Scenarios.ScopedIsNotInherited | tests/dependency-container.test.ts:97-125 | A grandchild builds its own scoped instance rather than reusing its parent's. |
| Scenarios.ContainerArgument | src/dependency-container.ts:45-46 | A dependency recorded as the sentinel is passed as the resolving node. |
| Scenarios.ContainerIsInjected | tests/dependency-container.test.ts:189-210 | The root receives the root and the child receives the child. |
| Scenarios.DuplicateRegistrationFails | tests/dependency-collection.test.ts:63-68 | A second registration fails with "The type ClassA is already registered." |
| Scenarios.InstanceNeedsSingleton | tests/dependency-collection.test.ts:50-61 | An instance is refused for a transient type and accepted for a singleton. |
| Scenarios.ScopedFromSingletonIsReported | tests/dependency-collection.test.ts:161-179 | Validation fails with exactly the one scoped-from-singleton problem. |
| Scenarios.UnregisteredFails | tests/dependency-container.test.ts:127-137 | The exact not-registered message, with one frame. |
| Scenarios.ChainFailure | tests/dependency-container.test.ts:139-153 | The chain C, B, A with A unregistered is certain to fail, and its only failure is the three-frame chain. |
| Scenarios.UnregisteredDependencyFails | tests/dependency-container.test.ts:139-153 | The exact three-frame message. |
| Scenarios.FirstFailureEndsTheWalk | src/dependency-container.ts:96 | With the dependencies `[ClassA, ClassB]` and `ClassB` unregistered, the failure names `ClassB`, after an object was built for `ClassA`, and nothing is built for the dependent `ClassC`. |
| Scenarios.StopsAtClassB | src/dependency-container.ts:96 | Of those two dependencies only `ClassB` can fail, so the walk stops there, after one resolution. |
| Scenarios.StopsBeforeClassA | src/dependency-container.ts:96 | A failed walk over `[ClassB, ClassA]` with `ClassB` unregistered stops at `ClassB` and leaves the singleton `ClassA` without an instance. |
| Scenarios.FailureLeavesLaterSingletonAlone | src/dependency-container.ts:96 | The dependent of `[ClassB, ClassA]` fails, and the singleton `ClassA` after the failing dependency is not built or cached. |
| Scenarios.LeafConstruction | src/dependency-container.ts:94-97 | Constructing a type without dependencies builds that one object and nothing else. |
| Scenarios.PairConstruction | src/dependency-container.ts:94-97 | Constructing a type whose one dependency is transient builds a new object for the dependency, then the type from it. |
| Scenarios.SharedLog | src/dependency-container.ts:58-97 | With `ClassA` transient, `ClassB` a singleton of `[ClassA]` and `ClassC` transient of `[ClassB, ClassA]`, building `ClassC` from an empty log logs exactly `ClassA`, `ClassB` from object 0, `ClassA`, and `ClassC` from objects 1 and 2, and the singleton keeps object 1. |
| Scenarios.SharedDependencyIsNotAliased | src/dependency-container.ts:58-97 | Resolving that `ClassC` on the root caches for `ClassB` the object built for `ClassB`, and gives `ClassC` a different `ClassA` from the one `ClassB` was built from. |
| Scenarios.ScopedInRootFails | tests/dependency-container.test.ts:155-166 | The exact global-container message. |
| Scenarios.ScopedDependencyInRoot | tests/dependency-container.test.ts:168-187 | A transient type with a scoped dependency is certain to fail on the root, and its only failure is the two-frame chain. |
| Scenarios.ScopedDependencyInRootFails | tests/dependency-container.test.ts:168-187 | The exact two-frame message. |
| Scenarios.UnrecognizedLifeTimeFails | tests/dependency-container.test.ts:212-222 | The exact unknown-lifetime message for the lifetime -1. |
| Scenarios.PlainObjectFailure | tests/dependency-container.test.ts:224-231 | A plain object whose construction throws is certain to fail, with that exception as the cause. |
| Scenarios.PlainObjectFails | tests/dependency-container.test.ts:224-231 | The exact message, naming the object by its constructor, "Object". |

## Where the tests and the code disagree

The repository's tests appear to have been written against a different version of the library. The model follows the code.
- tests/dependency-container.test.ts:97-125 expects a grandchild scope to reuse its parent's scoped instance. Scoped instances are cached only in the resolving node's own map (src/dependency-container.ts:73-76), so the grandchild builds its own. `Scenarios.ScopedIsNotInherited` proves this.
- tests/dependency-container.test.ts:189-210 injects a parameter whose recorded type is the `DependencyContainer` class. `resolve` compares with `DependencyContainer.constructor` (src/dependency-container.ts:45), which is `Function`. `Scenarios.ContainerIsInjected` therefore records the parameter's type as that sentinel.
- The tests' messages separate frames with a newline followed by " - ". The code uses a newline, a tab, and " - " (src/dependency-container.ts:90). The validation header in the code is "There are errors on the dependency configuration:" (src/dependency-collection.ts:68). The model uses the code's texts.

## Left out

- Reflection metadata: the dependency list that `register` reads with `Reflect.getMetadata` is an explicit parameter of `Register` and its shorthands.
- Object construction through `Function.prototype.bind.apply` is the `Factory` oracle. Its per-type behaviour is fixed, and so is the rule that it numbers new objects by its log.
- In JavaScript `new` always yields an object. The "yields nothing" behaviour exists so that the check at src/dependency-container.ts:99-100 is modelled as written.
- `src/injectable.ts` (the decorator), `src/index.ts` (re-exports) and `src/dependency-descriptor-map.ts` (a type alias, folded into `Registry`) are not part of this model.
- The lazily created `globalContainer` static (src/dependency-container.ts:13-21) is not modelled; a root is built explicitly with `Root`.
- The module-level `dependencyCollection` (src/dependency-collection.ts:105) that every container reads becomes the `collection` field. It is given to the root and shared by every descendant.
- Collections.DependencyCollection.Register: registering `null` or `undefined` succeeds in the model when it passes the duplicate and instance checks. In the source, `Reflect.hasMetadata` (src/dependency-collection.ts:24) throws a `TypeError` for a target that is not an object, and nothing is registered.
- Containers.DependencyContainer.Resolve: the oracle's outcome depends only on the type being built. A real constructor given a container as an argument could itself resolve or register types. `TouchesOnly`, `Grows` and `unchanged(above)` hold only under this assumption.
- Falsy instances (`0`, `""`, `false`) are not distinguished from a missing one: `instance` is an `Option`, so the truthiness checks are `Some`/`None`.
- Primitive keys other than `null` and `undefined` are not represented: `ObjectType` has no numbers, strings or booleans. The falsy ones (`0`, `""`, `false`, `NaN`) would get "null object" from `getObjectTypeName`'s `!objectType` test (src/object-type.ts:5-6), and the others would be named by their wrapper's constructor.
- An exception that is not an `Error`, whose `message` the wrapper would read as `undefined`, is not modelled. Thrown messages are strings.
- APIs that exist only in the tests (`buildContainer`, `globalCollection`, `createFromCollection` and the per-node reports for longer cycles) are not part of this model.
- Containers.DependencyContainer.Resolve: requires a ghost ranking under which every registered dependency ranks below its dependent, so the registry has no cycle. The model makes no claim about registries with cycles. On a cycle the source may recurse until the JavaScript stack overflows, but it can also stop earlier:
  - the cycle reaches a singleton whose descriptor already holds an instance, or a scoped type already cached in the resolving node, and the source returns the cached object (src/dependency-container.ts:59-62, 73-76);
  - the cycle reaches a scoped type while resolving on the root, which throws (src/dependency-container.ts:70-71);
  - the cycle reaches a type with an unknown lifetime, which throws (src/dependency-container.ts:85);
  - a dependency listed before the cyclic edge fails, so the `map` at src/dependency-container.ts:96 throws before it reaches that edge. An example is A: [X, A] with X unregistered.
- Collections.DependencyCollection.ValidateType: requires a ghost ranking under which the dependencies listed before a type's first self-dependency rank below the type. The source returns at a self-dependency (src/dependency-collection.ts:79-82) without visiting the later dependencies, so a cycle such as A: [A, B], B: [A] ends there. On a cycle along the edges before the first self-dependency, the source recurses until the JavaScript stack overflows and a `RangeError` is thrown. The model represents neither the recursion nor the error, and makes no claim about such cycles.
- Collections.DependencyCollection.Validate: requires that the ranking cover every registered type, for the same reason.
- Containers.DependencyContainer.Resolve: for the returned object, its arguments are stated to be the resolutions of its dependencies (`BuiltFrom`). For the objects built by nested resolutions, only the types and the windows of their arguments are stated (`Constructs`): an argument that came from a cache, inside such a nested construction, is not tied to that cache. A value already cached before the call is returned as it is, whatever it denotes, as the source does.
- Containers.DependencyContainer.Resolve: success and failure are predicted only for types whose outcome does not depend on what is cached (`Buildable`, `Doomed`). Otherwise the outcome is stated per lifetime, as the source's cache checks decide it.
