/** The errors the collection and the container throw, with the exact text of
    each message (src/dependency-collection.ts, src/dependency-container.ts). */
module Errors {
  import opened ObjectTypes

  /** One finding of the validation pass; each renders as one line. */
  datatype Problem =
    | CircularDependency(objectType: ObjectType)
    | UnregisteredDependency(dependent: ObjectType, dependency: ObjectType)
    | ScopedFromSingleton(scoped: ObjectType, singleton: ObjectType)

  /** Every error the core throws. `Thrown` is an exception raised by the
      construction of an object itself; `CouldNotInstantiate` is the wrapper
      every `resolve` frame puts around a failure. */
  datatype Error =
    | AlreadyRegistered(objectType: ObjectType)
    | InstanceOnNonSingleton
    | NotRegistered(objectType: ObjectType)
    | InvalidConfiguration(problems: seq<Problem>)
    | ScopedInGlobalContainer
    | LifeTimeNotRecognized
    | UnableToInstantiate(objectType: ObjectType)
    | Thrown(message: string)
    | CouldNotInstantiate(objectType: ObjectType, inner: Error)

  function ProblemText(p: Problem): (s: string)
    ensures |s| > 0
  {
    match p
    case CircularDependency(t) =>
      " - Circular dependency found in '" + GetObjectTypeName(t) + "'.\n"
    case UnregisteredDependency(dependent, dependency) =>
      " - The type '" + GetObjectTypeName(dependent) + "' depends on the type '"
      + GetObjectTypeName(dependency) + "' but the latter is not registered.\n"
    case ScopedFromSingleton(scoped, singleton) =>
      " - Cannot consume scoped type '" + GetObjectTypeName(scoped) + "' from singleton '"
      + GetObjectTypeName(singleton) + "'.\n"
  }

  /** The validation text: the lines of the problems, in order. */
  function ProblemsText(ps: seq<Problem>): string
  {
    if ps == [] then "" else ProblemText(ps[0]) + ProblemsText(ps[1..])
  }

  const ConfigurationHeader: string := "There are errors on the dependency configuration:\n"

  /** The text `resolve` puts in front of a failure of the type `t`. */
  function FramePrefix(t: ObjectType): string
  {
    "Couldn't instantiate the type " + GetObjectTypeName(t) + ".\n\t - "
  }

  /** The message of the JavaScript `Error` the core throws. */
  function Message(e: Error): string
  {
    match e
    case AlreadyRegistered(t) => "The type " + GetObjectTypeName(t) + " is already registered."
    case InstanceOnNonSingleton => "Only the singletons can be registered with an existing instance."
    case NotRegistered(t) => "The type " + GetObjectTypeName(t) + " is not registered."
    case InvalidConfiguration(ps) => ConfigurationHeader + ProblemsText(ps)
    case ScopedInGlobalContainer => "Can not instantiate a scoped type in the global container."
    case LifeTimeNotRecognized => "Life time parameter not recognized as a valid life time."
    case UnableToInstantiate(t) => "Unable to instantiate the type " + GetObjectTypeName(t)
    case Thrown(m) => m
    case CouldNotInstantiate(t, inner) => FramePrefix(t) + Message(inner)
  }

  /** The types named by the nested `CouldNotInstantiate` wrappers, outermost first. */
  function Frames(e: Error): seq<ObjectType>
  {
    if e.CouldNotInstantiate? then [e.objectType] + Frames(e.inner) else []
  }

  /** The innermost error, below every wrapper. */
  function Cause(e: Error): (c: Error)
    ensures !c.CouldNotInstantiate?
  {
    if e.CouldNotInstantiate? then Cause(e.inner) else e
  }

  function Prefixes(frames: seq<ObjectType>): string
  {
    if frames == [] then "" else FramePrefix(frames[0]) + Prefixes(frames[1..])
  }

  /** A failure's message is one prefix per frame, outermost first, followed by
      the message of the root cause. */
  lemma {:induction false} MessageIsFramesThenCause(e: Error)
    ensures Message(e) == Prefixes(Frames(e)) + Message(Cause(e))
  {
    if e.CouldNotInstantiate? {
      MessageIsFramesThenCause(e.inner);
      var fs := Frames(e);
      assert fs[0] == e.objectType && fs[1..] == Frames(e.inner);
    }
  }

  /** Rendering distributes over concatenation, so the text built by appending
      strings in a loop is the text of the appended problem lists. */
  lemma {:induction false} ProblemsTextAppend(a: seq<Problem>, b: seq<Problem>)
    ensures ProblemsText(a + b) == ProblemsText(a) + ProblemsText(b)
  {
    if a == [] {
      assert a + b == b;
    } else {
      var head, rest := a[0], a[1..];
      assert (a + b)[0] == head && (a + b)[1..] == rest + b;
      assert ProblemsText(a + b) == ProblemText(head) + ProblemsText(rest + b);
      assert ProblemsText(a) == ProblemText(head) + ProblemsText(rest);
      ProblemsTextAppend(rest, b);
    }
  }

  /** The text is empty exactly when there are no problems. */
  lemma ProblemsTextEmpty(ps: seq<Problem>)
    ensures ProblemsText(ps) == "" <==> ps == []
  {
  }
}
