/** What the collection stores for every registered type
    (src/dependency-descriptor.ts). */
module Descriptors {
  import opened Wrappers
  import opened ObjectTypes

  /** The lifetime of a registration: the three members of the source's
      enumeration, and `Unrecognized` for any other value a caller passes,
      such as -1. An `Unrecognized` code is never one of the three members'
      values; the enumeration's declaration is not part of this model, so
      those values are not written out. */
  datatype DependencyLifeTime = Transient | Scoped | Singleton | Unrecognized(code: int)

  /** What resolution hands out: an object built by the construction oracle,
      identified by its position in the oracle's log; an object the caller
      built and supplied at registration, which is therefore none of the
      oracle's; or a container. */
  datatype Value = Instance(id: nat) | Supplied(id: nat) | ContainerRef(container: object)

  /** The lifetime and the ordered dependency list are read-only; `instance` is
      the one field that is written later, when a singleton is first built. The
      descriptor itself accepts an instance with any lifetime: only
      registration rejects that. */
  class DependencyDescriptor {
    const lifeTime: DependencyLifeTime
    const dependencies: seq<ObjectType>
    var instance: Option<Value>

    constructor (lifeTime: DependencyLifeTime, dependencies: seq<ObjectType>, instance: Option<Value>)
      ensures this.lifeTime == lifeTime
      ensures this.dependencies == dependencies
      ensures this.instance == instance
    {
      this.lifeTime := lifeTime;
      this.dependencies := dependencies;
      this.instance := instance;
    }
  }
}
