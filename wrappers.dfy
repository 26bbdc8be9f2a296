/** Rust's `Option`, and the entity handle of the host scene framework. */
module Wrappers {

  datatype Option<+T> = None | Some(value: T) {

    /** `Option::unwrap_or` */
    function UnwrapOr(default: T): T
    {
      match this
      case Some(v) => v
      case None => default
    }
  }

  /** An entity of the scene framework: an opaque identifier. */
  type Entity = nat
}
