/** Types that several components share. */
module Types {

  datatype Option<+T> = None | Some(value: T)

  /** Whether a receiver's caps are taken from the transport file, or forced one way. */
  datatype CapsMode = Auto | Constrained | Unconstrained
}
