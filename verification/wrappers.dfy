/** The optional-value datatype used for the stored handshaker, the Upgrade header and parse results. */
module Wrappers {

  /** A value that may be absent; stands for a Java reference that may be null. */
  datatype Option<+T> = None | Some(value: T)
}
