/** The optional-value wrapper used by the decoders and the stored document. */
module Wrappers {
  datatype Option<+T> = None | Some(value: T)
}
