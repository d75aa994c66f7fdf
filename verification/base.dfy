/** Small value types shared by the rest of the model. */
module Base {

  /** Python's `None`-or-value, used for optional arguments and for
      operations of the transport that may raise. */
  datatype Option<+T> = None | Some(value: T)

  /** One byte of captured channel output. */
  newtype uint8 = b: int | 0 <= b < 256

  /** The byte strings read from a channel's stdout and stderr files. */
  type Bytes = seq<uint8>

  /** An interaction function, identified opaquely. A function object is
      always truthy, so an absent interaction is `None`. */
  datatype Handler = Handler(name: string)
}
