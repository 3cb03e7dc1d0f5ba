/** Option and completion types shared by the logger model. */
module Wrappers {

  /** A JavaScript value that may be `null`/`undefined` (None) or present (Some). */
  datatype Option<T> = None | Some(value: T)

  /**
   * How a JavaScript expression completes: with a value, or by throwing.
   * The only exception the modelled code can raise is the TypeError of
   * upper-casing `undefined`, so a throw carries no payload.
   */
  datatype Result<T> = Ok(value: T) | Throws
}
