/** Result shapes shared by the model of the price-sync core. */
module Wrappers {

  datatype Option<+T> = None | Some(value: T)

  /**
   * What one operation of the core ends in.
   * - Ok: the Rust function returns `Ok(value)`.
   * - Err: it returns `Err(io::Error::new(Other, message))`, with the source's message.
   * - Panic: an `unwrap()` on `None`/`Err`, or an out-of-bounds index, aborts the process.
   * - OutOfReplies: only for the export poll loop, whose scripted replies ran out while
   *   the real loop would still be polling.
   */
  datatype Outcome<+T> = Ok(value: T) | Err(message: string) | Panic | OutOfReplies
}
