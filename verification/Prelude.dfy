/** Types and constants shared by every part of the model. */
module Prelude {
  datatype Option<+T> = None | Some(value: T)

  datatype Result<+T, +E> = Ok(value: T) | Err(error: E)

  /** A point in time or a span, in 100-nanosecond ticks. */
  type Time = int

  const SECOND: Time := 10_000_000
  const MINUTE: Time := 60 * SECOND
  const DAY: Time := 24 * 60 * MINUTE

  type byte = b: int | 0 <= b < 256

  /** The canonical 36-character text of a GUID. */
  type Guid = s: string | |s| == 36 witness seq(36, i => '0')

  /** SHA-256 as a free constructor: equal digests come from equal inputs. */
  datatype Digest = Sha256(input: seq<byte>)
}
