/** Values shared by every part of the model: optional values, bytes,
    timestamps and the JavaScript notion of a "truthy" string. */
module Base {

  datatype Option<+T> = None | Some(value: T)

  /** An unsigned 8-bit value, as held by a `Uint8Array`. */
  type byte = b: int | 0 <= b < 256

  /** A point in time in milliseconds since the epoch, as held by a `Date`. */
  type Millis = int

  /** `!!s` for an optional string: an absent value and "" are both falsy. */
  predicate Truthy(s: Option<string>) {
    s.Some? && s.value != ""
  }
}
