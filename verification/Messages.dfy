/** The unit of exchange of the unified namespace, and small result types. */
module Messages {
  import opened Bytes

  datatype Option<+T> = None | Some(value: T)

  datatype Result<+T, +E> = Ok(value: T) | Err(error: E)

  /** A topic-addressed payload. Go strings are byte strings; At is kept as
      Unix nanoseconds, the only part of it that reaches the disk. */
  datatype Message = Message(topic: bytes, payload: bytes, retain: bool, at: int64)
}
