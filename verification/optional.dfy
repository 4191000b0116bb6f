/** A value that may be absent: an unreported camera characteristic, a missing
    configuration map, or the result of a search over an empty list. */
module Optional {
  datatype Option<+T> = None | Some(value: T)
}
