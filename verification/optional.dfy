/**
 * Python's `Optional[...]`: a value that may be `None`. The seeds, the
 * variance seed, the returned image and the unset environment variables
 * all use it.
 */
module Optional {
  datatype Option<+T> = None | Some(value: T)
}
