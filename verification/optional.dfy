/** A value that may be absent: a key missing from a JSON object, or Python's
    `None`. */
module Optional {

  datatype Option<+T> = None | Some(value: T)
}
