/** The optional value used wherever the source reads a key that may be absent
    or calls a service that may raise. */
module Options {

  datatype Option<+T> = None | Some(value: T)
}
