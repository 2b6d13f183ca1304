/** The optional value used for "at most one" outputs: a handler that may or
    may not have been invoked, a reply frame that may or may not be sent. */
module Options {

  datatype Option<T> = None | Some(value: T)
}
