/** Optional values and the Python exceptions that the modelled code can raise. */
module Results {

  datatype Option<+T> = None | Some(value: T)

  /** The exceptions of the two scripts that the model keeps as values. */
  datatype PyError =
    | StopIteration          // next() on a file iterator that has no line left
    | KeyError(key: string)  // a dictionary lookup of a key that is absent
    | IndexError             // [-1] on an empty list

  datatype Result<+T> = Ok(value: T) | Err(error: PyError)
}
