/** Failure-carrying return values. The repository aborts the whole run with a
    panic on every error; the model returns `Err` instead, so that each error
    path is a value a caller (and a lemma) can see. */
module Results {

  datatype Option<+T> = None | Some(value: T)

  datatype Result<+T, +E> = Ok(value: T) | Err(error: E)
}
