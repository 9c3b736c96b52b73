/** A value the scripts may leave unset: Python's `None`, or a call (gTTS,
    a clone that may not exist) that produced nothing. */
module Options {

  datatype Option<+T> = None | Some(value: T)
}
