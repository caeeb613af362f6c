/** An optional value: the model of a Python `Optional[...]` that is `None` when absent. */
module Optional {

  datatype Option<+T> = None | Some(value: T)
}
