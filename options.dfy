/** The optional value that stands for Python's `None` throughout the model. */
module Options {

  datatype Option<+T> = None | Some(value: T)

}
