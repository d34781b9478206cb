/** The optional value used wherever the Python code may fail to produce one
    (a `float()` that raises, an answer sequence that runs out). */
module Wrappers {

  datatype Option<+T> = None | Some(value: T)
}
