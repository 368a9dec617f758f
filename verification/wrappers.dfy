/** The Some/None datatype. `None` stands for the NaN that JavaScript's
    `parseFloat` returns when a text holds no number, and for the `null`
    the calculator keeps in its `imc` field before a result exists. */
module Wrappers {

  datatype Option<+T> = None | Some(value: T)
}
