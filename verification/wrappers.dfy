/** The optional-value datatype used for results that the dashboard cannot
    always produce (a spread of a one-sided book, a ratio over an empty top). */
module Wrappers {

  datatype Option<+T> = None | Some(value: T)
}
