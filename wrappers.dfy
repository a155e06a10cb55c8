/** The conventional optional value: PHP's nullable values are modelled with it. */
module Wrappers {

  datatype Option<+T> = None | Some(value: T)
}
