/** What all the models share. */
module Prelude {

  /** A thread; there are as many as a schedule mentions. */
  type Tid = nat

  datatype Option<+T> = None | Some(value: T)
}
