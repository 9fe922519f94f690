/** The optional value the game uses for a bullet that may not be in flight. */
module Wrappers {

  datatype Option<+T> = None | Some(value: T)
}
