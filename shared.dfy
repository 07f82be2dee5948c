/** The record the web client receives from the API, and the optional value
    used wherever the client keeps `T | null`. */
module Shared {

  /** A todo as the client reads it: its id, its title and whether it is done. */
  datatype Todo = Todo(id: string, title: string, completed: bool)

  datatype Option<+T> = None | Some(value: T) {
    function GetOr(default: T): T {
      match this
      case Some(v) => v
      case None => default
    }
  }
}
