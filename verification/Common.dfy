/** A type every other module of the project shares. */
module Common {

  datatype Option<+T> = None | Some(value: T)
}
