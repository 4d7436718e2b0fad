/** Types shared by the whole project. */
module Common {

  datatype Option<+T> = None | Some(value: T)
}
