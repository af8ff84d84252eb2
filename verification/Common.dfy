/** Values shared by the models of the services. */
module Common {
  datatype Option<+T> = None | Some(value: T)
}
