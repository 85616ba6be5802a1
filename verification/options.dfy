/** The optional value used for the backend's last cell position and the table selection. */
module Options {

  datatype Option<+T> = None | Some(value: T)
}
