/** A value that may be absent: models a Unity `GetComponent` lookup that can return null. */
module Optional {
  datatype Option<+T> = None | Some(value: T)
}
