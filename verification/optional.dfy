/** The nullable references of the adapter's API (`TYPE?`, `List<TYPE>?`, `Int?`). */
module Optional {

  datatype Option<+T> = None | Some(value: T)
}
