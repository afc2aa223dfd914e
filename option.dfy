/** An optional value: a JavaScript `null`/`undefined` or a present one. */
module Optional {

  datatype Option<+T> = None | Some(value: T)
}
