/** A value that may be absent: the model of a JavaScript property that may be `undefined`. */
module Optional {

  datatype Option<+T> = None | Some(value: T)
}
