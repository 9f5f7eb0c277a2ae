/** An optional value: the model's stand-in for a JavaScript field or variable that may be absent or `null`. */
module Optional {

  datatype Option<+T> = None | Some(value: T)
}
