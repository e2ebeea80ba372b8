/** An optional value: `null` or an absent property in the app. */
module Options {
  datatype Option<+T> = None | Some(value: T)
}
