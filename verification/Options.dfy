/** An optional value, in place of null references and thrown refusals. */
module Options {
  datatype Option<+T> = None | Some(value: T)
}
