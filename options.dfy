/** The optional value used wherever the program works with `null`, `NaN`
    or an absent entry. */
module Options {
  datatype Option<+T> = None | Some(value: T)
}
