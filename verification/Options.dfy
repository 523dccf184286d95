/** What every module may need: optional values, and a truth value as a number. */
module Options {
  datatype Option<+T> = None | Some(value: T)

  function One(b: bool): nat {
    if b then 1 else 0
  }
}
