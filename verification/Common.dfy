/** Shared small definitions. */
module Common {
  datatype Option<+T> = None | Some(value: T)

  const NEWLINE := '\n'

  function Max(a: int, b: int): int {
    if a > b then a else b
  }
}
