/** Option values, used wherever the source answers "there is none". */
module Options {
  datatype Option<+T> = None | Some(value: T)
}

/** The smaller and the larger of two numbers. */
module Numbers {
  function Min(a: int, b: int): int {
    if a < b then a else b
  }

  function Max(a: int, b: int): int {
    if a > b then a else b
  }
}
