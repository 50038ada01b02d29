/** What is shared by the modules of the model. */
module Common {
  datatype Option<+T> = None | Some(value: T)

  function Max(x: int, y: int): int { if x <= y then y else x }

  function Min(x: int, y: int): int { if x <= y then x else y }
}
