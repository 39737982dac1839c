// Shared vocabulary of the model: optional values and the code's comparison tolerance.
module Common {
  datatype Option<+T> = None | Some(value: T)

  datatype Result<+T> = Ok(value: T) | Err(error: string)

  // The `1e-9` the repository adds to or subtracts from most quantity and price comparisons.
  const EPS: real := 0.000000001

  // A span of wall-clock time: never negative.
  type Duration = r: real | r >= 0.0

  function Min(a: real, b: real): real { if a <= b then a else b }

  function Max(a: real, b: real): real { if a >= b then a else b }
}
