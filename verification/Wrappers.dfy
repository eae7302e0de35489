/** What every part of the model uses: missing values, refusals, ranges and a little arithmetic. */
module Wrappers {
  const U32_MAX: nat := 0xFFFF_FFFF
  const U64_MAX: nat := 0xFFFF_FFFF_FFFF_FFFF

  /** Harts the kernel has room for. */
  const HARTS: nat := 8

  datatype Option<+T> = None | Some(value: T)

  datatype Result<+T, +E> = Ok(value: T) | Err(error: E)

  /** The addresses from one up to another. */
  datatype Range = Range(start: nat, end: nat)

  function Min(a: nat, b: nat): nat { if a < b then a else b }

  function Max(a: nat, b: nat): nat { if a < b then b else a }

  function One(b: bool): nat { if b then 1 else 0 }

  lemma DivParts(a: nat, b: nat)
    requires b > 0
    ensures a == a / b * b + a % b && 0 <= a % b < b
  {}

  lemma LessTimes(x: nat, y: nat, b: nat)
    requires x <= y
    ensures x * b <= y * b
  {}
}
