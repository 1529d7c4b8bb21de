/** Smaller and larger of two numbers. */
module Numbers {
  function Min(a: nat, b: nat): nat {
    if a < b then a else b
  }

  function Max(a: nat, b: nat): nat {
    if a < b then b else a
  }

  /** `max(0, n)`. */
  function AtLeastZero(n: int): nat {
    if n < 0 then 0 else n
  }
}
