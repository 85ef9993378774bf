/** Integer arithmetic as C++ has it. */
module Arithmetic {
  function Min(a: nat, b: nat): nat { if a < b then a else b }

  function Max(a: nat, b: nat): nat { if a > b then a else b }

  /** Division, and `duration_cast`, truncate toward zero; the remainder has the dividend's sign. */
  function TruncDiv(i: int, d: nat): int
    requires d > 0
  {
    if i < 0 then -(-i / d) else i / d
  }

  function TruncMod(i: int, d: nat): int
    requires d > 0
  {
    i - TruncDiv(i, d) * d
  }
}
