/** Small value types shared by every module of the model. */
module Common {

  /** A value that may be absent (Python's `None`). */
  datatype Option<+T> = None | Some(value: T) {
    function GetOr(default: T): T {
      match this
      case Some(v) => v
      case None => default
    }
  }

  /** The outcome of a call that either returns a value or raises an error. */
  datatype Result<+T, +E> = Ok(value: T) | Err(error: E)

  function MinReal(a: real, b: real): real {
    if a <= b then a else b
  }

  function MaxReal(a: real, b: real): real {
    if a >= b then a else b
  }

  /** `b` raised to the power `n` (Python's `b ** n` for a natural exponent). */
  function Pow(b: real, n: nat): real {
    if n == 0 then 1.0 else b * Pow(b, n - 1)
  }

  /** For a base of at least one every power is at least one. */
  lemma {:induction false} PowAtLeastOne(b: real, n: nat)
    requires b >= 1.0
    ensures Pow(b, n) >= 1.0
  {
    if n > 0 {
      PowAtLeastOne(b, n - 1);
    }
  }

  /** For a base of at least one the powers never decrease. */
  lemma {:induction false} PowMonotone(b: real, m: nat, n: nat)
    requires b >= 1.0
    requires m <= n
    ensures Pow(b, m) <= Pow(b, n)
  {
    if m < n {
      PowMonotone(b, m, n - 1);
      PowAtLeastOne(b, n - 1);
      assert Pow(b, n) == b * Pow(b, n - 1);
      assert b * Pow(b, n - 1) >= Pow(b, n - 1) by {
        assert (b - 1.0) * Pow(b, n - 1) >= 0.0;
      }
    }
  }

  /** A non-negative base gives a non-negative power, and so does a non-negative multiple of it. */
  lemma {:induction false} PowNonNegative(a: real, b: real, n: nat)
    ensures a >= 0.0 && b >= 0.0 ==> a * Pow(b, n) >= 0.0
    decreases n
  {
    if a >= 0.0 && b >= 0.0 && n > 0 {
      PowNonNegative(1.0, b, n - 1);
      assert Pow(b, n) == b * Pow(b, n - 1);
      assert b * Pow(b, n - 1) >= 0.0;
      assert a * Pow(b, n) >= 0.0;
    }
  }

  /** A positive base gives a positive power. */
  lemma {:induction false} PowPositive(b: real, n: nat)
    requires b > 0.0
    ensures Pow(b, n) > 0.0
  {
    if n > 0 {
      PowPositive(b, n - 1);
      assert b * Pow(b, n - 1) > 0.0;
    }
  }
}
