/** The 64-bit signed integers that `Literal::Integer` carries (Rust `i64`). */
module Int64 {

  const MIN: int := -0x8000_0000_0000_0000
  const MAX: int := 0x7fff_ffff_ffff_ffff

  predicate InRange(x: int) {
    MIN <= x <= MAX
  }

  type I64 = x: int | InRange(x)

  function Abs(x: int): nat {
    if x < 0 then -x else x
  }

  /** Rust's `/` on integers: the quotient is truncated toward zero
      (unlike Dafny's Euclidean `/`). */
  function TruncDiv(a: int, b: int): (q: int)
    requires b != 0
    ensures Abs(q) == Abs(a) / Abs(b)
    ensures q < 0 ==> (a < 0) != (b < 0)
    ensures q > 0 ==> (a < 0) == (b < 0)
  {
    DivOfNaturals(Abs(a), Abs(b));
    var m := Abs(a) / Abs(b);
    if (a < 0) == (b < 0) then m else -m
  }

  lemma DivOfNaturals(x: nat, y: nat)
    requires y > 0
    ensures x / y >= 0
  {}

  /** The remainder left by `TruncDiv` is smaller than the divisor in
      magnitude and has the sign of the dividend. */
  lemma TruncDivRemainder(a: int, b: int)
    requires b != 0
    ensures Abs(a - TruncDiv(a, b) * b) < Abs(b)
    ensures a >= 0 ==> a - TruncDiv(a, b) * b >= 0
    ensures a <= 0 ==> a - TruncDiv(a, b) * b <= 0
  {
    var x: int, y: int := Abs(a), Abs(b);
    var m, r := x / y, x % y;
    var q := TruncDiv(a, b);
    DivMod(x, y);
    if a >= 0 && b > 0 {
      assert q == m;
      assert a - q * b == r;
    } else if a < 0 && b < 0 {
      assert q == m;
      NegativeBoth(a, b, m, r);
    } else if a >= 0 {
      assert q == -m;
      NegativeDivisor(a, b, m, r);
    } else {
      assert q == -m;
      NegativeDividend(a, b, m, r);
    }
  }

  lemma DivMod(x: int, y: int)
    requires x >= 0 && y > 0
    ensures x == (x / y) * y + x % y && 0 <= x % y < y
  {}

  lemma NegativeBoth(a: int, b: int, m: int, r: int)
    requires a < 0 && b < 0 && -a == m * -b + r
    ensures a - m * b == -r
  {}

  lemma NegativeDivisor(a: int, b: int, m: int, r: int)
    requires b < 0 && a == m * -b + r
    ensures a - (-m) * b == r
  {}

  lemma NegativeDividend(a: int, b: int, m: int, r: int)
    requires a < 0 && -a == m * b + r
    ensures a - (-m) * b == -r
  {}
}
