/** Fixed-point numbers as the contracts use them: naturals counting 10^-18, whose products
    and quotients round down, and their conversion from and to integer token amounts. */
module FixedPoint {
  const ONE: nat := 1_000_000_000_000_000_000

  type Dec = nat

  /** Number of decimal places of a token. More than 18 cannot be converted. */
  type Precision = p: nat | p <= 18

  /** Division that rounds down. */
  function FloorDiv(n: nat, d: nat): (q: nat)
    requires d > 0
    ensures q * d <= n < q * d + d
  {
    assert n == n / d * d + n % d;
    n / d
  }

  function Mul(a: Dec, b: Dec): Dec { FloorDiv(a * b, ONE) }

  function Div(a: Dec, b: Dec): Dec
    requires b > 0
  {
    FloorDiv(a * ONE, b)
  }

  function SatSub(a: nat, b: nat): nat { if a < b then 0 else a - b }

  function Diff(a: nat, b: nat): nat { if a < b then b - a else a - b }

  function Min(a: nat, b: nat): nat { if a < b then a else b }

  function Pow10(e: nat): (r: nat)
    ensures r > 0
  {
    if e == 0 then 1 else 10 * Pow10(e - 1)
  }

  /** The value of one smallest token unit. */
  function Unit(p: Precision): (r: nat)
    ensures r > 0
  {
    Pow10(18 - p)
  }

  function ToDec(amount: nat, p: Precision): (r: Dec)
    ensures r == 0 <==> amount == 0
  {
    amount * Unit(p)
  }

  function ToUint(d: Dec, p: Precision): nat { FloorDiv(d, Unit(p)) }

  lemma MulMono(a: nat, b: nat, c: nat)
    requires a <= b
    ensures a * c <= b * c
  {
  }

  lemma Distribute(a: nat, b: nat, c: nat)
    ensures (a + b) * c == a * c + b * c
  {
  }

  /** A strict comparison of multiples compares the factors. */
  lemma CancelLt(a: nat, b: nat, c: nat)
    requires a * c < b * c
    ensures a < b
  {
    if b <= a { MulMono(b, a, c); }
  }

  lemma CancelLe(a: nat, b: nat, c: nat)
    requires c > 0 && a * c <= b * c
    ensures a <= b
  {
    Distribute(b, 1, c);
    CancelLt(a, b + 1, c);
  }

  lemma FloorUnique(n: nat, d: nat, q: nat)
    requires d > 0 && q * d <= n < q * d + d
    ensures FloorDiv(n, d) == q
  {
    var r := FloorDiv(n, d);
    Distribute(q, 1, d);
    Distribute(r, 1, d);
    CancelLt(r, q + 1, d);
    CancelLt(q, r + 1, d);
  }

  /** Converting an integer amount to a decimal and back loses nothing. */
  lemma RoundTrip(amount: nat, p: Precision)
    ensures ToUint(ToDec(amount, p), p) == amount
  {
    FloorUnique(ToDec(amount, p), Unit(p), amount);
  }

  /** Truncating a decimal to token units drops less than one unit, and never adds. */
  lemma Truncation(d: Dec, p: Precision)
    ensures ToDec(ToUint(d, p), p) <= d < ToDec(ToUint(d, p), p) + Unit(p)
  {
  }

  lemma ToDecAdd(a: nat, b: nat, p: Precision)
    ensures ToDec(a + b, p) == ToDec(a, p) + ToDec(b, p)
  {
    Distribute(a, b, Unit(p));
  }
}
