/** The maker's multi-hop quote: truncated price products against exact ones. */
module MakerQuote {
  import opened Outcome
  import opened FixedPoint
  import opened Bank
  import opened MakerRoutes

  /** Spot price of (pool, base, quote) at the pool manager; None when the query fails. */
  type SpotPrices = (nat, Denom, Denom) -> Option<Dec>

  /** The prices met along a route; a failed query or a zero price is an error. */
  function PricesAlong(spot: SpotPrices, d: Denom, route: seq<RouteStep>): Option<seq<Dec>>
    decreases |route|
  {
    if route == [] then Some([]) else
    var p := spot(route[0].poolId, d, route[0].denomOut);
    if p.None? || p.value == 0 then None else
    var rest := PricesAlong(spot, route[0].denomOut, route[1..]);
    if rest.Some? then Some([p.value] + rest.value) else None
  }

  /** The product as computed: rounded down after each hop. */
  function Price(ps: seq<Dec>): Dec {
    if ps == [] then ONE else Mul(Price(ps[..|ps| - 1]), ps[|ps| - 1])
  }

  function Quote(spot: SpotPrices, amount: nat, d: Denom, route: seq<RouteStep>): Option<nat> {
    var ps := PricesAlong(spot, d, route);
    if ps.Some? then Some(FloorDiv(amount * Price(ps.value), ONE)) else None
  }

  /** The smallest output a swap may accept, for a spread that is at most one. */
  function MinOut(spread: Dec, out: nat): nat
    requires spread <= ONE
  {
    FloorDiv((ONE - spread) * out, ONE)
  }

  /** query_out_amount: follow the steps, then convert the amount. */
  method QueryOutAmount(spot: SpotPrices, amount: nat, denom: Denom, steps: seq<RouteStep>) returns (r: Option<nat>)
    ensures r == Quote(spot, amount, denom, steps)
  {
    hide Mul, FloorDiv, PricesAlong, Price, After;
    var price, denomIn := ONE, denom;
    ghost var met := [];
    NoPrices(spot, denom, steps);
    for i := 0 to |steps|
      invariant price == Price(met)
      invariant PricesAlong(spot, denom, steps) == After(met, PricesAlong(spot, denomIn, steps[i..]))
    {
      NextPrice(spot, denomIn, steps, i, met);
      var stepPrice := spot(steps[i].poolId, denomIn, steps[i].denomOut);
      if stepPrice.None? || stepPrice.value == 0 { return None; }
      price := Mul(price, stepPrice.value);
      denomIn := steps[i].denomOut;
      met := met + [stepPrice.value];
    }
    AllPrices(spot, denomIn, steps, met);
    return Some(FloorDiv(amount * price, ONE));
  }

  lemma NoPrices(spot: SpotPrices, d: Denom, steps: seq<RouteStep>)
    ensures PricesAlong(spot, d, steps) == After([], PricesAlong(spot, d, steps[0..])) && Price([]) == ONE
  {
    assert steps[0..] == steps;
    AfterNothing(PricesAlong(spot, d, steps));
  }

  /** One more price met: the loop's step, or its failure. */
  lemma NextPrice(spot: SpotPrices, d: Denom, steps: seq<RouteStep>, i: nat, met: seq<Dec>)
    requires i < |steps|
    ensures
      var p := spot(steps[i].poolId, d, steps[i].denomOut);
      After(met, PricesAlong(spot, d, steps[i..])) ==
        if p.None? || p.value == 0 then None
        else After(met + [p.value], PricesAlong(spot, steps[i].denomOut, steps[i + 1..]))
    ensures forall p :: Price(met + [p]) == Mul(Price(met), p)
  {
    hide Mul;
    assert steps[i..][1..] == steps[i + 1..];
    var p := spot(steps[i].poolId, d, steps[i].denomOut);
    if p.Some? && p.value != 0 { AfterOne(met, p.value, PricesAlong(spot, steps[i].denomOut, steps[i + 1..])); }
    forall p: Dec ensures Price(met + [p]) == Mul(Price(met), p) {
      assert (met + [p])[..|met|] == met;
    }
  }

  lemma AllPrices(spot: SpotPrices, d: Denom, steps: seq<RouteStep>, met: seq<Dec>)
    ensures After(met, PricesAlong(spot, d, steps[|steps|..])) == Some(met)
  {
    assert met + [] == met;
  }

  function After(met: seq<Dec>, rest: Option<seq<Dec>>): Option<seq<Dec>> {
    if rest.Some? then Some(met + rest.value) else None
  }

  lemma AfterNothing(rest: Option<seq<Dec>>)
    ensures After([], rest) == rest
  {
    if rest.Some? { assert [] + rest.value == rest.value; }
  }

  lemma AfterOne(met: seq<Dec>, p: Dec, rest: Option<seq<Dec>>)
    ensures After(met, After([p], rest)) == After(met + [p], rest)
  {
    if rest.Some? { assert met + ([p] + rest.value) == (met + [p]) + rest.value; }
  }

  // ----- The exact product -----

  function Rational(p: Dec): real { p as real / ONE as real }

  function Exact(ps: seq<Dec>): real {
    if ps == [] then 1.0 else Exact(ps[..|ps| - 1]) * Rational(ps[|ps| - 1])
  }

  /** For each hop after the first, the product of the prices after it; summed. */
  function LaterProducts(ps: seq<Dec>): real {
    if |ps| <= 1 then 0.0 else LaterProducts(ps[..|ps| - 1]) * Rational(ps[|ps| - 1]) + 1.0
  }

  const SCALE: real := ONE as real

  lemma MulReal(a: Dec, b: Dec)
    ensures Mul(a, b) as real <= a as real * Rational(b) < Mul(a, b) as real + 1.0
    ensures Rational(b) >= 0.0
  {
    var q := Mul(a, b);
    assert (q * ONE) as real <= (a * b) as real < (q * ONE + ONE) as real;
    assert a as real * Rational(b) == (a * b) as real / ONE as real;
  }

  lemma Grow(t: real, e: real, l: real, p: real, q: real)
    requires t <= e <= t + l && p >= 0.0 && q <= t * p < q + 1.0
    ensures q <= e * p <= q + (l * p + 1.0)
  {
    assert t * p <= e * p <= (t + l) * p;
  }

  /** The computed price is never above the exact product, and below it by at most one 10^-18 unit for each hop
      after the first, carried through the later prices. */
  lemma {:induction false} PriceTruncation(ps: seq<Dec>)
    ensures Price(ps) as real <= SCALE * Exact(ps) <= Price(ps) as real + LaterProducts(ps)
    decreases |ps|
  {
    hide Mul, Rational;
    if |ps| == 1 {
      assert ps[..0] == [];
      FirstPrice(ps[0]);
    } else if |ps| > 1 {
      var init, p := ps[..|ps| - 1], ps[|ps| - 1];
      PriceTruncation(init);
      MulReal(Price(init), p);
      Grow(Price(init) as real, SCALE * Exact(init), LaterProducts(init), Rational(p), Price(ps) as real);
    }
  }

  lemma FirstPrice(p: Dec)
    ensures Mul(ONE, p) == p && SCALE * (1.0 * Rational(p)) == p as real
  {
    FloorUnique(ONE * p, ONE, p);
  }

  /** The quoted amount is at most amount times the exact product, and short of it by less than one unit plus the
      carried truncations, which are counted in 10^-18. */
  lemma QuoteBounds(spot: SpotPrices, amount: nat, d: Denom, route: seq<RouteStep>)
    requires Quote(spot, amount, d, route).Some?
    ensures PricesAlong(spot, d, route).Some?
    ensures
      var ps, out := PricesAlong(spot, d, route).value, Quote(spot, amount, d, route).value;
      && out as real <= amount as real * Exact(ps)
      && amount as real * Exact(ps) < out as real + 1.0 + amount as real * LaterProducts(ps) / SCALE
  {
    hide Price, Exact, LaterProducts;
    var ps, out := PricesAlong(spot, d, route).value, Quote(spot, amount, d, route).value;
    PriceTruncation(ps);
    AmountBounds(amount, Price(ps), out, Exact(ps), LaterProducts(ps));
  }

  lemma AmountBounds(amount: nat, price: Dec, out: nat, exact: real, later: real)
    requires out * ONE <= amount * price < out * ONE + ONE
    requires price as real <= SCALE * exact <= price as real + later
    ensures out as real <= amount as real * exact
    ensures amount as real * exact < out as real + 1.0 + amount as real * later / SCALE
  {
    var a, p, o := amount as real, price as real, out as real;
    assert (out * ONE) as real <= (amount * price) as real < (out * ONE + ONE) as real;
    assert (out * ONE) as real == o * SCALE && (amount * price) as real == a * p;
    Descale(a, p, o, exact, later, SCALE);
  }

  /** The same in reals, free of integers. */
  lemma Descale(a: real, p: real, o: real, exact: real, later: real, c: real)
    requires c > 0.0 && a >= 0.0 && o * c <= a * p < o * c + c && p <= c * exact <= p + later
    ensures o <= a * exact
    ensures a * exact < o + 1.0 + a * later / c
  {
    TimesReal(a, p, c * exact);
    TimesReal(a, c * exact, p + later);
    Regroup(a, c, exact);
    SumReal(a, p, later);
    DropFactor(o, a * exact, c);
    DropSum(a * exact, o, a * later, c);
  }

  lemma TimesReal(a: real, x: real, y: real)
    requires a >= 0.0 && x <= y
    ensures a * x <= a * y
  {
  }

  lemma Regroup(a: real, b: real, c: real)
    ensures a * (b * c) == a * c * b
  {
  }

  lemma SumReal(a: real, b: real, c: real)
    ensures a * (b + c) == a * b + a * c
  {
  }

  lemma DropFactor(x: real, y: real, c: real)
    requires c > 0.0 && x * c <= y * c
    ensures x <= y
  {
  }

  lemma DropSum(x: real, y: real, q: real, c: real)
    requires c > 0.0 && x * c < y * c + c + q
    ensures x < y + 1.0 + q / c
  {
    assert q == q / c * c;
    assert (y + 1.0 + q / c) * c == y * c + c + q;
    if y + 1.0 + q / c <= x { TimesReal(c, y + 1.0 + q / c, x); }
  }

  /** With a spread of at most one half, the minimum is at most the quote and at least half of it, less one. */
  lemma MinOutBounds(spread: Dec, out: nat)
    requires 2 * spread <= ONE
    ensures MinOut(spread, out) <= out <= 2 * MinOut(spread, out) + 1
  {
    MulMono(ONE - spread, ONE, out);
    MulMono(ONE, 2 * (ONE - spread), out);
  }
}
