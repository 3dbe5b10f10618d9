/** The maker's route graph: one outgoing step per denom, and the walk that turns it into a swap route. */
module MakerRoutes {
  import opened Outcome
  import opened Bank

  /** Maximum number of hops of a route. */
  const MAX_SWAPS_DEPTH: nat := 5

  datatype RouteStep = RouteStep(denomOut: Denom, poolId: nat)

  type Routes = map<Denom, RouteStep>

  datatype RouteError = RouteNotFound(denom: Denom) | FailedToBuildRoute(denom: Denom, taken: seq<Denom>)

  /** The denom a walk from d along hops t is at after i hops. */
  function At(d: Denom, t: seq<RouteStep>, i: nat): Denom
    requires i <= |t|
  {
    if i == 0 then d else t[i - 1].denomOut
  }

  /** Steps taken from d: until ASTRO, until n steps, or until a denom without a route (the error). */
  function Trail(routes: Routes, d: Denom, astro: Denom, n: nat): Result<seq<RouteStep>, Denom>
    decreases n
  {
    if n == 0 || d == astro then Ok([])
    else if d !in routes then Err(d)
    else Prefixed([routes[d]], Trail(routes, routes[d].denomOut, astro, n - 1))
  }

  function Prefixed(p: seq<RouteStep>, r: Result<seq<RouteStep>, Denom>): Result<seq<RouteStep>, Denom> {
    if r.Ok? then Ok(p + r.value) else r
  }

  /** A walk of the stored routes without any cache. */
  function Build(routes: Routes, d: Denom, astro: Denom, n: nat): Result<seq<RouteStep>, RouteError> {
    var t := Trail(routes, d, astro, n);
    if t.Err? then Err(RouteNotFound(t.error))
    else if At(d, t.value, |t.value|) == astro then Ok(t.value)
    else Err(FailedToBuildRoute(d, [d] + seq(|t.value|, i requires 0 <= i < |t.value| => t.value[i].denomOut)))
  }

  // ----- What a route is, without saying how it is found -----

  /** t leads from d to ASTRO along stored steps, meeting ASTRO only at its end. */
  predicate IsRoute(routes: Routes, d: Denom, astro: Denom, t: seq<RouteStep>) {
    && At(d, t, |t|) == astro
    && forall i :: 0 <= i < |t| ==> At(d, t, i) != astro && At(d, t, i) in routes && routes[At(d, t, i)] == t[i]
  }

  /** Where k steps lead from d, ASTRO or not. */
  function Hop(routes: Routes, d: Denom, k: nat): Option<Denom>
    decreases k
  {
    if k == 0 then Some(d) else if d !in routes then None else Hop(routes, routes[d].denomOut, k - 1)
  }

  predicate MissesAstro(routes: Routes, d: Denom, astro: Denom, k: nat) {
    forall j :: 0 <= j <= k ==> Hop(routes, d, j) != Some(astro)
  }

  lemma RouteTail(routes: Routes, d: Denom, astro: Denom, t: seq<RouteStep>)
    requires t != []
    ensures IsRoute(routes, d, astro, t) <==>
      d != astro && d in routes && routes[d] == t[0] && IsRoute(routes, t[0].denomOut, astro, t[1..])
  {
    var e, u := t[0].denomOut, t[1..];
    assert forall i :: 0 <= i <= |u| ==> At(e, u, i) == At(d, t, i + 1);
    if d != astro && d in routes && routes[d] == t[0] && IsRoute(routes, e, astro, u) {
      forall i | 0 <= i < |t| ensures At(d, t, i) != astro && At(d, t, i) in routes && routes[At(d, t, i)] == t[i] {
        if i > 0 { assert At(d, t, i) == At(e, u, i - 1); }
      }
    } else if IsRoute(routes, d, astro, t) {
      assert At(d, t, 0) == d;
      forall i | 0 <= i < |u| ensures At(e, u, i) != astro && At(e, u, i) in routes && routes[At(e, u, i)] == u[i] {
        assert At(e, u, i) == At(d, t, i + 1);
      }
    }
  }

  lemma BuildNext(routes: Routes, d: Denom, astro: Denom, n: nat, t: seq<RouteStep>)
    requires n > 0 && d != astro && d in routes
    ensures Build(routes, d, astro, n) == Ok(t) <==>
      t != [] && t[0] == routes[d] && Build(routes, routes[d].denomOut, astro, n - 1) == Ok(t[1..])
  {
    hide IsRoute;
    var e := routes[d].denomOut;
    var rest := Trail(routes, e, astro, n - 1);
    if rest.Ok? {
      var whole := [routes[d]] + rest.value;
      assert whole[1..] == rest.value;
      assert At(d, whole, |whole|) == At(e, rest.value, |rest.value|);
      assert t != [] && t[0] == routes[d] ==> t == [routes[d]] + t[1..];
    }
  }

  lemma BuildAtEnd(routes: Routes, d: Denom, astro: Denom, n: nat, t: seq<RouteStep>)
    requires n == 0 || d == astro || d !in routes
    ensures Build(routes, d, astro, n) == Ok(t) <==> IsRoute(routes, d, astro, t) && |t| <= n
  {
    if t != [] { RouteTail(routes, d, astro, t); }
  }

  lemma EmptyRoute(routes: Routes, d: Denom, astro: Denom)
    ensures IsRoute(routes, d, astro, []) <==> d == astro
  {
  }

  /** The walk is right and complete: it returns t exactly when t is a route from d to ASTRO of at most n hops. */
  lemma {:induction false} BuildFindsRoutes(routes: Routes, d: Denom, astro: Denom, n: nat, t: seq<RouteStep>)
    ensures Build(routes, d, astro, n) == Ok(t) <==> IsRoute(routes, d, astro, t) && |t| <= n
    decreases n
  {
    hide Build, IsRoute;
    if n == 0 || d == astro || d !in routes {
      BuildAtEnd(routes, d, astro, n, t);
    } else {
      BuildNext(routes, d, astro, n, t);
      EmptyRoute(routes, d, astro);
      if t != [] {
        RouteTail(routes, d, astro, t);
        BuildFindsRoutes(routes, routes[d].denomOut, astro, n - 1, t[1..]);
      }
    }
  }

  lemma {:induction false} RouteUnique(routes: Routes, d: Denom, astro: Denom, t: seq<RouteStep>, u: seq<RouteStep>)
    requires IsRoute(routes, d, astro, t) && IsRoute(routes, d, astro, u)
    ensures t == u
  {
    var n := if |t| < |u| then |u| else |t|;
    BuildFindsRoutes(routes, d, astro, n, t);
    BuildFindsRoutes(routes, d, astro, n, u);
  }

  lemma {:induction false} RouteFrom(routes: Routes, d: Denom, astro: Denom, t: seq<RouteStep>, i: nat)
    requires IsRoute(routes, d, astro, t) && i <= |t|
    ensures IsRoute(routes, At(d, t, i), astro, t[i..])
    decreases i
  {
    hide IsRoute;
    if i > 0 {
      RouteTail(routes, d, astro, t);
      RouteFrom(routes, t[0].denomOut, astro, t[1..], i - 1);
      assert t[1..][i - 1..] == t[i..];
      assert At(t[0].denomOut, t[1..], i - 1) == At(d, t, i);
    }
  }

  /** A route visits no denom twice. */
  lemma RouteHasNoRepeats(routes: Routes, d: Denom, astro: Denom, t: seq<RouteStep>, i: nat, j: nat)
    requires IsRoute(routes, d, astro, t) && i < j <= |t|
    ensures At(d, t, i) != At(d, t, j)
  {
    RouteFrom(routes, d, astro, t, i);
    RouteFrom(routes, d, astro, t, j);
    if At(d, t, i) == At(d, t, j) { RouteUnique(routes, At(d, t, i), astro, t[i..], t[j..]); }
  }

  /** ASTRO is at most n steps away. */
  predicate Reaches(routes: Routes, d: Denom, astro: Denom, n: nat) {
    exists k :: 0 <= k <= n && Hop(routes, d, k) == Some(astro)
  }

  /** Fewer than n steps lead to e, which has no route, and ASTRO is not met on the way. */
  predicate DeadEnd(routes: Routes, d: Denom, astro: Denom, n: nat, e: Denom) {
    e !in routes && exists k :: 0 <= k < n && Hop(routes, d, k) == Some(e) && MissesAstro(routes, d, astro, k)
  }

  /** n steps can be taken, and none of them meets ASTRO. */
  predicate GoesOn(routes: Routes, d: Denom, astro: Denom, n: nat) {
    Hop(routes, d, n).Some? && MissesAstro(routes, d, astro, n)
  }

  lemma MissesNext(routes: Routes, d: Denom, astro: Denom, k: nat)
    requires d in routes
    ensures MissesAstro(routes, d, astro, k + 1) <==> d != astro && MissesAstro(routes, routes[d].denomOut, astro, k)
  {
    var e := routes[d].denomOut;
    assert forall j :: 0 <= j <= k ==> Hop(routes, d, j + 1) == Hop(routes, e, j);
    assert Hop(routes, d, 0) == Some(d);
    if d != astro && MissesAstro(routes, e, astro, k) {
      forall j | 0 <= j <= k + 1 ensures Hop(routes, d, j) != Some(astro) {
        if j > 0 { assert Hop(routes, d, j) == Hop(routes, e, j - 1); }
      }
    }
  }

  /** All three ends, seen one step further on. */
  lemma EndsNext(routes: Routes, d: Denom, astro: Denom, n: nat)
    requires d in routes && d != astro
    ensures
      var e := routes[d].denomOut;
      && (Reaches(routes, d, astro, n + 1) <==> Reaches(routes, e, astro, n))
      && (GoesOn(routes, d, astro, n + 1) <==> GoesOn(routes, e, astro, n))
      && (forall x :: DeadEnd(routes, d, astro, n + 1, x) <==> DeadEnd(routes, e, astro, n, x))
  {
    var e := routes[d].denomOut;
    MissesNext(routes, d, astro, n);
    if Reaches(routes, d, astro, n + 1) {
      var k :| 0 <= k <= n + 1 && Hop(routes, d, k) == Some(astro);
      assert Hop(routes, e, k - 1) == Some(astro);
    }
    if Reaches(routes, e, astro, n) {
      var k :| 0 <= k <= n && Hop(routes, e, k) == Some(astro);
      assert Hop(routes, d, k + 1) == Some(astro);
    }
    forall x ensures DeadEnd(routes, d, astro, n + 1, x) <==> DeadEnd(routes, e, astro, n, x) {
      if DeadEnd(routes, d, astro, n + 1, x) {
        var k :| 0 <= k < n + 1 && Hop(routes, d, k) == Some(x) && MissesAstro(routes, d, astro, k);
        MissesNext(routes, d, astro, k - 1);
        assert Hop(routes, e, k - 1) == Some(x);
      }
      if DeadEnd(routes, e, astro, n, x) {
        var k :| 0 <= k < n && Hop(routes, e, k) == Some(x) && MissesAstro(routes, e, astro, k);
        MissesNext(routes, d, astro, k);
        assert Hop(routes, d, k + 1) == Some(x);
      }
    }
  }

  /** How the walk ends, whatever the limit: it succeeds exactly when ASTRO is at most n steps away; it stops at a
      denom without a route exactly when that dead end comes within the limit and before ASTRO; and it gives up
      exactly when n steps lead on without meeting ASTRO. */
  lemma {:induction false} BuildOutcome(routes: Routes, d: Denom, astro: Denom, n: nat)
    ensures Build(routes, d, astro, n).Ok? <==> Reaches(routes, d, astro, n)
    ensures forall e :: Build(routes, d, astro, n) == Err(RouteNotFound(e)) <==> DeadEnd(routes, d, astro, n, e)
    ensures
      var r := Build(routes, d, astro, n);
      r.Err? && r.error.FailedToBuildRoute? <==> GoesOn(routes, d, astro, n)
    decreases n
  {
    assert Hop(routes, d, 0) == Some(d);
    if d == astro {
      forall e ensures !DeadEnd(routes, d, astro, n, e) { }
    } else if n == 0 {
      assert !Reaches(routes, d, astro, 0);
    } else if d !in routes {
      forall k | 0 < k <= n ensures Hop(routes, d, k) == None { }
      assert MissesAstro(routes, d, astro, 0);
    } else {
      EndsNext(routes, d, astro, n - 1);
      var e := routes[d].denomOut;
      BuildOutcome(routes, e, astro, n - 1);
      var rest := Trail(routes, e, astro, n - 1);
      if rest.Ok? {
        var whole := [routes[d]] + rest.value;
        assert At(d, whole, |whole|) == At(e, rest.value, |rest.value|);
      }
    }
  }

  lemma {:induction false} HopAdd(routes: Routes, d: Denom, i: nat, j: nat)
    ensures Hop(routes, d, i + j) == if Hop(routes, d, i).Some? then Hop(routes, Hop(routes, d, i).value, j) else None
    decreases i
  {
    if i > 0 && d in routes { HopAdd(routes, routes[d].denomOut, i - 1, j); }
  }

  /** A loop is never mistaken for a route or a dead end: whatever the limit, the walk reports FailedToBuildRoute. */
  lemma LoopAlwaysFails(routes: Routes, d: Denom, astro: Denom, k: nat, m: nat, n: nat)
    requires m > 0 && Hop(routes, d, k).Some? && Hop(routes, d, k + m) == Hop(routes, d, k)
    requires MissesAstro(routes, d, astro, k + m)
    ensures Build(routes, d, astro, n).Err? && Build(routes, d, astro, n).error.FailedToBuildRoute?
  {
    forall j | 0 <= j <= n ensures Hop(routes, d, j).Some? && Hop(routes, d, j) != Some(astro) {
      LoopHops(routes, d, astro, k, m, j);
    }
    BuildOutcome(routes, d, astro, n);
  }

  lemma {:induction false} LoopHops(routes: Routes, d: Denom, astro: Denom, k: nat, m: nat, j: nat)
    requires m > 0 && Hop(routes, d, k).Some? && Hop(routes, d, k + m) == Hop(routes, d, k)
    requires MissesAstro(routes, d, astro, k + m)
    ensures Hop(routes, d, j).Some? && Hop(routes, d, j) != Some(astro)
    decreases j
  {
    if j <= k + m {
      HopAdd(routes, d, j, k + m - j);
    } else {
      HopAdd(routes, d, k + m, j - k - m);
      HopAdd(routes, d, k, j - k - m);
      LoopHops(routes, d, astro, k, m, j - m);
    }
  }

  // ----- The stored graph as a whole -----

  /** ASTRO has no route, and every denom with a route reaches ASTRO. */
  ghost predicate Forest(routes: Routes, astro: Denom) {
    astro !in routes && forall d :: d in routes ==> Connected(routes, d, astro)
  }

  ghost predicate Connected(routes: Routes, d: Denom, astro: Denom) {
    exists k: nat :: Hop(routes, d, k) == Some(astro)
  }

  /** A forest has no cycle: no denom with a route is met again from itself. */
  lemma ForestIsAcyclic(routes: Routes, astro: Denom, d: Denom, m: nat)
    requires Forest(routes, astro) && d in routes && m > 0
    ensures Hop(routes, d, m) != Some(d)
  {
    var k: nat :| Hop(routes, d, k) == Some(astro);
    HopAdd(routes, d, m, k);
    HopAdd(routes, d, k, m);
  }
}
