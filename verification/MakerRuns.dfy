/** What holds of the maker over whole runs: its routes stay a forest leading to ASTRO, its spread stays bounded,
    and its collect messages are what they should be. */
module MakerRuns {
  import opened Outcome
  import opened FixedPoint
  import opened Bank
  import opened MakerRoutes
  import opened MakerQuote
  import opened MakerSpec

  // ----- One update of the routes -----

  lemma TouchedSnoc(msg: seq<PoolRoute>)
    requires msg != []
    ensures Touched(msg) == Touched(msg[..|msg| - 1]) + {msg[|msg| - 1].denomIn}
  {
    var n := |msg| - 1;
    var init := msg[..n];
    forall d | d in Touched(msg) ensures d in Touched(init) + {msg[n].denomIn} {
      var i :| 0 <= i < |msg| && msg[i].denomIn == d;
      if i < n { assert init[i].denomIn == d; }
    }
    forall d | d in Touched(init) ensures d in Touched(msg) {
      var i :| 0 <= i < |init| && init[i].denomIn == d;
      assert msg[i].denomIn == d;
    }
  }

  lemma {:induction false} UntouchedLookup(routes: Routes, msg: seq<PoolRoute>)
    ensures forall d :: d !in Touched(msg) ==> (d in Updated(routes, msg) <==> d in routes)
    ensures forall d :: d !in Touched(msg) && d in routes ==> Updated(routes, msg)[d] == routes[d]
    decreases |msg|
  {
    if msg != [] {
      hide Touched;
      UntouchedLookup(routes, msg[..|msg| - 1]);
      TouchedSnoc(msg);
    }
  }

  lemma {:induction false} TouchedLookup(routes: Routes, msg: seq<PoolRoute>, i: nat)
    requires AllUnique(msg) && i < |msg|
    ensures msg[i].denomIn in Updated(routes, msg) && Updated(routes, msg)[msg[i].denomIn] == StepOf(msg[i])
    decreases |msg|
  {
    var n := |msg| - 1;
    if i < n { TouchedLookup(routes, msg[..n], i); }
  }

  lemma UpdatedLookup(routes: Routes, msg: seq<PoolRoute>)
    requires AllUnique(msg)
    ensures forall d :: d !in Touched(msg) ==> (d in Updated(routes, msg) <==> d in routes)
    ensures forall d :: d !in Touched(msg) && d in routes ==> Updated(routes, msg)[d] == routes[d]
    ensures forall i :: 0 <= i < |msg| ==>
      msg[i].denomIn in Updated(routes, msg) && Updated(routes, msg)[msg[i].denomIn] == StepOf(msg[i])
  {
    hide Updated, Touched, AllUnique;
    UntouchedLookup(routes, msg);
    forall i | 0 <= i < |msg|
      ensures msg[i].denomIn in Updated(routes, msg) && Updated(routes, msg)[msg[i].denomIn] == StepOf(msg[i])
    {
      TouchedLookup(routes, msg, i);
    }
  }

  lemma {:induction false} NoFlawMeans(env: MakerEnv, astro: Denom, msg: seq<PoolRoute>)
    ensures FirstFlaw(env, astro, msg).None? <==> forall i :: 0 <= i < |msg| ==> Flaw(env, astro, msg[i]).None?
    decreases |msg|
  {
    if msg != [] {
      NoFlawMeans(env, astro, msg[1..]);
      assert forall i :: 0 < i < |msg| ==> msg[i] == msg[1..][i - 1];
      assert forall i :: 0 <= i < |msg| - 1 ==> msg[1..][i] == msg[i + 1];
    }
  }

  lemma {:induction false} NoneLostMeans(routes: Routes, astro: Denom, msg: seq<PoolRoute>)
    ensures FirstLost(routes, astro, msg).None? <==>
      forall i :: 0 <= i < |msg| ==> Reaches(routes, msg[i].denomIn, astro, MAX_SWAPS_DEPTH)
    decreases |msg|
  {
    if msg != [] {
      hide Reaches, Build;
      BuildOutcome(routes, msg[0].denomIn, astro, MAX_SWAPS_DEPTH);
      NoneLostMeans(routes, astro, msg[1..]);
      assert forall i :: 0 < i < |msg| ==> msg[i] == msg[1..][i - 1];
      assert forall i :: 0 <= i < |msg| - 1 ==> msg[1..][i] == msg[i + 1];
    }
  }

  /** Exactly which messages the owner can set: non-empty, one route per denom, each route between denoms of its pool
      and not starting at ASTRO, and every updated denom within MAX_SWAPS_DEPTH hops of ASTRO afterwards. */
  lemma SetPoolRoutesAccepts(env: MakerEnv, st: MakerState, sender: Addr, msg: seq<PoolRoute>)
    ensures SetPoolRoutes(env, st, sender, msg).Ok? <==>
      && msg != [] && AllUnique(msg) && sender == st.config.owner
      && (forall i :: 0 <= i < |msg| ==> Flaw(env, st.config.astro, msg[i]).None?)
      && (forall i :: 0 <= i < |msg| ==>
           Reaches(Updated(st.routes, msg), msg[i].denomIn, st.config.astro, MAX_SWAPS_DEPTH))
  {
    hide Flaw, Reaches;
    NoFlawMeans(env, st.config.astro, msg);
    NoneLostMeans(Updated(st.routes, msg), st.config.astro, msg);
  }

  /** Following the old path of d in the updated graph: it is either untouched to the end, or it runs into an updated
      denom, which is within n hops of ASTRO. */
  lemma {:induction false} PathAfterUpdate(old': Routes, new': Routes, touched: set<Denom>, astro: Denom, d: Denom,
                                           k: nat, n: nat) returns (k': nat)
    requires astro !in old' && Hop(old', d, k) == Some(astro) && n >= 1
    requires forall x :: x in old' && x !in touched ==> x in new' && new'[x] == old'[x]
    requires forall x :: x in touched ==> Reaches(new', x, astro, n)
    ensures Hop(new', d, k') == Some(astro)
    ensures k' <= if d in touched then n else k + n - 1
    decreases k
  {
    if d in touched {
      k' :| 0 <= k' <= n && Hop(new', d, k') == Some(astro);
    } else if k == 0 {
      k' := 0;
    } else {
      var next := old'[d].denomOut;
      var rest := PathAfterUpdate(old', new', touched, astro, next, k - 1, n);
      k' := rest + 1;
      if k == 1 && next in touched {
        assert next == astro && Hop(new', d, 1) == Some(astro);
        k' := 1;
      }
    }
  }

  /** Only the updated keys are walked, yet the whole graph stays a forest; an updated denom is within the hop limit,
      and a denom left alone gets at most MAX_SWAPS_DEPTH - 1 hops further from ASTRO. */
  lemma SetPoolRoutesKeepsForest(env: MakerEnv, st: MakerState, sender: Addr, msg: seq<PoolRoute>, st': MakerState)
    requires Forest(st.routes, st.config.astro) && SetPoolRoutes(env, st, sender, msg) == Result.Ok(st')
    ensures Forest(st'.routes, st.config.astro)
    ensures forall d, k: nat :: Hop(st.routes, d, k) == Some(st.config.astro) ==>
      Reaches(st'.routes, d, st.config.astro, if d in Touched(msg) then MAX_SWAPS_DEPTH else k + MAX_SWAPS_DEPTH - 1)
  {
    var astro := st.config.astro;
    SetPoolRoutesAccepts(env, st, sender, msg);
    UpdatedLookup(st.routes, msg);
    forall x | x in Touched(msg) ensures Reaches(st'.routes, x, astro, MAX_SWAPS_DEPTH) {
      var i :| 0 <= i < |msg| && msg[i].denomIn == x;
    }
    forall i | 0 <= i < |msg| ensures msg[i].denomIn != astro {
      assert Flaw(env, astro, msg[i]).None?;
    }
    forall d, k: nat | Hop(st.routes, d, k) == Some(astro)
      ensures Reaches(st'.routes, d, astro, if d in Touched(msg) then MAX_SWAPS_DEPTH else k + MAX_SWAPS_DEPTH - 1)
    {
      var k' := PathAfterUpdate(st.routes, st'.routes, Touched(msg), astro, d, k, MAX_SWAPS_DEPTH);
    }
    forall d | d in st'.routes ensures Connected(st'.routes, d, astro) {
      if d in Touched(msg) {
        var k :| 0 <= k <= MAX_SWAPS_DEPTH && Hop(st'.routes, d, k) == Some(astro);
      } else {
        assert Connected(st.routes, d, astro);
        var k: nat :| Hop(st.routes, d, k) == Some(astro);
        var k' := PathAfterUpdate(st.routes, st'.routes, Touched(msg), astro, d, k, MAX_SWAPS_DEPTH);
      }
    }
  }

  // ----- When an update keeps the hop limit -----

  /** Every denom with a route is within the hop limit. */
  predicate WithinLimit(routes: Routes, astro: Denom) {
    forall d :: d in routes ==> Reaches(routes, d, astro, MAX_SWAPS_DEPTH)
  }

  /** The first updated denom met within n hops of d on its stored path, and after how many hops. */
  function FirstUpdated(routes: Routes, touched: set<Denom>, d: Denom, n: nat): (r: Option<(nat, Denom)>)
    ensures r.Some? ==> r.value.0 <= n && r.value.1 in touched
    decreases n
  {
    if d in touched then Some((0, d))
    else if n == 0 || d !in routes then None
    else
      var rest := FirstUpdated(routes, touched, routes[d].denomOut, n - 1);
      if rest.Some? then Some((rest.value.0 + 1, rest.value.1)) else None
  }

  /** None of the denoms before the i-th is updated. */
  predicate Untouched(routes: Routes, touched: set<Denom>, d: Denom, i: nat) {
    forall j :: 0 <= j < i ==> Hop(routes, d, j).Some? && Hop(routes, d, j).value !in touched
  }

  lemma UntouchedNext(routes: Routes, touched: set<Denom>, d: Denom, i: nat)
    requires d in routes
    ensures Untouched(routes, touched, d, i + 1) <==> d !in touched && Untouched(routes, touched, routes[d].denomOut, i)
  {
    var e := routes[d].denomOut;
    assert Hop(routes, d, 0) == Some(d);
    assert forall j :: 0 <= j < i ==> Hop(routes, d, j + 1) == Hop(routes, e, j);
    if d !in touched && Untouched(routes, touched, e, i) {
      forall j | 0 <= j < i + 1 ensures Hop(routes, d, j).Some? && Hop(routes, d, j).value !in touched {
        if j > 0 { assert Hop(routes, d, j) == Hop(routes, e, j - 1); }
      }
    }
  }

  /** What the name says: i hops lead to x, which is updated, and no denom before it is. */
  lemma {:induction false} FirstUpdatedMeans(routes: Routes, touched: set<Denom>, d: Denom, n: nat, i: nat, x: Denom)
    ensures FirstUpdated(routes, touched, d, n) == Some((i, x)) <==>
      i <= n && x in touched && Hop(routes, d, i) == Some(x) && Untouched(routes, touched, d, i)
    decreases n
  {
    assert Hop(routes, d, 0) == Some(d);
    if i > 0 && d in routes {
      UntouchedNext(routes, touched, d, i - 1);
      if n > 0 { FirstUpdatedMeans(routes, touched, routes[d].denomOut, n - 1, i - 1, x); }
    } else {
      assert i > 0 ==> Hop(routes, d, i).None?;
      assert i > 0 && d in touched ==> !Untouched(routes, touched, d, i);
    }
  }

  /** How far a denom is from ASTRO after an update: as far as before if its path meets no updated denom, else as many
      hops as it takes to the first of them and that one's new distance. */
  lemma {:induction false} DistanceAfterUpdate(old': Routes, new': Routes, touched: set<Denom>, astro: Denom, d: Denom,
                                               n: nat, m: nat)
    requires astro !in old' && astro !in touched && Reaches(old', d, astro, n)
    requires forall x :: x !in touched ==> (x in new' <==> x in old') && (x in old' ==> new'[x] == old'[x])
    ensures
      var first := FirstUpdated(old', touched, d, n);
      Reaches(new', d, astro, m) <==>
        if first.None? then Reaches(old', d, astro, m)
        else first.value.0 <= m && Reaches(new', first.value.1, astro, m - first.value.0)
    decreases n
  {
    if d == astro {
      assert Hop(old', d, 0) == Some(astro) && Hop(new', d, 0) == Some(astro);
    } else if d !in touched {
      NotThereYet(old', d, astro, n);
      EndsNext(old', d, astro, n - 1);
      if m == 0 {
        assert !Reaches(new', d, astro, 0) && !Reaches(old', d, astro, 0);
      } else {
        EndsNext(old', d, astro, m - 1);
        EndsNext(new', d, astro, m - 1);
        DistanceAfterUpdate(old', new', touched, astro, old'[d].denomOut, n - 1, m - 1);
      }
    }
  }

  lemma NotThereYet(routes: Routes, d: Denom, astro: Denom, n: nat)
    requires d != astro && Reaches(routes, d, astro, n)
    ensures n > 0 && d in routes
  {
  }

  /** The condition a caller can compute from the stored routes and the message: each key left alone whose stored path
      meets an updated denom still has enough hops for that denom's new path. */
  predicate DetoursFit(routes: Routes, astro: Denom, msg: seq<PoolRoute>) {
    forall d :: d in routes && d !in Touched(msg) ==>
      var first := FirstUpdated(routes, Touched(msg), d, MAX_SWAPS_DEPTH);
      first.Some? ==> Reaches(Updated(routes, msg), first.value.1, astro, MAX_SWAPS_DEPTH - first.value.0)
  }

  /** An accepted update of routes that were all within the hop limit leaves all of them within it if and only if the
      detours fit. */
  lemma LimitKeptIff(env: MakerEnv, st: MakerState, sender: Addr, msg: seq<PoolRoute>, st': MakerState)
    requires st.config.astro !in st.routes && WithinLimit(st.routes, st.config.astro)
    requires SetPoolRoutes(env, st, sender, msg) == Result.Ok(st')
    ensures WithinLimit(st'.routes, st.config.astro) <==> DetoursFit(st.routes, st.config.astro, msg)
  {
    hide Reaches, Touched, Updated, FirstUpdated, FirstFlaw, FirstLost;
    var astro, touched := st.config.astro, Touched(msg);
    SetPoolRoutesAccepts(env, st, sender, msg);
    UpdatedLookup(st.routes, msg);
    TouchedMeans(msg);
    forall i | 0 <= i < |msg| ensures msg[i].denomIn != astro { assert Flaw(env, astro, msg[i]).None?; }
    forall d | d in st.routes && d !in touched
      ensures Reaches(st'.routes, d, astro, MAX_SWAPS_DEPTH) <==>
        var first := FirstUpdated(st.routes, touched, d, MAX_SWAPS_DEPTH);
        first.Some? ==> Reaches(st'.routes, first.value.1, astro, MAX_SWAPS_DEPTH - first.value.0)
    {
      DistanceAfterUpdate(st.routes, st'.routes, touched, astro, d, MAX_SWAPS_DEPTH, MAX_SWAPS_DEPTH);
    }
  }

  lemma TouchedMeans(msg: seq<PoolRoute>)
    ensures forall i :: 0 <= i < |msg| ==> msg[i].denomIn in Touched(msg)
    ensures forall d :: d in Touched(msg) ==> exists i :: 0 <= i < |msg| && msg[i].denomIn == d
  {
  }

  /** Routes are within the limit exactly when the walk finds a route for every key, so that no collect fails for want
      of one. */
  lemma WithinLimitMeans(routes: Routes, astro: Denom)
    ensures WithinLimit(routes, astro) <==> forall d :: d in routes ==> Build(routes, d, astro, MAX_SWAPS_DEPTH).Ok?
  {
    hide Reaches, Build;
    forall d ensures Reaches(routes, d, astro, MAX_SWAPS_DEPTH) <==> Build(routes, d, astro, MAX_SWAPS_DEPTH).Ok? {
      BuildOutcome(routes, d, astro, MAX_SWAPS_DEPTH);
    }
  }

  // ----- Runs -----

  /** No step of the run renames ASTRO. */
  predicate AstroStays(astro: Denom, steps: seq<MakerStep>) {
    forall i :: 0 <= i < |steps| && steps[i].action.Configure? ==>
      steps[i].action.astro == None || steps[i].action.astro == Some(astro)
  }

  ghost predicate MakerSound(st: MakerState, astro: Denom) {
    st.config.astro == astro && Forest(st.routes, astro)
  }

  lemma {:induction false} RunKeepsForest(st: MakerState, astro: Denom, steps: seq<MakerStep>)
    requires MakerSound(st, astro) && AstroStays(astro, steps)
    ensures MakerSound(Run(st, steps), astro)
    decreases |steps|
  {
    if steps != [] {
      hide Forest, SetPoolRoutes;
      var n := |steps| - 1;
      RunKeepsForest(st, astro, steps[..n]);
      var before := Run(st, steps[..n]);
      match steps[n].action {
        case SetRoutes(sender, msg) =>
          var r := SetPoolRoutes(steps[n].env, before, sender, msg);
          if r.Ok? {
            SetPoolRoutesKeepsForest(steps[n].env, before, sender, msg, r.value);
            SetPoolRoutesKeepsConfig(steps[n].env, before, sender, msg);
          }
        case _ =>
      }
    }
  }

  lemma SetPoolRoutesKeepsConfig(env: MakerEnv, st: MakerState, sender: Addr, msg: seq<PoolRoute>)
    ensures var r := SetPoolRoutes(env, st, sender, msg);
      r.Ok? ==> r.value.config == st.config && r.value.lastCollect == st.lastCollect
  {
  }

  /** From instantiation on, as long as ASTRO keeps its denom: ASTRO never has a route, every denom with a route reaches
      ASTRO, and no denom ever leads back to itself. */
  lemma RoutesAlwaysLeadToAstro(env: MakerEnv, owner: Addr, astro: Denom, satellite: Addr, maxSpread: Dec,
                                cooldown: Option<nat>,
                                st: MakerState, steps: seq<MakerStep>)
    requires Instantiate(env, owner, astro, satellite, maxSpread, cooldown) == Result.Ok(st) && AstroStays(astro, steps)
    ensures Forest(Run(st, steps).routes, astro)
    ensures forall d, m: nat :: d in Run(st, steps).routes && m > 0 ==> Hop(Run(st, steps).routes, d, m) != Some(d)
  {
    RunKeepsForest(st, astro, steps);
    var routes := Run(st, steps).routes;
    forall d, m: nat | d in routes && m > 0 ensures Hop(routes, d, m) != Some(d) {
      ForestIsAcyclic(routes, astro, d, m);
    }
  }

  /** Renaming ASTRO to another denom, whatever else the update sets, leaves a forest exactly when no route is stored: a
      route ends at one denom. */
  lemma RenamingAstroIff(env: MakerEnv, st: MakerState, sender: Addr, astro': Denom, satellite: Option<Addr>,
                         maxSpread: Option<Dec>,
                         cooldown: Option<nat>, st': MakerState)
    requires Forest(st.routes, st.config.astro) && astro' != st.config.astro
    requires UpdateConfig(env, st, sender, Some(astro'), satellite, maxSpread, cooldown) == Result.Ok(st')
    ensures Forest(st'.routes, st'.config.astro) <==> st.routes == map[]
  {
    var routes := st.routes;
    if routes != map[] && Forest(routes, astro') {
      var d :| d in routes;
      assert Connected(routes, d, st.config.astro) && Connected(routes, d, astro');
      var i: nat :| Hop(routes, d, i) == Some(st.config.astro);
      var j: nat :| Hop(routes, d, j) == Some(astro');
      if i < j { HopAdd(routes, d, i, j - i); } else { HopAdd(routes, d, j, i - j); }
    }
  }

  /** An accepted update of routes is one whose detours fit. */
  predicate StepFits(st: MakerState, s: MakerStep) {
    s.action.SetRoutes? && Attempt(st, s).Ok? ==> DetoursFit(st.routes, st.config.astro, s.action.msg)
  }

  lemma StepKeepsLimitIff(st: MakerState, astro: Denom, s: MakerStep)
    requires MakerSound(st, astro) && AstroStays(astro, [s]) && WithinLimit(st.routes, astro)
    ensures WithinLimit(Exec(st, s).routes, astro) <==> StepFits(st, s)
  {
    hide SetPoolRoutes, WithinLimit, DetoursFit;
    if s.action.SetRoutes? {
      var r := SetPoolRoutes(s.env, st, s.action.sender, s.action.msg);
      if r.Ok? { LimitKeptIff(s.env, st, s.action.sender, s.action.msg, r.value); }
    }
  }

  /** The routes are within the hop limit before, between and after all steps. */
  predicate AlwaysWithin(st: MakerState, astro: Denom, steps: seq<MakerStep>) {
    WithinLimit(Run(st, steps).routes, astro) && (steps != [] ==> AlwaysWithin(st, astro, steps[..|steps| - 1]))
  }

  /** Each step of the run fits the state it meets. */
  predicate AllFit(st: MakerState, steps: seq<MakerStep>) {
    steps != [] ==> StepFits(Run(st, steps[..|steps| - 1]), steps[|steps| - 1]) && AllFit(st, steps[..|steps| - 1])
  }

  /** Over every run that does not rename ASTRO: all stored routes are within the hop limit at all times if and only if
      the detours of every accepted update fit. */
  lemma {:induction false} LimitOverRunsIff(st: MakerState, astro: Denom, steps: seq<MakerStep>)
    requires MakerSound(st, astro) && AstroStays(astro, steps) && WithinLimit(st.routes, astro)
    ensures AlwaysWithin(st, astro, steps) <==> AllFit(st, steps)
    decreases |steps|
  {
    hide MakerSound, WithinLimit, StepFits, Exec;
    if steps != [] {
      var init := steps[..|steps| - 1];
      LimitOverRunsIff(st, astro, init);
      RunKeepsForest(st, astro, init);
      if WithinLimit(Run(st, init).routes, astro) { StepKeepsLimitIff(Run(st, init), astro, steps[|steps| - 1]); }
    }
  }

  function Line(d: Denom, e: Denom): PoolRoute { PoolRoute(d, e, 1) }

  /** Links of a chain are stored, each one leading to the next, the last to ASTRO. */
  predicate Chain(routes: Routes, astro: Denom, chain: seq<PoolRoute>) {
    && |chain| > 0 && chain[|chain| - 1].denomOut == astro
    && (forall i :: 0 <= i < |chain| ==> (
         && chain[i].denomIn != astro
         && chain[i].denomIn in routes && routes[chain[i].denomIn] == StepOf(chain[i])))
    && (forall i :: 0 <= i < |chain| - 1 ==> chain[i].denomOut == chain[i + 1].denomIn)
  }

  lemma {:induction false} ChainHops(routes: Routes, astro: Denom, chain: seq<PoolRoute>)
    requires Chain(routes, astro, chain)
    ensures Hop(routes, chain[0].denomIn, |chain|) == Some(astro)
    ensures forall n: nat :: n < |chain| ==> !Reaches(routes, chain[0].denomIn, astro, n)
    ensures forall n: nat :: n >= |chain| ==> Reaches(routes, chain[0].denomIn, astro, n)
    decreases |chain|
  {
    var d := chain[0].denomIn;
    assert Hop(routes, astro, 0) == Some(astro);
    if |chain| > 1 {
      var rest := chain[1..];
      assert forall i :: 0 <= i < |rest| ==> rest[i] == chain[i + 1];
      ChainHops(routes, astro, rest);
      forall n: nat | n < |chain| ensures !Reaches(routes, d, astro, n) {
        if n > 0 { EndsNext(routes, d, astro, n - 1); }
      }
    }
  }

  lemma ChainReaches(routes: Routes, astro: Denom, chain: seq<PoolRoute>)
    requires Chain(routes, astro, chain) && |chain| <= MAX_SWAPS_DEPTH
    ensures forall i :: 0 <= i < |chain| ==> Reaches(routes, chain[i].denomIn, astro, MAX_SWAPS_DEPTH)
  {
    hide Reaches;
    forall i | 0 <= i < |chain| ensures Reaches(routes, chain[i].denomIn, astro, MAX_SWAPS_DEPTH) {
      var rest := chain[i..];
      assert forall j :: 0 <= j < |rest| ==> rest[j] == chain[i + j];
      ChainHops(routes, astro, rest);
    }
  }

  /** A message that is itself one chain of new routes to ASTRO, all through one pool, is accepted. */
  lemma ChainIsAccepted(env: MakerEnv, st: MakerState, chain: seq<PoolRoute>, denoms: set<Denom>)
    requires 0 < |chain| <= MAX_SWAPS_DEPTH && AllUnique(chain) && env.liquidity(1) == Some(denoms)
    requires forall i :: 0 <= i < |chain| ==>
      && chain[i].poolId == 1 && chain[i].denomIn != st.config.astro
      && chain[i].denomIn in denoms && chain[i].denomOut in denoms
    requires forall i :: 0 <= i < |chain| - 1 ==> chain[i].denomOut == chain[i + 1].denomIn
    requires chain[|chain| - 1].denomOut == st.config.astro
    ensures SetPoolRoutes(env, st, st.config.owner, chain) == Result.Ok(st.(routes := Updated(st.routes, chain)))
  {
    hide Reaches, Updated, Touched, FirstFlaw, FirstLost;
    var routes := Updated(st.routes, chain);
    UpdatedLookup(st.routes, chain);
    ChainReaches(routes, st.config.astro, chain);
    SetPoolRoutesAccepts(env, st, st.config.owner, chain);
  }

  /** The hop limit is not an invariant of the stored graph: after two accepted updates a denom can be six hops from
      ASTRO, and its own walk then fails. */
  lemma LimitCanBeExceeded(env: MakerEnv, st: MakerState)
    requires st.config.astro == "astro" && env.liquidity(1) == Some({"a", "b", "c", "d", "e", "f", "astro"})
    ensures
      var first := [Line("a", "b"), Line("b", "c"), Line("c", "d"), Line("d", "e"), Line("e", "astro")];
      var second := [Line("e", "f"), Line("f", "astro")];
      var one := SetPoolRoutes(env, st, st.config.owner, first);
      one.Ok? &&
      var two := SetPoolRoutes(env, one.value, st.config.owner, second);
      && two.Ok? && "a" in two.value.routes
      && Hop(two.value.routes, "a", 6) == Some("astro") && Build(two.value.routes, "a", "astro", MAX_SWAPS_DEPTH).Err?
  {
    hide Reaches, Updated, Hop, SetPoolRoutes, Build, Touched;
    var first := [Line("a", "b"), Line("b", "c"), Line("c", "d"), Line("d", "e"), Line("e", "astro")];
    var second := [Line("e", "f"), Line("f", "astro")];
    var denoms := {"a", "b", "c", "d", "e", "f", "astro"};
    ChainIsAccepted(env, st, first, denoms);
    var g := Updated(st.routes, first);
    ChainIsAccepted(env, st.(routes := g), second, denoms);
    SixHops(st.routes);
    var h := Updated(g, second);
    BuildOutcome(h, "a", "astro", MAX_SWAPS_DEPTH);
  }

  /** A second update leaves the first j links of an earlier one standing, so they now continue along the new chain. */
  lemma SplicedChain(routes: Routes, first: seq<PoolRoute>, second: seq<PoolRoute>, j: nat)
    requires AllUnique(first) && AllUnique(second) && j <= |first|
    requires forall i, k :: 0 <= i < j && 0 <= k < |second| ==> first[i].denomIn != second[k].denomIn
    ensures var h := Updated(Updated(routes, first), second);
      forall i :: 0 <= i < j + |second| ==>
        var r := (first[..j] + second)[i];
        r.denomIn in h && h[r.denomIn] == StepOf(r)
  {
    hide Updated, AllUnique;
    UpdatedLookup(routes, first);
    UpdatedLookup(Updated(routes, first), second);
    var h := Updated(Updated(routes, first), second);
    forall i | 0 <= i < j ensures first[i].denomIn in h && h[first[i].denomIn] == StepOf(first[i]) {
      assert first[i].denomIn !in Touched(second);
    }
  }

  lemma SixHops(routes: Routes)
    ensures
      var first := [Line("a", "b"), Line("b", "c"), Line("c", "d"), Line("d", "e"), Line("e", "astro")];
      var h := Updated(Updated(routes, first), [Line("e", "f"), Line("f", "astro")]);
      "a" in h && Hop(h, "a", 6) == Some("astro") && !Reaches(h, "a", "astro", MAX_SWAPS_DEPTH)
  {
    hide Reaches, Updated, Hop;
    var first := [Line("a", "b"), Line("b", "c"), Line("c", "d"), Line("d", "e"), Line("e", "astro")];
    var second := [Line("e", "f"), Line("f", "astro")];
    SplicedChain(routes, first, second, 4);
    var whole := [Line("a", "b"), Line("b", "c"), Line("c", "d"), Line("d", "e"), Line("e", "f"), Line("f", "astro")];
    assert whole == first[..4] + second;
    var h := Updated(Updated(routes, first), second);
    assert whole[0].denomIn in h;
    ChainHops(h, "astro", whole);
  }

  // ----- Spread and cooldown -----

  /** The stored spread never exceeds one half. */
  lemma {:induction false} SpreadStaysBounded(st: MakerState, steps: seq<MakerStep>)
    requires 2 * st.config.maxSpread <= ONE
    ensures 2 * Run(st, steps).config.maxSpread <= ONE
    decreases |steps|
  {
    if steps != [] {
      hide SetPoolRoutes;
      var n := |steps| - 1;
      SpreadStaysBounded(st, steps[..n]);
      match steps[n].action {
        case SetRoutes(sender, msg) => SetPoolRoutesKeepsConfig(steps[n].env, Run(st, steps[..n]), sender, msg);
        case _ =>
      }
    }
  }

  /** The steps of a run that were accepted, in order: what the chain's history shows. */
  function Accepted(st: MakerState, steps: seq<MakerStep>): seq<MakerStep> {
    if steps == [] then [] else
    var n := |steps| - 1;
    Accepted(st, steps[..n]) + if Attempt(Run(st, steps[..n]), steps[n]).Ok? then [steps[n]] else []
  }

  /** Time of the last collect of a history. */
  function LastGather(start: nat, history: seq<MakerStep>): nat {
    if history == [] then start else
    var last := history[|history| - 1];
    if last.action.Gather? then last.env.time else LastGather(start, history[..|history| - 1])
  }

  /** The last cooldown that a history of updates gave. */
  function LastCooldown(start: Option<nat>, history: seq<MakerStep>): Option<nat> {
    if history == [] then start else
    var last := history[|history| - 1];
    if last.action.Configure? && last.action.cooldown.Some? then last.action.cooldown
    else LastCooldown(start, history[..|history| - 1])
  }

  lemma HistoryGrows(start: nat, cooldown: Option<nat>, history: seq<MakerStep>, s: MakerStep)
    ensures LastGather(start, history + [s]) == if s.action.Gather? then s.env.time else LastGather(start, history)
    ensures LastCooldown(cooldown, history + [s]) ==
      if s.action.Configure? && s.action.cooldown.Some? then s.action.cooldown else LastCooldown(cooldown, history)
  {
    assert (history + [s])[..|history|] == history;
  }

  lemma StepKeepsRecords(st: MakerState, s: MakerStep)
    ensures
      var st' := Exec(st, s);
      if Attempt(st, s).Err? then st' == st else
      && st'.lastCollect == (if s.action.Gather? then s.env.time else st.lastCollect)
      && st'.config.cooldown ==
           if s.action.Configure? && s.action.cooldown.Some? then s.action.cooldown else st.config.cooldown
  {
    hide SetPoolRoutes, Plan;
    if s.action.SetRoutes? { SetPoolRoutesKeepsConfig(s.env, st, s.action.sender, s.action.msg); }
  }

  /** LAST_COLLECT_TS is the time of the last accepted collect, and the cooldown is the last one that an accepted update
      gave; refused steps leave no trace. */
  lemma {:induction false} ConfigFollowsHistory(st: MakerState, steps: seq<MakerStep>)
    ensures Run(st, steps).lastCollect == LastGather(st.lastCollect, Accepted(st, steps))
    ensures Run(st, steps).config.cooldown == LastCooldown(st.config.cooldown, Accepted(st, steps))
    decreases |steps|
  {
    if steps != [] {
      hide Exec, Attempt, LastGather, LastCooldown;
      var n := |steps| - 1;
      ConfigFollowsHistory(st, steps[..n]);
      HistoryGrows(st.lastCollect, st.config.cooldown, Accepted(st, steps[..n]), steps[n]);
      StepKeepsRecords(Run(st, steps[..n]), steps[n]);
      assert Accepted(st, steps[..n]) + [] == Accepted(st, steps[..n]);
    }
  }

  /** The cooldown given at instantiation is checked and then dropped: until an accepted update gives one there is
      none, whatever the message said. */
  lemma InstantiatedCooldownIsDropped(env: MakerEnv, owner: Addr, astro: Denom, satellite: Addr, maxSpread: Dec,
                                      cooldown: Option<nat>,
                                      st: MakerState, steps: seq<MakerStep>)
    requires Instantiate(env, owner, astro, satellite, maxSpread, cooldown) == Result.Ok(st)
    ensures CooldownOk(cooldown)
    ensures Run(st, steps).config.cooldown == LastCooldown(None, Accepted(st, steps))
  {
    ConfigFollowsHistory(st, steps);
  }

  /** So under a cooldown a collect succeeds only when that much time has passed since the last accepted one. */
  lemma CollectsAreSpaced(st: MakerState, steps: seq<MakerStep>, env: MakerEnv, assets: seq<CoinWithLimit>)
    requires Collect(env, Run(st, steps), assets).Ok? && Run(st, steps).config.cooldown.Some?
    ensures env.time >= LastGather(st.lastCollect, Accepted(st, steps)) + Run(st, steps).config.cooldown.value
  {
    ConfigFollowsHistory(st, steps);
  }

  // ----- Collect messages -----

  /** The listed assets with something to take, in order. */
  function Collectable(env: MakerEnv, assets: seq<CoinWithLimit>): seq<Coin> {
    if assets == [] then [] else
    (if Take(env, assets[0]).amount > 0 then [Take(env, assets[0])] else []) + Collectable(env, assets[1..])
  }

  /** A message sends its whole coin along a route that starts at the coin's denom, is linked, and ends in ASTRO, within
      the hop limit; it accepts no less than half the quote, less one, and never asks for more than the quote, but for
      the quote less the stored spread, rounded down. */
  ghost predicate GoodMessage(env: MakerEnv, st: MakerState, coin: Coin, m: SwapMsg) {
    && m.tokenIn == coin
    && IsRoute(st.routes, coin.denom, st.config.astro, m.route) && |m.route| <= MAX_SWAPS_DEPTH
    && (m.route == [] <==> coin.denom == st.config.astro)
    && var out := Quote(env.spot, coin.amount, coin.denom, m.route);
       && out.Some? && m.minOut <= out.value <= 2 * m.minOut + 1
       && m.minOut * ONE <= (ONE - st.config.maxSpread) * out.value < m.minOut * ONE + ONE
  }

  lemma MessageIsGood(env: MakerEnv, st: MakerState, coin: Coin)
    requires 2 * st.config.maxSpread <= ONE && MessageFor(env, st, coin).Ok?
    ensures
      var m := MessageFor(env, st, coin).value;
      GoodMessage(env, st, coin, m) && !m.replyOnSuccess
  {
    hide Quote, Build;
    var m := MessageFor(env, st, coin).value;
    BuildFindsRoutes(st.routes, coin.denom, st.config.astro, MAX_SWAPS_DEPTH, m.route);
    MinOutBounds(st.config.maxSpread, Quote(env.spot, coin.amount, coin.denom, m.route).value);
    assert At(coin.denom, m.route, 0) == coin.denom;
  }

  lemma {:induction false} PlanIsGood(env: MakerEnv, st: MakerState, assets: seq<CoinWithLimit>)
    requires 2 * st.config.maxSpread <= ONE && Plan(env, st, assets).Ok?
    ensures |Plan(env, st, assets).value| == |Collectable(env, assets)|
    ensures forall i :: 0 <= i < |Collectable(env, assets)| ==>
      && GoodMessage(env, st, Collectable(env, assets)[i], Plan(env, st, assets).value[i])
      && !Plan(env, st, assets).value[i].replyOnSuccess
    decreases |assets|
  {
    if assets != [] {
      hide GoodMessage, MessageFor, Take, Collectable, Plan;
      PlanNext(env, st, assets);
      PlanIsGood(env, st, assets[1..]);
      if Take(env, assets[0]).amount > 0 { MessageIsGood(env, st, Take(env, assets[0])); }
    } else {
      assert Collectable(env, assets) == [];
    }
  }

  lemma PlanNext(env: MakerEnv, st: MakerState, assets: seq<CoinWithLimit>)
    requires assets != [] && Plan(env, st, assets).Ok?
    ensures Plan(env, st, assets[1..]).Ok?
    ensures
      var coin, rest := Take(env, assets[0]), Plan(env, st, assets[1..]).value;
      if coin.amount == 0 then
        Plan(env, st, assets).value == rest && Collectable(env, assets) == Collectable(env, assets[1..])
      else
        && MessageFor(env, st, coin).Ok? && Plan(env, st, assets).value == [MessageFor(env, st, coin).value] + rest
        && Collectable(env, assets) == [coin] + Collectable(env, assets[1..])
  {
    hide MessageFor, Take;
  }

  /** In any state reached from instantiation, the messages of a successful collect match, one for one and in order, the
      listed assets with something to take; each is good; and exactly the last asks for the reply. */
  lemma CollectMessages(env0: MakerEnv, owner: Addr, astro: Denom, satellite: Addr, maxSpread: Dec,
                        cooldown: Option<nat>,
                        st: MakerState, steps: seq<MakerStep>, env: MakerEnv, assets: seq<CoinWithLimit>)
    requires Instantiate(env0, owner, astro, satellite, maxSpread, cooldown) == Result.Ok(st)
    requires Collect(env, Run(st, steps), assets).Ok?
    ensures
      var ms, coins := Collect(env, Run(st, steps), assets).value.1, Collectable(env, assets);
      && |ms| == |coins| > 0
      && (forall i :: 0 <= i < |ms| ==> GoodMessage(env, Run(st, steps), coins[i], ms[i]))
      && (forall i :: 0 <= i < |ms| ==> (ms[i].replyOnSuccess <==> i == |ms| - 1))
  {
    hide Run, Plan;
    SpreadStaysBounded(st, steps);
    PlanIsGood(env, Run(st, steps), assets);
  }

  // ----- A denom listed more than once -----

  /** What the messages send of a denom together. */
  function Sent(ms: seq<SwapMsg>, d: Denom): nat {
    if ms == [] then 0 else (if ms[0].tokenIn.denom == d then ms[0].tokenIn.amount else 0) + Sent(ms[1..], d)
  }

  /** What the list takes of a denom, what it asks for (a listing without a limit asks for the balance), and how many
      of its listings take anything. */
  function Taken(env: MakerEnv, assets: seq<CoinWithLimit>, d: Denom): nat {
    if assets == [] then 0 else
    (if assets[0].denom == d then Take(env, assets[0]).amount else 0) + Taken(env, assets[1..], d)
  }

  function Asked(env: MakerEnv, assets: seq<CoinWithLimit>, d: Denom): nat {
    if assets == [] then 0 else
    (if assets[0].denom == d then UnwrapOr(assets[0].limit, env.balance(d)) else 0) + Asked(env, assets[1..], d)
  }

  function Takers(env: MakerEnv, assets: seq<CoinWithLimit>, d: Denom): nat {
    if assets == [] then 0 else
    (if assets[0].denom == d && Take(env, assets[0]).amount > 0 then 1 else 0) + Takers(env, assets[1..], d)
  }

  lemma SentJoin(m: SwapMsg, ms: seq<SwapMsg>, d: Denom)
    ensures Sent([m] + ms, d) == (if m.tokenIn.denom == d then m.tokenIn.amount else 0) + Sent(ms, d)
  {
    assert ([m] + ms)[1..] == ms;
  }

  lemma NothingPlanned(env: MakerEnv, st: MakerState)
    ensures Plan(env, st, []) == Result.Ok([])
  {
  }

  lemma {:induction false} PlanSends(env: MakerEnv, st: MakerState, assets: seq<CoinWithLimit>, d: Denom)
    requires Plan(env, st, assets).Ok?
    ensures Sent(Plan(env, st, assets).value, d) == Taken(env, assets, d)
    decreases |assets|
  {
    hide Plan, Build, Quote, MinOut;
    if assets == [] {
      NothingPlanned(env, st);
    } else {
      PlanNext(env, st, assets);
      PlanSends(env, st, assets[1..], d);
      var coin := Take(env, assets[0]);
      if coin.amount > 0 { SentJoin(MessageFor(env, st, coin).value, Plan(env, st, assets[1..]).value, d); }
    }
  }

  lemma {:induction false} ReplyFlagSendsNothing(ms: seq<SwapMsg>, i: nat, d: Denom)
    requires i < |ms|
    ensures Sent(ms[i := ms[i].(replyOnSuccess := true)], d) == Sent(ms, d)
    decreases i
  {
    var ms' := ms[i := ms[i].(replyOnSuccess := true)];
    if i == 0 {
      assert ms'[1..] == ms[1..];
    } else {
      assert ms'[1..] == ms[1..][i - 1 := ms[1..][i - 1].(replyOnSuccess := true)];
      ReplyFlagSendsNothing(ms[1..], i - 1, d);
    }
  }

  /** A list takes what it asks for, unless a listing is cut down to the whole balance, which leaves no room for
      others. */
  lemma {:induction false} TakenAgainstAsked(env: MakerEnv, assets: seq<CoinWithLimit>, d: Denom)
    ensures Taken(env, assets, d) <= Asked(env, assets, d) && Takers(env, assets, d) <= Taken(env, assets, d)
    ensures Takers(env, assets, d) <= 1 ==> Taken(env, assets, d) <= env.balance(d)
    ensures Takers(env, assets, d) == 0 ==> Taken(env, assets, d) == 0
    ensures env.balance(d) == 0 ==> Takers(env, assets, d) == 0
    ensures env.balance(d) > 0 && Taken(env, assets, d) < Asked(env, assets, d) ==>
      Takers(env, assets, d) >= 1 && Taken(env, assets, d) >= env.balance(d) + Takers(env, assets, d) - 1
    decreases |assets|
  {
    if assets != [] { TakenAgainstAsked(env, assets[1..], d); }
  }

  /** collect takes every listing of a denom from the same balance. Its messages send no more of the denom than the
      maker holds if and only if the listings together ask for no more, or at most one of them takes anything. */
  lemma CollectSendsWhatIsHeldIff(env: MakerEnv, st: MakerState, assets: seq<CoinWithLimit>, d: Denom)
    requires Collect(env, st, assets).Ok?
    ensures Sent(Collect(env, st, assets).value.1, d) == Taken(env, assets, d)
    ensures Sent(Collect(env, st, assets).value.1, d) <= env.balance(d) <==>
      Asked(env, assets, d) <= env.balance(d) || Takers(env, assets, d) <= 1
  {
    hide Plan, Sent, Taken, Asked, Takers;
    PlanSends(env, st, assets, d);
    var ms := Plan(env, st, assets).value;
    ReplyFlagSendsNothing(ms, |ms| - 1, d);
    TakenAgainstAsked(env, assets, d);
  }
}
