/** `Target.queue` and the bucketing half of `BuildQueue`, shared by
    `jsonmake.py` and `tinymake.py`: a recursive walk from each requested
    target that records, for every buildable target it reaches, the deepest
    priority at which it was reached; the depth map is then flattened
    deepest first, so that dependencies come before what depends on them.
    Python's recursion limit is the `fuel` of the walk: a walk nested more
    deeply than `fuel` calls stops with `RecursionLimit`, which is also what
    becomes of the walk on a cyclic graph. */
module MakeQueue {
  import opened Util
  import opened MakeEngine

  /** What `queue` reads besides the depth map: the targets, `dPP` (for each
      target, the targets listing it in `provides`), the selected
      `Target.base` (`base` here, its `_provides` being `bp`), `lBases` and
      `lStocks`. */
  datatype Env = Env(
    index: map<string, MTarget>,
    dpp: map<string, set<string>>,
    base: string,
    bases: seq<string>,
    stocks: seq<string>)

  ghost predicate EnvOk(g: Env)
  {
    && Resolved(g.index)
    && g.base in g.index
    && (forall c :: c in g.dpp ==> g.dpp[c] <= g.index.Keys)
  }

  /** `dPP[self]`: a target nobody provides has no providers. */
  function Offered(g: Env, n: string): set<string>
  {
    if n in g.dpp then g.dpp[n] else {}
  }

  /** A `base` field that is unset, the selected base, or one of the
      capabilities of the selected base. */
  predicate BaseCompatible(g: Env, b: Option<string>)
    requires g.base in g.index
  {
    b.None? || b.value == g.base || b.value in g.index[g.base].provided
  }

  /** The first filter of `queue`: the providers of `n` whose base is
      compatible. */
  function Compatible(g: Env, n: string): set<string>
    requires g.base in g.index
  {
    set p | p in Offered(g, n) && p in g.index && BaseCompatible(g, g.index[p].base)
  }

  /** The providers in `s` whose base is the selected base. */
  function OnBase(g: Env, s: set<string>): set<string>
  {
    set p | p in s && p in g.index && g.index[p].base == Some(g.base)
  }

  /** The providers in `s` whose base is one of the capabilities of the
      selected base. */
  function OnBaseProvided(g: Env, s: set<string>): set<string>
    requires g.base in g.index
  {
    set p | p in s && p in g.index && g.index[p].base.Some? && g.index[p].base.value in g.index[g.base].provided
  }

  /** `lProviders` once `queue` has narrowed it. */
  function ProviderChoice(g: Env, n: string): set<string>
    requires g.base in g.index
  {
    var l0 := Compatible(g, n);
    var l1 := if |l0| >= 1 && |OnBase(g, l0)| == 1 then OnBase(g, l0) else l0;
    if |l1| >= 1 && |OnBaseProvided(g, l1)| == 1 then OnBaseProvided(g, l1) else l1
  }

  /** What the narrowing of `queue` keeps: the providers of `n` whose base is
      unset, the selected base or a capability of it; of those the one on
      the selected base when it is the only one; failing that the one whose
      base the selected base provides when it is the only one; failing that
      all of them. */
  lemma ProviderChoiceCases(g: Env, n: string)
    requires g.base in g.index
    ensures forall p :: p in Compatible(g, n) <==> p in Offered(g, n) && p in g.index && BaseCompatible(g, g.index[p].base)
    ensures ProviderChoice(g, n) <= Compatible(g, n)
    ensures |OnBase(g, Compatible(g, n))| == 1 ==> ProviderChoice(g, n) == OnBase(g, Compatible(g, n))
    ensures |OnBase(g, Compatible(g, n))| != 1 && |OnBaseProvided(g, Compatible(g, n))| == 1 ==>
              ProviderChoice(g, n) == OnBaseProvided(g, Compatible(g, n))
    ensures |OnBase(g, Compatible(g, n))| != 1 && |OnBaseProvided(g, Compatible(g, n))| != 1 ==>
              ProviderChoice(g, n) == Compatible(g, n)
  {
    var l0 := Compatible(g, n);
    var ob := OnBase(g, l0);
    assert ob <= l0;
    assert OnBaseProvided(g, l0) <= l0;
    if |ob| == 1 {
      var x :| x in ob;
      SingletonSubset(ob, x);
      assert ob == {x};
      assert OnBaseProvided(g, ob) <= {x};
      SingletonSubset(OnBaseProvided(g, ob), x);
    } else if |l0| == 0 {
      assert OnBaseProvided(g, l0) == {};
    }
  }

  /** A subset of a singleton with one element is that singleton. */
  lemma SingletonSubset(s: set<string>, x: string)
    requires x in s || s <= {x}
    ensures |s| == 1 ==> s == {x}
  {
    if |s| == 1 && s != {x} {
      if x in s {
        ProperSubsetCard({x}, s);
      } else {
        assert false;
      }
    }
  }

  /** `queue` passes `n` on, and does not record it: to its single provider,
      or, with no provider, no file and some dependencies, to those
      dependencies. */
  predicate Delegates(g: Env, n: string)
    requires EnvOk(g) && n in g.index
  {
    || |ProviderChoice(g, n)| == 1
    || (ProviderChoice(g, n) == {} && g.index[n].file.None? && g.index[n].depends != [])
  }

  /** Whether `queue` records `n` in the depth map: it was not passed on,
      it is not a base other than the selected one, its base is compatible
      and it has no timestamp. */
  predicate Recordable(g: Env, n: string)
    requires EnvOk(g) && n in g.index
  {
    && !Delegates(g, n)
    && !(n != g.base && n in g.bases)
    && BaseCompatible(g, g.index[n].base)
    && g.index[n].timestamp == 0
  }

  /** How a walk ends: normally, or by stopping the program. */
  datatype Step = Done | Stopped(halt: Halt)

  /** The ways `queue` stops the program. */
  predicate WalkHalt(h: Halt)
  {
    h.SelfDependency? || h.OlderDependency? || h.RecursionLimit?
  }

  ghost predicate Within(g: Env, dm: map<string, nat>)
  {
    dm.Keys <= g.index.Keys
  }

  /** The depth map only grows: no entry is lost or lowered, and every entry
      that is new or raised belongs to a recordable target and lies in
      `[lo, hi)`. */
  ghost predicate Grown(rec: set<string>, dm: map<string, nat>, dm': map<string, nat>, lo: nat, hi: nat)
  {
    && dm.Keys <= dm'.Keys
    && (forall k :: k in dm ==> dm[k] <= dm'[k])
    && (forall k :: k in dm' && (k !in dm || dm'[k] != dm[k]) ==> k in rec && lo <= dm'[k] < hi)
  }

  /** `rec` is the set of the targets `queue` records. */
  ghost predicate RecordSet(g: Env, rec: set<string>)
    requires EnvOk(g)
  {
    forall k {:trigger Recordable(g, k)} :: k in rec <==> k in g.index && Recordable(g, k)
  }

  /** `Target.stock` is left alone or set to one of `lStocks`. */
  predicate StockFrom(g: Env, stock: Option<string>, stock': Option<string>)
  {
    stock' == stock || (stock'.Some? && stock'.value in g.stocks)
  }

  /** The build-order invariant of the depth map: every recorded target lies
      strictly below each of its recordable dependencies that is at least as
      new as it is (those are the dependencies `queue` walks into). */
  ghost predicate Ordered(g: Env, rec: set<string>, dm: map<string, nat>)
  {
    forall n, d :: n in dm && n in g.index && d in g.index[n].depends && Walked(g, rec, n, d) ==> d in dm && dm[d] > dm[n]
  }

  /** `dep.timestamp >= self.timestamp` and the dependency is recordable. */
  ghost predicate Walked(g: Env, rec: set<string>, n: string, d: string)
    requires n in g.index
  {
    d in g.index && g.index[d].timestamp >= g.index[n].timestamp && d in rec
  }

  lemma GrownRefl(rec: set<string>, dm: map<string, nat>, lo: nat, hi: nat)
    ensures Grown(rec, dm, dm, lo, hi)
  {
  }

  lemma GrownTrans(rec: set<string>, a: map<string, nat>, b: map<string, nat>, c: map<string, nat>, lo: nat, hi: nat, lo': nat, hi': nat)
    requires Grown(rec, a, b, lo, hi) && Grown(rec, b, c, lo', hi')
    ensures Grown(rec, a, c, Min(lo, lo'), Max(hi, hi'))
  {
    forall k | k in c && (k !in a || c[k] != a[k])
      ensures k in rec && Min(lo, lo') <= c[k] < Max(hi, hi')
    {
      if k in b && c[k] == b[k] {
        assert k !in a || b[k] != a[k];
      }
    }
  }

  function Min(a: nat, b: nat): (m: nat)
    ensures m <= a && m <= b && (m == a || m == b)
  {
    if a <= b then a else b
  }

  function Max(a: nat, b: nat): (m: nat)
    ensures m >= a && m >= b && (m == a || m == b)
  {
    if a <= b then b else a
  }

  /** Recording `n` at `v` keeps the depth map ordered when `n` is not its own
      dependency and every dependency `queue` walks into already lies above
      `v`. */
  lemma RaiseKeepsOrdered(g: Env, rec: set<string>, dm: map<string, nat>, n: string, v: nat)
    requires n in g.index
    requires Ordered(g, rec, dm)
    requires n in dm ==> dm[n] <= v
    requires n !in g.index[n].depends
    requires forall d :: d in g.index[n].depends && Walked(g, rec, n, d) ==> d in dm && dm[d] > v
    ensures Ordered(g, rec, dm[n := v])
  {
    var dm' := dm[n := v];
    forall m, d | m in dm' && m in g.index && d in g.index[m].depends && Walked(g, rec, m, d)
      ensures d in dm' && dm'[d] > dm'[m]
    {
      if m == n {
        assert d != n;
      } else {
        assert m in dm;
      }
    }
  }

  /** The steps `queue` may take from `n`: to its single provider (after
      narrowing) when that is another target, and to each of its
      dependencies. */
  ghost predicate Follows(g: Env, n: string, m: string)
    requires EnvOk(g) && n in g.index
  {
    (ProviderChoice(g, n) == {m} && m != n) || m in g.index[n].depends
  }

  /** `rk` ranks every target above each target `queue` may step to from
      it: the graph the walk follows has no cycle (and no target among its
      own dependencies), and no walk from `n` is more than `rk[n]` calls
      deep. */
  ghost predicate Ranked(g: Env, rk: map<string, nat>)
    requires EnvOk(g)
  {
    && g.index.Keys <= rk.Keys
    && forall n, m {:trigger Follows(g, n, m)} :: n in g.index && Follows(g, n, m) ==> m in rk && rk[m] < rk[n]
  }

  /** Every entry that is new or changed from `dm` to `dm'` belongs to a
      target ranked below `bound`. */
  ghost predicate Confined(rk: map<string, nat>, dm: map<string, nat>, dm': map<string, nat>, bound: nat)
  {
    forall k :: k in dm' && (k !in dm || dm'[k] != dm[k]) ==> k in rk && rk[k] < bound
  }

  lemma ConfinedTrans(rk: map<string, nat>, a: map<string, nat>, b: map<string, nat>, c: map<string, nat>, x: nat, y: nat, z: nat)
    requires Confined(rk, a, b, x) && Confined(rk, b, c, y) && x <= z && y <= z
    ensures Confined(rk, a, c, z)
  {
    forall k | k in c && (k !in a || c[k] != a[k])
      ensures k in rk && rk[k] < z
    {
      if k in b && c[k] == b[k] {
        assert k !in a || b[k] != a[k];
      }
    }
  }

  /** The value `dDependencyMap[self]` takes when `self` is recorded at
      `priority`: the deeper of the one already there and `priority`. */
  function Deepest(dm: map<string, nat>, n: string, priority: nat): nat
  {
    if n in dm && dm[n] >= priority then dm[n] else priority
  }

  /** `target.queue(dDependencyMap, priority, dPP)`: the target is first
      passed on when it delegates, then its dependencies are walked, then it
      is recorded when it is recordable. On a graph ranked by `rk` with
      `rk[n] < fuel` the walk runs out of neither recursion nor cycles: it
      ends normally or at an older dependency of a target with no
      timestamp; it changes only entries ranked no higher than `n`, and a
      recordable `n` ends at the deeper of its old depth and `priority`. */
  method Queue(g: Env, n: string, dm: map<string, nat>, priority: nat, stock: Option<string>, fuel: nat,
               ghost rec: set<string>, ghost rk: map<string, nat>)
    returns (dm': map<string, nat>, stock': Option<string>, r: Step)
    requires EnvOk(g) && RecordSet(g, rec) && n in g.index && Within(g, dm)
    decreases fuel, 3
    ensures Within(g, dm') && Grown(rec, dm, dm', priority, priority + fuel)
    ensures StockFrom(g, stock, stock')
    ensures r.Stopped? ==> WalkHalt(r.halt)
    ensures r.Done? && Ordered(g, rec, dm) ==> Ordered(g, rec, dm')
    ensures fuel == 0 ==> r == Stopped(RecursionLimit)
    ensures r.Done? ==> n !in g.index[n].depends
    ensures r.Done? && g.index[n].timestamp == 0 ==> forall d :: d in g.index[n].depends ==> d in g.index && g.index[d].timestamp >= 0
    ensures r.Done? && n in rec ==> n in dm' && dm'[n] >= priority
    ensures Ranked(g, rk) ==> Confined(rk, dm, dm', rk[n] + 1)
    ensures Ranked(g, rk) && rk[n] < fuel ==> r.Done? || r.halt.OlderDependency?
    ensures Ranked(g, rk) && r.Done? && n in rec ==> dm'[n] == Deepest(dm, n, priority)
  {
    if fuel == 0 {
      return dm, stock, Stopped(RecursionLimit);
    }
    dm', stock', r := Delegate(g, n, dm, priority, stock, fuel, rec, rk);
    if r.Done? {
      ghost var before := dm';
      dm', stock', r := Settle(g, n, dm', priority, stock', fuel, rec, rk);
      GrownTrans(rec, dm, before, dm', priority + 1, priority + fuel, priority, priority + fuel);
      if Ranked(g, rk) {
        ConfinedTrans(rk, dm, before, dm', rk[n], rk[n] + 1, rk[n] + 1);
        assert Deepest(before, n, priority) == Deepest(dm, n, priority);
      }
    }
  }

  /** The first half of `queue`: a target with a single provider (after
      narrowing) is passed on to it, or, when it is its own single provider,
      to its other dependencies, and a provider in `lStocks` becomes
      `Target.stock`; a target with no provider, no file and some
      dependencies is passed on to its other dependencies. Both walks go one
      level deeper, and on a ranked graph touch only targets ranked below
      `n`. */
  method Delegate(g: Env, n: string, dm: map<string, nat>, priority: nat, stock: Option<string>, fuel: nat,
                  ghost rec: set<string>, ghost rk: map<string, nat>)
    returns (dm': map<string, nat>, stock': Option<string>, r: Step)
    requires EnvOk(g) && RecordSet(g, rec) && n in g.index && Within(g, dm) && fuel >= 1
    decreases fuel, 2
    ensures Within(g, dm') && Grown(rec, dm, dm', priority + 1, priority + fuel)
    ensures StockFrom(g, stock, stock')
    ensures r.Stopped? ==> WalkHalt(r.halt)
    ensures r.Done? && Ordered(g, rec, dm) ==> Ordered(g, rec, dm')
    ensures Ranked(g, rk) ==> Confined(rk, dm, dm', rk[n])
    ensures Ranked(g, rk) && rk[n] < fuel ==> r.Done? || r.halt.OlderDependency?
  {
    var t := g.index[n];
    var providers := ProviderChoice(g, n);
    dm', stock', r := dm, stock, Done;
    if |providers| == 1 {
      var p :| p in providers;
      SingletonSubset(providers, p);
      if p in g.stocks {
        stock' := Some(p);
      }
      if p != n {
        assert Follows(g, n, p);
        dm', stock', r := Queue(g, p, dm, priority + 1, stock', fuel - 1, rec, rk);
      } else {
        dm', stock', r := QueueEach(g, n, dm, priority, stock', fuel, rec, rk);
      }
    } else if providers == {} && t.file.None? && t.depends != [] {
      dm', stock', r := QueueEach(g, n, dm, priority, stock', fuel, rec, rk);
    } else {
      GrownRefl(rec, dm, priority + 1, priority + fuel);
    }
  }

  /** The second half of `queue`: the dependencies are walked, then the
      target is recorded at `priority` unless it is already recorded deeper,
      when it is recordable. */
  method Settle(g: Env, n: string, dm: map<string, nat>, priority: nat, stock: Option<string>, fuel: nat,
                ghost rec: set<string>, ghost rk: map<string, nat>)
    returns (dm': map<string, nat>, stock': Option<string>, r: Step)
    requires EnvOk(g) && RecordSet(g, rec) && n in g.index && Within(g, dm) && fuel >= 1
    decreases fuel, 2
    ensures Within(g, dm') && Grown(rec, dm, dm', priority, priority + fuel)
    ensures StockFrom(g, stock, stock')
    ensures r.Stopped? ==> WalkHalt(r.halt)
    ensures r.Done? && Ordered(g, rec, dm) ==> Ordered(g, rec, dm')
    ensures r.Done? ==> n !in g.index[n].depends
    ensures r.Done? && g.index[n].timestamp == 0 ==> forall d :: d in g.index[n].depends ==> d in g.index && g.index[d].timestamp >= 0
    ensures r.Done? && n in rec ==> n in dm' && dm'[n] >= priority
    ensures Ranked(g, rk) ==> Confined(rk, dm, dm', rk[n] + 1)
    ensures Ranked(g, rk) && rk[n] < fuel ==> r.Done? || r.halt.OlderDependency?
    ensures Ranked(g, rk) && r.Done? && n in rec ==> dm'[n] == Deepest(dm, n, priority)
  {
    dm', stock', r := QueueDepends(g, n, dm, priority, stock, fuel, rec, rk);
    if Ranked(g, rk) {
      assert n in dm' ==> n in dm && dm'[n] == dm[n];
    }
    if r.Done? && Recordable(g, n) {
      assert n in rec;
      var v := if n in dm' && dm'[n] >= priority then dm'[n] else priority;
      if Ordered(g, rec, dm) {
        RaiseKeepsOrdered(g, rec, dm', n, v);
      }
      ghost var before := dm';
      dm' := dm'[n := v];
      GrownTrans(rec, dm, before, dm', priority + 1, priority + fuel, priority, priority + fuel);
    } else {
      GrownTrans(rec, dm, dm', dm', priority + 1, priority + fuel, priority, priority + fuel);
    }
  }

  /** `for dep in self._depends: if dep == self: continue;
      dep.queue(dDependencyMap, priority + 1, dPP)`: the walk on to the
      dependencies of a target passed on to itself or to its
      dependencies. */
  method QueueEach(g: Env, n: string, dm: map<string, nat>, priority: nat, stock: Option<string>, fuel: nat,
                   ghost rec: set<string>, ghost rk: map<string, nat>)
    returns (dm': map<string, nat>, stock': Option<string>, r: Step)
    requires EnvOk(g) && RecordSet(g, rec) && n in g.index && Within(g, dm) && fuel >= 1
    decreases fuel, 0
    ensures Within(g, dm') && Grown(rec, dm, dm', priority + 1, priority + fuel)
    ensures StockFrom(g, stock, stock')
    ensures r.Stopped? ==> WalkHalt(r.halt)
    ensures r.Done? && Ordered(g, rec, dm) ==> Ordered(g, rec, dm')
    ensures Ranked(g, rk) ==> Confined(rk, dm, dm', rk[n])
    ensures Ranked(g, rk) && rk[n] < fuel ==> r.Done? || r.halt.OlderDependency?
  {
    var deps := g.index[n].depends;
    dm', stock', r := dm, stock, Done;
    GrownRefl(rec, dm, priority + 1, priority + fuel);
    var i := 0;
    while i < |deps|
      invariant 0 <= i <= |deps| && r.Done?
      invariant Within(g, dm') && Grown(rec, dm, dm', priority + 1, priority + fuel)
      invariant StockFrom(g, stock, stock')
      invariant Ordered(g, rec, dm) ==> Ordered(g, rec, dm')
      invariant Ranked(g, rk) ==> Confined(rk, dm, dm', rk[n])
    {
      if deps[i] != n {
        assert deps[i] in Elems(deps);
        assert Follows(g, n, deps[i]);
        ghost var before := dm';
        dm', stock', r := Queue(g, deps[i], dm', priority + 1, stock', fuel - 1, rec, rk);
        GrownTrans(rec, dm, before, dm', priority + 1, priority + fuel, priority + 1, priority + fuel);
        if Ranked(g, rk) {
          ConfinedTrans(rk, dm, before, dm', rk[n], rk[deps[i]] + 1, rk[n]);
        }
        if r.Stopped? {
          return;
        }
      }
      i := i + 1;
    }
  }

  /** The last loop of `queue` over `_depends`: a target among its own
      dependencies stops the program, a dependency at least as new is walked
      into one level deeper, and an older one stops the program when the
      target itself has no timestamp. */
  method QueueDepends(g: Env, n: string, dm: map<string, nat>, priority: nat, stock: Option<string>, fuel: nat,
                      ghost rec: set<string>, ghost rk: map<string, nat>)
    returns (dm': map<string, nat>, stock': Option<string>, r: Step)
    requires EnvOk(g) && RecordSet(g, rec) && n in g.index && Within(g, dm) && fuel >= 1
    decreases fuel, 1
    ensures Within(g, dm') && Grown(rec, dm, dm', priority + 1, priority + fuel)
    ensures StockFrom(g, stock, stock')
    ensures r.Stopped? ==> WalkHalt(r.halt)
    ensures r.Done? && Ordered(g, rec, dm) ==> Ordered(g, rec, dm')
    ensures r.Done? ==> n !in g.index[n].depends
    ensures r.Done? && g.index[n].timestamp == 0 ==> forall d :: d in g.index[n].depends ==> d in g.index && g.index[d].timestamp >= 0
    ensures r.Done? ==> forall d :: d in g.index[n].depends && Walked(g, rec, n, d) ==> d in dm' && dm'[d] > priority
    ensures Ranked(g, rk) ==> Confined(rk, dm, dm', rk[n])
    ensures Ranked(g, rk) && rk[n] < fuel ==> r.Done? || r.halt.OlderDependency?
  {
    var t := g.index[n];
    assert Elems(t.depends) <= g.index.Keys;
    dm', stock', r := dm, stock, Done;
    GrownRefl(rec, dm, priority + 1, priority + fuel);
    // `seen`: the dependencies looked at so far; `above`: those walked into.
    ghost var seen: set<string> := {};
    ghost var above: set<string> := {};
    var rest := t.depends;
    while rest != [] && r.Done?
      invariant Within(g, dm') && Grown(rec, dm, dm', priority + 1, priority + fuel)
      invariant StockFrom(g, stock, stock') && (r.Stopped? ==> WalkHalt(r.halt))
      invariant r.Done? && Ordered(g, rec, dm) ==> Ordered(g, rec, dm')
      invariant Elems(t.depends) <= seen + Elems(rest) && Elems(rest) <= Elems(t.depends)
      invariant seen <= g.index.Keys && n !in seen
      invariant t.timestamp == 0 ==> forall d :: d in seen ==> g.index[d].timestamp >= 0
      invariant forall d :: d in seen && Walked(g, rec, n, d) ==> d in above
      invariant Above(dm', above, priority)
      invariant Ranked(g, rk) ==> Confined(rk, dm, dm', rk[n])
      invariant Ranked(g, rk) && rk[n] < fuel ==> r.Done? || r.halt.OlderDependency?
      decreases |rest|, if r.Done? then 1 else 0
    {
      var dep := rest[0];
      assert dep in Elems(rest);
      dm', stock', r := QueueDepend(g, n, dep, dm', priority, stock', fuel, rec, rk, dm, above);
      if r.Done? {
        if Walked(g, rec, n, dep) {
          above := above + {dep};
        }
        seen := seen + {dep};
        assert Elems(rest) == {dep} + Elems(rest[1..]) by {
          assert rest == [dep] + rest[1..];
        }
        rest := rest[1..];
      }
    }
  }

  /** One dependency of the last loop of `queue`. What the loop has
      established since it started from `dm0` is kept: the growth of the
      depth map, the order, the dependencies walked into so far (`above`)
      lying deeper than `priority`, and, on a ranked graph, the changes
      confined to targets ranked below `n`. */
  method QueueDepend(g: Env, n: string, dep: string, dm: map<string, nat>, priority: nat, stock: Option<string>, fuel: nat,
                     ghost rec: set<string>, ghost rk: map<string, nat>, ghost dm0: map<string, nat>, ghost above: set<string>)
    returns (dm': map<string, nat>, stock': Option<string>, r: Step)
    requires EnvOk(g) && RecordSet(g, rec) && n in g.index && dep in g.index[n].depends && Within(g, dm) && fuel >= 1
    requires Grown(rec, dm0, dm, priority + 1, priority + fuel) && Above(dm, above, priority)
    decreases fuel, 0
    ensures Within(g, dm') && Grown(rec, dm0, dm', priority + 1, priority + fuel)
    ensures StockFrom(g, stock, stock') && Above(dm', above, priority)
    ensures r.Stopped? ==> WalkHalt(r.halt)
    ensures r.Done? && Ordered(g, rec, dm) ==> Ordered(g, rec, dm')
    ensures r.Done? ==> dep != n
    ensures r.Done? && g.index[n].timestamp == 0 ==> g.index[dep].timestamp >= 0
    ensures r.Done? && Walked(g, rec, n, dep) ==> dep in dm' && dm'[dep] > priority
    ensures Ranked(g, rk) && Confined(rk, dm0, dm, rk[n]) ==> Confined(rk, dm0, dm', rk[n])
    ensures Ranked(g, rk) && rk[n] < fuel ==> r.Done? || r.halt.OlderDependency?
  {
    assert dep in g.index && Follows(g, n, dep);
    if dep == n {
      return dm, stock, Stopped(SelfDependency(n));
    } else if g.index[dep].timestamp >= g.index[n].timestamp {
      dm', stock', r := Queue(g, dep, dm, priority + 1, stock, fuel - 1, rec, rk);
      GrownTrans(rec, dm0, dm, dm', priority + 1, priority + fuel, priority + 1, priority + fuel);
      AboveGrown(rec, dm, dm', priority + 1, priority + fuel, above, priority);
      if Ranked(g, rk) && Confined(rk, dm0, dm, rk[n]) {
        ConfinedTrans(rk, dm0, dm, dm', rk[n], rk[dep] + 1, rk[n]);
      }
    } else if g.index[n].timestamp == 0 {
      return dm, stock, Stopped(OlderDependency(n));
    } else {
      return dm, stock, Done;
    }
  }

  /** Every target of `s` is recorded above `v`. */
  ghost predicate Above(dm: map<string, nat>, s: set<string>, v: nat)
  {
    forall d :: d in s ==> d in dm && dm[d] > v
  }

  lemma AboveGrown(rec: set<string>, a: map<string, nat>, b: map<string, nat>, lo: nat, hi: nat, s: set<string>, v: nat)
    requires Grown(rec, a, b, lo, hi) && Above(a, s, v)
    ensures Above(b, s, v)
  {
  }

  /** The targets `queue` records. */
  ghost function RecordableSet(g: Env): (rec: set<string>)
    requires EnvOk(g)
    ensures RecordSet(g, rec)
  {
    set k | k in g.index && Recordable(g, k)
  }

  /** `for target in lTargets: target.queue(dDependencyMap, 0, dPP)`: the
      walk from every requested target at priority 0, into a fresh depth map.
      Every entry is a recordable target below `fuel`; a requested
      recordable target is recorded; the map is ordered. On a graph ranked
      by `rk` whose requested targets are ranked below `fuel`, the walk
      ends normally or at an older dependency of a target with no
      timestamp. */
  method QueueAll(g: Env, targets: seq<string>, stock: Option<string>, fuel: nat, ghost rec: set<string>, ghost rk: map<string, nat>)
    returns (dm: map<string, nat>, stock': Option<string>, r: Step)
    requires EnvOk(g) && RecordSet(g, rec) && Elems(targets) <= g.index.Keys
    ensures Within(g, dm) && forall k :: k in dm ==> k in rec && dm[k] < fuel
    ensures StockFrom(g, stock, stock')
    ensures r.Stopped? ==> WalkHalt(r.halt)
    ensures r.Done? ==> Ordered(g, rec, dm)
    ensures r.Done? ==> forall k :: k in targets && k in rec ==> k in dm
    ensures RankedBelow(g, rk, targets, fuel) ==> r.Done? || r.halt.OlderDependency?
  {
    dm, stock', r := map[], stock, Done;
    var i := 0;
    while i < |targets| && r.Done?
      invariant 0 <= i <= |targets| && (r.Stopped? ==> WalkHalt(r.halt))
      invariant Within(g, dm) && Grown(rec, map[], dm, 0, fuel)
      invariant StockFrom(g, stock, stock')
      invariant r.Done? ==> Ordered(g, rec, dm)
      invariant r.Done? ==> forall k :: 0 <= k < i && targets[k] in rec ==> targets[k] in dm
      invariant RankedBelow(g, rk, targets, fuel) ==> r.Done? || r.halt.OlderDependency?
      decreases |targets| - i, if r.Done? then 1 else 0
    {
      assert targets[i] in Elems(targets);
      ghost var before := dm;
      dm, stock', r := Queue(g, targets[i], dm, 0, stock', fuel, rec, rk);
      GrownTrans(rec, map[], before, dm, 0, fuel, 0, fuel);
      if r.Done? {
        i := i + 1;
      }
    }
    if r.Done? {
      forall k | k in targets && k in rec
        ensures k in dm
      {
        var j :| 0 <= j < |targets| && targets[j] == k;
      }
    }
  }

  /** The rest of `BuildQueue`'s bucketing: the buckets, deepest first, each
      listed in some order, concatenated. Every recorded target appears
      once, the deeper ones first; an empty map gives the empty queue. */
  method Flatten(dm: map<string, nat>) returns (q: seq<string>)
    ensures Distinct(q) && Elems(q) == dm.Keys
    ensures Descending(dm, q)
  {
    var sets := DepthBuckets(dm);
    q := [];
    var i := 0;
    while i < |sets|
      invariant 0 <= i <= |sets|
      invariant Distinct(q)
      invariant Elems(q) == Deeper(dm, |sets| - 1 - i)
      invariant Descending(dm, q)
    {
      var part := SetToSeq(sets[i]);
      ghost var level := |sets| - 1 - i;
      FlattenStep(dm, q, part, level);
      q := q + part;
      i := i + 1;
    }
    assert Deeper(dm, -1) == dm.Keys;
  }

  /** The names of `q` are recorded, each at no smaller a depth than those
      after it. */
  predicate Descending(dm: map<string, nat>, q: seq<string>)
  {
    && (forall a :: 0 <= a < |q| ==> q[a] in dm)
    && (forall a, b :: 0 <= a < b < |q| ==> dm[q[a]] >= dm[q[b]])
  }

  /** The names recorded deeper than `d`. */
  ghost function Deeper(dm: map<string, nat>, d: int): set<string>
  {
    set k | k in dm && dm[k] > d
  }

  lemma DeeperStep(dm: map<string, nat>, d: nat)
    ensures Deeper(dm, d - 1) == Deeper(dm, d) + set k | k in dm && dm[k] == d
  {
  }

  /** A list sorted by falling depth stays sorted when names of a smaller
      depth than all of its own are appended. */
  lemma DescendingConcat(dm: map<string, nat>, q: seq<string>, part: seq<string>, level: nat)
    requires Descending(dm, q)
    requires forall x :: x in q ==> x in dm && dm[x] > level
    requires forall x :: x in part ==> x in dm && dm[x] == level
    ensures Descending(dm, q + part)
  {
    forall a, b | 0 <= a < b < |q + part|
      ensures (q + part)[a] in dm && (q + part)[b] in dm && dm[(q + part)[a]] >= dm[(q + part)[b]]
    {
      if b < |q| {
        assert (q + part)[a] == q[a] && (q + part)[b] == q[b];
      } else if a < |q| {
        assert (q + part)[a] == q[a] && (q + part)[b] == part[b - |q|];
      } else {
        assert (q + part)[a] == part[a - |q|] && (q + part)[b] == part[b - |q|];
      }
    }
  }

  /** One bucket appended to the flattened queue: the queue stays free of
      repeats and sorted, and now holds every name deeper than one less. */
  lemma FlattenStep(dm: map<string, nat>, q: seq<string>, part: seq<string>, level: nat)
    requires Distinct(q) && Elems(q) == Deeper(dm, level)
    requires Descending(dm, q)
    requires Distinct(part) && Elems(part) == set k | k in dm && dm[k] == level
    ensures Distinct(q + part) && Elems(q + part) == Deeper(dm, level - 1)
    ensures Descending(dm, q + part)
  {
    forall x | x in part
      ensures x in dm && dm[x] == level
    {
      assert x in Elems(part);
    }
    forall x | x in q
      ensures x in dm && dm[x] > level
    {
      assert x in Elems(q);
    }
    DistinctConcat(q, part);
    ElemsConcat(q, part);
    DescendingConcat(dm, q, part, level);
    DeeperStep(dm, level);
  }

  /** The build order of `BuildQueue`: in a queue flattened from an ordered
      depth map, a dependency that `queue` walks into comes before the
      target that depends on it. */
  lemma DependenciesFirst(g: Env, rec: set<string>, dm: map<string, nat>, q: seq<string>, i: nat, j: nat)
    requires Ordered(g, rec, dm)
    requires Descending(dm, q)
    requires i < |q| && j < |q| && q[i] in g.index
    requires q[j] in g.index[q[i]].depends && Walked(g, rec, q[i], q[j])
    ensures j < i
  {
    if i <= j {
      assert false;
    }
  }

  /** The targets among `names` that list `c` among their capabilities. */
  ghost function Among(index: map<string, MTarget>, names: set<string>, c: string): set<string>
  {
    set n | n in names && n in index && c in index[n].provided
  }

  lemma AmongAdd(index: map<string, MTarget>, names: set<string>, n: string, c: string)
    requires n in index
    ensures Among(index, names + {n}, c) == Among(index, names, c) + (if c in Elems(index[n].provided) then {n} else {})
  {
  }

  /** `dPP`, built in `Enqueue`: for every capability some target lists in
      `provides`, the set of the targets listing it, and no other key. */
  method DirectProviders(index: map<string, MTarget>, order: seq<string>) returns (dpp: map<string, set<string>>)
    requires Registered(order, index)
    ensures DirectProvidersOf(index, dpp)
  {
    dpp := map[];
    var rest := order;
    ghost var done: set<string> := {};
    while rest != []
      invariant done + Elems(rest) == index.Keys && done <= index.Keys
      invariant forall c :: c in dpp <==> Among(index, done, c) != {}
      invariant forall c :: c in dpp ==> dpp[c] == Among(index, done, c)
    {
      var n := rest[0];
      assert n in Elems(rest);
      assert Elems(rest) == {n} + Elems(rest[1..]) by {
        assert rest == [n] + rest[1..];
        ElemsConcat([n], rest[1..]);
      }
      forall c
        ensures Among(index, done + {n}, c) == Among(index, done, c) + (if c in Elems(index[n].provided) then {n} else {})
      {
        AmongAdd(index, done, n, c);
      }
      dpp := AddProvider(dpp, Elems(index[n].provided), n);
      done := done + {n};
      rest := rest[1..];
    }
    assert forall c :: Among(index, done, c) == ProvidersOf(index, c);
  }

  /** `[t for t in lQueue if t != Target.stock]`. */
  function Without(q: seq<string>, x: string): (r: seq<string>)
    ensures multiset(r) == multiset(q)[x := 0]
  {
    if q == [] then []
    else
      var rest := Without(q[1..], x);
      assert q == [q[0]] + q[1..];
      if q[0] == x then rest else [q[0]] + rest
  }

  /** Removal works piece by piece, so the remaining names keep their
      relative order. */
  lemma {:induction false} WithoutConcat(a: seq<string>, b: seq<string>, x: string)
    ensures Without(a + b, x) == Without(a, x) + Without(b, x)
  {
    if a == [] {
      assert a + b == b;
    } else {
      assert (a + b)[0] == a[0] && (a + b)[1..] == a[1..] + b;
      WithoutConcat(a[1..], b, x);
    }
  }

  /** Removal keeps every other name. */
  lemma {:induction false} WithoutElems(q: seq<string>, x: string)
    ensures Elems(Without(q, x)) == Elems(q) - {x}
  {
    if q != [] {
      WithoutElems(q[1..], x);
      assert q == [q[0]] + q[1..];
      ElemsConcat([q[0]], q[1..]);
      ElemsConcat([q[0]], Without(q[1..], x));
    }
  }

  /** Removal from a list without repeats leaves a list without repeats. */
  lemma {:induction false} WithoutDistinct(q: seq<string>, x: string)
    requires Distinct(q)
    ensures Distinct(Without(q, x))
  {
    if q != [] {
      assert Distinct(q[1..]);
      WithoutDistinct(q[1..], x);
      if q[0] != x {
        WithoutElems(q[1..], x);
        assert q[0] !in Elems(q[1..]);
        DistinctConcat([q[0]], Without(q[1..], x));
      }
    }
  }

  /** Removal from a list sorted by falling depth leaves it sorted. */
  lemma {:induction false} WithoutDescending(dm: map<string, nat>, q: seq<string>, x: string)
    requires Descending(dm, q)
    ensures Descending(dm, Without(q, x))
  {
    if q != [] {
      var rest := Without(q[1..], x);
      assert Descending(dm, q[1..]);
      WithoutDescending(dm, q[1..], x);
      if q[0] != x {
        WithoutElems(q[1..], x);
        DescendingHead(dm, q);
        forall y | y in rest
          ensures y in dm && dm[q[0]] >= dm[y]
        {
          assert y in Elems(rest);
        }
        assert ([q[0]] + rest)[1..] == rest;
        DescendingCons(dm, [q[0]] + rest);
      }
    }
  }

  lemma DescendingHead(dm: map<string, nat>, q: seq<string>)
    requires Descending(dm, q) && q != []
    ensures q[0] in dm && forall y :: y in q[1..] ==> y in dm && dm[q[0]] >= dm[y]
  {
    forall y | y in q[1..]
      ensures y in dm && dm[q[0]] >= dm[y]
    {
      var j :| 0 <= j < |q[1..]| && q[1..][j] == y;
      assert q[j + 1] == y;
    }
  }

  /** A list sorted by falling depth is extended at the front by a name at
      least as deep as all of it. */
  lemma DescendingCons(dm: map<string, nat>, q: seq<string>)
    requires q != [] && Descending(dm, q[1..]) && q[0] in dm
    requires forall y :: y in q[1..] ==> y in dm && dm[q[0]] >= dm[y]
    ensures Descending(dm, q)
  {
    forall a | 0 < a < |q|
      ensures q[a] in dm
    {
      assert q[a] == q[1..][a - 1];
    }
    forall a, b | 0 <= a < b < |q|
      ensures dm[q[a]] >= dm[q[b]]
    {
      assert q[b] == q[1..][b - 1] && q[1..][b - 1] in q[1..];
      if a > 0 {
        assert q[a] == q[1..][a - 1];
      }
    }
  }

  /** `if Target.stock and not Target.stock.timestamp: lQueue = [Target.stock] + lQueue`. */
  function Prepended(index: map<string, MTarget>, q: seq<string>, stock: Option<string>): (r: seq<string>)
    requires stock.Some? ==> stock.value in index
    ensures stock.Some? && index[stock.value].timestamp == 0 ==> r == [stock.value] + q
    ensures !(stock.Some? && index[stock.value].timestamp == 0) ==> r == q
  {
    if stock.Some? && index[stock.value].timestamp == 0 then [stock.value] + q else q
  }

  /** The stock placement of `BuildQueue` in `jsonmake.py` and of
      `PluginBuildQueue` in `tinymake-witcher3.py`: the stock is taken out of
      the queue and put back in front only when it has no timestamp. */
  function Place(index: map<string, MTarget>, q: seq<string>, stock: Option<string>): seq<string>
    requires stock.Some? ==> stock.value in index
  {
    if stock.None? then q else Prepended(index, Without(q, stock.value), stock)
  }

  /** What placement does: with no stock the queue is unchanged; otherwise
      every copy of the stock is removed, the other names keeping their
      order, and one copy is put first exactly when it has no timestamp; a
      queue without repeats stays so. */
  lemma PlaceCases(index: map<string, MTarget>, q: seq<string>, s: string)
    requires s in index
    ensures var front := index[s].timestamp == 0;
            var r := Place(index, q, Some(s));
            && r == (if front then [s] else []) + Without(q, s)
            && multiset(r)[s] == (if front then 1 else 0)
            && Elems(r) == Elems(q) - {s} + (if front then {s} else {})
            && (Distinct(q) ==> Distinct(r))
  {
    var w := Without(q, s);
    var front: seq<string> := if index[s].timestamp == 0 then [s] else [];
    assert Place(index, q, Some(s)) == front + w;
    WithoutElems(q, s);
    ElemsConcat(front, w);
    if Distinct(q) {
      WithoutDistinct(q, s);
      if front != [] {
        DistinctConcat(front, w);
      }
    }
    assert multiset(front + w) == multiset(front) + multiset(w);
  }

  /** `Target.stock` after the stock check of `BuildQueue`, or why it stops. */
  datatype StockPick = Picked(stock: Option<string>) | PickHalted(halt: Halt)

  /** The stock check of `BuildQueue` (`jsonmake.py`, and the `BuildQueue`
      hook of `jsonmake-witcher3.py`): more than one stock queued stops the
      program, a single one becomes the stock, and a registered `stock` with
      no stock selected stops it too. */
  function PickStock(index: map<string, MTarget>, stocks: seq<string>, q: seq<string>, stock: Option<string>): StockPick
  {
    var queued := Filter(q, Elems(stocks));
    if |queued| > 1 then PickHalted(TooManyStocks)
    else
      var s := if |queued| == 1 then Some(queued[0]) else stock;
      if "stock" in index && s.None? then PickHalted(NoStock) else Picked(s)
  }

  /** The stock check in terms of the stocks in the (repeat-free) queue. */
  lemma PickStockCases(index: map<string, MTarget>, stocks: seq<string>, q: seq<string>, stock: Option<string>)
    requires Distinct(q)
    ensures var inQueue := Elems(q) * Elems(stocks);
            var r := PickStock(index, stocks, q, stock);
            && (r == PickHalted(TooManyStocks) <==> |inQueue| > 1)
            && (r == PickHalted(NoStock) <==> |inQueue| == 0 && stock.None? && "stock" in index)
            && (r.Picked? && |inQueue| == 1 ==> r.stock.Some? && r.stock.value in inQueue)
            && (r.Picked? && |inQueue| == 0 ==> r.stock == stock)
            && (r.PickHalted? ==> r.halt.TooManyStocks? || r.halt.NoStock?)
  {
    var queued := Filter(q, Elems(stocks));
    FilterMembers(q, Elems(stocks));
    FilterDistinct(q, Elems(stocks));
    DistinctCard(queued);
    if |queued| == 1 {
      assert queued[0] in Elems(queued);
    }
  }

  /** `[t for t in lQueue if t.mtime is None]` (`t.target` in
      `tinymake.py`): the queued targets with no file, in queue order. */
  function Unfiled(index: map<string, MTarget>, q: seq<string>): (r: seq<string>)
    ensures Elems(r) == set x | x in q && x in index && index[x].file.None?
    ensures Distinct(q) ==> Distinct(r)
  {
    var keep := set n | n in index && index[n].file.None?;
    FilterMembers(q, keep);
    if Distinct(q) then FilterDistinct(q, keep); Filter(q, keep) else Filter(q, keep)
  }

  /** A line of the report printed by `RunCommand` (`BuildQueueCLI` in
      `tinymake.py`); column widths are not modelled. */
  datatype Line =
    | NoTargetsGiven
    | AmbiguousFor(base: string)
    | PotentiallyProvidedBy(name: string, providers: set<string>)
    | SuccessAs(base: string)
    | Entry(name: string, file: Option<string>, layers: seq<string>)

  /** The report after a successful `Enqueue`: with ambiguous targets, a
      header naming the base and one line per ambiguous target with its
      potential providers, and failure; otherwise a success line and one
      line per queued target with its file and layers. */
  method Report(index: map<string, MTarget>, dpp: map<string, set<string>>, base: string, q: seq<string>, amb: seq<string>)
    returns (ok: bool, lines: seq<Line>)
    requires Elems(q) <= index.Keys
    ensures ok <==> amb == []
    ensures !ok ==> |lines| == |amb| + 1 && lines[0] == AmbiguousFor(base)
    ensures !ok ==> forall k :: 0 <= k < |amb| ==> lines[k + 1] == PotentiallyProvidedBy(amb[k], if amb[k] in dpp then dpp[amb[k]] else {})
    ensures ok ==> |lines| == |q| + 1 && lines[0] == SuccessAs(base)
    ensures ok ==> forall k :: 0 <= k < |q| ==> q[k] in index && lines[k + 1] == Entry(q[k], index[q[k]].file, GetLayers(index[q[k]]))
  {
    if amb != [] {
      lines := [AmbiguousFor(base)];
      var i := 0;
      while i < |amb|
        invariant 0 <= i <= |amb| && |lines| == i + 1 && lines[0] == AmbiguousFor(base)
        invariant forall k :: 0 <= k < i ==> lines[k + 1] == PotentiallyProvidedBy(amb[k], if amb[k] in dpp then dpp[amb[k]] else {})
      {
        lines := lines + [PotentiallyProvidedBy(amb[i], if amb[i] in dpp then dpp[amb[i]] else {})];
        i := i + 1;
      }
      return false, lines;
    }
    lines := [SuccessAs(base)];
    var i := 0;
    while i < |q|
      invariant 0 <= i <= |q| && |lines| == i + 1 && lines[0] == SuccessAs(base)
      invariant forall k :: 0 <= k < i ==> q[k] in index && lines[k + 1] == Entry(q[k], index[q[k]].file, GetLayers(index[q[k]]))
    {
      assert q[i] in Elems(q);
      lines := lines + [Entry(q[i], index[q[i]].file, GetLayers(index[q[i]]))];
      i := i + 1;
    }
    ok := true;
  }

  /** The depth map flattened: every recorded target once, the deeper ones
      first. */
  ghost predicate Flattened(dm: map<string, nat>, q: seq<string>)
  {
    Distinct(q) && Elems(q) == dm.Keys && Descending(dm, q)
  }

  /** `BuildQueue` on a non-empty depth map: with no stock, the flattened
      map; with a stock, the flattened map without the stock, which is put
      in front exactly when it has no timestamp. */
  ghost predicate Scheduled(index: map<string, MTarget>, dm: map<string, nat>, stock: Option<string>, q: seq<string>)
    requires stock.Some? ==> stock.value in index
  {
    if stock.None? then Flattened(dm, q)
    else
      var s := stock.value;
      var front := index[s].timestamp == 0;
      && Distinct(q)
      && Elems(q) == dm.Keys - {s} + (if front then {s} else {})
      && (front ==> q != [] && q[0] == s)
      && (var core := if front then q[1..] else q; s !in core && Descending(dm, core))
  }

  /** Placing the stock in a flattened depth map gives the scheduled queue. */
  lemma PlaceScheduled(index: map<string, MTarget>, dm: map<string, nat>, q: seq<string>, stock: Option<string>)
    requires stock.Some? ==> stock.value in index
    requires Flattened(dm, q)
    ensures Scheduled(index, dm, stock, Place(index, q, stock))
  {
    if stock.Some? {
      var s := stock.value;
      PlaceCases(index, q, s);
      WithoutElems(q, s);
      WithoutDescending(dm, q, s);
      var r := Place(index, q, stock);
      if index[s].timestamp == 0 {
        assert r[1..] == Without(q, s);
      }
    }
  }

  /** In a scheduled queue, a dependency that `queue` walks into comes
      before the target depending on it, the stock put in front aside. */
  lemma ScheduledDependenciesFirst(g: Env, rec: set<string>, dm: map<string, nat>, stock: Option<string>, q: seq<string>, i: nat, j: nat)
    requires stock.Some? ==> stock.value in g.index
    requires Ordered(g, rec, dm) && Scheduled(g.index, dm, stock, q)
    requires i < |q| && j < |q| && q[i] in g.index
    requires stock.Some? ==> q[i] != stock.value && q[j] != stock.value
    requires q[j] in g.index[q[i]].depends && Walked(g, rec, q[i], q[j])
    ensures j < i
  {
    if stock.None? {
      DependenciesFirst(g, rec, dm, q, i, j);
    } else if g.index[stock.value].timestamp == 0 {
      var core := q[1..];
      assert i > 0 && j > 0;
      assert core[i - 1] == q[i] && core[j - 1] == q[j];
      DependenciesFirst(g, rec, dm, core, i - 1, j - 1);
    } else {
      DependenciesFirst(g, rec, dm, q, i, j);
    }
  }

  /** `dPP` as `Enqueue` builds it. */
  ghost predicate DirectProvidersOf(index: map<string, MTarget>, dpp: map<string, set<string>>)
  {
    && (forall c :: c in dpp <==> ProvidersOf(index, c) != {})
    && (forall c :: c in dpp ==> dpp[c] == ProvidersOf(index, c))
  }

  /** `rk` ranks the graph `queue` follows, and every requested target
      below `fuel`. */
  ghost predicate RankedBelow(g: Env, rk: map<string, nat>, targets: seq<string>, fuel: nat)
    requires EnvOk(g)
  {
    Ranked(g, rk) && forall t :: t in targets ==> t in rk && rk[t] < fuel
  }

  /** The graph `queue` follows from `targets` has no cycle, and no walk
      from them is `fuel` calls deep. */
  ghost predicate Acyclic(g: Env, targets: seq<string>, fuel: nat)
    requires EnvOk(g)
  {
    exists rk :: RankedBelow(g, rk, targets, fuel)
  }

  /** The walk of `BuildQueue` from the requested targets, and the depth
      map flattened deepest first when the walk ends normally; on a graph
      with no cycle and no walk as deep as `fuel`, the walk stops only at
      an older dependency of a target with no timestamp. */
  method Walk(g: Env, targets: seq<string>, stock: Option<string>, fuel: nat)
    returns (dm: map<string, nat>, q: seq<string>, stock': Option<string>, r: Step)
    requires EnvOk(g) && Elems(targets) <= g.index.Keys
    ensures Within(g, dm) && forall k :: k in dm ==> k in RecordableSet(g) && dm[k] < fuel
    ensures StockFrom(g, stock, stock')
    ensures r.Done? ==> Ordered(g, RecordableSet(g), dm) && Flattened(dm, q)
    ensures r.Done? ==> forall k :: k in targets && k in RecordableSet(g) ==> k in dm
    ensures r.Stopped? ==> WalkHalt(r.halt)
    ensures Acyclic(g, targets, fuel) ==> r.Done? || r.halt.OlderDependency?
  {
    ghost var rec := RecordableSet(g);
    ghost var rk: map<string, nat> := map[];
    if Acyclic(g, targets, fuel) {
      rk :| RankedBelow(g, rk, targets, fuel);
    }
    dm, stock', r := QueueAll(g, targets, stock, fuel, rec, rk);
    q := [];
    if r.Done? {
      q := Flatten(dm);
    }
  }

  /** What `Enqueue` returns and leaves in `Target`: the targets (requested
      ones now needed), the selected base and stock, `dPP`, the depth map,
      the queue and the ambiguous targets; or that it declined or stopped. */
  datatype Enqueued =
    | EnqueueHalted(halt: Halt)
    | Declined
    | Enqueued(index: map<string, MTarget>, base: string, stock: Option<string>, dpp: map<string, set<string>>,
               depths: map<string, nat>, queue: seq<string>, ambiguous: seq<string>)
}
