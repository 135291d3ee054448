/** The target model shared by the set-fixpoint engine `yamake.py` and its
    variant `yamake_builder.py`. Both files carry the same `Target` record, the
    same per-target checks in `Initialize`, the same provider maps and the same
    loops inside `Enqueue`; they are defined once here. */
module YamakeTargets {
  import opened Util

  /** A target after `finalizeInit`. Dependencies and capabilities are names
      of other targets; an absent or empty list is the empty set, which is
      exactly what `Depends()` and `Provides()` return for it. `existsPath` (the `exists` key) is ""
      when the entry has no existence check; `params` holds the remaining keys
      of the build-file entry whose values are truthy (`target`, `essential`,
      `check_mtime`, ...). `base` and `baseFamily` are set by `Initialize`. */
  datatype YTarget = YTarget(
    name: string,
    existsPath: string,
    depends: set<string>,
    provided: set<string>,
    layers: seq<string>,
    actions: seq<string>,
    clean: seq<string>,
    params: set<string>,
    base: Option<string>,
    baseFamily: Option<string>)

  /** Everything `Initialize` and `Enqueue` can raise or run into. */
  datatype Fault =
    | UnknownName(name: string)        // KeyError in `finalizeInit`
    | MultipleBases(target: string)    // a target depending on two bases
    | CyclicDependency(target: string)
    | CyclicProvide(target: string)
    | Diverges(target: string)         // a loop that Python keeps running
    | NoTargets                        // NameError: `lOutput` is not bound
    | TooManyStocks
    | NoStock
    | UnindexableBases                 // TypeError: `self.lBases[0]` on a set
    | NoBaseName                       // AttributeError: `self.base.name` with no base

  /** `Target(name, builder, {})`: the targets `Initialize` creates before
      reading the build file. */
  function Blank(name: string): (t: YTarget)
    ensures t.name == name && IsAbstract(t)
    ensures t.depends == {} && t.provided == {} && t.base.None?
  {
    YTarget(name, "", {}, {}, [], [], [], {}, None, None)
  }

  /** `IsAbstract`: a target with no existence check, no actions and no
      layers only names a capability. */
  predicate IsAbstract(t: YTarget)
  {
    t.existsPath == "" && t.actions == [] && t.layers == []
  }

  /** `GetLayers`: the layers a target writes, itself when it lists none. */
  function GetLayers(t: YTarget): (r: seq<string>)
    ensures r != []
    ensures t.layers != [] ==> r == t.layers
    ensures IsAbstract(t) ==> r == [t.name]
  {
    if t.layers == [] then [t.name] else t.layers
  }

  /** After `finalizeInit`, every name a target depends on or provides is a
      registered target. */
  ghost predicate Resolved(index: map<string, YTarget>)
  {
    forall n :: n in index ==> index[n].depends <= index.Keys && index[n].provided <= index.Keys
  }

  /** `[t.finalizeInit(self) for t in self.lTargets]`: the names are looked up
      in registration order, and the first one that is not a target raises
      KeyError. */
  method FinalizeInit(index: map<string, YTarget>, order: seq<string>) returns (unknown: Option<string>)
    requires Elems(order) == index.Keys
    ensures unknown.None? <==> Resolved(index)
    ensures unknown.Some? ==> unknown.value !in index
    ensures unknown.Some? ==> exists n :: n in index && unknown.value in index[n].depends + index[n].provided
  {
    var i := 0;
    while i < |order|
      invariant 0 <= i <= |order|
      invariant forall k :: 0 <= k < i ==> order[k] in index && index[order[k]].depends <= index.Keys
                                                              && index[order[k]].provided <= index.Keys
    {
      assert order[i] in Elems(order);
      var t := index[order[i]];
      var bad := (t.depends + t.provided) - index.Keys;
      if bad != {} {
        var x :| x in bad;
        return Some(x);
      }
      assert forall x :: x in t.depends + t.provided && x !in index.Keys ==> x in bad;
      i := i + 1;
    }
    forall n | n in index ensures index[n].depends <= index.Keys && index[n].provided <= index.Keys {
      assert n in Elems(order);
      var k :| 0 <= k < |order| && order[k] == n;
    }
    return None;
  }

  /** The two relations the cycle checks follow. */
  datatype Edge = DependsOn | ProvidesFor

  function Out(t: YTarget, e: Edge): set<string>
  {
    match e
    case DependsOn => t.depends
    case ProvidesFor => t.provided
  }

  /** One step along a relation: `set(chain.from_iterable(...))` over `s`. */
  function Step(index: map<string, YTarget>, e: Edge, s: set<string>): set<string>
  {
    set n, m | n in s && n in index && m in Out(index[n], e) :: m
  }

  /** The names of the abstract targets in `s`. */
  function AbstractIn(index: map<string, YTarget>, s: set<string>): set<string>
  {
    set n | n in s && n in index && IsAbstract(index[n])
  }

  /** No abstract target in `s`. */
  ghost predicate NoAbstract(index: map<string, YTarget>, s: set<string>)
  {
    forall n :: n in s && n in index ==> !IsAbstract(index[n])
  }

  /** The frontier of the cycle checks after `i - 1` steps from `t`: the first
      frontier is `t`'s own list. */
  ghost function Frontier(index: map<string, YTarget>, e: Edge, t: string, i: nat): set<string>
    requires t in index
    decreases i
  {
    if i <= 1 then Out(index[t], e) else Step(index, e, Frontier(index, e, t, i - 1))
  }

  /** A frontier that repeats once repeats for ever (the empty one included). */
  lemma {:induction false} FrontierFixed(index: map<string, YTarget>, e: Edge, t: string, i: nat, j: nat)
    requires t in index && 1 <= i <= j
    requires Frontier(index, e, t, i + 1) == Frontier(index, e, t, i)
    ensures Frontier(index, e, t, j) == Frontier(index, e, t, i)
    decreases j - i
  {
    if j > i {
      FrontierFixed(index, e, t, i, j - 1);
      assert Frontier(index, e, t, j) == Step(index, e, Frontier(index, e, t, j - 1));
    }
  }

  /** What the dependency-cycle check accepts: the ninth frontier is empty and
      `t` is in none of the first eight. */
  ghost predicate DependsAcyclic(index: map<string, YTarget>, t: string)
    requires t in index
  {
    && Frontier(index, DependsOn, t, 9) == {}
    && forall i :: 1 <= i <= 8 ==> t !in Frontier(index, DependsOn, t, i)
  }

  /** The dependency-cycle check of `Initialize`. The counter starts at 1 and
      the check gives up when it reaches 10, so a frontier still non-empty
      after eight steps is rejected even without a cycle. The first
      comparison of a frontier with its predecessor compares a list with a
      set and is always false; later ones are modelled on sets, which gives
      the same verdict: equal frontiers never empty, so the counter rejects
      them anyway. */
  method CheckDependencyCycle(index: map<string, YTarget>, t: string) returns (ok: bool)
    requires t in index
    ensures ok <==> DependsAcyclic(index, t)
  {
    var frontier := index[t].depends;
    var counter := 1;
    while frontier != {}
      invariant 1 <= counter <= 9
      invariant frontier == Frontier(index, DependsOn, t, counter)
      invariant Clear(index, DependsOn, t, counter)
      decreases 9 - counter
    {
      if t in frontier {
        DependsRejected(index, t, counter);
        return false;
      }
      ClearStep(index, DependsOn, t, counter);
      var last := frontier;
      frontier := Step(index, DependsOn, frontier);
      counter := counter + 1;
      if counter >= 10 || (counter > 2 && frontier == last) {
        if counter < 10 {
          FrontierFixed(index, DependsOn, t, counter - 1, 9);
        }
        DependsRejected(index, t, counter - 1);
        return false;
      }
    }
    AcyclicAccepted(index, t, counter);
    return true;
  }

  /** The first `c - 1` frontiers are non-empty and do not hold `t`. */
  ghost predicate Clear(index: map<string, YTarget>, e: Edge, t: string, c: nat)
    requires t in index
  {
    forall i :: 1 <= i < c ==> t !in Frontier(index, e, t, i) && Frontier(index, e, t, i) != {}
  }

  lemma ClearStep(index: map<string, YTarget>, e: Edge, t: string, c: nat)
    requires t in index && Clear(index, e, t, c)
    requires t !in Frontier(index, e, t, c) && Frontier(index, e, t, c) != {}
    ensures Clear(index, e, t, c + 1)
  {
  }

  /** `t` in one of the first nine frontiers, or a ninth one that is not
      empty, fails the check. */
  lemma DependsRejected(index: map<string, YTarget>, t: string, c: nat)
    requires t in index && 1 <= c <= 9
    requires t in Frontier(index, DependsOn, t, c) || Frontier(index, DependsOn, t, 9) != {}
    ensures !DependsAcyclic(index, t)
  {
  }

  /** A frontier that empties within nine steps, with `t` in none before
      it, passes the check. */
  lemma AcyclicAccepted(index: map<string, YTarget>, t: string, c: nat)
    requires t in index && 1 <= c <= 9
    requires Frontier(index, DependsOn, t, c) == {}
    requires Clear(index, DependsOn, t, c)
    ensures DependsAcyclic(index, t)
  {
    FrontierFixed(index, DependsOn, t, c, 9);
    forall i | c <= i <= 8 ensures Frontier(index, DependsOn, t, i) == {} {
      FrontierFixed(index, DependsOn, t, c, i);
    }
  }

  /** The outcome of a check that may not finish. */
  datatype Verdict = NoCycle | Cycle | Undecided

  /** What the provides-cycle check accepts within `fuel` steps. */
  ghost predicate ProvidesAcyclic(index: map<string, YTarget>, t: string, fuel: nat)
    requires t in index
  {
    && Frontier(index, ProvidesFor, t, fuel + 1) == {}
    && forall i :: 1 <= i <= fuel ==> t !in Frontier(index, ProvidesFor, t, i)
  }

  /** The provides-cycle check of `Initialize`. It has no counter, so a
      frontier that cycles with a period longer than one keeps it running;
      the model stops after `fuel` steps and answers Undecided. */
  method CheckProvideCycle(index: map<string, YTarget>, t: string, fuel: nat) returns (v: Verdict)
    requires t in index
    ensures v == NoCycle <==> ProvidesAcyclic(index, t, fuel)
    ensures v == Cycle ==>
              exists i :: 1 <= i <= fuel && (t in Frontier(index, ProvidesFor, t, i)
                || (i >= 2 && Frontier(index, ProvidesFor, t, i + 1) == Frontier(index, ProvidesFor, t, i)))
    ensures v == Undecided ==> forall i :: 1 <= i <= fuel + 1 ==> Frontier(index, ProvidesFor, t, i) != {}
  {
    var frontier := index[t].provided;
    var round := 1;
    while frontier != {}
      invariant 1 <= round <= fuel + 1
      invariant frontier == Frontier(index, ProvidesFor, t, round)
      invariant Clear(index, ProvidesFor, t, round)
      decreases fuel + 1 - round
    {
      if round > fuel {
        ClearNonEmpty(index, ProvidesFor, t, round);
        ProvidesRejected(index, t, fuel, round);
        return Undecided;
      }
      if t in frontier {
        ProvidesRejected(index, t, fuel, round);
        return Cycle;
      }
      ClearStep(index, ProvidesFor, t, round);
      var last := frontier;
      frontier := Step(index, ProvidesFor, frontier);
      if round >= 2 && frontier == last {
        FrontierFixed(index, ProvidesFor, t, round, fuel + 1);
        ProvidesRejected(index, t, fuel, round);
        return Cycle;
      }
      round := round + 1;
    }
    ProvidesAccepted(index, t, fuel, round);
    return NoCycle;
  }

  /** `t` in one of the first `fuel` frontiers, or a last one that is not
      empty, fails the check. */
  lemma ProvidesRejected(index: map<string, YTarget>, t: string, fuel: nat, c: nat)
    requires t in index && 1 <= c <= fuel + 1
    requires (c <= fuel && t in Frontier(index, ProvidesFor, t, c)) || Frontier(index, ProvidesFor, t, fuel + 1) != {}
    ensures !ProvidesAcyclic(index, t, fuel)
  {
  }

  lemma ClearNonEmpty(index: map<string, YTarget>, e: Edge, t: string, c: nat)
    requires t in index && Clear(index, e, t, c) && Frontier(index, e, t, c) != {}
    ensures forall i :: 1 <= i <= c ==> Frontier(index, e, t, i) != {}
  {
  }

  /** A frontier that empties within `fuel + 1` steps, with `t` in none
      before it, passes the check. */
  lemma ProvidesAccepted(index: map<string, YTarget>, t: string, fuel: nat, c: nat)
    requires t in index && 1 <= c <= fuel + 1
    requires Frontier(index, ProvidesFor, t, c) == {} && Clear(index, ProvidesFor, t, c)
    ensures ProvidesAcyclic(index, t, fuel)
  {
    FrontierFixed(index, ProvidesFor, t, c, fuel + 1);
    forall i | c <= i <= fuel ensures Frontier(index, ProvidesFor, t, i) == {} {
      FrontierFixed(index, ProvidesFor, t, c, i);
    }
  }

  /** `dProviders` after the targets in `done` were visited: each capability
      maps to the targets that list it in `provides`. */
  ghost function ProvidersAmong(index: map<string, YTarget>, done: set<string>): map<string, set<string>>
  {
    map p | p in Step(index, ProvidesFor, done) :: ProvidersIn(index, done, p)
  }

  /** The targets in `done` that list `p` in `provides`. */
  ghost function ProvidersIn(index: map<string, YTarget>, done: set<string>, p: string): set<string>
  {
    set n | n in done && n in index && p in index[n].provided
  }

  /** `for provider in lProvides: dProviders[provider].add(t)` extends the map
      by one target; visiting a target twice changes nothing. */
  lemma ProvidersAmongStep(index: map<string, YTarget>, done: set<string>, name: string)
    requires name in index
    ensures ProvidersAmong(index, done + {name}) == AddProvider(ProvidersAmong(index, done), index[name].provided, name)
  {
    var before := ProvidersAmong(index, done);
    var after := ProvidersAmong(index, done + {name});
    var stepped := AddProvider(before, index[name].provided, name);
    StepAdd(index, ProvidesFor, done, name);
    assert after.Keys == stepped.Keys;
    forall p | p in after ensures after[p] == stepped[p] {
      ProvidersInAdd(index, done, name, p);
    }
  }

  /** One more name joins the providers of each of its capabilities; a name
      outside every step provides nothing. */
  lemma ProvidersInAdd(index: map<string, YTarget>, done: set<string>, name: string, p: string)
    requires name in index
    ensures ProvidersIn(index, done + {name}, p)
         == ProvidersIn(index, done, p) + (if p in index[name].provided then {name} else {})
    ensures p !in Step(index, ProvidesFor, done) ==> ProvidersIn(index, done, p) == {}
  {
    forall n | n in ProvidersIn(index, done, p) ensures p in Step(index, ProvidesFor, done) {
      assert p in Out(index[n], ProvidesFor);
    }
  }

  /** A step from one more name adds that name's out-edges. */
  lemma StepAdd(index: map<string, YTarget>, e: Edge, s: set<string>, name: string)
    requires name in index
    ensures Step(index, e, s + {name}) == Step(index, e, s) + Out(index[name], e)
  {
    forall m | m in Step(index, e, s + {name}) ensures m in Step(index, e, s) + Out(index[name], e) {
      var n :| n in s + {name} && n in index && m in Out(index[n], e);
      if n != name {
        assert n in s;
      }
    }
    forall m | m in Out(index[name], e) ensures m in Step(index, e, s + {name}) {
      assert name in s + {name};
    }
    forall m | m in Step(index, e, s) ensures m in Step(index, e, s + {name}) {
      var n :| n in s && n in index && m in Out(index[n], e);
      assert n in s + {name};
    }
  }

  /** The closure loop of `Initialize` for one capability: starting from its
      direct providers, the delta `lP` of providers of providers not yet seen
      is added until it is empty. The loop ends because the set strictly grows
      inside the finite universe `u`. */
  method DeltaClosure(prov: map<string, set<string>>, start: set<string>, ghost u: set<string>)
    returns (full: set<string>)
    requires start <= u && ValuesWithin(prov, u)
    ensures IsProviderClosure(prov, start, full)
    ensures full <= u
  {
    full := start;
    var delta := ProviderStep(prov, full) - full;
    while delta != {}
      invariant start <= full <= u
      invariant delta == ProviderStep(prov, full) - full
      invariant forall s :: start <= s && ClosedUnder(prov, s) ==> full <= s
      decreases |u - full|
    {
      forall s | start <= s && ClosedUnder(prov, s) ensures full + delta <= s {
        ProviderStepMonotone(prov, full, s);
      }
      ProperSubsetCard(u - (full + delta), u - full);
      full := full + delta;
      delta := ProviderStep(prov, full) - full;
    }
  }

  /** `dFullProviders` of the targets `index`: for every capability some
      target provides, the closure of its direct providers, all of them
      targets. */
  ghost predicate FullProvidersOf(index: map<string, YTarget>, full: map<string, set<string>>)
  {
    var direct := ProvidersAmong(index, index.Keys);
    && full.Keys == direct.Keys
    && (forall p :: p in full ==> IsProviderClosure(direct, direct[p], full[p]))
    && ValuesWithin(full, index.Keys)
  }

  /** `dFullProviders`: every capability of the direct map, with the closure of
      its direct providers. */
  method FullProviders(prov: map<string, set<string>>, ghost u: set<string>)
    returns (full: map<string, set<string>>)
    requires ValuesWithin(prov, u)
    ensures full.Keys == prov.Keys
    ensures forall p :: p in full ==> IsProviderClosure(prov, prov[p], full[p])
    ensures ValuesWithin(full, u)
  {
    full := map[];
    var keys := prov.Keys;
    while keys != {}
      invariant keys <= prov.Keys
      invariant full.Keys == prov.Keys - keys
      invariant forall p :: p in full ==> IsProviderClosure(prov, prov[p], full[p])
      invariant ValuesWithin(full, u)
      decreases keys
    {
      var p :| p in keys;
      var closure := DeltaClosure(prov, prov[p], u);
      full := full[p := closure];
      keys := keys - {p};
    }
  }

  /** The bases a base provides, other than `base` itself. */
  function OtherBases(index: map<string, YTarget>, bases: set<string>, b: string): set<string>
    requires b in index
  {
    set t | t in index[b].provided && t != "base" && t in bases
  }

  /** A walk through bases, each step to a base the previous one provides. */
  ghost predicate BaseWalk(index: map<string, YTarget>, bases: set<string>, path: seq<string>)
    requires bases <= index.Keys
  {
    && |path| >= 1
    && (forall k :: 0 <= k < |path| ==> path[k] in bases)
    && forall k :: 0 <= k < |path| - 1 ==> path[k + 1] in OtherBases(index, bases, path[k])
  }

  /** The family of base `b`: follow a provided base (the first of a list
      built from a set, so any of them) until none is left. Python may follow
      a cycle for ever; the model stops after `fuel` steps and answers None. */
  method FamilyOf(index: map<string, YTarget>, bases: set<string>, b: string, fuel: nat)
    returns (family: Option<string>, ghost path: seq<string>)
    requires bases <= index.Keys && b in bases
    ensures BaseWalk(index, bases, path) && path[0] == b
    ensures family.Some? ==> family.value == path[|path| - 1] && OtherBases(index, bases, family.value) == {}
    ensures OtherBases(index, bases, b) == {} ==> family == Some(b)
    ensures family.None? ==> |path| == fuel + 1 && OtherBases(index, bases, path[|path| - 1]) != {}
  {
    var current := b;
    path := [b];
    var next := OtherBases(index, bases, b);
    var steps := 0;
    while next != {}
      invariant BaseWalk(index, bases, path) && path[0] == b && path[|path| - 1] == current
      invariant current in bases && next == OtherBases(index, bases, current)
      invariant |path| == steps + 1 && steps <= fuel
      invariant steps == 0 ==> current == b
      invariant steps > 0 ==> OtherBases(index, bases, b) != {}
      decreases fuel - steps
    {
      if steps == fuel {
        return None, path;
      }
      var c :| c in next;
      current := c;
      path := path + [current];
      steps := steps + 1;
      next := OtherBases(index, bases, current);
    }
    return Some(current), path;
  }

  /** Base `f` is reached from base `b` by a walk through provided bases. */
  ghost predicate WalksTo(index: map<string, YTarget>, bases: set<string>, b: string, f: string)
    requires bases <= index.Keys
  {
    exists path :: BaseWalk(index, bases, path) && path[0] == b && path[|path| - 1] == f
  }

  /** From base `b` a walk of `fuel` steps leads to a base that still
      provides another base: the `while` of the family walk is still going. */
  ghost predicate WalksOn(index: map<string, YTarget>, bases: set<string>, b: string, fuel: nat)
    requires bases <= index.Keys
  {
    exists path :: BaseWalk(index, bases, path) && path[0] == b && |path| == fuel + 1
                   && OtherBases(index, bases, path[|path| - 1]) != {}
  }

  /** Some base leads back to itself through provided bases. */
  ghost predicate BaseCycle(index: map<string, YTarget>, bases: set<string>)
    requires bases <= index.Keys
  {
    exists path :: BaseWalk(index, bases, path) && |path| >= 2 && path[0] == path[|path| - 1]
  }

  /** A walk that goes on for as many steps as there are bases has met a
      cycle of bases: only then does the family walk of `Initialize` run for
      ever. */
  lemma {:induction false} WalksOnCycle(index: map<string, YTarget>, bases: set<string>, b: string)
    requires bases <= index.Keys
    requires WalksOn(index, bases, b, |bases|)
    ensures BaseCycle(index, bases)
  {
    var path :| BaseWalk(index, bases, path) && path[0] == b && |path| == |bases| + 1
                && OtherBases(index, bases, path[|path| - 1]) != {};
    assert Elems(path) <= bases;
    if Distinct(path) {
      DistinctCard(path);
      if Elems(path) != bases {
        ProperSubsetCard(Elems(path), bases);
      }
      assert false;
    }
    var i, j :| 0 <= i < j < |path| && path[i] == path[j];
    var cycle := path[i..j + 1];
    forall k | 0 <= k < |cycle| - 1
      ensures cycle[k + 1] in OtherBases(index, bases, cycle[k])
    {
      assert cycle[k] == path[i + k] && cycle[k + 1] == path[i + k + 1];
    }
    assert BaseWalk(index, bases, cycle);
  }

  /** The family map of `Initialize` (`dBasesToFamilies`): every base with
      the end of its walk. `stuck` names a base whose walk did not end within
      `fuel` steps. */
  method Families(index: map<string, YTarget>, bases: set<string>, fuel: nat)
    returns (families: map<string, string>, stuck: Option<string>)
    requires bases <= index.Keys
    ensures stuck.None? ==> families.Keys == bases
    ensures stuck.Some? ==> stuck.value in bases && WalksOn(index, bases, stuck.value, fuel)
    ensures forall b :: b in families ==> b in bases && families[b] in bases
                                          && OtherBases(index, bases, families[b]) == {}
    ensures forall b :: b in families ==> WalksTo(index, bases, b, families[b])
    ensures forall b :: b in families && OtherBases(index, bases, b) == {} ==> families[b] == b
  {
    families := map[];
    var rest := bases;
    while rest != {}
      invariant rest <= bases && families.Keys == bases - rest
      invariant forall b :: b in families ==> families[b] in bases && OtherBases(index, bases, families[b]) == {}
      invariant forall b :: b in families ==> WalksTo(index, bases, b, families[b])
      invariant forall b :: b in families && OtherBases(index, bases, b) == {} ==> families[b] == b
      decreases rest
    {
      var b :| b in rest;
      var family, path := FamilyOf(index, bases, b, fuel);
      if family.None? {
        return families, Some(b);
      }
      assert path[|path| - 1] in bases;
      assert WalksTo(index, bases, b, family.value);
      families := families[b := family.value];
      rest := rest - {b};
    }
    return families, None;
  }

  /** What the per-target checks of `Initialize` demand of target `n`: at
      most one base among its dependencies, and both cycle checks passed. */
  ghost predicate Sane(index: map<string, YTarget>, bases: set<string>, n: string)
    requires n in index
  {
    |index[n].depends * bases| <= 1 && DependsAcyclic(index, n) && ProvidesAcyclic(index, n, |index|)
  }

  /** The base assignment of `Initialize`: a target with exactly one base
      among its dependencies gets that base and its family; any other target
      is left as it is. */
  ghost predicate BaseAssigned(t: YTarget, t': YTarget, bases: set<string>, families: map<string, string>)
  {
    if |t.depends * bases| == 1 then
      && t'.base.Some? && t'.base.value in t.depends * bases && t'.base.value in families
      && t' == t.(base := t'.base, baseFamily := Some(families[t'.base.value]))
    else t' == t
  }

  /** The base assignment touches `base` and `baseFamily` and nothing else. */
  lemma BaseAssignedKeeps(t: YTarget, t': YTarget, bases: set<string>, families: map<string, string>)
    requires BaseAssigned(t, t', bases, families)
    ensures t' == t.(base := t'.base, baseFamily := t'.baseFamily)
  {
  }

  /** The fault names a target that fails one of the per-target checks. */
  ghost predicate Offends(index: map<string, YTarget>, bases: set<string>, f: Fault)
  {
    match f
    case MultipleBases(n) => n in index && |index[n].depends * bases| > 1
    case CyclicDependency(n) => n in index && !DependsAcyclic(index, n)
    case CyclicProvide(n) => n in index && !ProvidesAcyclic(index, n, |index|)
    case Diverges(n) => n in index && Frontier(index, ProvidesFor, n, |index| + 1) != {}
    case _ => false
  }

  /** The checks of `Initialize` on one target of `lTargets`: the base
      assignment with the multiple-base check, the dependency-cycle check and
      the provides-cycle check, in that order. */
  method CheckTarget(index: map<string, YTarget>, n: string, bases: set<string>, families: map<string, string>)
    returns (fault: Option<Fault>, t': YTarget)
    requires n in index && bases <= families.Keys
    ensures fault.None? ==> Sane(index, bases, n) && BaseAssigned(index[n], t', bases, families)
    ensures fault.Some? ==> Offends(index, bases, fault.value)
  {
    var t := index[n];
    t' := t;
    var inBases := t.depends * bases;
    if |inBases| > 1 {
      return Some(MultipleBases(n)), t';
    }
    if |inBases| == 1 {
      var d :| d in inBases;
      t' := t.(base := Some(d), baseFamily := Some(families[d]));
    }
    var ok := CheckDependencyCycle(index, n);
    if !ok {
      return Some(CyclicDependency(n)), t';
    }
    var v := CheckProvideCycle(index, n, |index|);
    if v == Cycle {
      return Some(CyclicProvide(n)), t';
    }
    if v == Undecided {
      return Some(Diverges(n)), t';
    }
    return None, t';
  }

  /** `for provider in lProvides: dProviders[provider].add(t)`. */
  function NextProviders(index: map<string, YTarget>, ghost done: set<string>, n: string,
                         providers: map<string, set<string>>): (r: map<string, set<string>>)
    requires n in index && providers == ProvidersAmong(index, done)
    ensures r == ProvidersAmong(index, done + {n})
  {
    ProvidersAmongStep(index, done, n);
    AddProvider(providers, index[n].provided, n)
  }

  lemma DoneGrows(order: seq<string>, i: nat, done: set<string>)
    requires i < |order| && forall k :: 0 <= k < i ==> order[k] in done
    ensures forall k :: 0 <= k < i + 1 ==> order[k] in done + {order[i]}
  {
  }

  /** The registered names that pass the checks of `Sane`. */
  ghost function SaneNames(index: map<string, YTarget>, bases: set<string>): set<string>
  {
    set n | n in index && Sane(index, bases, n)
  }

  /** `updated` is `index` with the base of every target in `done` assigned. */
  ghost predicate Assigned(index: map<string, YTarget>, bases: set<string>, families: map<string, string>,
                           done: set<string>, updated: map<string, YTarget>)
  {
    && done <= index.Keys && updated.Keys == index.Keys
    && (forall n :: n in done ==> BaseAssigned(index[n], updated[n], bases, families))
    && (forall n :: n in index && n !in done ==> updated[n] == index[n])
  }

  /** What the loop of `CheckTargets` knows after the first `i` names of
      `order` (the set `done`) passed their checks. */
  ghost predicate Progress(index: map<string, YTarget>, order: seq<string>, bases: set<string>,
                           families: map<string, string>, i: nat, done: set<string>,
                           updated: map<string, YTarget>, providers: map<string, set<string>>)
  {
    && i <= |order|
    && done <= index.Keys && (forall k :: 0 <= k < i ==> order[k] in done)
    && Assigned(index, bases, families, done, updated)
    && done <= SaneNames(index, bases)
    && providers == ProvidersAmong(index, done)
  }

  /** One round of the loop of `CheckTargets`: the checks of `order[i]`. */
  method CheckNext(index: map<string, YTarget>, order: seq<string>, bases: set<string>,
                   families: map<string, string>, i: nat, ghost done: set<string>,
                   updated: map<string, YTarget>, providers: map<string, set<string>>)
    returns (fault: Option<Fault>, updated': map<string, YTarget>, providers': map<string, set<string>>,
             ghost done': set<string>)
    requires Elems(order) == index.Keys && bases <= families.Keys && i < |order|
    requires Progress(index, order, bases, families, i, done, updated, providers)
    ensures fault.Some? ==> Offends(index, bases, fault.value)
    ensures fault.None? ==> Progress(index, order, bases, families, i + 1, done', updated', providers')
  {
    assert order[i] in Elems(order);
    var n := order[i];
    var t';
    fault, t' := CheckTarget(index, n, bases, families);
    updated', providers', done' := updated, providers, done;
    if fault.None? {
      updated' := updated[n := t'];
      providers' := NextProviders(index, done, n, providers);
      done' := done + {n};
      assert n in SaneNames(index, bases);
      ProgressGrows(index, order, bases, families, i, done, updated, providers, t');
    }
  }

  /** A name that passed its checks extends the loop's knowledge by one. */
  lemma ProgressGrows(index: map<string, YTarget>, order: seq<string>, bases: set<string>,
                      families: map<string, string>, i: nat, done: set<string>,
                      updated: map<string, YTarget>, providers: map<string, set<string>>, t': YTarget)
    requires i < |order| && order[i] in index
    requires Progress(index, order, bases, families, i, done, updated, providers)
    requires order[i] in SaneNames(index, bases) && BaseAssigned(index[order[i]], t', bases, families)
    ensures Progress(index, order, bases, families, i + 1, done + {order[i]},
                     updated[order[i] := t'], ProvidersAmong(index, done + {order[i]}))
  {
    DoneGrows(order, i, done);
    AssignedGrows(index, bases, families, done, updated, order[i], t');
  }

  lemma AssignedGrows(index: map<string, YTarget>, bases: set<string>, families: map<string, string>,
                      done: set<string>, updated: map<string, YTarget>, n: string, t': YTarget)
    requires n in index && Assigned(index, bases, families, done, updated)
    requires BaseAssigned(index[n], t', bases, families)
    ensures Assigned(index, bases, families, done + {n}, updated[n := t'])
  {
    var done', updated' := done + {n}, updated[n := t'];
    forall m | m in done' ensures BaseAssigned(index[m], updated'[m], bases, families) {
      if m != n {
        assert m in done && updated'[m] == updated[m];
      }
    }
    forall m | m in index && m !in done' ensures updated'[m] == index[m] {
      assert m !in done && updated'[m] == updated[m];
    }
  }

  /** After the whole of `order`, every registered name has been handled. */
  lemma ProgressDone(index: map<string, YTarget>, order: seq<string>, bases: set<string>,
                     families: map<string, string>, done: set<string>,
                     updated: map<string, YTarget>, providers: map<string, set<string>>)
    requires Elems(order) == index.Keys
    requires Progress(index, order, bases, families, |order|, done, updated, providers)
    ensures done == index.Keys
  {
    forall n | n in index ensures n in done {
      assert n in Elems(order);
      var k :| 0 <= k < |order| && order[k] == n;
    }
  }

  /** The outcome of the per-target loop of `Initialize`. */
  datatype Checked =
    | Checked(index: map<string, YTarget>, providers: map<string, set<string>>)
    | CheckFailed(fault: Fault)

  /** The loop of `Initialize` over `lTargets`: the checks of each target and
      the direct provider map `dProviders`, stopping at the first target that
      fails a check. */
  method CheckTargets(index: map<string, YTarget>, order: seq<string>, bases: set<string>,
                      families: map<string, string>)
    returns (r: Checked)
    requires Elems(order) == index.Keys && bases <= families.Keys
    ensures r.Checked? ==> r.index.Keys == index.Keys
    ensures r.Checked? ==> forall n :: n in index ==> BaseAssigned(index[n], r.index[n], bases, families)
    ensures r.Checked? ==> forall n :: n in index ==> Sane(index, bases, n)
    ensures r.Checked? ==> r.providers == ProvidersAmong(index, index.Keys)
    ensures r.CheckFailed? ==> Offends(index, bases, r.fault)
  {
    var updated := index;
    var providers: map<string, set<string>> := map[];
    ghost var done: set<string> := {};
    var i := 0;
    while i < |order|
      invariant Progress(index, order, bases, families, i, done, updated, providers)
    {
      var fault;
      fault, updated, providers, done := CheckNext(index, order, bases, families, i, done, updated, providers);
      if fault.Some? {
        return CheckFailed(fault.value);
      }
      i := i + 1;
    }
    ProgressDone(index, order, bases, families, done, updated, providers);
    forall n | n in index ensures Sane(index, bases, n) {
      assert n in SaneNames(index, bases);
    }
    return Checked(updated, providers);
  }

  /** The local sets of `Enqueue`'s fixpoint: `lQueueSet`, `lProvides`,
      `lDepends`, `lAbstracts`, `lFullProvides` and the deltas `lD`, `lP`. */
  datatype Fix = Fix(
    queue: set<string>,
    provided: set<string>,
    depends: set<string>,
    abstracts: set<string>,
    full: set<string>,
    lD: set<string>,
    lP: set<string>)

  /** Every set of the fixpoint holds registered names only. */
  ghost predicate Within(index: map<string, YTarget>, s: Fix)
  {
    && s.queue <= index.Keys && s.provided <= index.Keys && s.depends <= index.Keys
    && s.abstracts <= index.Keys && s.full <= index.Keys && s.lD <= index.Keys && s.lP <= index.Keys
  }

  /** The sets before the first round: the requested targets, what they
      provide and depend on, with the abstract ones moved from the queue to
      the dependencies. */
  function Start(index: map<string, YTarget>, targets: set<string>): (s: Fix)
    requires Resolved(index) && targets <= index.Keys
    ensures Within(index, s)
    ensures NoAbstract(index, s.queue)
    ensures s.full == s.queue + s.provided
    ensures targets <= s.queue + s.depends
    ensures targets - AbstractIn(index, targets) <= s.queue
  {
    var offered := Step(index, ProvidesFor, targets);
    var depends := Step(index, DependsOn, targets);
    var abstracts := AbstractIn(index, targets + depends);
    var depends' := depends + abstracts;
    var queue := targets - abstracts;
    Fix(queue, offered, depends', abstracts, queue + offered,
        Step(index, DependsOn, depends'), Step(index, ProvidesFor, offered))
  }

  /** What a queued or provided target lends to `lP`: the capabilities of the
      targets in `full` one of whose dependencies is already in `full`. */
  function Enabled(index: map<string, YTarget>, full: set<string>): set<string>
  {
    set n, p | n in full && n in index && p in index[n].provided && index[n].depends * full != {} :: p
  }

  /** The inner `lP` loop: capabilities are added until the delta is empty or
      equals `lProvides`. It ends because `lProvides` strictly grows, except on
      a first pass whose delta is already provided, after which the delta is
      disjoint from `lProvides`. */
  method ProvidesLoop(index: map<string, YTarget>, s: Fix) returns (r: Fix)
    requires Resolved(index) && Within(index, s)
    ensures Within(index, r)
    ensures r.queue == s.queue && r.depends == s.depends && r.abstracts == s.abstracts && r.lD == s.lD
    ensures s.provided <= r.provided
    ensures r.lP == {} || r.lP == r.provided
    ensures s.lP != {} && s.lP != s.provided ==>
              && s.provided + s.lP <= r.provided
              && r.full == r.queue + r.provided
              && r.lP == Enabled(index, r.full) - r.provided
    ensures !(s.lP != {} && s.lP != s.provided) ==> r == s
  {
    r := s;
    ghost var ran := false;
    while r.lP != {} && r.lP != r.provided
      invariant Within(index, r)
      invariant r.queue == s.queue && r.depends == s.depends && r.abstracts == s.abstracts && r.lD == s.lD
      invariant s.provided <= r.provided
      invariant !ran ==> r == s
      invariant ran ==> s.lP != {} && s.lP != s.provided
      invariant ran ==> s.provided + s.lP <= r.provided && r.full == r.queue + r.provided
                        && r.lP == Enabled(index, r.full) - r.provided
      decreases |index.Keys - r.provided|, if r.lP !! r.provided then 0 else 1
    {
      var offered := r.provided + r.lP;
      var full := r.queue + offered;
      if !(r.lP <= r.provided) {
        ProperSubsetCard(index.Keys - offered, index.Keys - r.provided);
      } else {
        assert offered == r.provided && !(r.lP !! r.provided);
      }
      r := r.(provided := offered, full := full, lP := Enabled(index, full) - offered);
      ran := true;
    }
  }

  /** The inner `lD` loop: dependencies of dependencies are added until the
      delta is empty or equals `lDepends`. Its filter `t.depends is not None or
      t.Depends() & lFullProvides` only skips targets with nothing to add. */
  method DependsLoop(index: map<string, YTarget>, s: Fix) returns (r: Fix)
    requires Resolved(index) && Within(index, s)
    ensures Within(index, r)
    ensures r.queue == s.queue && r.provided == s.provided && r.abstracts == s.abstracts
    ensures r.full == s.full && r.lP == s.lP
    ensures s.depends <= r.depends
    ensures r.lD == {} || r.lD == r.depends
    ensures s.lD != {} && s.lD != s.depends ==>
              s.depends + s.lD <= r.depends && r.lD == Step(index, DependsOn, r.depends) - r.depends
    ensures !(s.lD != {} && s.lD != s.depends) ==> r == s
  {
    r := s;
    ghost var ran := false;
    while r.lD != {} && r.lD != r.depends
      invariant Within(index, r)
      invariant r.queue == s.queue && r.provided == s.provided && r.abstracts == s.abstracts
      invariant r.full == s.full && r.lP == s.lP
      invariant s.depends <= r.depends
      invariant !ran ==> r == s
      invariant ran ==> s.lD != {} && s.lD != s.depends
      invariant ran ==> s.depends + s.lD <= r.depends && r.lD == Step(index, DependsOn, r.depends) - r.depends
      decreases |index.Keys - r.depends|, if r.lD !! r.depends then 0 else 1
    {
      var depends := r.depends + r.lD;
      if !(r.lD <= r.depends) {
        ProperSubsetCard(index.Keys - depends, index.Keys - r.depends);
      } else {
        assert depends == r.depends && !(r.lD !! r.depends);
      }
      r := r.(depends := depends, lD := Step(index, DependsOn, depends) - depends);
      ran := true;
    }
  }

  /** The seven candidate sets for the providers `lPP` of an abstract
      dependency, in the order `Enqueue` tries them. */
  function TestSets(lPP: set<string>, s: Fix, abstractDepends: set<string>): seq<set<string>>
  {
    [ lPP * s.queue,
      lPP * ((s.provided + s.queue) - s.abstracts),
      lPP,
      lPP - s.full,
      lPP - abstractDepends,
      lPP - s.abstracts,
      lPP - (s.abstracts + s.full) ]
  }

  lemma SingletonIs(s: set<string>, x: string)
    requires |s| == 1 && x in s
    ensures s == {x}
  {
    assert |s - {x}| == 0;
  }

  /** The loop over `lTestSets`: the single member of the first candidate set
      that has exactly one member. */
  method FirstSingleton(sets: seq<set<string>>) returns (r: Option<string>)
    ensures r.None? <==> forall i :: 0 <= i < |sets| ==> |sets[i]| != 1
    ensures r.Some? ==> exists i :: 0 <= i < |sets| && sets[i] == {r.value}
                                    && forall j :: 0 <= j < i ==> |sets[j]| != 1
  {
    var i := 0;
    while i < |sets|
      invariant 0 <= i <= |sets|
      invariant forall j :: 0 <= j < i ==> |sets[j]| != 1
    {
      if |sets[i]| == 1 {
        var x :| x in sets[i];
        SingletonIs(sets[i], x);
        return Some(x);
      }
      i := i + 1;
    }
    return None;
  }

  /** The four tests of the fallback, as written: the candidate's concrete
      dependencies or all its dependencies meet the queue or `lFullProvides`. */
  predicate FallbackMatch(index: map<string, YTarget>, pp: string, s: Fix)
    requires pp in index
  {
    var depends := index[pp].depends;
    var concrete := set d | d in depends && d in index && !IsAbstract(index[d]);
    concrete * s.queue != {} || concrete * s.full != {} || depends * s.queue != {} || depends * s.full != {}
  }

  /** Since the queue is part of `lFullProvides`, the four fallback tests
      reduce to one: some dependency of the candidate is in `lFullProvides`. */
  lemma FallbackIsOverlap(index: map<string, YTarget>, pp: string, s: Fix)
    requires pp in index && s.queue <= s.full
    ensures FallbackMatch(index, pp, s) <==> index[pp].depends * s.full != {}
  {
    var depends := index[pp].depends;
    var concrete := set d | d in depends && d in index && !IsAbstract(index[d]);
    if concrete * s.queue != {} {
      var d :| d in concrete * s.queue;
      assert d in depends * s.full;
    } else if concrete * s.full != {} {
      var d :| d in concrete * s.full;
      assert d in depends * s.full;
    } else if depends * s.queue != {} {
      var d :| d in depends * s.queue;
      assert d in depends * s.full;
    }
  }

  /** The loop over `lPP` when no candidate set is a singleton: the first
      candidate, in the set's iteration order, that passes a fallback test. */
  method Fallback(index: map<string, YTarget>, lPP: set<string>, s: Fix) returns (r: Option<string>)
    requires lPP <= index.Keys
    ensures r.Some? ==> r.value in lPP && FallbackMatch(index, r.value, s)
    ensures r.None? ==> forall pp :: pp in lPP ==> !FallbackMatch(index, pp, s)
  {
    var candidates := SetToSeq(lPP);
    var i := 0;
    while i < |candidates|
      invariant 0 <= i <= |candidates|
      invariant forall k :: 0 <= k < i ==> !FallbackMatch(index, candidates[k], s)
    {
      assert candidates[i] in Elems(candidates);
      if FallbackMatch(index, candidates[i], s) {
        return Some(candidates[i]);
      }
      i := i + 1;
    }
    forall pp | pp in lPP ensures !FallbackMatch(index, pp, s) {
      assert pp in Elems(candidates);
      var k :| 0 <= k < |candidates| && candidates[k] == pp;
    }
    return None;
  }

  /** Some candidate set is a singleton. */
  ghost predicate HasSingleton(lPP: set<string>, s: Fix, abstractDepends: set<string>)
  {
    exists i :: 0 <= i < 7 && |TestSets(lPP, s, abstractDepends)[i]| == 1
  }

  /** A provider can be chosen for a dependency with providers `lPP`. */
  ghost predicate Resolvable(index: map<string, YTarget>, lPP: set<string>, s: Fix, abstractDepends: set<string>)
    requires lPP <= index.Keys
  {
    HasSingleton(lPP, s, abstractDepends) || exists pp :: pp in lPP && FallbackMatch(index, pp, s)
  }

  /** `x` is a provider the choice may return: the single member of the first
      singleton candidate set when there is one, otherwise a candidate that
      passes the fallback test. */
  ghost predicate Chosen(index: map<string, YTarget>, lPP: set<string>, s: Fix, abstractDepends: set<string>, x: string)
    requires lPP <= index.Keys
  {
    && x in lPP
    && (HasSingleton(lPP, s, abstractDepends) ==>
          exists i :: 0 <= i < 7 && TestSets(lPP, s, abstractDepends)[i] == {x}
                      && forall j :: 0 <= j < i ==> |TestSets(lPP, s, abstractDepends)[j]| != 1)
    && (!HasSingleton(lPP, s, abstractDepends) ==> FallbackMatch(index, x, s))
  }

  /** The choice of a provider for one abstract dependency: the single member
      of the first singleton candidate set, else the first fallback match. */
  method ChooseProvider(index: map<string, YTarget>, lPP: set<string>, s: Fix, abstractDepends: set<string>)
    returns (r: Option<string>)
    requires lPP <= index.Keys
    ensures r.Some? <==> Resolvable(index, lPP, s, abstractDepends)
    ensures r.Some? ==> Chosen(index, lPP, s, abstractDepends, r.value)
  {
    var sets := TestSets(lPP, s, abstractDepends);
    r := FirstSingleton(sets);
    if r.Some? {
      var i :| 0 <= i < |sets| && sets[i] == {r.value} && forall j :: 0 <= j < i ==> |sets[j]| != 1;
      assert r.value in sets[i];
      return;
    }
    r := Fallback(index, lPP, s);
  }

  /** The start of a round of `Enqueue`'s fixpoint: the `lP` loop, the
      provided names leave `lDepends`, the `lD` loop, and `lFullProvides` is
      recomputed. */
  method Expand(index: map<string, YTarget>, s: Fix) returns (r: Fix)
    requires Resolved(index) && Within(index, s) && s.full == s.queue + s.provided
    ensures Within(index, r)
    ensures r.queue == s.queue && r.abstracts == s.abstracts
    ensures s.provided <= r.provided && r.full == r.queue + r.provided
    ensures s.depends - r.full <= r.depends
    ensures r.lP == {} || r.lP == r.provided
    ensures r.lD == {} || r.lD == r.depends
  {
    var a := ProvidesLoop(index, s);
    var b := a.(depends := a.depends - a.full);
    var c := DependsLoop(index, b);
    r := c.(full := c.queue + c.provided);
  }

  /** The end of a round: concrete dependencies whose dependencies are all in
      `lFullProvides` join the queue, abstract members leave it again, and the
      dependency set and the deltas are cut down to what is still open. */
  function Settle(index: map<string, YTarget>, s: Fix, add: set<string>): (r: Fix)
    requires Resolved(index) && Within(index, s) && add <= index.Keys
    requires NoAbstract(index, s.queue)
    ensures Within(index, r)
    ensures NoAbstract(index, r.queue)
    ensures s.queue <= r.queue && r.provided == s.provided
    ensures forall n :: n in r.queue - s.queue ==> n in add || (n in s.depends && index[n].depends <= s.full)
    ensures r.full == s.full + s.provided + r.queue
    ensures r.depends !! r.full && r.depends !! r.queue
    ensures r.lP !! r.full && r.lD !! r.full && r.lD !! r.depends
  {
    var ready := set n | n in s.depends && n in index && !IsAbstract(index[n]) && index[n].depends <= s.full;
    var add' := add + ready;
    var mid :=
      if add' == {} then s
      else
        var queue := s.queue + add';
        var abstracts := AbstractIn(index, queue + s.depends);
        var queue' := queue - abstracts;
        s.(queue := queue', depends := s.depends + abstracts, abstracts := abstracts, full := s.full + queue');
    var full := mid.full + mid.queue + mid.provided;
    var depends := mid.depends - (full + mid.queue);
    Fix(mid.queue, mid.provided, depends, AbstractIn(index, full + mid.depends), full,
        ((mid.lD + Step(index, DependsOn, mid.queue)) - depends) - full,
        (mid.lP + Step(index, ProvidesFor, mid.queue)) - full)
  }

  /** The outcome of `Initialize`. */
  datatype InitResult =
    | Initialized(providers: map<string, set<string>>)   // `dFullProviders`
    | InitFailed(fault: Fault)

  /** Every value of the direct provider map is a set of targets. */
  lemma ProvidersWithin(index: map<string, YTarget>, done: set<string>)
    ensures ValuesWithin(ProvidersAmong(index, done), index.Keys)
  {
  }

  /** After the checks, the base assignment has touched only bases. */
  lemma AssignedKeeps(declared: map<string, YTarget>, index: map<string, YTarget>, bases: set<string>,
                      families: map<string, string>)
    requires Resolved(declared) && index.Keys == declared.Keys
    requires forall n :: n in declared ==> BaseAssigned(declared[n], index[n], bases, families)
    ensures Resolved(index)
    ensures forall n :: n in index ==> index[n].depends == declared[n].depends
                                       && index[n].provided == declared[n].provided
  {
    forall n | n in index
      ensures index[n].depends == declared[n].depends && index[n].provided == declared[n].provided
    {
      BaseAssignedKeeps(declared[n], index[n], bases, families);
    }
  }

  /** `lTargets` lists exactly the indexed names. */
  ghost predicate Listed(order: seq<string>, index: map<string, YTarget>)
  {
    Elems(order) == index.Keys
  }

  /** The state a successful `Initialize` leaves and `Enqueue` keeps: the
      targets are listed and every name they mention is a target. */
  ghost predicate Loaded(order: seq<string>, index: map<string, YTarget>)
  {
    Listed(order, index) && Resolved(index)
  }

  /** A line of `JSONOutput`: the opening brace, one entry per target with
      the keys it writes, the closing brace. */
  datatype JsonLine = Open | Entry(name: string, keys: set<string>) | Close

  /** `json.dumps` can write the saved fields of the target: once
      `finalizeInit` has run, a non-empty `depends` or `provides` holds a set
      of targets, which JSON cannot encode (TypeError). */
  predicate Encodable(t: YTarget)
  {
    t.depends == {} && t.provided == {}
  }

  /** The first `i` targets of `lTargets` can be written. */
  ghost predicate EncodableUpTo(index: map<string, YTarget>, order: seq<string>, i: nat)
  {
    forall k :: 0 <= k < i && k < |order| ==> order[k] in index && Encodable(index[order[k]])
  }
}
