/** The decorator-era engine of yamake (yamake/core.py): a registry of targets
    filled by decorators, the provider maps, the dependency closure, the layered
    ordering and the control flow of `run_targets`.

    Targets are kept by name. `run_targets` never turns `depends` and `provides`
    into Target objects, so both stay sets of names throughout. */
module YamakeCore {
  import opened Util

  /** A registered target. `existsInFs` is the path probed for the artifact,
      "" when there is none (Python's `None` and `""` are both falsy and the
      source only ever tests truthiness); `hasAction`/`hasClean` say whether an
      action or clean callback is attached. */
  datatype Target = Target(
    name: string,
    hasAction: bool,
    depends: set<string>,
    provided: set<string>,
    existsInFs: string,
    essential: bool,
    hasClean: bool,
    checkMtime: bool,
    isDefault: bool,
    abstractFlag: bool)

  /** `Target.is_abstract`: an explicitly abstract target, or one with neither
      an artifact to probe nor an action. */
  predicate IsAbstract(t: Target)
  {
    t.abstractFlag || (t.existsInFs == "" && !t.hasAction)
  }

  /** A target created by one of the decorators: it always carries the
      decorated function as its action and is never flagged abstract. */
  function Decorated(name: string, depends: set<string>, provided: set<string>, existsInFs: string,
                     checkMtime: bool, essential: bool, isDefault: bool): (t: Target)
    ensures t.name == name && !IsAbstract(t)
  {
    Target(name, true, depends, provided, existsInFs, essential, false, checkMtime, isDefault, false)
  }

  /** What `needs_update` decides, given the target's probed modification time
      (None when the artifact is missing) and those of its dependencies. */
  ghost predicate Stale(t: Target, targetMtime: Option<int>, depMtimes: seq<Option<int>>)
  {
    t.existsInFs == "" || targetMtime.None? ||
    exists i :: 0 <= i < |depMtimes| && depMtimes[i].Some? && depMtimes[i].value > targetMtime.value
  }

  /** `Target.needs_update`, with the file-system probe `get_mtime` given as
      `targetMtime`. */
  method NeedsUpdate(t: Target, targetMtime: Option<int>, depMtimes: seq<Option<int>>) returns (r: bool)
    ensures r <==> Stale(t, targetMtime, depMtimes)
  {
    if t.existsInFs == "" {
      return true;
    }
    if targetMtime.None? {
      return true;
    }
    var i := 0;
    while i < |depMtimes|
      invariant 0 <= i <= |depMtimes|
      invariant forall k :: 0 <= k < i ==> !(depMtimes[k].Some? && depMtimes[k].value > targetMtime.value)
    {
      if depMtimes[i].Some? && depMtimes[i].value > targetMtime.value {
        return true;
      }
      i := i + 1;
    }
    return false;
  }

  /** Python's `s.replace(pat, "")`: every non-overlapping occurrence of `pat`,
      scanning from the left, is removed. */
  function RemoveAll(s: string, pat: string): (r: string)
    requires pat != ""
    ensures |r| <= |s|
    decreases |s|
  {
    if |s| < |pat| then s
    else if s[..|pat|] == pat then RemoveAll(s[|pat|..], pat)
    else [s[0]] + RemoveAll(s[1..], pat)
  }

  /** `pat` occurs in `s` starting at `i`. */
  predicate OccursAt(s: string, pat: string, i: nat)
  {
    i + |pat| <= |s| && s[i..i + |pat|] == pat
  }

  /** Removing a pattern that does not occur leaves the string as it is. */
  lemma {:induction false} RemoveAllAbsent(s: string, pat: string)
    requires pat != ""
    requires forall i: nat :: !OccursAt(s, pat, i)
    ensures RemoveAll(s, pat) == s
    decreases |s|
  {
    if |s| >= |pat| {
      assert !OccursAt(s, pat, 0);
      AbsentTail(s, pat);
      RemoveAllAbsent(s[1..], pat);
      assert [s[0]] + s[1..] == s;
    }
  }

  /** A pattern absent from a string is absent from its tail. */
  lemma AbsentTail(s: string, pat: string)
    requires s != [] && forall i: nat :: !OccursAt(s, pat, i)
    ensures forall i: nat :: !OccursAt(s[1..], pat, i)
  {
    forall i: nat | OccursAt(s[1..], pat, i)
      ensures false
    {
      assert s[1..][i..i + |pat|] == s[i + 1..i + 1 + |pat|];
      assert OccursAt(s, pat, i + 1);
    }
  }

  /** `_calculate_providers`'s direct map as far as the targets in `done`
      contribute to it: a key for every registered name that one of them
      provided, holding exactly those providers. */
  ghost function DirectProviders(targets: map<string, Target>, done: set<string>): map<string, set<string>>
    requires done <= targets.Keys
  {
    map p | p in targets.Keys && (exists n :: n in done && p in targets[n].provided)
      :: set n | n in done && p in targets[n].provided
  }

  lemma DirectProvidersStep(targets: map<string, Target>, done: set<string>, name: string)
    requires done <= targets.Keys && name in targets && name !in done
    ensures DirectProviders(targets, done + {name})
         == AddProvider(DirectProviders(targets, done), targets[name].provided * targets.Keys, name)
  {
    var before := DirectProviders(targets, done);
    var after := DirectProviders(targets, done + {name});
    var stepped := AddProvider(before, targets[name].provided * targets.Keys, name);
    forall p | p in after ensures p in stepped {
      var n :| n in done + {name} && p in targets[n].provided;
      if n != name {
        assert p in before;
      }
    }
    forall p | p in stepped ensures p in after {
      if p in before {
        var n :| n in done && p in targets[n].provided;
        assert n in done + {name};
      } else {
        assert name in done + {name};
      }
    }
    assert after.Keys == stepped.Keys;
    forall p | p in after ensures after[p] == stepped[p] {
      if p !in before {
        assert (set n | n in done && p in targets[n].provided) == {};
      }
    }
  }

  /** The global index of registered targets. `order` is the insertion order of
      the `targets` dict (an overwrite keeps the original position). */
  class TargetIndex {
    var targets: map<string, Target>
    var order: seq<string>
    var defaultTargets: set<string>
    var essentials: set<string>
    var plugins: seq<string>

    ghost predicate Valid()
      reads this
    {
      && (forall n :: n in targets ==> targets[n].name == n)
      && Distinct(order)
      && Elems(order) == targets.Keys
      && defaultTargets <= targets.Keys
      && essentials <= targets.Keys
    }

    constructor ()
      ensures Valid()
      ensures targets == map[] && order == [] && defaultTargets == {} && essentials == {} && plugins == []
    {
      targets, order, defaultTargets, essentials, plugins := map[], [], {}, {}, [];
    }

    /** `TargetIndex.register`: store under the target's own name, overwriting
        any earlier entry; the name joins `essentials`/`default_targets` when
        the target says so, and neither set ever loses a name. */
    method Register(t: Target)
      requires Valid()
      modifies this
      ensures Valid()
      ensures targets == old(targets)[t.name := t]
      ensures order == if t.name in old(targets) then old(order) else old(order) + [t.name]
      ensures essentials == old(essentials) + (if t.essential then {t.name} else {})
      ensures defaultTargets == old(defaultTargets) + (if t.isDefault then {t.name} else {})
      ensures plugins == old(plugins)
    {
      if t.name !in targets {
        order := order + [t.name];
      }
      targets := targets[t.name := t];
      if t.essential {
        essentials := essentials + {t.name};
      }
      if t.isDefault {
        defaultTargets := defaultTargets + {t.name};
      }
    }

    /** `TargetIndex.get`. */
    method Get(name: string) returns (r: Option<Target>)
      requires Valid()
      ensures r.Some? <==> name in targets
      ensures r.Some? ==> r.value == targets[name] && r.value.name == name
    {
      r := if name in targets then Some(targets[name]) else None;
    }

    /** `TargetIndex.get_targets`: every registered target once, in
        registration order. */
    method GetTargets() returns (r: seq<Target>)
      requires Valid()
      ensures |r| == |order|
      ensures forall i :: 0 <= i < |r| ==> r[i] == targets[order[i]] && r[i].name == order[i]
    {
      var o, ts := order, targets;
      assert forall n :: n in o ==> n in ts;
      r := seq(|o|, i requires 0 <= i < |o| => ts[o[i]]);
    }

    /** The targets named by one of the two name sets, in set-iteration order. */
    method TargetsNamed(names: set<string>) returns (r: seq<Target>)
      requires Valid() && names <= targets.Keys
      ensures |r| == |names|
      ensures (set t | t in r :: t.name) == names
      ensures forall i :: 0 <= i < |r| ==> r[i].name in targets && r[i] == targets[r[i].name]
      ensures forall i, j :: 0 <= i < j < |r| ==> r[i].name != r[j].name
    {
      var ns := SetToSeq(names);
      var ts := targets;
      r := seq(|ns|, i requires 0 <= i < |ns| => ts[ns[i]]);
      assert forall i :: 0 <= i < |r| ==> r[i].name == ns[i];
      assert (set t | t in r :: t.name) == Elems(ns) by {
        forall x | x in Elems(ns) ensures x in (set t | t in r :: t.name) {
          var i :| 0 <= i < |ns| && ns[i] == x;
          assert r[i].name == x;
        }
      }
    }

    /** `TargetIndex.get_default_targets`. */
    method GetDefaultTargets() returns (r: seq<Target>)
      requires Valid()
      ensures |r| == |defaultTargets| && (set t | t in r :: t.name) == defaultTargets
      ensures forall i :: 0 <= i < |r| ==> r[i] == targets[r[i].name]
    {
      r := TargetsNamed(defaultTargets);
    }

    /** `TargetIndex.get_essential_targets`. */
    method GetEssentialTargets() returns (r: seq<Target>)
      requires Valid()
      ensures |r| == |essentials| && (set t | t in r :: t.name) == essentials
      ensures forall i :: 0 <= i < |r| ==> r[i] == targets[r[i].name]
    {
      r := TargetsNamed(essentials);
    }

    /** `TargetIndex.clear`: all four collections become empty. */
    method Clear()
      modifies this
      ensures Valid()
      ensures targets == map[] && order == [] && defaultTargets == {} && essentials == {} && plugins == []
    {
      targets, order, defaultTargets, essentials, plugins := map[], [], {}, {}, [];
    }

    /** The registry effect of `@target(...)` on a function named `funcName`:
        a new concrete target, registered under `name` or the function's name. */
    method TargetDecorator(name: Option<string>, funcName: string, depends: seq<string>, provided: seq<string>,
                           existsInFs: string, checkMtime: bool, essential: bool)
      requires Valid()
      modifies this
      ensures Valid()
      ensures var n := if name.Some? then name.value else funcName;
              && targets == old(targets)[n := Decorated(n, Elems(depends), Elems(provided), existsInFs, checkMtime, essential, false)]
              && order == if n in old(targets) then old(order) else old(order) + [n]
      ensures essentials == old(essentials) + (if essential then {if name.Some? then name.value else funcName} else {})
      ensures defaultTargets == old(defaultTargets) && plugins == old(plugins)
    {
      var n := if name.Some? then name.value else funcName;
      Register(Decorated(n, Elems(depends), Elems(provided), existsInFs, checkMtime, essential, false));
    }

    /** `@default`: on an existing target only the flag is set and the name is
        NOT added to `default_targets`; otherwise a new default target is
        registered (and so added). */
    method DefaultDecorator(funcName: string)
      requires Valid()
      modifies this
      ensures Valid()
      ensures funcName in old(targets) ==>
                targets == old(targets)[funcName := old(targets)[funcName].(isDefault := true)]
                && defaultTargets == old(defaultTargets) && order == old(order)
      ensures funcName !in old(targets) ==>
                targets == old(targets)[funcName := Decorated(funcName, {}, {}, "", false, false, true)]
                && defaultTargets == old(defaultTargets) + {funcName} && order == old(order) + [funcName]
      ensures essentials == old(essentials) && plugins == old(plugins)
    {
      if funcName in targets {
        targets := targets[funcName := targets[funcName].(isDefault := true)];
      } else {
        Register(Decorated(funcName, {}, {}, "", false, false, true));
      }
    }

    /** `@provides(*artifacts)`: adds the artifacts to an existing target's
        provides; does nothing for an unknown name. */
    method ProvidesDecorator(funcName: string, artifacts: seq<string>)
      requires Valid()
      modifies this
      ensures Valid()
      ensures targets == if funcName in old(targets)
                         then old(targets)[funcName := old(targets)[funcName].(provided := old(targets)[funcName].provided + Elems(artifacts))]
                         else old(targets)
      ensures order == old(order) && defaultTargets == old(defaultTargets)
      ensures essentials == old(essentials) && plugins == old(plugins)
    {
      if funcName in targets {
        var t := targets[funcName];
        targets := targets[funcName := t.(provided := t.provided + Elems(artifacts))];
      }
    }

    /** `@essential`: on an existing target only the flag is set and the name is
        NOT added to `essentials`; otherwise a new essential target is
        registered. */
    method EssentialDecorator(funcName: string)
      requires Valid()
      modifies this
      ensures Valid()
      ensures funcName in old(targets) ==>
                targets == old(targets)[funcName := old(targets)[funcName].(essential := true)]
                && essentials == old(essentials) && order == old(order)
      ensures funcName !in old(targets) ==>
                targets == old(targets)[funcName := Decorated(funcName, {}, {}, "", false, true, false)]
                && essentials == old(essentials) + {funcName} && order == old(order) + [funcName]
      ensures defaultTargets == old(defaultTargets) && plugins == old(plugins)
    {
      if funcName in targets {
        targets := targets[funcName := targets[funcName].(essential := true)];
      } else {
        Register(Decorated(funcName, {}, {}, "", false, true, false));
      }
    }

    /** `@clean`: the target name is the function name with every "clean_"
        removed; a known target gets the clean callback, an unknown one only a
        warning. */
    method CleanDecorator(funcName: string)
      requires Valid()
      modifies this
      ensures Valid()
      ensures var n := RemoveAll(funcName, "clean_");
              targets == if n in old(targets) then old(targets)[n := old(targets)[n].(hasClean := true)] else old(targets)
      ensures order == old(order) && defaultTargets == old(defaultTargets)
      ensures essentials == old(essentials) && plugins == old(plugins)
    {
      var n := RemoveAll(funcName, "clean_");
      if n in targets {
        targets := targets[n := targets[n].(hasClean := true)];
      }
    }
  }

  /** The closure loop of `_calculate_providers` for one key: grow the set by
      the providers of its members until a round adds nothing. */
  method FullProvidersOf(providers: map<string, set<string>>, start: set<string>, ghost u: set<string>)
    returns (newSet: set<string>)
    requires start <= u && ValuesWithin(providers, u)
    ensures IsProviderClosure(providers, start, newSet)
    ensures newSet <= u
  {
    newSet := start;
    var prevSet: set<string> := {};
    while prevSet != newSet
      invariant prevSet <= newSet <= u
      invariant start <= newSet
      invariant prevSet == {} ==> newSet == start
      invariant prevSet != {} ==> newSet == ProviderStep(providers, prevSet)
      invariant forall s :: start <= s && ClosedUnder(providers, s) ==> newSet <= s
      decreases |u - prevSet|
    {
      ProperSubsetCard(u - newSet, u - prevSet);
      prevSet := newSet;
      var toAdd := set q, p | q in newSet && q in providers && p in providers[q] :: p;
      forall s | start <= s && ClosedUnder(providers, s)
        ensures newSet + toAdd <= s
      {
        ProviderStepMonotone(providers, newSet, s);
      }
      newSet := newSet + toAdd;
    }
  }

  /** The first loop of `_calculate_providers`: every target adds itself to
      the providers of each registered name it provides. */
  method DirectProviderMap(targets: map<string, Target>) returns (providers: map<string, set<string>>)
    ensures providers == DirectProviders(targets, targets.Keys)
  {
    providers := map[];
    var todo := targets.Keys;
    while todo != {}
      invariant todo <= targets.Keys
      invariant providers == DirectProviders(targets, targets.Keys - todo)
      decreases todo
    {
      var name :| name in todo;
      ghost var done := targets.Keys - todo;
      DirectProvidersStep(targets, done, name);
      providers := AddProvider(providers, targets[name].provided * targets.Keys, name);
      todo := todo - {name};
      assert targets.Keys - todo == done + {name};
    }
    assert targets.Keys - todo == targets.Keys;
  }

  /** `_calculate_providers`: `providers[p]` is exactly the set of targets
      whose provides contain `p`, with a key only for registered names that
      someone provides; `fullProviders[p]` is the least set containing
      `providers[p]` and closed under `providers`. */
  method CalculateProviders(targets: map<string, Target>)
    returns (providers: map<string, set<string>>, fullProviders: map<string, set<string>>)
    ensures forall p :: p in providers <==> p in targets && exists n :: n in targets && p in targets[n].provided
    ensures forall p :: p in providers ==> providers[p] == set n | n in targets && p in targets[n].provided
    ensures fullProviders.Keys == providers.Keys
    ensures forall p :: p in fullProviders ==> IsProviderClosure(providers, providers[p], fullProviders[p])
    ensures providers == DirectProviders(targets, targets.Keys)
  {
    providers := DirectProviderMap(targets);
    assert ValuesWithin(providers, targets.Keys);
    fullProviders := map[];
    var keys := providers.Keys;
    while keys != {}
      invariant keys <= providers.Keys
      invariant fullProviders.Keys == providers.Keys - keys
      invariant forall p :: p in fullProviders ==> IsProviderClosure(providers, providers[p], fullProviders[p])
      decreases keys
    {
      var p :| p in keys;
      var full := FullProvidersOf(providers, providers[p], targets.Keys);
      fullProviders := fullProviders[p := full];
      keys := keys - {p};
    }
  }

  /** The names `_resolve_dependencies` starts from: the request, plus every
      essential when some requested name is unknown or essential. */
  ghost function Seeds(request: seq<string>, allTargets: map<string, Target>, essentials: set<string>): set<string>
  {
    Elems(request) +
    (if exists t :: t in request && (t !in allTargets || allTargets[t].essential) then essentials else {})
  }

  /** A set closed under what `_resolve_dependencies` adds for a known member:
      its depends, and for an abstract member its direct providers. */
  ghost predicate ResolveClosed(allTargets: map<string, Target>, providers: map<string, set<string>>, s: set<string>)
  {
    HandledIn(allTargets, providers, s, s)
  }

  /** `r` lies inside every closed set that contains the seeds: nothing was
      added that the closure does not force. */
  ghost predicate WithinEveryClosed(allTargets: map<string, Target>, providers: map<string, set<string>>,
                                    seeds: set<string>, r: set<string>)
  {
    forall s {:trigger ResolveClosed(allTargets, providers, s)} :: seeds <= s && ResolveClosed(allTargets, providers, s) ==> r <= s
  }

  /** What the worklist has added for each known member of `names` is
      inside `result`. */
  ghost predicate HandledIn(allTargets: map<string, Target>, providers: map<string, set<string>>,
                            names: set<string>, result: set<string>)
  {
    forall n {:trigger allTargets[n]} :: n in names && n in allTargets ==>
      && allTargets[n].depends <= result
      && (IsAbstract(allTargets[n]) && n in providers ==> providers[n] <= result)
  }

  lemma HandledGrow(allTargets: map<string, Target>, providers: map<string, set<string>>,
                    names: set<string>, result: set<string>, current: string, result': set<string>)
    requires HandledIn(allTargets, providers, names, result) && result <= result'
    requires current in allTargets ==> allTargets[current].depends <= result'
    requires current in allTargets && IsAbstract(allTargets[current]) && current in providers ==> providers[current] <= result'
    ensures HandledIn(allTargets, providers, names + {current}, result')
  {
  }

  /** `u` contains every name the worklist can add. */
  ghost predicate Covers(allTargets: map<string, Target>, providers: map<string, set<string>>, u: set<string>)
  {
    (forall n :: n in allTargets ==> allTargets[n].depends <= u) && ValuesWithin(providers, u)
  }

  lemma UniverseCovers(seeds: set<string>, allTargets: map<string, Target>, providers: map<string, set<string>>)
    ensures seeds <= Universe(seeds, allTargets, providers)
    ensures Covers(allTargets, providers, Universe(seeds, allTargets, providers))
  {
    var u := Universe(seeds, allTargets, providers);
    forall n, d | n in allTargets && d in allTargets[n].depends ensures d in u {
      assert d in (set n, d | n in allTargets && d in allTargets[n].depends :: d);
    }
    forall p, q | p in providers && q in providers[p] ensures q in u {
      assert q in (set p, q | p in providers && q in providers[p] :: q);
    }
  }

  /** Every name that can ever be added. */
  ghost function Universe(seeds: set<string>, allTargets: map<string, Target>, providers: map<string, set<string>>): set<string>
  {
    seeds
    + (set n, d | n in allTargets && d in allTargets[n].depends :: d)
    + (set p, q | p in providers && q in providers[p] :: q)
  }

  /** `_resolve_dependencies`: a worklist closure. The result contains the
      request (and the essentials when asked for), is closed under depends and
      under the providers of abstract members, and is the least such set; each
      name enters the worklist at most once, so the loop ends. */
  method ResolveDependencies(targetsToBuild: seq<string>, allTargets: map<string, Target>,
                             providers: map<string, set<string>>, essentialTargets: set<string>)
    returns (result: set<string>)
    ensures Elems(targetsToBuild) <= result
    ensures (exists t :: t in targetsToBuild && (t !in allTargets || allTargets[t].essential)) ==> essentialTargets <= result
    ensures ResolveClosed(allTargets, providers, result)
    ensures WithinEveryClosed(allTargets, providers, Seeds(targetsToBuild, allTargets, essentialTargets), result)
  {
    var seeds := Elems(targetsToBuild);
    if exists t :: t in targetsToBuild && (t !in allTargets || allTargets[t].essential) {
      seeds := seeds + essentialTargets;
    }
    assert seeds == Seeds(targetsToBuild, allTargets, essentialTargets);
    UniverseCovers(seeds, allTargets, providers);
    result := Worklist(allTargets, providers, seeds, Universe(seeds, allTargets, providers));
  }

  /** The loop of `_resolve_dependencies`, from the set of seed names. */
  method Worklist(allTargets: map<string, Target>, providers: map<string, set<string>>, seeds: set<string>,
                  ghost u: set<string>)
    returns (result: set<string>)
    requires seeds <= u && Covers(allTargets, providers, u)
    ensures seeds <= result
    ensures ResolveClosed(allTargets, providers, result)
    ensures WithinEveryClosed(allTargets, providers, seeds, result)
  {
    result := seeds;
    var toProcess := result;
    while toProcess != {}
      invariant toProcess <= result <= u
      invariant seeds <= result
      invariant HandledIn(allTargets, providers, result - toProcess, result)
      invariant WithinEveryClosed(allTargets, providers, seeds, result)
      decreases |u - result|, |toProcess|
    {
      var current :| current in toProcess;
      var added: set<string> := {};
      if current in allTargets {
        var target := allTargets[current];
        added := target.depends - result;
        if IsAbstract(target) && current in providers {
          added := added + (providers[current] - result);
        }
      }
      ResolveIteration(allTargets, providers, seeds, u, result, toProcess, current, added);
      WorklistMeasure(u, result, toProcess, current, added);
      result := result + added;
      toProcess := (toProcess - {current}) + added;
    }
    assert result - toProcess == result;
  }

  /** One iteration of the worklist: popping `current` and adding what it
      brings in keeps every loop invariant, and either the result grows
      inside the universe or the worklist shrinks. */
  lemma ResolveIteration(allTargets: map<string, Target>, providers: map<string, set<string>>, seeds: set<string>,
                         u: set<string>, result: set<string>, pending: set<string>, current: string, added: set<string>)
    requires Covers(allTargets, providers, u)
    requires current in pending && pending <= result <= u
    requires HandledIn(allTargets, providers, result - pending, result)
    requires WithinEveryClosed(allTargets, providers, seeds, result)
    requires current !in allTargets ==> added == {}
    requires current in allTargets ==>
               added == (allTargets[current].depends - result)
                        + (if IsAbstract(allTargets[current]) && current in providers then providers[current] - result else {})
    ensures result + added <= u
    ensures HandledIn(allTargets, providers, (result + added) - ((pending - {current}) + added), result + added)
    ensures WithinEveryClosed(allTargets, providers, seeds, result + added)
  {
    if current in allTargets {
      ResolveStep(allTargets, providers, seeds, result, current, added);
      assert allTargets[current].depends <= u;
    }
    HandledGrow(allTargets, providers, result - pending, result, current, result + added);
    WorklistStep(result, pending, current, added);
  }

  /** The termination measure of the worklist: new names shrink what is left
      of the universe, and otherwise the worklist itself shrinks. */
  lemma WorklistMeasure(u: set<string>, result: set<string>, pending: set<string>, current: string, added: set<string>)
    requires current in pending && result + added <= u && added !! result
    ensures added != {} ==> |u - (result + added)| < |u - result|
    ensures added == {} ==> result + added == result && |(pending - {current}) + added| < |pending|
  {
    if added != {} {
      ProperSubsetCard(u - (result + added), u - result);
    } else {
      assert (pending - {current}) + added == pending - {current};
    }
  }

  /** Popping `current` and pushing the new names `added` moves exactly
      `current` into the processed part. */
  lemma WorklistStep(result: set<string>, pending: set<string>, current: string, added: set<string>)
    requires current in pending && pending <= result && added !! result
    ensures (result + added) - ((pending - {current}) + added) == (result - pending) + {current}
  {
  }

  /** What one known member brings in stays inside every closed set that
      contains the seeds and the result so far. */
  lemma ResolveStep(allTargets: map<string, Target>, providers: map<string, set<string>>, seeds: set<string>,
                    result: set<string>, current: string, added: set<string>)
    requires current in result && current in allTargets
    requires WithinEveryClosed(allTargets, providers, seeds, result)
    requires added == (allTargets[current].depends - result)
                      + (if IsAbstract(allTargets[current]) && current in providers then providers[current] - result else {})
    ensures WithinEveryClosed(allTargets, providers, seeds, result + added)
  {
  }

  /** The two kinds of entry `_order_by_dependencies` puts in `all_handled`:
      Target objects and the provided NAMES of the essentials. A name never
      equals a Target object. */
  datatype Handled = Obj(name: string) | Name(name: string)

  /** The names provided by the known essentials. */
  ghost function EssentialProvides(allTargets: map<string, Target>, essentialSet: set<string>): set<string>
    requires essentialSet <= allTargets.Keys
  {
    set e, p | e in essentialSet && p in allTargets[e].provided :: p
  }

  /** The readiness test of one round: no depends, or every depends name is
      in `all_handled`. */
  predicate Ready(t: Target, allHandled: set<Handled>)
  {
    t.depends == {} || forall d :: d in t.depends ==> Name(d) in allHandled
  }

  /** While the names in `all_handled` are exactly `names`, readiness means
      that every depends entry is one of them. */
  lemma ReadyIff(t: Target, allHandled: set<Handled>, names: set<string>)
    requires forall p :: Name(p) in allHandled <==> p in names
    ensures Ready(t, allHandled) <==> t.depends <= names
  {
  }

  /** The concrete members of a set of known names. */
  ghost function ConcreteIn(allTargets: map<string, Target>, names: set<string>): set<string>
  {
    set x | x in names && x in allTargets && !IsAbstract(allTargets[x])
  }

  /** The concrete members of a layer, in layer order. */
  function Concrete(layer: seq<string>, allTargets: map<string, Target>): (r: seq<string>)
    requires Elems(layer) <= allTargets.Keys
    ensures Elems(r) == ConcreteIn(allTargets, Elems(layer))
    ensures Distinct(layer) ==> Distinct(r)
  {
    if layer == [] then []
    else
      assert layer == [layer[0]] + layer[1..];
      ElemsConcat([layer[0]], layer[1..]);
      var rest := Concrete(layer[1..], allTargets);
      if IsAbstract(allTargets[layer[0]]) then rest
      else
        ElemsConcat([layer[0]], rest);
        assert Distinct(layer) ==> Distinct(layer[1..]) && layer[0] !in Elems(layer[1..]);
        assert Distinct(layer) ==> Distinct([layer[0]] + rest) by {
          if Distinct(layer) {
            DistinctConcat([layer[0]], rest);
          }
        }
        [layer[0]] + rest
  }

  /** `_order_by_dependencies`, as written: the known essentials without
      depends, then those with depends, then at most ten rounds of the
      remaining targets whose every depends entry is in `all_handled`, keeping
      only concrete targets. Because `all_handled` gains Target objects while
      `depends` holds names, only names provided by essentials ever satisfy
      the test: a non-essential target is ordered iff all its depends are such
      names, and at most one round adds anything. */
  method OrderByDependencies(targetsToBuild: set<string>, allTargets: map<string, Target>, essentialTargets: set<string>)
    returns (order: seq<string>, ghost rounds: nat)
    ensures Distinct(order)
    ensures Elems(order) == ConcreteIn(allTargets, targetsToBuild * essentialTargets)
                          + ConcreteIn(allTargets, set t | t in targetsToBuild - essentialTargets && t in allTargets
                                                        && allTargets[t].depends <= EssentialProvides(allTargets, essentialTargets * allTargets.Keys))
    ensures PrefixClosed(order, essentialTargets)
    ensures PrefixClosed(order, set t | t in essentialTargets && t in allTargets && allTargets[t].depends == {})
    ensures rounds <= 1
  {
    var targetsSet := targetsToBuild * allTargets.Keys;
    var essentialSet := essentialTargets * allTargets.Keys;
    var noDeps := set t | t in targetsSet * essentialSet && allTargets[t].depends == {};
    var withDeps := set t | t in targetsSet * essentialSet && allTargets[t].depends != {};
    var layer0 := SetToSeq(noDeps);
    var layer1 := SetToSeq(withDeps);
    var first := Concrete(layer0, allTargets);
    var second := Concrete(layer1, allTargets);
    ghost var names := EssentialProvides(allTargets, essentialSet);
    var providesSet := (set e | e in essentialSet :: Obj(e))
                     + (set e, p | e in essentialSet && p in allTargets[e].provided :: Name(p));
    assert forall p :: Name(p) in providesSet <==> p in names;
    var dependsSet := set t | t in targetsSet && Obj(t) !in providesSet;
    assert dependsSet == targetsSet - essentialSet;
    var rest;
    rest, rounds := ReadyRounds(allTargets, dependsSet, providesSet, names);
    // The flattening comprehension over `layers`.
    order := first + second + rest;
    ghost var p0 := set t | t in essentialTargets && t in allTargets && allTargets[t].depends == {};
    ThreeLayers(first, second, rest, essentialTargets, p0);
    OrderElems(allTargets, targetsToBuild, essentialTargets, noDeps, withDeps,
               set t | t in targetsSet - essentialSet && allTargets[t].depends <= names);
  }

  /** The three parts of the ordering concatenate as the postcondition of
      `OrderByDependencies` says. */
  lemma ThreeLayers(first: seq<string>, second: seq<string>, rest: seq<string>, ess: set<string>, p0: set<string>)
    requires Distinct(first) && Distinct(second) && Distinct(rest)
    requires Elems(first) <= p0 <= ess && Elems(second) <= ess
    requires Elems(second) !! p0 && Elems(rest) !! ess
    ensures Distinct(first + second + rest)
    ensures Elems(first + second + rest) == Elems(first) + Elems(second) + Elems(rest)
    ensures PrefixClosed(first + second + rest, ess)
    ensures PrefixClosed(first + second + rest, p0)
  {
    ElemsConcat(first, second);
    ElemsConcat(first + second, rest);
    ElemsConcat(second, rest);
    DistinctConcat(first, second);
    DistinctConcat(first + second, rest);
    PrefixClosedConcat(first + second, rest, ess);
    PrefixClosedConcat(first, second + rest, p0);
    assert first + second + rest == first + (second + rest);
  }

  lemma OrderElems(allTargets: map<string, Target>, targetsToBuild: set<string>, essentialTargets: set<string>,
                   noDeps: set<string>, withDeps: set<string>, ready: set<string>)
    requires noDeps == set t | t in targetsToBuild * allTargets.Keys * (essentialTargets * allTargets.Keys) && allTargets[t].depends == {}
    requires withDeps == set t | t in targetsToBuild * allTargets.Keys * (essentialTargets * allTargets.Keys) && allTargets[t].depends != {}
    requires ready == set t | t in targetsToBuild * allTargets.Keys - essentialTargets * allTargets.Keys
                            && allTargets[t].depends <= EssentialProvides(allTargets, essentialTargets * allTargets.Keys)
    ensures ConcreteIn(allTargets, noDeps) + ConcreteIn(allTargets, withDeps) + ConcreteIn(allTargets, ready)
         == ConcreteIn(allTargets, targetsToBuild * essentialTargets)
          + ConcreteIn(allTargets, set t | t in targetsToBuild - essentialTargets && t in allTargets
                                        && allTargets[t].depends <= EssentialProvides(allTargets, essentialTargets * allTargets.Keys))
  {
  }

  /** The rounds loop of `_order_by_dependencies`: at most ten rounds, each
      taking the pending targets that are ready, until a round finds none. */
  method ReadyRounds(allTargets: map<string, Target>, pending: set<string>, handled: set<Handled>, ghost names: set<string>)
    returns (rest: seq<string>, ghost rounds: nat)
    requires pending <= allTargets.Keys
    requires forall p :: Name(p) in handled <==> p in names
    ensures Distinct(rest)
    ensures Elems(rest) == ConcreteIn(allTargets, set t | t in pending && allTargets[t].depends <= names)
    ensures rounds <= 1
  {
    rest := [];
    rounds := 0;
    var dependsSet := pending;
    var allHandled := handled;
    var i := 0;
    while i < 10
      invariant 0 <= i <= 10
      invariant rounds <= 1 && (i == 0 ==> rounds == 0 && dependsSet == pending)
      invariant dependsSet <= pending
      invariant forall p :: Name(p) in allHandled <==> p in names
      invariant i > 0 ==> forall t :: t in dependsSet ==> !(allTargets[t].depends <= names)
      invariant forall t :: t in pending - dependsSet ==> allTargets[t].depends <= names
      invariant Distinct(rest)
      invariant Elems(rest) == ConcreteIn(allTargets, pending - dependsSet)
    {
      var ready := set t | t in dependsSet && Ready(allTargets[t], allHandled);
      forall t | t in dependsSet
        ensures Ready(allTargets[t], allHandled) <==> allTargets[t].depends <= names
      {
        ReadyIff(allTargets[t], allHandled, names);
      }
      if ready == {} {
        assert forall t :: t in dependsSet ==> t !in ready;
        break;
      }
      var layer := SetToSeq(ready);
      var more := Concrete(layer, allTargets);
      ElemsConcat(rest, more);
      DistinctConcat(rest, more);
      assert pending - (dependsSet - ready) == (pending - dependsSet) + ready;
      rest := rest + more;
      allHandled := allHandled + (set t | t in ready :: Obj(t));
      dependsSet := dependsSet - ready;
      rounds := rounds + 1;
      i := i + 1;
    }
    forall t | t in pending && allTargets[t].depends <= names
      ensures t in pending - dependsSet
    {
    }
    assert pending - dependsSet == set t | t in pending && allTargets[t].depends <= names;
  }

  /** A target with a dependency on a concrete non-essential target is never
      ordered: with `a` depending on `b` and no essentials, only `b` comes out. */
  lemma OrderDropsDependentTarget(allTargets: map<string, Target>)
    requires allTargets == map["a" := Decorated("a", {"b"}, {}, "", false, false, false),
                               "b" := Decorated("b", {}, {}, "", false, false, false)]
    ensures EssentialProvides(allTargets, {}) == {}
    ensures !(allTargets["a"].depends <= EssentialProvides(allTargets, {}))
    ensures allTargets["b"].depends <= EssentialProvides(allTargets, {})
  {
    assert "b" in allTargets["a"].depends;
  }

  /** One report line of `run_targets`. */
  datatype Message =
    | NoTargets
    | Start(names: seq<string>)
    | MissingTargets(missing: set<string>)
    | StepSucceeded(name: string)
    | StepFailed(name: string)

  /** The step messages of the execute loop: one per target in order, ending at
      the first target whose step fails. */
  function StepMessages(ordered: seq<string>, status: string -> bool): (r: seq<Message>)
  {
    if ordered == [] then []
    else if status(ordered[0]) then [StepSucceeded(ordered[0])] + StepMessages(ordered[1..], status)
    else [StepFailed(ordered[0])]
  }

  /** The step messages report each target in order, as succeeded or failed,
      every one before the last succeeded, and they stop short of the end
      only at a failure. */
  lemma {:induction false} StepMessagesShape(ordered: seq<string>, status: string -> bool)
    ensures var r := StepMessages(ordered, status);
      && |r| <= |ordered|
      && (forall k :: 0 <= k < |r| ==> r[k] == (if status(ordered[k]) then StepSucceeded(ordered[k]) else StepFailed(ordered[k])))
      && (forall k :: 0 <= k < |r| - 1 ==> status(ordered[k]))
      && (|r| < |ordered| ==> |r| > 0 && !status(ordered[|r| - 1]))
  {
    if ordered != [] && status(ordered[0]) {
      StepMessagesShape(ordered[1..], status);
    }
  }

  /** The set `_resolve_dependencies` resolves `names` to, over the direct
      provider map of `allTargets`: it holds the seeds, is closed, and lies
      inside every closed set holding the seeds. */
  ghost predicate Resolution(names: seq<string>, allTargets: map<string, Target>, essentials: set<string>,
                             result: set<string>)
  {
    var providers := DirectProviders(allTargets, allTargets.Keys);
    && Seeds(names, allTargets, essentials) <= result
    && ResolveClosed(allTargets, providers, result)
    && WithinEveryClosed(allTargets, providers, Seeds(names, allTargets, essentials), result)
  }

  /** A build order `_order_by_dependencies` may give for `toBuild`: each
      target once, exactly the concrete essential targets and the concrete
      others whose depends the essentials provide, the essential targets
      first and, among them, those without depends first. */
  ghost predicate BuildOrder(toBuild: set<string>, allTargets: map<string, Target>, essentials: set<string>,
                             order: seq<string>)
  {
    && Distinct(order)
    && Elems(order) == ConcreteIn(allTargets, toBuild * essentials)
                       + ConcreteIn(allTargets, set t | t in toBuild - essentials && t in allTargets
                                                     && allTargets[t].depends <= EssentialProvides(allTargets, essentials * allTargets.Keys))
    && PrefixClosed(order, essentials)
    && PrefixClosed(order, set t | t in essentials && t in allTargets && allTargets[t].depends == {})
  }

  /** `run_targets`, planning and control flow: with no names the default
      targets are used, and without any it fails at once; if the resolved set
      names an unknown target it fails before executing anything; otherwise it
      runs the ordered targets and stops at the first failing step. The
      outcome of each step (build, clean or up to date; real or dry run) is the
      oracle `status`. */
  method RunTargets(idx: TargetIndex, targetNames: seq<string>, status: string -> bool)
    returns (success: bool, messages: seq<Message>, ordered: seq<string>, ghost toBuild: set<string>)
    requires idx.Valid()
    ensures messages != [] && (messages[0] == NoTargets || messages[0].Start?)
    ensures messages[0] == NoTargets <==> targetNames == [] && idx.defaultTargets == {}
    ensures messages[0] == NoTargets ==> messages == [NoTargets] && !success && ordered == []
    ensures messages[0].Start? && targetNames != [] ==> messages[0].names == targetNames
    ensures messages[0].Start? && targetNames == [] ==> Elems(messages[0].names) == idx.defaultTargets
    ensures messages[0].Start? ==>
              || (&& |messages| == 2 && messages[1].MissingTargets?
                  && messages[1].missing != {} && messages[1].missing !! idx.targets.Keys
                  && !success && ordered == [])
              || (&& messages[1..] == StepMessages(ordered, status)
                  && (success <==> forall k :: 0 <= k < |ordered| ==> status(ordered[k]))
                  && Distinct(ordered) && Elems(ordered) <= idx.targets.Keys)
    ensures messages[0].Start? ==> Resolution(messages[0].names, idx.targets, idx.essentials, toBuild)
    ensures messages[0].Start? && !(toBuild <= idx.targets.Keys) ==>
              messages == [messages[0], MissingTargets(toBuild - idx.targets.Keys)] && !success && ordered == []
    ensures messages[0].Start? && toBuild <= idx.targets.Keys ==>
              && messages[1..] == StepMessages(ordered, status)
              && BuildOrder(toBuild, idx.targets, idx.essentials, ordered)
  {
    var names := targetNames;
    if names == [] {
      // The names of `get_default_targets()`.
      names := SetToSeq(idx.defaultTargets);
      if names == [] {
        return false, [NoTargets], [], {};
      }
    }
    var allTargets := idx.targets;
    var providers, fullProviders := CalculateProviders(allTargets);
    var resolved := ResolveDependencies(names, allTargets, providers, idx.essentials);
    toBuild := resolved;
    // The unknown names among the resolved ones (`missing`).
    var missing := resolved - allTargets.Keys;
    if missing != {} {
      return false, [Start(names), MissingTargets(missing)], [], toBuild;
    }
    assert toBuild <= idx.targets.Keys by {
      forall t | t in toBuild ensures t in idx.targets.Keys {
        assert t !in missing;
      }
    }
    ghost var rounds;
    ordered, rounds := OrderByDependencies(resolved, allTargets, idx.essentials);
    var steps;
    success, steps := ExecuteSteps(ordered, status);
    messages := [Start(names)] + steps;
    assert messages[1..] == steps;
  }

  /** The execute loop of `run_targets`: step through the ordered targets,
      stopping at the first one whose step fails. */
  method ExecuteSteps(ordered: seq<string>, status: string -> bool) returns (success: bool, steps: seq<Message>)
    ensures steps == StepMessages(ordered, status)
    ensures success <==> forall k :: 0 <= k < |ordered| ==> status(ordered[k])
  {
    steps := [];
    var i := 0;
    while i < |ordered|
      invariant 0 <= i <= |ordered|
      invariant steps == StepMessages(ordered[..i], status)
      invariant forall k :: 0 <= k < i ==> status(ordered[k])
    {
      StepMessagesAppend(ordered[..i], ordered[i], status);
      assert ordered[..i + 1] == ordered[..i] + [ordered[i]];
      if status(ordered[i]) {
        steps := steps + [StepSucceeded(ordered[i])];
      } else {
        steps := steps + [StepFailed(ordered[i])];
        StepMessagesStop(ordered, i, status);
        return false, steps;
      }
      i := i + 1;
    }
    assert ordered[..i] == ordered;
    return true, steps;
  }

  lemma {:induction false} StepMessagesAppend(done: seq<string>, next: string, status: string -> bool)
    requires forall k :: 0 <= k < |done| ==> status(done[k])
    ensures StepMessages(done + [next], status) == StepMessages(done, status) + [if status(next) then StepSucceeded(next) else StepFailed(next)]
  {
    if done != [] {
      assert (done + [next])[1..] == done[1..] + [next];
      StepMessagesAppend(done[1..], next, status);
    }
  }

  lemma {:induction false} StepMessagesStop(ordered: seq<string>, i: nat, status: string -> bool)
    requires i < |ordered| && !status(ordered[i])
    requires forall k :: 0 <= k < i ==> status(ordered[k])
    ensures StepMessages(ordered, status) == StepMessages(ordered[..i + 1], status)
  {
    if i > 0 {
      assert ordered[..i + 1][1..] == ordered[1..][..i];
      StepMessagesStop(ordered[1..], i - 1, status);
    }
  }
}
