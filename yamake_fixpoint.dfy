/** The fixpoint of `Enqueue`, shared by `yamake.py` and `yamake_builder.py`:
    the request, the rounds that grow the queue and the capability sets, and
    the outcome. The two files differ only in how a round resolves abstract
    dependencies (`Resolution`). */
module YamakeFixpoint {
  import opened Util
  import opened YamakeTargets

  /** An abstract dependency and the provider chosen for it. */
  datatype Pick = Pick(depend: string, provider: string)

  /** The loop condition of `Enqueue`'s fixpoint. */
  predicate Pending(s: Fix)
  {
    s.depends != {} || (s.lP != {} && s.lP != s.provided) || (s.lD != {} && s.lD != s.depends)
  }

  /** The loop over the abstract dependencies of a round: the first one, in
      the set's iteration order, for which a provider can be chosen is moved
      from `lDepends` to `lProvides` and `lFullProvides`, and the loop stops
      (`break`), so at most one is resolved per round. */
  method ResolveFirstAbstract(index: map<string, YTarget>, providers: map<string, set<string>>, e: Fix)
    returns (m: Fix, pick: Option<Pick>)
    requires Within(index, e) && ValuesWithin(providers, index.Keys)
    ensures pick.None? ==> m == e
    ensures pick.None? ==> forall d :: d in AbstractIn(index, e.depends) && d in providers ==>
                                         !Resolvable(index, providers[d], e, AbstractIn(index, e.depends))
    ensures pick.Some? ==>
              && pick.value.depend in AbstractIn(index, e.depends) && pick.value.depend in providers
              && Chosen(index, providers[pick.value.depend], e, AbstractIn(index, e.depends), pick.value.provider)
              && m == e.(provided := e.provided + {pick.value.depend}, full := e.full + {pick.value.depend},
                         depends := e.depends - {pick.value.depend})
  {
    var abstractDepends := AbstractIn(index, e.depends);
    var candidates := SetToSeq(set d | d in abstractDepends && d in providers);
    var i := 0;
    while i < |candidates|
      invariant 0 <= i <= |candidates|
      invariant forall k :: 0 <= k < i ==>
                  candidates[k] in providers && !Resolvable(index, providers[candidates[k]], e, abstractDepends)
    {
      assert candidates[i] in Elems(candidates);
      var d := candidates[i];
      var target := ChooseProvider(index, providers[d], e, abstractDepends);
      if target.Some? {
        m := e.(provided := e.provided + {d}, full := e.full + {d}, depends := e.depends - {d});
        return m, Some(Pick(d, target.value));
      }
      i := i + 1;
    }
    forall d | d in abstractDepends && d in providers
      ensures !Resolvable(index, providers[d], e, abstractDepends)
    {
      assert d in Elems(candidates);
      var k :| 0 <= k < |candidates| && candidates[k] == d;
    }
    return e, None;
  }

  /** How a round of the fixpoint resolves abstract dependencies:
      `yamake.py` stops at the first one it can choose a provider for;
      `yamake_builder.py` tries every one and acts only when exactly one
      provider was found across all of them, then marks the last candidate
      it tried (`LastCandidate`, as written) where a candidate the provider
      was found for is evidently meant (`SingleFound`). */
  datatype Resolution = FirstResolvable | SingleFound | LastCandidate

  /** The candidates of a round: abstract dependencies that some target
      provides. */
  ghost predicate Candidate(index: map<string, YTarget>, providers: map<string, set<string>>, e: Fix, d: string)
  {
    d in AbstractIn(index, e.depends) && d in providers
  }

  /** The loop over the candidates in `yamake_builder.py`: the provider
      chosen for each candidate, where one can be chosen. The state does not
      change inside the loop, so every choice sees the same sets. */
  method FindProviders(index: map<string, YTarget>, providers: map<string, set<string>>, e: Fix,
                       abstractDepends: set<string>, candidates: seq<string>)
    returns (found: seq<Option<string>>)
    requires forall k :: 0 <= k < |candidates| ==> candidates[k] in providers
    requires ValuesWithin(providers, index.Keys)
    ensures |found| == |candidates|
    ensures forall k :: 0 <= k < |found| ==>
              (found[k].Some? <==> Resolvable(index, providers[candidates[k]], e, abstractDepends))
    ensures forall k :: 0 <= k < |found| && found[k].Some? ==>
              Chosen(index, providers[candidates[k]], e, abstractDepends, found[k].value)
  {
    found := [];
    var i := 0;
    while i < |candidates|
      invariant 0 <= i <= |candidates| && |found| == i
      invariant forall k :: 0 <= k < i ==>
                  (found[k].Some? <==> Resolvable(index, providers[candidates[k]], e, abstractDepends))
      invariant forall k :: 0 <= k < i && found[k].Some? ==>
                  Chosen(index, providers[candidates[k]], e, abstractDepends, found[k].value)
    {
      var target := ChooseProvider(index, providers[candidates[i]], e, abstractDepends);
      found := found + [target];
      i := i + 1;
    }
  }

  /** `lFoundTargets`: the providers found, as a set. */
  function FoundSet(found: seq<Option<string>>): set<string>
  {
    set k | 0 <= k < |found| && found[k].Some? :: found[k].value
  }

  /** The last position of `found` that holds a provider. */
  function LastFound(found: seq<Option<string>>): (k: Option<nat>)
    ensures k.None? <==> forall j :: 0 <= j < |found| ==> found[j].None?
    ensures k.Some? ==> k.value < |found| && found[k.value].Some?
  {
    if found == [] then None
    else if found[|found| - 1].Some? then Some(|found| - 1)
    else LastFound(found[..|found| - 1])
  }

  lemma SingleFound(found: seq<Option<string>>, k: nat)
    requires |FoundSet(found)| == 1 && k < |found| && found[k].Some?
    ensures FoundSet(found) == {found[k].value}
  {
    SingletonIs(FoundSet(found), found[k].value);
  }

  /** The marking after the loop of `yamake_builder.py` as written: when
      exactly one provider was found it is returned for queueing, and the
      loop variable `depend` is moved to the provided names. After the loop
      that variable holds the LAST candidate, whichever candidate the
      provider was found for. */
  function MarkLastCandidate(candidates: seq<string>, found: seq<Option<string>>): (r: Option<Pick>)
    requires |found| == |candidates|
    ensures r.Some? <==> |FoundSet(found)| == 1
    ensures r.Some? ==> r.value.depend == candidates[|candidates| - 1] && FoundSet(found) == {r.value.provider}
  {
    if |FoundSet(found)| == 1 then
      var k := LastFound(found);
      if k.Some? then
        SingleFound(found, k.value);
        Some(Pick(candidates[|candidates| - 1], found[k.value].value))
      else
        assert false; None
    else None
  }

  /** The marking as evidently intended: the dependency moved to the
      provided names is one that the single provider was found for. */
  function MarkFoundFor(candidates: seq<string>, found: seq<Option<string>>): (r: Option<Pick>)
    requires |found| == |candidates|
    ensures r.Some? <==> |FoundSet(found)| == 1
    ensures r.Some? ==> FoundSet(found) == {r.value.provider}
    ensures r.Some? ==> exists k :: 0 <= k < |candidates| && candidates[k] == r.value.depend
                                    && found[k] == Some(r.value.provider)
  {
    if |FoundSet(found)| == 1 then
      var k := LastFound(found);
      if k.Some? then
        SingleFound(found, k.value);
        Some(Pick(candidates[k.value], found[k.value].value))
      else
        assert false; None
    else None
  }

  /** Two candidates, a provider found for the first only: as written, the
      second is marked provided although no provider was found for it, and
      the first, which was resolved, stays an open dependency. */
  lemma LeakedDependMarked()
    ensures MarkLastCandidate(["a", "b"], [Some("p"), None]) == Some(Pick("b", "p"))
    ensures MarkFoundFor(["a", "b"], [Some("p"), None]) == Some(Pick("a", "p"))
  {
    var found: seq<Option<string>> := [Some("p"), None];
    assert FoundSet(found) == {"p"} by {
      assert found[0].Some? && found[0].value == "p";
    }
  }

  /** No candidate of the round can be given a provider. */
  ghost predicate NoneResolvable(index: map<string, YTarget>, providers: map<string, set<string>>, e: Fix)
    requires ValuesWithin(providers, index.Keys)
  {
    forall d :: Candidate(index, providers, e, d) ==> !Resolvable(index, providers[d], e, AbstractIn(index, e.depends))
  }

  /** Two different candidates of the round are given different providers. */
  ghost predicate Disagree(index: map<string, YTarget>, providers: map<string, set<string>>, e: Fix)
    requires ValuesWithin(providers, index.Keys)
  {
    exists d1, d2, p1, p2 :: && d1 != d2
                             && Candidate(index, providers, e, d1) && Candidate(index, providers, e, d2)
                             && Chosen(index, providers[d1], e, AbstractIn(index, e.depends), p1)
                             && Chosen(index, providers[d2], e, AbstractIn(index, e.depends), p2)
                             && p1 != p2
  }

  /** When `lFoundTargets` is not a single provider, either nothing was found
      or two candidates were given different providers. */
  lemma {:induction false} FoundNotSingle(index: map<string, YTarget>, providers: map<string, set<string>>, e: Fix,
                                          candidates: seq<string>, found: seq<Option<string>>)
    requires ValuesWithin(providers, index.Keys)
    requires Distinct(candidates) && forall d :: d in Elems(candidates) <==> Candidate(index, providers, e, d)
    requires |found| == |candidates| && forall k :: 0 <= k < |candidates| ==> candidates[k] in providers
    requires forall k :: 0 <= k < |found| ==>
               (found[k].Some? <==> Resolvable(index, providers[candidates[k]], e, AbstractIn(index, e.depends)))
    requires forall k :: 0 <= k < |found| && found[k].Some? ==>
               Chosen(index, providers[candidates[k]], e, AbstractIn(index, e.depends), found[k].value)
    requires |FoundSet(found)| != 1
    ensures NoneResolvable(index, providers, e) || Disagree(index, providers, e)
  {
    if LastFound(found).None? {
      forall d | Candidate(index, providers, e, d)
        ensures !Resolvable(index, providers[d], e, AbstractIn(index, e.depends))
      {
        assert d in Elems(candidates);
        var k :| 0 <= k < |candidates| && candidates[k] == d;
      }
    } else {
      var k0 := LastFound(found).value;
      assert found[k0].value in FoundSet(found);
      var p1 :| p1 in FoundSet(found);
      assert |FoundSet(found) - {p1}| == |FoundSet(found)| - 1;
      var p2 :| p2 in FoundSet(found) - {p1};
      var k1 :| 0 <= k1 < |found| && found[k1].Some? && found[k1].value == p1;
      var k2 :| 0 <= k2 < |found| && found[k2].Some? && found[k2].value == p2;
      assert candidates[k1] in Elems(candidates) && candidates[k2] in Elems(candidates);
      assert k1 != k2 && candidates[k1] != candidates[k2];
      DisagreeOn(index, providers, e, candidates[k1], candidates[k2], p1, p2);
    }
  }

  lemma DisagreeOn(index: map<string, YTarget>, providers: map<string, set<string>>, e: Fix,
                   d1: string, d2: string, p1: string, p2: string)
    requires ValuesWithin(providers, index.Keys)
    requires d1 != d2 && Candidate(index, providers, e, d1) && Candidate(index, providers, e, d2) && p1 != p2
    requires Chosen(index, providers[d1], e, AbstractIn(index, e.depends), p1)
    requires Chosen(index, providers[d2], e, AbstractIn(index, e.depends), p2)
    ensures Disagree(index, providers, e)
  {
  }

  /** The loop over the abstract dependencies of a round in
      `yamake_builder.py`, with the marking corrected: every candidate is
      tried, and only when exactly one provider was found is it returned and
      a dependency it was found for moved from `lDepends` to `lProvides` and
      `lFullProvides`. */
  method ResolveSingleFound(index: map<string, YTarget>, providers: map<string, set<string>>, e: Fix)
    returns (m: Fix, pick: Option<Pick>)
    requires Within(index, e) && ValuesWithin(providers, index.Keys)
    ensures pick.None? ==> m == e && (NoneResolvable(index, providers, e) || Disagree(index, providers, e))
    ensures pick.Some? ==>
              && Candidate(index, providers, e, pick.value.depend)
              && Chosen(index, providers[pick.value.depend], e, AbstractIn(index, e.depends), pick.value.provider)
              && m == e.(provided := e.provided + {pick.value.depend}, full := e.full + {pick.value.depend},
                         depends := e.depends - {pick.value.depend})
    ensures pick.Some? ==> forall d :: Candidate(index, providers, e, d)
                                       && Resolvable(index, providers[d], e, AbstractIn(index, e.depends)) ==>
                                         Chosen(index, providers[d], e, AbstractIn(index, e.depends), pick.value.provider)
  {
    var abstractDepends := AbstractIn(index, e.depends);
    var candidates := SetToSeq(set d | d in abstractDepends && d in providers);
    forall k | 0 <= k < |candidates| ensures candidates[k] in providers {
      assert candidates[k] in Elems(candidates);
    }
    var found := FindProviders(index, providers, e, abstractDepends, candidates);
    pick := MarkFoundFor(candidates, found);
    if pick.None? {
      FoundNotSingle(index, providers, e, candidates, found);
      return e, None;
    }
    var k :| 0 <= k < |candidates| && candidates[k] == pick.value.depend && found[k] == Some(pick.value.provider);
    assert candidates[k] in Elems(candidates);
    var d := pick.value.depend;
    m := e.(provided := e.provided + {d}, full := e.full + {d}, depends := e.depends - {d});
    forall c | Candidate(index, providers, e, c) && Resolvable(index, providers[c], e, abstractDepends)
      ensures Chosen(index, providers[c], e, abstractDepends, pick.value.provider)
    {
      assert c in Elems(candidates);
      var j :| 0 <= j < |candidates| && candidates[j] == c;
      assert found[j].value in FoundSet(found);
    }
  }

  /** The loop over the abstract dependencies of a round in
      `yamake_builder.py` as written: every candidate is tried, and only
      when exactly one provider was found is it returned; the dependency
      moved from `lDepends` to `lProvides` and `lFullProvides` is the last
      candidate tried, which need not be one the provider was found for. */
  method ResolveLastCandidate(index: map<string, YTarget>, providers: map<string, set<string>>, e: Fix)
    returns (m: Fix, pick: Option<Pick>, ghost candidates: seq<string>)
    requires Within(index, e) && ValuesWithin(providers, index.Keys)
    ensures Distinct(candidates) && forall d :: d in Elems(candidates) <==> Candidate(index, providers, e, d)
    ensures pick.None? ==> m == e && (NoneResolvable(index, providers, e) || Disagree(index, providers, e))
    ensures pick.Some? ==>
              && candidates != [] && pick.value.depend == candidates[|candidates| - 1]
              && m == e.(provided := e.provided + {pick.value.depend}, full := e.full + {pick.value.depend},
                         depends := e.depends - {pick.value.depend})
    ensures pick.Some? ==> exists d :: Candidate(index, providers, e, d)
                                       && Chosen(index, providers[d], e, AbstractIn(index, e.depends), pick.value.provider)
    ensures pick.Some? ==> forall d :: Candidate(index, providers, e, d)
                                       && Resolvable(index, providers[d], e, AbstractIn(index, e.depends)) ==>
                                         Chosen(index, providers[d], e, AbstractIn(index, e.depends), pick.value.provider)
  {
    var abstractDepends := AbstractIn(index, e.depends);
    var cs := SetToSeq(set d | d in abstractDepends && d in providers);
    candidates := cs;
    forall k | 0 <= k < |cs| ensures cs[k] in providers {
      assert cs[k] in Elems(cs);
    }
    var found := FindProviders(index, providers, e, abstractDepends, cs);
    pick := MarkLastCandidate(cs, found);
    if pick.None? {
      FoundNotSingle(index, providers, e, cs, found);
      return e, None, candidates;
    }
    var k := LastFound(found).value;
    assert found[k].value in FoundSet(found);
    assert cs[k] in Elems(cs) && cs[|cs| - 1] in Elems(cs);
    var d := pick.value.depend;
    m := e.(provided := e.provided + {d}, full := e.full + {d}, depends := e.depends - {d});
    forall c | Candidate(index, providers, e, c) && Resolvable(index, providers[c], e, abstractDepends)
      ensures Chosen(index, providers[c], e, abstractDepends, pick.value.provider)
    {
      assert c in Elems(cs);
      var j :| 0 <= j < |cs| && cs[j] == c;
      assert found[j].value in FoundSet(found);
    }
  }

  /** The resolution step of a round, in any of the engines' forms: at most
      one abstract dependency is moved to the provided names, and a provider
      chosen for some candidate is returned; except as written in
      `yamake_builder.py`, it was chosen for the dependency moved. */
  method ResolveAbstract(index: map<string, YTarget>, providers: map<string, set<string>>, e: Fix, res: Resolution)
    returns (m: Fix, pick: Option<Pick>)
    requires Within(index, e) && ValuesWithin(providers, index.Keys)
    ensures pick.None? ==> m == e
    ensures pick.None? && res.FirstResolvable? ==> NoneResolvable(index, providers, e)
    ensures pick.None? ==> NoneResolvable(index, providers, e) || Disagree(index, providers, e)
    ensures pick.Some? ==>
              && Candidate(index, providers, e, pick.value.depend)
              && m == e.(provided := e.provided + {pick.value.depend}, full := e.full + {pick.value.depend},
                         depends := e.depends - {pick.value.depend})
    ensures pick.Some? ==> exists d :: Candidate(index, providers, e, d)
                                       && Chosen(index, providers[d], e, AbstractIn(index, e.depends), pick.value.provider)
    ensures pick.Some? && !res.LastCandidate? ==>
              Chosen(index, providers[pick.value.depend], e, AbstractIn(index, e.depends), pick.value.provider)
  {
    match res
    case FirstResolvable =>
      m, pick := ResolveFirstAbstract(index, providers, e);
    case SingleFound =>
      m, pick := ResolveSingleFound(index, providers, e);
    case LastCandidate =>
      ghost var candidates;
      m, pick, candidates := ResolveLastCandidate(index, providers, e);
      if pick.Some? {
        assert pick.value.depend in Elems(candidates);
      }
  }

  /** One round of `Enqueue`'s fixpoint. The queue only grows and never holds
      an abstract target; a target joins it either as the provider chosen in
      this round or because all its dependencies are provided. */
  method Round(index: map<string, YTarget>, providers: map<string, set<string>>, s: Fix, res: Resolution)
    returns (r: Fix, pick: Option<Pick>)
    requires Resolved(index) && Within(index, s) && NoAbstract(index, s.queue)
    requires s.full == s.queue + s.provided && ValuesWithin(providers, index.Keys)
    ensures Within(index, r) && NoAbstract(index, r.queue)
    ensures s.queue <= r.queue && s.provided <= r.provided && r.full == r.queue + r.provided
    ensures r.depends !! r.queue
    ensures forall n :: n in r.queue - s.queue ==>
                          (pick.Some? && n == pick.value.provider) || index[n].depends <= r.full
    ensures pick.Some? ==> pick.value.depend in r.provided && pick.value.depend in providers
    ensures pick.Some? ==> exists d :: d in providers && pick.value.provider in providers[d]
    ensures pick.Some? && !res.LastCandidate? ==> pick.value.provider in providers[pick.value.depend]
  {
    var e := Expand(index, s);
    var m;
    m, pick := ResolveAbstract(index, providers, e, res);
    var add := if pick.Some? then {pick.value.provider} else {};
    Settled(index, s, m, add);
    r := Settle(index, m, add);
  }

  /** The end of a round keeps the queue and the capabilities growing, and
      admits to the queue only `add` and targets whose dependencies are
      provided. */
  lemma Settled(index: map<string, YTarget>, s: Fix, m: Fix, add: set<string>)
    requires Resolved(index) && Within(index, m) && add <= index.Keys && NoAbstract(index, m.queue)
    requires m.queue == s.queue && m.full == m.queue + m.provided && s.provided <= m.provided
    ensures var r := Settle(index, m, add);
            && s.queue <= r.queue && s.provided <= r.provided && r.full == r.queue + r.provided
            && forall n :: n in r.queue - s.queue ==> n in add || index[n].depends <= r.full
  {
    var r := Settle(index, m, add);
    forall n | n in r.queue - s.queue ensures n in add || index[n].depends <= r.full {
      assert n in add || (n in m.depends && index[n].depends <= m.full);
    }
  }

  /** The fixpoint of `Enqueue`: rounds run while something is pending, ten
      at most (`counter`). */
  method Resolve(index: map<string, YTarget>, providers: map<string, set<string>>, s0: Fix, res: Resolution)
    returns (r: Fix, rounds: nat, ghost chosen: set<string>)
    requires Resolved(index) && Within(index, s0) && NoAbstract(index, s0.queue)
    requires s0.full == s0.queue + s0.provided && ValuesWithin(providers, index.Keys)
    ensures Within(index, r) && NoAbstract(index, r.queue)
    ensures s0.queue <= r.queue && s0.provided <= r.provided && r.full == r.queue + r.provided
    ensures rounds <= 10
    ensures rounds < 10 ==> !Pending(r)
    ensures !Pending(s0) ==> rounds == 0 && r == s0
    ensures rounds == 0 ==> r == s0 && !Pending(s0)
    ensures r.depends !! r.queue
    ensures |chosen| <= rounds
    ensures forall n :: n in r.queue - s0.queue ==> n in chosen || index[n].depends <= r.full
    ensures forall c :: c in chosen ==> exists d :: d in providers && c in providers[d]
    ensures !res.LastCandidate? ==> forall c :: c in chosen ==> exists d :: d in r.provided && d in providers && c in providers[d]
  {
    r, rounds, chosen := s0, 0, {};
    var counter := 10;
    while Pending(r)
      invariant rounds < 10 && counter == 10 - rounds
      invariant Within(index, r) && NoAbstract(index, r.queue)
      invariant s0.queue <= r.queue && s0.provided <= r.provided && r.full == r.queue + r.provided
      invariant rounds == 0 ==> r == s0
      invariant rounds > 0 ==> Pending(s0)
      invariant rounds > 0 ==> r.depends !! r.queue
      invariant |chosen| <= rounds
      invariant forall n :: n in r.queue - s0.queue ==> n in chosen || index[n].depends <= r.full
      invariant forall c :: c in chosen ==> exists d :: d in providers && c in providers[d]
      invariant !res.LastCandidate? ==> forall c :: c in chosen ==> exists d :: d in r.provided && d in providers && c in providers[d]
      decreases counter
    {
      var next, pick := Round(index, providers, r, res);
      RoundKeeps(index, providers, s0, r, next, pick, chosen, res);
      if pick.Some? {
        chosen := chosen + {pick.value.provider};
      }
      r := next;
      rounds := rounds + 1;
      counter := counter - 1;
      if counter <= 0 {
        break;
      }
    }
  }

  /** What one round keeps of the facts `Resolve` accumulates. */
  lemma RoundKeeps(index: map<string, YTarget>, providers: map<string, set<string>>, s0: Fix, r: Fix, next: Fix,
                   pick: Option<Pick>, chosen: set<string>, res: Resolution)
    requires s0.queue <= r.queue <= next.queue && r.provided <= next.provided
    requires r.full == r.queue + r.provided && next.full == next.queue + next.provided
    requires forall n :: n in r.queue - s0.queue ==> n in chosen || (n in index && index[n].depends <= r.full)
    requires forall n :: n in next.queue - r.queue ==>
                           (pick.Some? && n == pick.value.provider) || (n in index && index[n].depends <= next.full)
    requires forall c :: c in chosen ==> exists d :: d in providers && c in providers[d]
    requires !res.LastCandidate? ==> forall c :: c in chosen ==> exists d :: d in r.provided && d in providers && c in providers[d]
    requires pick.Some? ==> pick.value.depend in next.provided && pick.value.depend in providers
    requires pick.Some? ==> exists d :: d in providers && pick.value.provider in providers[d]
    requires pick.Some? && !res.LastCandidate? ==> pick.value.provider in providers[pick.value.depend]
    ensures var chosen' := if pick.Some? then chosen + {pick.value.provider} else chosen;
            && (forall n :: n in next.queue - s0.queue ==> n in chosen' || (n in index && index[n].depends <= next.full))
            && (forall c :: c in chosen' ==> exists d :: d in providers && c in providers[d])
            && (!res.LastCandidate? ==> forall c :: c in chosen' ==> exists d :: d in next.provided && d in providers && c in providers[d])
  {
    var chosen' := if pick.Some? then chosen + {pick.value.provider} else chosen;
    if !res.LastCandidate? {
      forall c | c in chosen' ensures exists d :: d in next.provided && d in providers && c in providers[d] {
        if c in chosen {
          var d :| d in r.provided && d in providers && c in providers[d];
          assert d in next.provided;
        } else {
          assert pick.value.depend in next.provided;
        }
      }
    }
  }

  /** How `Enqueue` ends. */
  datatype Outcome =
    | Raised(fault: Fault)                                // an exception propagates
    | Declined                                            // `return False, None, None`
    | Queued(queue: set<string>, ambiguous: set<string>)  // `return True, lQueueSet, lDepends`

  /** The request of `Enqueue`: the given names, or the dependencies of the
      `default` target when none are given; None when neither exists. */
  function Request(index: map<string, YTarget>, requested: seq<string>): (r: Option<set<string>>)
    ensures requested != [] ==> r == Some(Elems(requested))
    ensures requested == [] ==> (r.Some? <==> "default" in index && index["default"].depends != {})
    ensures r.Some? ==> r.value != {}
  {
    if requested != [] then
      assert requested[0] in Elems(requested);
      Some(Elems(requested))
    else if "default" in index && index["default"].depends != {} then Some(index["default"].depends)
    else None
  }

  /** `lTargetSet`: the request together with the dependencies of `any`. */
  function TargetSet(index: map<string, YTarget>, request: set<string>): (r: set<string>)
    ensures request <= r
    ensures "any" in index ==> index["any"].depends <= r
    ensures r <= request + (if "any" in index then index["any"].depends else {})
  {
    if "any" in index && index["any"].depends != {} then request + index["any"].depends else request
  }

  /** The outcome of `Enqueue`'s fixpoint for `request`: a queue of concrete
      targets holding every concrete requested one, and the abstract
      dependencies left ambiguous, which stay outside the queue and only
      remain when the round limit was reached. */
  ghost predicate Queues(index: map<string, YTarget>, request: set<string>, r: Outcome, rounds: nat)
  {
    && r.Queued?
    && r.queue <= index.Keys && NoAbstract(index, r.queue)
    && request - AbstractIn(index, request) <= r.queue
    && TargetSet(index, request) - AbstractIn(index, TargetSet(index, request)) <= r.queue
    && r.ambiguous !! r.queue && r.ambiguous <= index.Keys
    && rounds <= 10 && (r.ambiguous != {} ==> rounds == 10)
  }

  /** What the rounds of `Enqueue` leave, from the start state of
      `targetSet`, after `rounds` rounds that chose the providers `chosen`:
      no round runs exactly when the start state is not pending, the queue
      and capabilities only grew, fewer than ten rounds means nothing is
      pending, and every target queued by the rounds is a chosen
      provider or has its dependencies provided. */
  ghost predicate Reached(index: map<string, YTarget>, providers: map<string, set<string>>, targetSet: set<string>,
                          res: Resolution, s: Fix, rounds: nat, chosen: set<string>)
  {
    && Resolved(index) && targetSet <= index.Keys
    && var s0 := Start(index, targetSet);
    && Within(index, s) && NoAbstract(index, s.queue)
    && s0.queue <= s.queue && s0.provided <= s.provided && s.full == s.queue + s.provided
    && s.depends !! s.queue
    && rounds <= 10 && (rounds < 10 ==> !Pending(s))
    && (rounds == 0 <==> !Pending(s0)) && (rounds == 0 ==> s == s0)
    && |chosen| <= rounds
    && (forall n :: n in s.queue - s0.queue ==> n in chosen || index[n].depends <= s.full)
    && (forall c :: c in chosen ==> exists d :: d in providers && c in providers[d])
    && (!res.LastCandidate? ==> forall c :: c in chosen ==> exists d :: d in s.provided && d in providers && c in providers[d])
  }

  /** The outcome of `Enqueue` is the queue and the open dependencies of a
      state the rounds reach from the target set of `request`. */
  ghost predicate Fixed(index: map<string, YTarget>, providers: map<string, set<string>>, request: set<string>,
                        res: Resolution, r: Outcome, rounds: nat)
  {
    exists s: Fix, chosen: set<string> :: Reached(index, providers, TargetSet(index, request), res, s, rounds, chosen)
                                          && r == Queued(s.queue, s.depends)
  }

  /** The fixpoint of `Enqueue` from the target set, as its outcome. */
  method Fixpoint(index: map<string, YTarget>, providers: map<string, set<string>>, request: set<string>,
                  targetSet: set<string>, res: Resolution) returns (r: Outcome, rounds: nat)
    requires Resolved(index) && request <= targetSet <= index.Keys && ValuesWithin(providers, index.Keys)
    requires targetSet == TargetSet(index, request)
    ensures Queues(index, request, r, rounds)
    ensures Fixed(index, providers, request, res, r, rounds)
  {
    var s0 := Start(index, targetSet);
    var s;
    ghost var chosen;
    s, rounds, chosen := Resolve(index, providers, s0, res);
    r := Queued(s.queue, s.depends);
    assert Reached(index, providers, targetSet, res, s, rounds, chosen);
  }
}
