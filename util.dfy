/** Small building blocks shared by every engine of the model: an Option type,
    the enumeration of a Python set into a list, the closure of a provider map
    and the bucketing of a depth map. */
module Util {

  datatype Option<T> = None | Some(value: T)

  /** No element occurs twice. */
  predicate Distinct<T(==)>(s: seq<T>)
  {
    forall i, j :: 0 <= i < j < |s| ==> s[i] != s[j]
  }

  /** The elements of a sequence, as a set. */
  function Elems<T>(s: seq<T>): set<T>
  {
    set x | x in s
  }

  lemma DistinctCard<T>(s: seq<T>)
    requires Distinct(s)
    ensures |Elems(s)| == |s|
  {
    if s != [] {
      assert Distinct(s[1..]);
      DistinctCard(s[1..]);
      assert Elems(s) == {s[0]} + Elems(s[1..]);
      assert s[0] !in Elems(s[1..]);
    }
  }

  lemma ElemsConcat<T>(a: seq<T>, b: seq<T>)
    ensures Elems(a + b) == Elems(a) + Elems(b)
  {
    forall x | x in Elems(a + b) ensures x in Elems(a) + Elems(b) {
      var i :| 0 <= i < |a + b| && (a + b)[i] == x;
      if i >= |a| {
        assert b[i - |a|] == x;
      }
    }
    forall x | x in Elems(a) + Elems(b) ensures x in Elems(a + b) {
      if x in Elems(a) {
        var i :| 0 <= i < |a| && a[i] == x;
        assert (a + b)[i] == x;
      } else {
        var i :| 0 <= i < |b| && b[i] == x;
        assert (a + b)[|a| + i] == x;
      }
    }
  }

  /** Two duplicate-free lists with no common element concatenate to a
      duplicate-free list. */
  lemma DistinctConcat<T>(a: seq<T>, b: seq<T>)
    requires Distinct(a) && Distinct(b) && Elems(a) !! Elems(b)
    ensures Distinct(a + b)
  {
    forall i, j | 0 <= i < j < |a + b| ensures (a + b)[i] != (a + b)[j] {
      if j < |a| {
      } else if i >= |a| {
        assert (a + b)[i] == b[i - |a|] && (a + b)[j] == b[j - |a|];
      } else {
        assert (a + b)[i] == a[i] && a[i] in Elems(a);
        assert (a + b)[j] == b[j - |a|] && b[j - |a|] in Elems(b);
      }
    }
  }

  /** The members of `p` form a prefix of `s`: none comes after a non-member. */
  predicate PrefixClosed<T(==)>(s: seq<T>, p: set<T>)
  {
    forall i, j :: 0 <= i < j < |s| && s[j] in p ==> s[i] in p
  }

  lemma PrefixClosedConcat<T>(a: seq<T>, b: seq<T>, p: set<T>)
    requires Elems(a) <= p && Elems(b) !! p
    ensures PrefixClosed(a + b, p)
  {
    forall k | |a| <= k < |a + b| ensures (a + b)[k] !in p {
      assert (a + b)[k] == b[k - |a|] && b[k - |a|] in Elems(b);
    }
    forall i | 0 <= i < |a| ensures (a + b)[i] in p {
      assert (a + b)[i] == a[i] && a[i] in Elems(a);
    }
  }

  /** A proper subset is strictly smaller. */
  lemma ProperSubsetCard<T>(a: set<T>, b: set<T>)
    requires a < b
    ensures |a| < |b|
  {
    assert b == a + (b - a);
    assert a * (b - a) == {};
  }

  /** `list(s)` of a Python set: the elements in some order the model does not
      fix, each exactly once. */
  method SetToSeq<T(==)>(s: set<T>) returns (r: seq<T>)
    ensures Distinct(r)
    ensures Elems(r) == s
    ensures |r| == |s|
  {
    r := [];
    var rest := s;
    while rest != {}
      invariant Distinct(r)
      invariant Elems(r) + rest == s
      invariant Elems(r) !! rest
      decreases rest
    {
      var x :| x in rest;
      r := r + [x];
      rest := rest - {x};
    }
    DistinctCard(r);
  }

  /** `sub` is `s` with some of its elements left out, the others kept in
      their order. */
  ghost predicate Subsequence<T>(sub: seq<T>, s: seq<T>)
    decreases |s|
  {
    if sub == [] then true
    else if s == [] then false
    else (sub[0] == s[0] && Subsequence(sub[1..], s[1..])) || Subsequence(sub, s[1..])
  }

  /** `[i for i in args if i in index]`: the known names of a command line,
      in their order and with repeats kept. */
  function KnownNames(args: seq<string>, known: set<string>): (r: seq<string>)
    ensures Elems(r) == Elems(args) * known
    ensures forall k :: 0 <= k < |r| ==> r[k] in known
    ensures |r| <= |args|
    ensures Elems(args) <= known ==> r == args
  {
    if args == [] then []
    else
      var rest := KnownNames(args[1..], known);
      assert Elems(args) == {args[0]} + Elems(args[1..]);
      if args[0] in known then
        ElemsConcat([args[0]], rest);
        [args[0]] + rest
      else rest
  }

  /** The known names are the arguments with exactly the unknown ones left
      out: the others keep their order and their number of repeats. */
  lemma {:induction false} KnownNamesFilters(args: seq<string>, known: set<string>)
    ensures Subsequence(KnownNames(args, known), args)
    ensures forall x :: multiset(KnownNames(args, known))[x] == if x in known then multiset(args)[x] else 0
  {
    if args != [] {
      var rest := KnownNames(args[1..], known);
      KnownNamesFilters(args[1..], known);
      assert args == [args[0]] + args[1..];
      if args[0] in known {
        assert ([args[0]] + rest)[1..] == rest;
      }
    }
  }

  /** `name` joins the provider set of each capability in `provided`; a
      capability seen for the first time gets a fresh entry (the behaviour of a
      `defaultdict(set)` or of `setdefault`). */
  function AddProvider(providers: map<string, set<string>>, provided: set<string>, name: string): (r: map<string, set<string>>)
    ensures r.Keys == providers.Keys + provided
  {
    map p | p in providers.Keys + provided
      :: (if p in providers then providers[p] else {}) + (if p in provided then {name} else {})
  }

  /** A set of names closed under a provider map: with `q`, everything that
      provides `q` is in the set as well. */
  ghost predicate ClosedUnder(prov: map<string, set<string>>, s: set<string>)
  {
    forall q :: q in s && q in prov ==> prov[q] <= s
  }

  /** One step of the provider closure: `s` together with the providers of its
      members. */
  function ProviderStep(prov: map<string, set<string>>, s: set<string>): (r: set<string>)
    ensures s <= r
    ensures r == s <==> ClosedUnder(prov, s)
  {
    s + (set q, p | q in s && q in prov && p in prov[q] :: p)
  }

  /** Every value of a provider map stays inside the universe `u`. */
  ghost predicate ValuesWithin(prov: map<string, set<string>>, u: set<string>)
  {
    forall q :: q in prov ==> prov[q] <= u
  }

  /** The transitive closure of `base` under `prov`: the least closed superset. */
  ghost predicate IsProviderClosure(prov: map<string, set<string>>, base: set<string>, full: set<string>)
  {
    && base <= full
    && ClosedUnder(prov, full)
    && forall s :: base <= s && ClosedUnder(prov, s) ==> full <= s
  }

  lemma ProviderStepMonotone(prov: map<string, set<string>>, a: set<string>, s: set<string>)
    requires a <= s && ClosedUnder(prov, s)
    ensures ProviderStep(prov, a) <= s
  {
  }

  /** The largest value of a non-empty map. */
  ghost predicate IsMaxValue(dm: map<string, nat>, m: nat)
  {
    (exists k :: k in dm && dm[k] == m) && forall k :: k in dm ==> dm[k] <= m
  }

  /** The bucketing of a depth map used by `MakeBuildDependencyDepths` and by
      `BuildQueue`: one set per depth from 0 to the largest depth, then the list
      is reversed, so bucket `i` holds the names of depth `max - i`; an empty
      map gives no buckets at all. */
  method DepthBuckets(dm: map<string, nat>) returns (sets: seq<set<string>>)
    ensures dm == map[] <==> sets == []
    ensures sets != [] ==> IsMaxValue(dm, |sets| - 1)
    ensures forall i :: 0 <= i < |sets| ==> sets[i] == set k | k in dm && dm[k] == |sets| - 1 - i
  {
    if dm == map[] {
      return [];
    }
    // The largest recorded depth.
    var m: nat := 0;
    var keys := dm.Keys;
    var k0 :| k0 in keys;
    m := dm[k0];
    keys := keys - {k0};
    while keys != {}
      invariant keys <= dm.Keys
      invariant exists k :: k in dm && dm[k] == m
      invariant forall k :: k in dm && k !in keys ==> dm[k] <= m
      decreases keys
    {
      var k :| k in keys;
      if dm[k] > m {
        m := dm[k];
      }
      keys := keys - {k};
    }
    // One bucket per depth, filled from the map's items.
    var buckets: seq<set<string>> := seq(m + 1, _ => {});
    keys := dm.Keys;
    while keys != {}
      invariant keys <= dm.Keys
      invariant |buckets| == m + 1
      invariant forall d :: 0 <= d <= m ==> buckets[d] == set k | k in dm && k !in keys && dm[k] == d
      decreases keys
    {
      var k :| k in keys;
      buckets := buckets[dm[k] := buckets[dm[k]] + {k}];
      keys := keys - {k};
    }
    // Reversed: the deepest bucket first.
    sets := seq(m + 1, i requires 0 <= i <= m => buckets[m - i]);
  }
}
