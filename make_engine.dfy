/** The recursive-priority engine shared by `jsonmake.py` and `tinymake.py`
    (and the witcher plugins written against them). Both keep their state
    in class attributes of `Target` (`lTargets`, `index`, `base`, `stock`,
    `lBases`, `lStocks`) and carry the same `finalizeInit`, `getLayers`,
    `queue` and depth bucketing; they differ only in the name of the field
    holding a target's file (`mtime` in `jsonmake.py`, `target` in
    `tinymake.py`), which is `file` here. Timestamps are inputs: `present`
    maps the targets whose file exists to its modification time. */
module MakeEngine {
  import opened Util

  /** A target after `finalizeInit`: `depends` and `provided` are the names
      of `_depends` and `_provides`, in order; `params` holds the other keys
      of the build-file entry whose values are truthy (`clean`, `bootstrap`,
      `gitbuild`, `merge_branches`, ...). */
  datatype MTarget = MTarget(
    name: string,
    file: Option<string>,
    depends: seq<string>,
    provided: seq<string>,
    layers: seq<string>,
    base: Option<string>,
    timestamp: int,
    needed: bool,
    params: set<string>)

  /** Why the program stops (`sys.exit(1)` or an exception). */
  datatype Halt =
    | UnknownName(name: string)     // KeyError in `finalizeInit`
    | MissingBase                   // KeyError: `Target.index['base']`
    | MultipleBases(target: string)
    | TooManyStocks
    | NoStock
    | TooManyBases
    | NoValidBase
    | SelfDependency(target: string)
    | OlderDependency(target: string)  // a dependency older than an unstamped target
    | RecursionLimit                 // RecursionError: `queue` nested too deeply

  /** `Target(name, params)` with no parameters. */
  function Blank(name: string): (t: MTarget)
    ensures t.name == name && t.file.None? && t.depends == [] && t.provided == []
    ensures t.base.None? && t.timestamp == 0 && !t.needed
  {
    MTarget(name, None, [], [], [], None, 0, false, {})
  }

  /** `getLayers`: the layers, or the target's own name when it has none. */
  function GetLayers(t: MTarget): (r: seq<string>)
    ensures r != []
    ensures t.layers != [] ==> r == t.layers
    ensures t.layers == [] ==> r == [t.name]
  {
    if t.layers == [] then [t.name] else t.layers
  }

  /** A line of `JSONOutput`: the opening brace, one entry per target with
      the keys it writes, the closing brace. */
  datatype JsonLine = Open | Saved(name: string, keys: set<string>) | Close

  /** `lTargets` lists exactly the indexed names. */
  ghost predicate Registered(order: seq<string>, index: map<string, MTarget>)
  {
    Elems(order) == index.Keys
  }

  /** Every name in `_depends` and `_provides` is a target. */
  ghost predicate Resolved(index: map<string, MTarget>)
  {
    forall n :: n in index ==> Elems(index[n].depends) <= index.Keys && Elems(index[n].provided) <= index.Keys
  }

  /** The class attributes of `Target`. */
  class Registry {
    /** `lTargets`, by name, in declaration order. */
    var order: seq<string>
    var index: map<string, MTarget>
    var base: Option<string>
    var stock: Option<string>
    /** `lBases` and `lStocks`. */
    var bases: seq<string>
    var stocks: seq<string>

    constructor()
      ensures Registered(order, index)
      ensures order == [] && index == map[] && base.None? && stock.None? && bases == [] && stocks == []
    {
      order, index := [], map[];
      base, stock := None, None;
      bases, stocks := [], [];
    }

    /** `Target(name, params)`: the target is indexed under its name,
        replacing an earlier one, and appended to `lTargets`. */
    method Declare(t: MTarget)
      requires Registered(order, index)
      modifies this`order, this`index
      ensures Registered(order, index)
      ensures index == old(index)[t.name := t] && order == old(order) + [t.name]
    {
      ElemsConcat(order, [t.name]);
      index := index[t.name := t];
      order := order + [t.name];
    }

    /** `for key, value in o.items(): Target(key, value)`: the entries of the
        build file (the items of a JSON object, so no name twice), declared
        in order. */
    method DeclareAll(entries: seq<MTarget>)
      requires Registered(order, index)
      requires forall j, k :: 0 <= j < k < |entries| ==> entries[j].name != entries[k].name
      modifies this`order, this`index
      ensures Registered(order, index)
      ensures order == old(order) + seq(|entries|, k requires 0 <= k < |entries| => entries[k].name)
      ensures forall k :: 0 <= k < |entries| ==> entries[k].name in index && index[entries[k].name] == entries[k]
      ensures forall n :: n in old(index) && (forall k :: 0 <= k < |entries| ==> entries[k].name != n) ==>
                          n in index && index[n] == old(index)[n]
    {
      var i := 0;
      while i < |entries|
        invariant 0 <= i <= |entries|
        invariant Registered(order, index)
        invariant order == old(order) + seq(i, k requires 0 <= k < i => entries[k].name)
        invariant forall k :: 0 <= k < i ==> entries[k].name in index && index[entries[k].name] == entries[k]
        invariant forall n :: n in old(index) && (forall k :: 0 <= k < i ==> entries[k].name != n) ==>
                               n in index && index[n] == old(index)[n]
      {
        Declare(entries[i]);
        i := i + 1;
      }
    }

    /** The state the given steps leave. */
    method Set(ix: map<string, MTarget>, b: Option<string>, s: Option<string>, bs: seq<string>, ss: seq<string>)
      requires Registered(order, index) && ix.Keys == index.Keys
      modifies this`index, this`base, this`stock, this`bases, this`stocks
      ensures index == ix && base == b && stock == s && bases == bs && stocks == ss
      ensures unchanged(this`order)
      ensures Registered(order, index)
    {
      index, base, stock, bases, stocks := ix, b, s, bs, ss;
    }
  }

  /** `for t in Target.lTargets: t.finalizeInit()`: the names of `depends`,
      then `provides`, are looked up target by target in registration order,
      and the first that is not a target raises KeyError. */
  method FinalizeInit(index: map<string, MTarget>, order: seq<string>) returns (unknown: Option<string>)
    requires Registered(order, index)
    ensures unknown.None? <==> Resolved(index)
    ensures unknown.Some? ==> unknown.value !in index
    ensures unknown.Some? ==> exists n :: n in index && unknown.value in index[n].depends + index[n].provided
  {
    var i := 0;
    while i < |order|
      invariant 0 <= i <= |order|
      invariant forall k :: 0 <= k < i ==> order[k] in index && Elems(index[order[k]].depends) <= index.Keys
                                                             && Elems(index[order[k]].provided) <= index.Keys
    {
      assert order[i] in Elems(order);
      var t := index[order[i]];
      var j := 0;
      while j < |t.depends|
        invariant 0 <= j <= |t.depends|
        invariant forall k :: 0 <= k < j ==> t.depends[k] in index
      {
        if t.depends[j] !in index {
          assert t.depends[j] in t.depends + t.provided;
          return Some(t.depends[j]);
        }
        j := j + 1;
      }
      j := 0;
      while j < |t.provided|
        invariant 0 <= j <= |t.provided|
        invariant forall k :: 0 <= k < j ==> t.provided[k] in index
      {
        if t.provided[j] !in index {
          assert (t.depends + t.provided)[|t.depends| + j] == t.provided[j];
          return Some(t.provided[j]);
        }
        j := j + 1;
      }
      i := i + 1;
    }
    forall n | n in index ensures Elems(index[n].depends) <= index.Keys && Elems(index[n].provided) <= index.Keys {
      var k :| 0 <= k < |order| && order[k] == n;
    }
    return None;
  }

  /** `check_timestamp` on one target: a target with a (truthy) file that
      exists takes the file's modification time and becomes needed. */
  function Stamp(t: MTarget, n: string, present: map<string, int>): (t': MTarget)
    ensures t'.name == t.name && t'.file == t.file && t'.depends == t.depends && t'.provided == t.provided
    ensures t'.layers == t.layers && t'.base == t.base && t'.params == t.params
    ensures (t.file.Some? && t.file.value != "" && n in present) ==> t'.timestamp == present[n] && t'.needed
    ensures !(t.file.Some? && t.file.value != "" && n in present) ==> t' == t
  {
    if t.file.Some? && t.file.value != "" && n in present then t.(timestamp := present[n], needed := true) else t
  }

  /** The names in `s` that are in `keep`, in order and with repeats. */
  function Filter(s: seq<string>, keep: set<string>): (r: seq<string>)
  {
    if s == [] then []
    else
      var rest := Filter(s[1..], keep);
      if s[0] in keep then
        [s[0]] + rest
      else rest
  }

  /** The targets that list `c` among their capabilities. */
  function ProvidersOf(index: map<string, MTarget>, c: string): set<string>
  {
    set n | n in index && c in index[n].provided
  }

  /** The targets of `order` that list `c` among their capabilities. */
  function Providing(index: map<string, MTarget>, order: seq<string>, c: string): (r: seq<string>)
  {
    Filter(order, ProvidersOf(index, c))
  }

  /** The first classification loop of `Initialize`: every target providing
      `base` joins `lBases` and is its own base, every target providing an
      existing `stock` joins `lStocks`, and every target's timestamp is
      checked. */
  method MarkBases(index: map<string, MTarget>, order: seq<string>, present: map<string, int>)
    returns (index': map<string, MTarget>, bases: seq<string>, stocks: seq<string>)
    requires Registered(order, index)
    ensures index'.Keys == index.Keys
    ensures bases == Providing(index, order, "base")
    ensures stocks == (if "stock" in index then Providing(index, order, "stock") else [])
    ensures forall n :: n in index ==> index'[n] == Marked(index[n], n, present)
  {
    bases, stocks := [], [];
    ghost var baseKeep := ProvidersOf(index, "base");
    ghost var stockKeep := if "stock" in index then ProvidersOf(index, "stock") else {};
    var rest := order;
    while rest != []
      invariant Elems(rest) <= index.Keys
      invariant Filter(order, baseKeep) == bases + Filter(rest, baseKeep)
      invariant Filter(order, stockKeep) == stocks + Filter(rest, stockKeep)
    {
      var n := rest[0];
      assert n in Elems(rest);
      var t := index[n];
      assert n in baseKeep <==> "base" in t.provided;
      assert n in stockKeep <==> "stock" in index && "stock" in t.provided;
      if "base" in t.provided {
        bases := bases + [n];
      }
      if "stock" in index && "stock" in t.provided {
        stocks := stocks + [n];
      }
      rest := rest[1..];
    }
    FilterNone(order);
    index' := MarkAll(index, order, present);
  }

  method MarkAll(index: map<string, MTarget>, order: seq<string>, present: map<string, int>)
    returns (index': map<string, MTarget>)
    requires Registered(order, index)
    ensures index'.Keys == index.Keys
    ensures forall n :: n in index ==> index'[n] == Marked(index[n], n, present)
  {
    index' := index;
    var rest := order;
    while rest != []
      invariant Elems(rest) <= index.Keys && index'.Keys == index.Keys
      invariant forall n :: n in index ==> index'[n] == Marked(index[n], n, present) || (n in rest && index'[n] == index[n])
    {
      var n := rest[0];
      assert n in Elems(rest);
      index' := index'[n := Marked(index[n], n, present)];
      rest := rest[1..];
    }
  }

  /** Filtering by the empty set keeps nothing: `lStocks` stays empty when
      no `stock` target is declared. */
  lemma {:induction false} FilterNone(s: seq<string>)
    ensures Filter(s, {}) == []
  {
    if s != [] {
      FilterNone(s[1..]);
    }
  }

  /** What the first classification loop makes of one target: a provider
      of `base` becomes its own base, and `check_timestamp` stamps a target
      whose file exists. */
  function Marked(t: MTarget, n: string, present: map<string, int>): (t': MTarget)
    ensures "base" in t.provided ==> t'.base == Some(n)
    ensures "base" !in t.provided ==> t'.base == t.base
    ensures t'.depends == t.depends && t'.provided == t.provided && t'.file == t.file
    ensures t'.name == t.name && t'.layers == t.layers && t'.params == t.params
    ensures (t.file.Some? && t.file.value != "" && n in present) ==> t'.timestamp == present[n] && t'.needed
    ensures !(t.file.Some? && t.file.value != "" && n in present) ==> t'.timestamp == t.timestamp && t'.needed == t.needed
  {
    Stamp(if "base" in t.provided then t.(base := Some(n)) else t, n, present)
  }

  lemma FilterSnoc(s: seq<string>, x: string, keep: set<string>)
    ensures Filter(s + [x], keep) == Filter(s, keep) + (if x in keep then [x] else [])
  {
    if s == [] {
      assert s + [x] == [x];
    } else {
      assert (s + [x])[1..] == s[1..] + [x];
      FilterSnoc(s[1..], x, keep);
    }
  }

  /** `[depend for depend in t._depends if depend in Target.lBases]`. */
  function BaseDepends(t: MTarget, bases: seq<string>): seq<string>
  {
    Filter(t.depends, Elems(bases))
  }

  /** The last classification loop of `Initialize`: a target with more than
      one base among its dependencies (counting repeats) stops the program;
      a target with exactly one takes it as its base. */
  method AssignBases(index: map<string, MTarget>, order: seq<string>, bases: seq<string>)
    returns (index': map<string, MTarget>, offender: Option<string>)
    requires Registered(order, index)
    ensures offender.Some? ==> offender.value in index && |BaseDepends(index[offender.value], bases)| > 1
    ensures offender.None? ==> forall n :: n in index ==> |BaseDepends(index[n], bases)| <= 1
    ensures offender.None? ==> index'.Keys == index.Keys
    ensures offender.None? ==> forall n :: n in index ==> index'[n] == Based(index[n], bases)
  {
    index' := index;
    var i := 0;
    while i < |order|
      invariant 0 <= i <= |order| && index'.Keys == index.Keys
      invariant forall n :: n in index ==> index'[n] == (if n in order[..i] then Based(index[n], bases) else index[n])
      invariant forall n :: n in order[..i] ==> |BaseDepends(index[n], bases)| <= 1
    {
      assert order[i] in Elems(order);
      var n := order[i];
      var l := BaseDepends(index'[n], bases);
      assert order[..i + 1] == order[..i] + [n];
      if n in order[..i] {
        assert index'[n] == Based(index[n], bases);
      }
      if |l| > 1 {
        return index', Some(n);
      }
      index' := index'[n := Based(index[n], bases)];
      i := i + 1;
    }
    assert order[..i] == order;
    forall n | n in index ensures |BaseDepends(index[n], bases)| <= 1 {
      assert n in Elems(order);
    }
    return index', None;
  }

  /** What the last classification loop makes of one target. */
  function Based(t: MTarget, bases: seq<string>): (t': MTarget)
    ensures |BaseDepends(t, bases)| == 1 ==> t'.base == Some(BaseDepends(t, bases)[0])
    ensures |BaseDepends(t, bases)| != 1 ==> t' == t
    ensures t'.depends == t.depends && t'.provided == t.provided && t'.file == t.file
  {
    var l := BaseDepends(t, bases);
    if |l| == 1 then t.(base := Some(l[0])) else t
  }

  /** Filtering keeps exactly the members of `s` that are in `keep`. */
  lemma {:induction false} FilterMembers(s: seq<string>, keep: set<string>)
    ensures Elems(Filter(s, keep)) == Elems(s) * keep
  {
    if s != [] {
      FilterMembers(s[1..], keep);
      var head := if s[0] in keep then [s[0]] else [];
      assert Filter(s, keep) == head + Filter(s[1..], keep);
      ElemsConcat(head, Filter(s[1..], keep));
      assert s == [s[0]] + s[1..];
      ElemsConcat([s[0]], s[1..]);
    }
  }

  /** Filtering a list without repeats gives a list without repeats. */
  lemma {:induction false} FilterDistinct(s: seq<string>, keep: set<string>)
    requires Distinct(s)
    ensures Distinct(Filter(s, keep))
  {
    if s != [] {
      assert Distinct(s[1..]);
      FilterDistinct(s[1..], keep);
      FilterMembers(s[1..], keep);
      if s[0] in keep {
        assert s[0] !in Elems(s[1..]);
        DistinctConcat([s[0]], Filter(s[1..], keep));
      }
    }
  }

  /** The bases that may be selected: those with a timestamp or requested. */
  function BaseCandidates(index: map<string, MTarget>, bases: seq<string>): seq<string>
  {
    Filter(bases, set n | n in index && (index[n].timestamp != 0 || index[n].needed))
  }

  /** What the classification half of `Initialize` in `jsonmake.py` (and
      the same code in the `Initialize` hook of `jsonmake-witcher3.py`)
      leaves behind: the classified targets, `Target.base` and `Target.stock`
      as preset, `lBases` and `lStocks`; or why it stopped. */
  datatype Classification =
    | Classified(index: map<string, MTarget>, base: Option<string>, stock: Option<string>, bases: seq<string>, stocks: seq<string>)
    | ClassifyHalted(halt: Halt)

  /** What the classification half of `Initialize` makes of the declared
      targets: a name that is not a target, no target named `base`, or a
      target depending on several bases stops it; otherwise `lBases` and
      `lStocks` list the targets providing `base` and (when it exists)
      `stock` in registration order, a single base or stock is preset, and
      every target is marked, stamped and given its base. */
  ghost predicate ClassifiedFrom(index: map<string, MTarget>, order: seq<string>, present: map<string, int>, r: Classification)
  {
    && (r.ClassifyHalted? && r.halt.UnknownName? <==> !Resolved(index))
    && (r.ClassifyHalted? && r.halt.UnknownName? ==> r.halt.name !in index)
    && (r == ClassifyHalted(MissingBase) <==> Resolved(index) && "base" !in index)
    && (r.ClassifyHalted? ==> r.halt.UnknownName? || r.halt.MissingBase? || r.halt.MultipleBases?)
    && (r.ClassifyHalted? && r.halt.MultipleBases? ==>
          && Resolved(index) && "base" in index && r.halt.target in index
          && |BaseDepends(index[r.halt.target], Providing(index, order, "base"))| > 1)
    && (r.Classified? ==>
          && Resolved(index) && "base" in index
          && r.bases == Providing(index, order, "base")
          && r.stocks == (if "stock" in index then Providing(index, order, "stock") else [])
          && r.base == (if |r.bases| == 1 then Some(r.bases[0]) else None)
          && r.stock == (if |r.stocks| == 1 then Some(r.stocks[0]) else None)
          && r.index.Keys == index.Keys
          && (forall n :: n in index ==> |BaseDepends(index[n], r.bases)| <= 1)
          && (forall n :: n in index ==> r.index[n] == Based(Marked(index[n], n, present), r.bases)))
  }

  /** The classification half of `Initialize`: names are resolved, the
      target named `base` is looked up, bases and stocks are listed and
      every timestamp checked, a single base or stock is preset, and each
      target depending on exactly one base takes it as its base, while one
      depending on several stops the program. */
  method Classify(index: map<string, MTarget>, order: seq<string>, present: map<string, int>) returns (r: Classification)
    requires Registered(order, index)
    ensures ClassifiedFrom(index, order, present, r)
  {
    var unknown := FinalizeInit(index, order);
    if unknown.Some? {
      return ClassifyHalted(UnknownName(unknown.value));
    }
    if "base" !in index {
      return ClassifyHalted(MissingBase);
    }
    var marked, bases, stocks := MarkBases(index, order, present);
    var base := if |bases| == 1 then Some(bases[0]) else None;
    var stock := if |stocks| == 1 then Some(stocks[0]) else None;
    assert Registered(order, marked);
    var based, offender := AssignBases(marked, order, bases);
    if offender.Some? {
      assert BaseDepends(marked[offender.value], bases) == BaseDepends(index[offender.value], bases);
      return ClassifyHalted(MultipleBases(offender.value));
    }
    forall n | n in index
      ensures |BaseDepends(index[n], bases)| <= 1 && based[n] == Based(Marked(index[n], n, present), bases)
    {
      assert BaseDepends(marked[n], bases) == BaseDepends(index[n], bases);
    }
    r := Classified(based, base, stock, bases, stocks);
  }

  /** `for t in lTargets: t.needed = True`: the requested targets become
      needed and nothing else changes. */
  function Needed(index: map<string, MTarget>, targets: seq<string>): (index': map<string, MTarget>)
    ensures index'.Keys == index.Keys
    ensures forall n :: n in index ==> index'[n] == (if n in targets then index[n].(needed := true) else index[n])
  {
    map n | n in index :: if n in targets then index[n].(needed := true) else index[n]
  }

  /** After classification, `lBases` lists exactly the targets providing
      `base`, each once, and every base that depends on no base is its own
      base. */
  lemma ClassifiedBases(index: map<string, MTarget>, order: seq<string>, present: map<string, int>, r: Classification)
    requires Registered(order, index) && Distinct(order)
    requires r.Classified? && r.bases == Providing(index, order, "base") && r.index.Keys == index.Keys
    requires forall n :: n in index ==> r.index[n] == Based(Marked(index[n], n, present), r.bases)
    ensures Distinct(r.bases)
    ensures forall n :: n in Elems(r.bases) <==> n in index && "base" in index[n].provided
    ensures forall n :: n in Elems(r.bases) && BaseDepends(index[n], r.bases) == [] ==> r.index[n].base == Some(n)
  {
    FilterMembers(order, ProvidersOf(index, "base"));
    FilterDistinct(order, ProvidersOf(index, "base"));
    forall n | n in Elems(r.bases) && BaseDepends(index[n], r.bases) == []
      ensures r.index[n].base == Some(n)
    {
      assert BaseDepends(Marked(index[n], n, present), r.bases) == [];
    }
  }
}
