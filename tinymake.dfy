/** `tinymake.py`: the recursive-priority engine with pre-created targets
    and plugin hooks. `Initialize` creates `base` and a `stock` providing
    it before the build file's entries, so every build has exactly one
    stock, chosen at initialization; the base is chosen when the queue is
    built, by the plugin's `PluginChooseBase` when a plugin is loaded and
    otherwise as the target named `base`. The loaded plugin, when there is
    one, is `tinymake-witcher3.py`, whose `PluginBuildQueue` places the
    stock; `plugin` says whether it is loaded. */
module Tinymake {
  import opened Util
  import opened MakeEngine
  import opened MakeQueue
  import opened TinymakeWitcher3

  /** `Target('stock', {'_provides': [base], 'provides': ['base']})`. */
  function StockTarget(): (t: MTarget)
    ensures t.name == "stock" && t.provided == ["base"] && t.depends == [] && t.file.None?
  {
    Blank("stock").(provided := ["base"])
  }

  /** No entry of the build file is named `name`, so the target created
      under that name before the entries is still the one indexed. */
  predicate Kept(entries: seq<MTarget>, name: string)
  {
    forall k :: 0 <= k < |entries| ==> entries[k].name != name
  }

  /** `[t.check_timestamp() for t in Target.lTargets]`. */
  method StampAll(index: map<string, MTarget>, order: seq<string>, present: map<string, int>)
    returns (index': map<string, MTarget>)
    requires Registered(order, index)
    ensures index'.Keys == index.Keys
    ensures forall n :: n in index ==> index'[n] == Stamp(index[n], n, present)
  {
    index' := index;
    var rest := order;
    while rest != []
      invariant Elems(rest) <= index.Keys && index'.Keys == index.Keys
      invariant forall n :: n in index ==> index'[n] == Stamp(index[n], n, present) || (n in rest && index'[n] == index[n])
    {
      var n := rest[0];
      assert n in Elems(rest);
      index' := index'[n := Stamp(index[n], n, present)];
      rest := rest[1..];
    }
  }

  /** `lBases`: the targets providing the pre-created `base`, none once an
      entry has replaced it. */
  function Bases(index: map<string, MTarget>, order: seq<string>, baseKept: bool): seq<string>
  {
    if baseKept then Providing(index, order, "base") else []
  }

  /** `lStocks`: the targets providing the pre-created `stock`, none once an
      entry has replaced it. */
  function Stocks(index: map<string, MTarget>, order: seq<string>, stockKept: bool): seq<string>
  {
    if stockKept then Providing(index, order, "stock") else []
  }

  /** What the classification part of `Initialize` makes of one target: a
      target providing the pre-created `base` is its own base, and its
      timestamp is checked. */
  function Classed(t: MTarget, n: string, present: map<string, int>, baseKept: bool): MTarget
  {
    if baseKept then Marked(t, n, present) else Stamp(t, n, present)
  }

  /** What the classification part of `Initialize` establishes: a name that
      is no target raises; otherwise more than one stock or none stops the
      program, and then a target depending on several bases; otherwise the
      single stock is `Target.stock`, no base is selected, and every target
      depending on exactly one base takes it as its base. */
  ghost predicate ClassifiedFrom(index: map<string, MTarget>, order: seq<string>, present: map<string, int>,
                                 baseKept: bool, stockKept: bool, r: Classification)
  {
    var bases := Bases(index, order, baseKept);
    var stocks := Stocks(index, order, stockKept);
    && (r.ClassifyHalted? && r.halt.UnknownName? <==> !Resolved(index))
    && (r.ClassifyHalted? && r.halt.UnknownName? ==> r.halt.name !in index)
    && (r == ClassifyHalted(TooManyStocks) <==> Resolved(index) && |stocks| > 1)
    && (r == ClassifyHalted(NoStock) <==> Resolved(index) && stocks == [])
    && (r.ClassifyHalted? ==> r.halt.UnknownName? || r.halt.TooManyStocks? || r.halt.NoStock? || r.halt.MultipleBases?)
    && (r.ClassifyHalted? && r.halt.MultipleBases? ==>
          && Resolved(index) && |stocks| == 1 && r.halt.target in index
          && |BaseDepends(index[r.halt.target], bases)| > 1)
    && (r.Classified? ==>
          && Resolved(index) && r.bases == bases && r.stocks == stocks
          && |stocks| == 1 && r.stock == Some(stocks[0]) && r.base.None?
          && r.index.Keys == index.Keys
          && (forall n :: n in index ==> |BaseDepends(index[n], bases)| <= 1)
          && (forall n :: n in index ==> r.index[n] == Based(Classed(index[n], n, present, baseKept), bases)))
  }

  /** The classification part of `Initialize`: `finalizeInit` on every
      target, then bases and stocks are listed, the stock count checked, the
      timestamps checked and the bases assigned. */
  method Classify(index: map<string, MTarget>, order: seq<string>, present: map<string, int>, baseKept: bool, stockKept: bool)
    returns (r: Classification)
    requires Registered(order, index) && "stock" in index
    ensures ClassifiedFrom(index, order, present, baseKept, stockKept, r)
  {
    var unknown := FinalizeInit(index, order);
    if unknown.Some? {
      return ClassifyHalted(UnknownName(unknown.value));
    }
    var marked, bases, stocks;
    if baseKept {
      marked, bases, stocks := MarkBases(index, order, present);
    } else {
      marked := StampAll(index, order, present);
      bases, stocks := [], Providing(index, order, "stock");
    }
    if !stockKept {
      stocks := [];
    }
    if |stocks| > 1 {
      return ClassifyHalted(TooManyStocks);
    } else if stocks == [] {
      return ClassifyHalted(NoStock);
    }
    assert Registered(order, marked);
    var based, offender := AssignBases(marked, order, bases);
    if offender.Some? {
      assert BaseDepends(marked[offender.value], bases) == BaseDepends(index[offender.value], bases);
      return ClassifyHalted(MultipleBases(offender.value));
    }
    forall n | n in index
      ensures |BaseDepends(index[n], bases)| <= 1 && based[n] == Based(Classed(index[n], n, present, baseKept), bases)
    {
      assert BaseDepends(marked[n], bases) == BaseDepends(index[n], bases);
    }
    r := Classified(based, None, Some(stocks[0]), bases, stocks);
  }

  /** The state `Initialize` leaves for `Enqueue`. */
  ghost predicate Initialized(index: map<string, MTarget>, order: seq<string>, stock: Option<string>,
                              bases: seq<string>, stocks: seq<string>)
  {
    && Registered(order, index) && Resolved(index)
    && "base" in index
    && Elems(bases) <= index.Keys && Elems(stocks) <= index.Keys
    && (stock.Some? ==> stock.value in index)
  }

  /** A successful classification leaves the state `Enqueue` starts from. */
  lemma ClassifiedInitialized(index: map<string, MTarget>, order: seq<string>, present: map<string, int>,
                              baseKept: bool, stockKept: bool, c: Classification)
    requires Registered(order, index) && "base" in index
    requires ClassifiedFrom(index, order, present, baseKept, stockKept, c) && c.Classified?
    ensures Initialized(c.index, order, c.stock, c.bases, c.stocks)
  {
    FilterMembers(order, ProvidersOf(index, "base"));
    FilterMembers(order, ProvidersOf(index, "stock"));
    assert c.stocks[0] in Elems(c.stocks);
    forall n | n in c.index
      ensures Elems(c.index[n].depends) <= c.index.Keys && Elems(c.index[n].provided) <= c.index.Keys
    {
      assert c.index[n].depends == index[n].depends && c.index[n].provided == index[n].provided;
    }
  }

  /** `base = Target('base', {})` and `stock = Target('stock', ...)`, leaving
      out each one that an entry of the build file replaces. */
  method Precreate(reg: Registry, baseKept: bool, stockKept: bool)
    requires reg.order == [] && reg.index == map[]
    modifies reg`order, reg`index
    ensures Registered(reg.order, reg.index)
    ensures reg.order == (if baseKept then ["base"] else []) + (if stockKept then ["stock"] else [])
    ensures baseKept ==> "base" in reg.index && reg.index["base"] == Blank("base")
    ensures stockKept ==> "stock" in reg.index && reg.index["stock"] == StockTarget()
  {
    if baseKept {
      reg.Declare(Blank("base"));
    }
    if stockKept {
      reg.Declare(StockTarget());
    }
  }

  /** `Initialize` after the build file is read, on the empty class
      attributes: `base`, then `stock` providing it, then the entries are
      declared, and the targets are classified; on success the class
      attributes hold the classified targets, the bases and stocks and the
      stock, and on a stop they are left as declared. A pre-created target
      that an entry of the same name replaces is not listed: it then has no
      file, capability or dependency, and no name reaches it. `present`
      gives the timestamps `check_timestamp` reads. */
  method Initialize(reg: Registry, entries: seq<MTarget>, present: map<string, int>)
    returns (c: Classification, ghost declared: map<string, MTarget>)
    requires reg.order == [] && reg.index == map[]
    requires forall j, k :: 0 <= j < k < |entries| ==> entries[j].name != entries[k].name
    modifies reg
    ensures forall k :: 0 <= k < |entries| ==> entries[k].name in declared && declared[entries[k].name] == entries[k]
    ensures Kept(entries, "base") ==> "base" in declared && declared["base"] == Blank("base")
    ensures Kept(entries, "stock") ==> "stock" in declared && declared["stock"] == StockTarget()
    ensures reg.order == (if Kept(entries, "base") then ["base"] else []) + (if Kept(entries, "stock") then ["stock"] else [])
                         + seq(|entries|, k requires 0 <= k < |entries| => entries[k].name)
    ensures Registered(reg.order, declared)
    ensures ClassifiedFrom(declared, reg.order, present, Kept(entries, "base"), Kept(entries, "stock"), c)
    ensures c.ClassifyHalted? ==> reg.index == declared
    ensures c.Classified? ==>
              && reg.index == c.index && reg.base.None? && reg.stock == c.stock
              && reg.bases == c.bases && reg.stocks == c.stocks
              && Initialized(reg.index, reg.order, reg.stock, reg.bases, reg.stocks)
  {
    var baseKept := forall k | 0 <= k < |entries| :: entries[k].name != "base";
    var stockKept := forall k | 0 <= k < |entries| :: entries[k].name != "stock";
    Precreate(reg, baseKept, stockKept);
    reg.DeclareAll(entries);
    declared := reg.index;
    if !baseKept {
      var k :| 0 <= k < |entries| && entries[k].name == "base";
    }
    if !stockKept {
      var k :| 0 <= k < |entries| && entries[k].name == "stock";
    }
    c := Classify(reg.index, reg.order, present, baseKept, stockKept);
    if c.Classified? {
      ClassifiedInitialized(declared, reg.order, present, baseKept, stockKept, c);
      reg.Set(c.index, c.base, c.stock, c.bases, c.stocks);
    }
  }

  /** The base `BuildQueue` selects: the plugin's choice, or without a
      plugin the selected base, `index['base']` when there is none. */
  function Selected(index: map<string, MTarget>, bases: seq<string>, base: Option<string>, plugin: bool): string
  {
    if plugin then
      (var candidates := BaseCandidates(index, bases); if candidates != [] then candidates[0] else "base")
    else if base.Some? then base.value
    else "base"
  }

  /** With the plugin, `PluginChooseBase` fails and the program stops. */
  predicate NoBaseChosen(index: map<string, MTarget>, bases: seq<string>, base: Option<string>, plugin: bool)
  {
    plugin && !(base.None? && |BaseCandidates(index, bases)| == 1)
  }

  /** `BuildQueue`: the base is selected, the walk records the depth map,
      which is flattened deepest first; an empty map gives the empty queue,
      and otherwise the plugin, when loaded, places the stock. On a graph
      with no cycle and no walk as deep as `fuel`, the walk stops only at
      an older dependency of a target with no timestamp. */
  method BuildQueue(index: map<string, MTarget>, dpp: map<string, set<string>>, base: Option<string>, stock: Option<string>,
                    bases: seq<string>, stocks: seq<string>, targets: seq<string>, fuel: nat, plugin: bool)
    returns (selected: string, dm: map<string, nat>, q: seq<string>, stock': Option<string>, r: Step)
    requires Resolved(index) && "base" in index && (forall c :: c in dpp ==> dpp[c] <= index.Keys)
    requires Elems(targets) <= index.Keys && Elems(bases) <= index.Keys && Elems(stocks) <= index.Keys
    requires base.Some? ==> base.value in index
    requires stock.Some? ==> stock.value in index
    ensures r == Stopped(NoValidBase) <==> NoBaseChosen(index, bases, base, plugin)
    ensures r.Stopped? && !r.halt.NoValidBase? ==> WalkHalt(r.halt)
    ensures !NoBaseChosen(index, bases, base, plugin) ==>
              var g := Env(index, dpp, selected, bases, stocks);
              && selected == Selected(index, bases, base, plugin) && EnvOk(g)
              && Within(g, dm) && (forall k :: k in dm ==> k in RecordableSet(g) && dm[k] < fuel)
              && StockFrom(g, stock, stock') && (stock'.Some? ==> stock'.value in index)
              && (r.Done? ==> Ordered(g, RecordableSet(g), dm))
              && (r.Done? ==> forall k :: k in targets && k in RecordableSet(g) ==> k in dm)
              && (Acyclic(g, targets, fuel) ==> r.Done? || r.halt.OlderDependency?)
    ensures r.Done? && dm == map[] ==> q == []
    ensures r.Done? && dm != map[] && !plugin ==> Flattened(dm, q)
    ensures r.Done? && dm != map[] && plugin ==> Scheduled(index, dm, stock', q)
  {
    q, stock', dm := [], stock, map[];
    if plugin {
      var ok, chosen := PluginChooseBase(index, bases, base);
      if !ok {
        return "base", dm, q, stock', Stopped(NoValidBase);
      }
      selected := chosen.value;
    } else {
      selected := if base.None? then "base" else base.value;
    }
    var g := Env(index, dpp, selected, bases, stocks);
    var flat;
    dm, flat, stock', r := Walk(g, targets, stock, fuel);
    if r.Done? && dm != map[] {
      if plugin {
        q := PluginBuildQueue(index, flat, stock').1;
        PlaceScheduled(index, dm, flat, stock');
      } else {
        q := flat;
      }
    }
  }

  /** What `Enqueue` establishes: with the plugin and no single candidate
      base (or a base already selected) the program stops; otherwise the
      walk stops it or the queue is built on the selected base from `dPP`,
      a flattened depth map (the stock placed when the plugin is loaded),
      and the ambiguous list is the queued targets with no file. */
  ghost predicate EnqueuedFrom(index: map<string, MTarget>, base: Option<string>, stock: Option<string>,
                               bases: seq<string>, stocks: seq<string>, targets: seq<string>, fuel: nat,
                               plugin: bool, r: Enqueued)
  {
    var needed := Needed(index, targets);
    var selected := Selected(needed, bases, base, plugin);
    && !r.Declined?
    && (r == EnqueueHalted(NoValidBase) <==> NoBaseChosen(needed, bases, base, plugin))
    && (r.EnqueueHalted? && !r.halt.NoValidBase? ==> WalkHalt(r.halt))
    && (r.Enqueued? ==>
          var g := Env(needed, r.dpp, selected, bases, stocks);
          && r.index == needed && r.base == selected
          && StockFrom(g, stock, r.stock) && (r.stock.Some? ==> r.stock.value in needed)
          && DirectProvidersOf(needed, r.dpp) && EnvOk(g)
          && Ordered(g, RecordableSet(g), r.depths)
          && (forall k :: k in r.depths ==> k in RecordableSet(g) && r.depths[k] < fuel)
          && (forall k :: k in targets && k in RecordableSet(g) ==> k in r.depths)
          && (r.depths == map[] ==> r.queue == [])
          && (r.depths != map[] && !plugin ==> Flattened(r.depths, r.queue))
          && (r.depths != map[] && plugin ==> Scheduled(needed, r.depths, r.stock, r.queue))
          && r.ambiguous == Unfiled(needed, r.queue))
  }

  /** `Enqueue`: the requested targets become needed, `dPP` is built,
      `BuildQueue` runs, and the ambiguous targets are the queued ones with
      no file. It never declines. */
  method Enqueue(index: map<string, MTarget>, order: seq<string>, base: Option<string>, stock: Option<string>,
                 bases: seq<string>, stocks: seq<string>, targets: seq<string>, fuel: nat, plugin: bool)
    returns (r: Enqueued)
    requires Initialized(index, order, stock, bases, stocks)
    requires base.Some? ==> base.value in index
    requires Elems(targets) <= index.Keys
    ensures EnqueuedFrom(index, base, stock, bases, stocks, targets, fuel, plugin, r)
  {
    var needed := Needed(index, targets);
    var dpp := DirectProviders(needed, order);
    var selected, dm, q, stock', step := BuildQueue(needed, dpp, base, stock, bases, stocks, targets, fuel, plugin);
    if step.Stopped? {
      return EnqueueHalted(step.halt);
    }
    r := Enqueued(needed, selected, stock', dpp, dm, q, Unfiled(needed, q));
  }

  /** A successful `Enqueue` queues only targets it knows. */
  lemma EnqueuedKnown(index: map<string, MTarget>, base: Option<string>, stock: Option<string>,
                      bases: seq<string>, stocks: seq<string>, targets: seq<string>, fuel: nat, plugin: bool, r: Enqueued)
    requires EnqueuedFrom(index, base, stock, bases, stocks, targets, fuel, plugin, r) && r.Enqueued?
    ensures Elems(r.queue) <= r.index.Keys
  {
    if r.depths != map[] && plugin {
      assert Scheduled(r.index, r.depths, r.stock, r.queue);
    }
  }

  /** `BuildQueueCLI`: with no arguments, failure and `No targets given.`;
      otherwise the arguments that name targets (the others are dropped) are
      enqueued, and the report fails exactly when some queued target is
      ambiguous. */
  method BuildQueueCLI(index: map<string, MTarget>, order: seq<string>, base: Option<string>, stock: Option<string>,
                       bases: seq<string>, stocks: seq<string>, args: seq<string>, fuel: nat, plugin: bool)
    returns (ok: bool, lines: seq<Line>, r: Option<Enqueued>)
    requires Initialized(index, order, stock, bases, stocks)
    requires base.Some? ==> base.value in index
    ensures args == [] <==> r.None?
    ensures args == [] ==> !ok && lines == [NoTargetsGiven]
    ensures r.Some? ==> EnqueuedFrom(index, base, stock, bases, stocks, KnownNames(args, index.Keys), fuel, plugin, r.value)
    ensures r.Some? && r.value.EnqueueHalted? ==> !ok && lines == []
    ensures r.Some? && r.value.Enqueued? ==>
              && (ok <==> r.value.ambiguous == [])
              && lines != []
              && lines[0] == (if ok then SuccessAs(r.value.base) else AmbiguousFor(r.value.base))
              && |lines| == 1 + (if ok then |r.value.queue| else |r.value.ambiguous|)
    ensures r.Some? && r.value.Enqueued? && !ok ==>
              forall k :: 0 <= k < |r.value.ambiguous| ==>
                var a := r.value.ambiguous[k];
                lines[k + 1] == PotentiallyProvidedBy(a, if a in r.value.dpp then r.value.dpp[a] else {})
    ensures r.Some? && r.value.Enqueued? && ok ==>
              forall k :: 0 <= k < |r.value.queue| ==>
                var n := r.value.queue[k];
                n in r.value.index && lines[k + 1] == Entry(n, r.value.index[n].file, GetLayers(r.value.index[n]))
  {
    if args == [] {
      return false, [NoTargetsGiven], None;
    }
    var targets := KnownNames(args, index.Keys);
    var e := Enqueue(index, order, base, stock, bases, stocks, targets, fuel, plugin);
    r := Some(e);
    if !e.Enqueued? {
      return false, [], r;
    }
    EnqueuedKnown(index, base, stock, bases, stocks, targets, fuel, plugin, e);
    ok, lines := Report(e.index, e.dpp, e.base, e.queue, e.ambiguous);
  }

  /** `BuildQueueCLI` on the class attributes: a completed `Enqueue` leaves
      the requested targets needed, the selected base and the stock the
      walk picked. */
  method Run(reg: Registry, args: seq<string>, fuel: nat, plugin: bool) returns (ok: bool, lines: seq<Line>, r: Option<Enqueued>)
    requires Initialized(reg.index, reg.order, reg.stock, reg.bases, reg.stocks)
    requires reg.base.Some? ==> reg.base.value in reg.index
    modifies reg`index, reg`base, reg`stock
    ensures args == [] <==> r.None?
    ensures r.Some? ==> EnqueuedFrom(old(reg.index), old(reg.base), old(reg.stock), reg.bases, reg.stocks,
                                     KnownNames(args, old(reg.index).Keys), fuel, plugin, r.value)
    ensures r.Some? && r.value.Enqueued? ==> (ok <==> r.value.ambiguous == [])
    ensures r.Some? && r.value.Enqueued? ==>
              reg.index == r.value.index && reg.base == Some(r.value.base) && reg.stock == r.value.stock
    ensures r.None? ==> !ok && lines == [NoTargetsGiven]
    ensures r.None? ==> reg.index == old(reg.index) && reg.base == old(reg.base) && reg.stock == old(reg.stock)
  {
    ok, lines, r := BuildQueueCLI(reg.index, reg.order, reg.base, reg.stock, reg.bases, reg.stocks, args, fuel, plugin);
    if r.Some? && r.value.Enqueued? {
      reg.index, reg.base, reg.stock := r.value.index, Some(r.value.base), r.value.stock;
    }
  }

  /** The keys of `lSaved` that `JSONOutput` writes for a target: those of
      the saved fields whose value is truthy. */
  function SavedKeys(t: MTarget): (keys: set<string>)
    ensures keys <= {"target", "layers", "depends", "provides", "clean", "bootstrap", "gitbuild", "merge_branches"}
    ensures "target" in keys <==> t.file.Some? && t.file.value != ""
    ensures "layers" in keys <==> t.layers != []
    ensures "depends" in keys <==> t.depends != []
    ensures "provides" in keys <==> t.provided != []
    ensures forall k :: k in {"clean", "bootstrap", "gitbuild", "merge_branches"} ==> (k in keys <==> k in t.params)
  {
    (if t.file.Some? && t.file.value != "" then {"target"} else {})
    + (if t.layers != [] then {"layers"} else {})
    + (if t.depends != [] then {"depends"} else {})
    + (if t.provided != [] then {"provides"} else {})
    + (t.params * {"clean", "bootstrap", "gitbuild", "merge_branches"})
  }

  /** The targets of `lTargets` that `JSONOutput` writes: all but the
      pre-created `base` and `stock`. */
  function Written(order: seq<string>): (r: seq<string>)
    ensures Elems(r) == Elems(order) - {"base", "stock"}
    ensures |r| <= |order|
  {
    FilterMembers(order, Elems(order) - {"base", "stock"});
    FilterLength(order, Elems(order) - {"base", "stock"});
    Filter(order, Elems(order) - {"base", "stock"})
  }

  lemma {:induction false} FilterLength(s: seq<string>, keep: set<string>)
    ensures |Filter(s, keep)| <= |s|
  {
    if s != [] {
      FilterLength(s[1..], keep);
    }
  }

  /** `JSONOutput`: an opening line, one line per target of `lTargets` other
      than `base` and `stock`, in order, with its saved truthy fields, a
      closing line. */
  method JSONOutput(reg: Registry) returns (lines: seq<JsonLine>)
    requires Registered(reg.order, reg.index)
    ensures |lines| == |Written(reg.order)| + 2
    ensures lines[0] == Open && lines[|lines| - 1] == Close
    ensures forall k :: 0 <= k < |Written(reg.order)| ==>
              var n := Written(reg.order)[k];
              n in reg.index && lines[k + 1] == Saved(n, SavedKeys(reg.index[n]))
  {
    lines := [Open];
    ghost var written := [];
    var i := 0;
    while i < |reg.order|
      invariant 0 <= i <= |reg.order| && |lines| == |written| + 1 && lines[0] == Open
      invariant written == Filter(reg.order[..i], Elems(reg.order) - {"base", "stock"})
      invariant forall k :: 0 <= k < |written| ==> written[k] in reg.index && lines[k + 1] == Saved(written[k], SavedKeys(reg.index[written[k]]))
    {
      var n := reg.order[i];
      assert reg.order[..i + 1] == reg.order[..i] + [n];
      FilterSnoc(reg.order[..i], n, Elems(reg.order) - {"base", "stock"});
      if n != "base" && n != "stock" {
        assert n in Elems(reg.order);
        lines := lines + [Saved(n, SavedKeys(reg.index[n]))];
        written := written + [n];
      }
      i := i + 1;
    }
    assert reg.order[..i] == reg.order;
    lines := lines + [Close];
  }
}
