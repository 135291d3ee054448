/** `jsonmake.py`: the recursive-priority engine driven by a JSON build file.
    `Initialize` classifies the declared targets, `Enqueue` marks the
    requested targets as needed, selects a base when none is preset, builds
    `dPP` and calls `BuildQueue`, which walks the graph, flattens the depth
    map and places the stock; `RunCommand` turns the result into a report. */
module Jsonmake {
  import opened Util
  import opened MakeEngine
  import opened MakeQueue

  /** The targets whose timestamp is below `t`. */
  ghost function Below(index: map<string, MTarget>, t: int): set<string>
  {
    set n | n in index && index[n].timestamp < t
  }

  /** `s` holds the capabilities of each of its targets. */
  ghost predicate ProvidesClosed(index: map<string, MTarget>, s: set<string>)
  {
    forall m :: m in s && m in index ==> Elems(index[m].provided) <= s
  }

  /** `index'` differs from `index` only in timestamps, which only rise, and
      each one that changed belongs to a target of `s` with no file and is
      now `t`. */
  ghost predicate Restamped(index: map<string, MTarget>, index': map<string, MTarget>, t: int, s: set<string>)
  {
    && index'.Keys == index.Keys
    && (forall m :: m in index ==> index'[m] == index[m].(timestamp := index'[m].timestamp))
    && (forall m :: m in index ==> index'[m].timestamp >= index[m].timestamp)
    && (forall m :: m in index && index'[m].timestamp != index[m].timestamp ==>
                     m in s && index[m].file.None? && index'[m].timestamp == t)
  }

  lemma RestampedTrans(a: map<string, MTarget>, b: map<string, MTarget>, c: map<string, MTarget>, t: int, s: set<string>)
    requires Restamped(a, b, t, s) && Restamped(b, c, t, s)
    ensures Restamped(a, c, t, s)
    ensures Below(c, t) <= Below(b, t) <= Below(a, t)
  {
  }

  lemma RestampedKeeps(a: map<string, MTarget>, b: map<string, MTarget>, t: int, s: set<string>)
    requires Restamped(a, b, t, s) && Resolved(a) && ProvidesClosed(a, s)
    ensures Resolved(b) && ProvidesClosed(b, s)
  {
    forall n | n in b
      ensures b[n].depends == a[n].depends && b[n].provided == a[n].provided
    {
    }
  }

  /** In `index'`, every target of `from` and every target whose timestamp
      changed since `index` has passed `t` on: each of its capabilities
      with no file is at `t` or newer. */
  ghost predicate PassedOn(index: map<string, MTarget>, index': map<string, MTarget>, from: set<string>, t: int)
  {
    forall m, p :: m in index && m in index' && (m in from || index'[m].timestamp != index[m].timestamp)
                   && p in index[m].provided && p in index && index[p].file.None?
                   ==> p in index' && index'[p].timestamp >= t
  }

  /** One capability `p` raised to `t` and the propagation from it: the
      targets raised before, `p` and those raised from it have all passed
      `t` on. */
  lemma PassedOnStep(index: map<string, MTarget>, a: map<string, MTarget>, mid: map<string, MTarget>, b: map<string, MTarget>,
                     p: string, t: int, s: set<string>)
    requires Restamped(index, a, t, s) && p in a && mid == a[p := a[p].(timestamp := t)]
    requires Restamped(mid, b, t, s)
    requires PassedOn(index, a, {}, t) && PassedOn(mid, b, {p}, t)
    ensures PassedOn(index, b, {}, t)
  {
    forall m, q | m in index && m in b && b[m].timestamp != index[m].timestamp
                  && q in index[m].provided && q in index && index[q].file.None?
      ensures q in b && b[q].timestamp >= t
    {
      assert mid[m].provided == index[m].provided && mid[q].file == index[q].file;
      if m != p && b[m].timestamp == mid[m].timestamp {
        assert a[m].timestamp != index[m].timestamp;
        assert a[q].timestamp >= t;
      }
    }
  }

  /** `PropagateTimestampsToAmbiguous`: a target with a timestamp passes it
      on to each of its capabilities that has no file and an older
      timestamp, and on from there; it stops on cyclic `provides` because
      every step raises one more target to the same timestamp. Only
      timestamps change, only upwards, and only those of file-less targets
      in any set `s` that holds the target's capabilities and is closed
      under `provides`, each to the timestamp of `n`; and afterwards `n`
      and every target raised have each of their capabilities with no
      file at that timestamp or newer. */
  method PropagateTimestamps(index: map<string, MTarget>, n: string, ghost s: set<string>)
    returns (index': map<string, MTarget>)
    requires Resolved(index) && n in index
    requires Elems(index[n].provided) <= s && ProvidesClosed(index, s)
    ensures Restamped(index, index', index[n].timestamp, s)
    ensures index[n].timestamp != 0 ==> PassedOn(index, index', {n}, index[n].timestamp)
    decreases |Below(index, index[n].timestamp)|, 1
  {
    var t := index[n].timestamp;
    index' := index;
    if t == 0 {
      return;
    }
    var ps := index[n].provided;
    var i := 0;
    while i < |ps|
      invariant 0 <= i <= |ps|
      invariant Restamped(index, index', t, s) && Below(index', t) <= Below(index, t)
      invariant PassedOn(index, index', {}, t)
      invariant forall j :: 0 <= j < i && index[ps[j]].file.None? ==> index'[ps[j]].timestamp >= t
    {
      assert ps[i] in Elems(ps);
      if Below(index', t) != Below(index, t) {
        ProperSubsetCard(Below(index', t), Below(index, t));
      }
      ghost var before := index';
      index' := PassOn(index, index', ps[i], t, s);
      CoveredStep(index, before, index', ps, i, t, s);
      i := i + 1;
    }
    PassedOnFrom(index, index', n, t);
  }

  /** The capabilities of `n` handled so far stay at `t` or newer when one
      more is handled. */
  lemma CoveredStep(index: map<string, MTarget>, cur: map<string, MTarget>, cur': map<string, MTarget>,
                    ps: seq<string>, i: nat, t: int, s: set<string>)
    requires i < |ps| && Elems(ps) <= index.Keys && Restamped(index, cur, t, s) && Restamped(cur, cur', t, s)
    requires forall j :: 0 <= j < i && index[ps[j]].file.None? ==> cur[ps[j]].timestamp >= t
    requires index[ps[i]].file.None? ==> cur'[ps[i]].timestamp >= t
    ensures forall j :: 0 <= j < i + 1 && index[ps[j]].file.None? ==> cur'[ps[j]].timestamp >= t
  {
    forall j | 0 <= j < i + 1 && index[ps[j]].file.None?
      ensures cur'[ps[j]].timestamp >= t
    {
      assert ps[j] in Elems(ps);
    }
  }

  /** One capability `p` in the loop of `PropagateTimestampsToAmbiguous`:
      when it has no file and a timestamp older than `t` it is raised to `t`
      and the timestamp is propagated from it. */
  method PassOn(index: map<string, MTarget>, cur: map<string, MTarget>, p: string, t: int, ghost s: set<string>)
    returns (cur': map<string, MTarget>)
    requires Resolved(index) && p in index && p in s && ProvidesClosed(index, s) && t != 0
    requires Restamped(index, cur, t, s) && Below(cur, t) <= Below(index, t) && PassedOn(index, cur, {}, t)
    decreases |Below(cur, t)|, 0
    ensures Restamped(index, cur', t, s) && Restamped(cur, cur', t, s) && Below(cur', t) <= Below(cur, t)
    ensures PassedOn(index, cur', {}, t)
    ensures index[p].file.None? ==> cur'[p].timestamp >= t
  {
    cur' := cur;
    RestampedKeeps(index, cur, t, s);
    if cur[p].file.None? && cur[p].timestamp < t {
      var mid := cur[p := cur[p].(timestamp := t)];
      assert Restamped(cur, mid, t, s);
      RestampedTrans(index, cur, mid, t, s);
      assert p in Below(cur, t) && p !in Below(mid, t);
      ProperSubsetCard(Below(mid, t), Below(cur, t));
      RestampedKeeps(index, mid, t, s);
      assert Elems(mid[p].provided) <= s;
      cur' := PropagateTimestamps(mid, p, s);
      RestampedTrans(index, mid, cur', t, s);
      RestampedTrans(cur, mid, cur', t, s);
      PassedOnStep(index, cur, mid, cur', p, t, s);
    }
  }

  /** Once the raised targets have passed `t` on and each capability of `n`
      with no file is at `t` or newer, `n` has passed `t` on too. */
  lemma PassedOnFrom(index: map<string, MTarget>, index': map<string, MTarget>, n: string, t: int)
    requires n in index && PassedOn(index, index', {}, t)
    requires forall j :: 0 <= j < |index[n].provided| && index[n].provided[j] in index && index[index[n].provided[j]].file.None?
               ==> index[n].provided[j] in index' && index'[index[n].provided[j]].timestamp >= t
    ensures PassedOn(index, index', {n}, t)
  {
    forall m, p | m in index && m in index' && (m in {n} || index'[m].timestamp != index[m].timestamp)
                  && p in index[m].provided && p in index && index[p].file.None?
      ensures p in index' && index'[p].timestamp >= t
    {
      if m == n && index'[m].timestamp == index[m].timestamp {
        var j :| 0 <= j < |index[n].provided| && index[n].provided[j] == p;
      }
    }
  }

  /** The walk, the flattening and the stock handling of `BuildQueue`: an
      empty depth map gives the empty queue before any stock check; more
      than one stock among the recorded targets stops the program, a single
      one becomes the stock, and a registered `stock` with none selected
      stops it too; then the stock is placed. On a graph with no cycle and
      no walk as deep as `fuel`, the walk stops only at an older dependency
      of a target with no timestamp. */
  method BuildQueue(g: Env, targets: seq<string>, stock: Option<string>, fuel: nat)
    returns (dm: map<string, nat>, q: seq<string>, stock': Option<string>, r: Step)
    requires EnvOk(g) && Elems(targets) <= g.index.Keys && Elems(g.stocks) <= g.index.Keys
    requires stock.Some? ==> stock.value in g.index
    ensures Within(g, dm) && forall k :: k in dm ==> k in RecordableSet(g) && dm[k] < fuel
    ensures StockFrom(g, stock, stock') && (stock'.Some? ==> stock'.value in g.index)
    ensures r.Done? ==> Ordered(g, RecordableSet(g), dm)
    ensures r.Done? ==> forall k :: k in targets && k in RecordableSet(g) ==> k in dm
    ensures r.Done? && dm == map[] ==> q == []
    ensures r.Done? && dm != map[] ==> Scheduled(g.index, dm, stock', q)
    ensures r.Done? && dm != map[] ==>
              && |dm.Keys * Elems(g.stocks)| <= 1
              && (|dm.Keys * Elems(g.stocks)| == 1 ==> stock'.Some? && stock'.value in dm.Keys * Elems(g.stocks))
              && ("stock" in g.index ==> stock'.Some?)
    ensures r == Stopped(TooManyStocks) ==> dm != map[] && |dm.Keys * Elems(g.stocks)| > 1
    ensures r == Stopped(NoStock) ==> dm != map[] && dm.Keys * Elems(g.stocks) == {} && stock'.None? && "stock" in g.index
    ensures r.Stopped? ==> WalkHalt(r.halt) || r.halt.TooManyStocks? || r.halt.NoStock?
    ensures Acyclic(g, targets, fuel) ==> r.Done? || r.halt.OlderDependency? || r.halt.TooManyStocks? || r.halt.NoStock?
  {
    var flat;
    dm, flat, stock', r := Walk(g, targets, stock, fuel);
    q := [];
    if r.Done? && dm != map[] {
      PickStockCases(g.index, g.stocks, flat, stock');
      var pick := PickStock(g.index, g.stocks, flat, stock');
      if pick.PickHalted? {
        r := Stopped(pick.halt);
      } else {
        stock' := pick.stock;
        q := Place(g.index, flat, stock');
        PlaceScheduled(g.index, dm, flat, stock');
      }
    }
  }

  /** What the part of `Enqueue` after base selection establishes: it stops
      only in the walk or at the stock check; otherwise `dPP` is built from
      the targets, the depth map is ordered and holds the recordable
      requested targets, the queue is scheduled from it (empty for an empty
      map), and the ambiguous list is the queued targets with no file. */
  ghost predicate QueuedOn(needed: map<string, MTarget>, selected: string, stock: Option<string>,
                           bases: seq<string>, stocks: seq<string>, targets: seq<string>, fuel: nat, r: Enqueued)
  {
    && !r.Declined?
    && (r.EnqueueHalted? ==> WalkHalt(r.halt) || r.halt.TooManyStocks? || r.halt.NoStock?)
    && (r.Enqueued? ==>
          && r.index == needed && r.base == selected
          && (r.stock == stock || (r.stock.Some? && r.stock.value in stocks))
          && (r.stock.Some? ==> r.stock.value in needed))
    && (r.Enqueued? ==>
          var g := Env(needed, r.dpp, selected, bases, stocks);
          && DirectProvidersOf(needed, r.dpp)
          && EnvOk(g)
          && Ordered(g, RecordableSet(g), r.depths)
          && (forall k :: k in r.depths ==> k in RecordableSet(g) && r.depths[k] < fuel)
          && (forall k :: k in targets && k in RecordableSet(g) ==> k in r.depths)
          && (r.depths == map[] ==> r.queue == [])
          && (r.depths != map[] ==> Scheduled(needed, r.depths, r.stock, r.queue))
          && (r.depths != map[] && "stock" in needed ==> r.stock.Some?)
          && r.ambiguous == Unfiled(needed, r.queue))
  }

  /** What `Enqueue` establishes: with no preset base, several candidate
      bases stop the program and none declines; otherwise the queue is
      built on the preset base or the single candidate. */
  ghost predicate EnqueuedFrom(index: map<string, MTarget>, base: Option<string>, stock: Option<string>,
                               bases: seq<string>, stocks: seq<string>, targets: seq<string>, fuel: nat, r: Enqueued)
  {
    var needed := Needed(index, targets);
    var candidates := BaseCandidates(needed, bases);
    if base.None? && |candidates| > 1 then r == EnqueueHalted(TooManyBases)
    else if base.None? && candidates == [] then r.Declined?
    else QueuedOn(needed, if base.Some? then base.value else candidates[0], stock, bases, stocks, targets, fuel, r)
  }

  /** The state `Initialize` leaves for `Enqueue`. */
  ghost predicate Initialized(index: map<string, MTarget>, order: seq<string>, base: Option<string>, stock: Option<string>,
                              bases: seq<string>, stocks: seq<string>)
  {
    && Registered(order, index) && Resolved(index)
    && Elems(bases) <= index.Keys && Elems(stocks) <= index.Keys
    && (base.Some? ==> base.value in index)
    && (stock.Some? ==> stock.value in index)
  }

  /** `Enqueue`: the requested targets become needed; with no preset base,
      more than one base that has a timestamp or is needed stops the
      program, none declines, and otherwise the first becomes the base;
      then `dPP` is built and `BuildQueue` runs, and the ambiguous targets
      are the queued ones with no file. */
  method Enqueue(index: map<string, MTarget>, order: seq<string>, base: Option<string>, stock: Option<string>,
                 bases: seq<string>, stocks: seq<string>, targets: seq<string>, fuel: nat)
    returns (r: Enqueued)
    requires Initialized(index, order, base, stock, bases, stocks)
    requires Elems(targets) <= index.Keys
    ensures EnqueuedFrom(index, base, stock, bases, stocks, targets, fuel, r)
  {
    var needed := Needed(index, targets);
    var selected: string;
    if base.None? {
      var candidates := BaseCandidates(needed, bases);
      if |candidates| > 1 {
        return EnqueueHalted(TooManyBases);
      } else if candidates == [] {
        return Declined;
      }
      FilterMembers(bases, set n | n in needed && (needed[n].timestamp != 0 || needed[n].needed));
      assert candidates[0] in Elems(candidates);
      selected := candidates[0];
    } else {
      selected := base.value;
    }
    r := QueueOn(needed, order, selected, stock, bases, stocks, targets, fuel);
  }

  /** The rest of `Enqueue` once the base is known. */
  method QueueOn(needed: map<string, MTarget>, order: seq<string>, selected: string, stock: Option<string>,
                 bases: seq<string>, stocks: seq<string>, targets: seq<string>, fuel: nat)
    returns (r: Enqueued)
    requires Initialized(needed, order, Some(selected), stock, bases, stocks)
    requires Elems(targets) <= needed.Keys
    ensures QueuedOn(needed, selected, stock, bases, stocks, targets, fuel, r)
  {
    var dpp := DirectProviders(needed, order);
    var g := Env(needed, dpp, selected, bases, stocks);
    var dm, q, stock', step := BuildQueue(g, targets, stock, fuel);
    if step.Stopped? {
      return EnqueueHalted(step.halt);
    }
    r := Enqueued(needed, selected, stock', dpp, dm, q, Unfiled(needed, q));
  }

  /** A successful `Enqueue` queues only targets it knows. */
  lemma EnqueuedKnown(index: map<string, MTarget>, base: Option<string>, stock: Option<string>,
                      bases: seq<string>, stocks: seq<string>, targets: seq<string>, fuel: nat, r: Enqueued)
    requires EnqueuedFrom(index, base, stock, bases, stocks, targets, fuel, r) && r.Enqueued?
    ensures Elems(r.queue) <= r.index.Keys
  {
    if r.depths != map[] {
      assert Scheduled(r.index, r.depths, r.stock, r.queue);
    }
  }

  /** `RunCommand`: with no arguments, failure and `No targets given.`;
      otherwise the arguments that name targets (the others are dropped)
      are enqueued; a declined or stopped `Enqueue` gives failure and no
      lines, and a successful one the report, which fails exactly when some
      queued target is ambiguous. */
  method RunCommand(index: map<string, MTarget>, order: seq<string>, base: Option<string>, stock: Option<string>,
                    bases: seq<string>, stocks: seq<string>, args: seq<string>, fuel: nat)
    returns (ok: bool, lines: seq<Line>, r: Option<Enqueued>)
    requires Initialized(index, order, base, stock, bases, stocks)
    ensures args == [] <==> r.None?
    ensures args == [] ==> !ok && lines == [NoTargetsGiven]
    ensures r.Some? ==> EnqueuedFrom(index, base, stock, bases, stocks, KnownNames(args, index.Keys), fuel, r.value)
    ensures r.Some? && !r.value.Enqueued? ==> !ok && lines == []
    ensures r.Some? && r.value.Enqueued? ==>
              && (ok <==> r.value.ambiguous == [])
              && lines != []
              && lines[0] == (if ok then SuccessAs(r.value.base) else AmbiguousFor(r.value.base))
              && |lines| == 1 + (if ok then |r.value.queue| else |r.value.ambiguous|)
    ensures r.Some? && r.value.Enqueued? && !ok ==>
              forall k :: 0 <= k < |r.value.ambiguous| ==>
                var a := r.value.ambiguous[k];
                lines[k + 1] == PotentiallyProvidedBy(a, if a in r.value.dpp then r.value.dpp[a] else {})
    ensures r.Some? && r.value.Enqueued? && ok ==>
              forall k :: 0 <= k < |r.value.queue| ==>
                var n := r.value.queue[k];
                n in r.value.index && lines[k + 1] == Entry(n, r.value.index[n].file, GetLayers(r.value.index[n]))
  {
    if args == [] {
      return false, [NoTargetsGiven], None;
    }
    var targets := KnownNames(args, index.Keys);
    var e := Enqueue(index, order, base, stock, bases, stocks, targets, fuel);
    r := Some(e);
    if !e.Enqueued? {
      return false, [], r;
    }
    EnqueuedKnown(index, base, stock, bases, stocks, targets, fuel, e);
    ok, lines := Report(e.index, e.dpp, e.base, e.queue, e.ambiguous);
  }

  /** A successful classification leaves the state `Enqueue` starts from. */
  lemma ClassifiedInitialized(index: map<string, MTarget>, order: seq<string>, present: map<string, int>, c: Classification)
    requires Registered(order, index) && ClassifiedFrom(index, order, present, c) && c.Classified?
    ensures Initialized(c.index, order, c.base, c.stock, c.bases, c.stocks)
  {
    FilterMembers(order, ProvidersOf(index, "base"));
    if "stock" in index {
      FilterMembers(order, ProvidersOf(index, "stock"));
    }
    if c.base.Some? {
      assert c.bases[0] in Elems(c.bases);
    }
    if c.stock.Some? {
      assert c.stocks[0] in Elems(c.stocks);
    }
    forall n | n in c.index
      ensures Elems(c.index[n].depends) <= c.index.Keys && Elems(c.index[n].provided) <= c.index.Keys
    {
      assert c.index[n].depends == index[n].depends && c.index[n].provided == index[n].provided;
    }
  }

  /** `Initialize` after the build file is read: the entries are declared in
      order after whatever is registered, then classified; on success the
      class attributes hold the classified targets, the bases and stocks and
      the preset base and stock, and on a stop they are left as declared.
      `present` gives the timestamps `check_timestamp` reads. */
  method Initialize(reg: Registry, entries: seq<MTarget>, present: map<string, int>)
    returns (c: Classification, ghost declared: map<string, MTarget>)
    requires Registered(reg.order, reg.index)
    requires forall j, k :: 0 <= j < k < |entries| ==> entries[j].name != entries[k].name
    modifies reg
    ensures reg.order == old(reg.order) + seq(|entries|, k requires 0 <= k < |entries| => entries[k].name)
    ensures forall k :: 0 <= k < |entries| ==> entries[k].name in declared && declared[entries[k].name] == entries[k]
    ensures forall n :: n in old(reg.index) && (forall k :: 0 <= k < |entries| ==> entries[k].name != n) ==>
                        n in declared && declared[n] == old(reg.index)[n]
    ensures Registered(reg.order, declared) && ClassifiedFrom(declared, reg.order, present, c)
    ensures c.ClassifyHalted? ==> reg.index == declared
    ensures c.Classified? ==>
              && reg.index == c.index && reg.base == c.base && reg.stock == c.stock
              && reg.bases == c.bases && reg.stocks == c.stocks
              && Initialized(reg.index, reg.order, reg.base, reg.stock, reg.bases, reg.stocks)
  {
    reg.DeclareAll(entries);
    declared := reg.index;
    c := Classify(reg.index, reg.order, present);
    if c.Classified? {
      ClassifiedInitialized(declared, reg.order, present, c);
      reg.Set(c.index, c.base, c.stock, c.bases, c.stocks);
    }
  }

  /** `RunCommand` on the class attributes: a successful `Enqueue` leaves the
      requested targets needed, the base it chose and the stock the queue
      picked; a declined one leaves the requested targets needed and the
      rest as it was. */
  method Run(reg: Registry, args: seq<string>, fuel: nat) returns (ok: bool, lines: seq<Line>, r: Option<Enqueued>)
    requires Initialized(reg.index, reg.order, reg.base, reg.stock, reg.bases, reg.stocks)
    modifies reg`index, reg`base, reg`stock
    ensures args == [] <==> r.None?
    ensures args == [] ==> !ok && lines == [NoTargetsGiven]
    ensures r.Some? ==> EnqueuedFrom(old(reg.index), old(reg.base), old(reg.stock), reg.bases, reg.stocks,
                                     KnownNames(args, old(reg.index).Keys), fuel, r.value)
    ensures r.Some? && !r.value.Enqueued? ==> !ok && lines == []
    ensures r.Some? && r.value.Enqueued? ==> (ok <==> r.value.ambiguous == [])
    ensures r.Some? && r.value.Enqueued? ==>
              reg.index == r.value.index && reg.base == Some(r.value.base) && reg.stock == r.value.stock
    ensures r.Some? && r.value.Declined? ==>
              reg.index == Needed(old(reg.index), KnownNames(args, old(reg.index).Keys))
              && reg.base == old(reg.base) && reg.stock == old(reg.stock)
    ensures r.None? ==> reg.index == old(reg.index) && reg.base == old(reg.base) && reg.stock == old(reg.stock)
  {
    ok, lines, r := RunCommand(reg.index, reg.order, reg.base, reg.stock, reg.bases, reg.stocks, args, fuel);
    if r.Some? && r.value.Enqueued? {
      reg.index, reg.base, reg.stock := r.value.index, Some(r.value.base), r.value.stock;
    } else if r.Some? {
      reg.index := Needed(reg.index, KnownNames(args, reg.index.Keys));
    }
  }

  /** The keys of `lSaved` that `JSONOutput` writes for a target: those of
      the saved fields whose value is truthy. The file of a target is its
      `mtime` here, so `target` is an ordinary key of the entry. */
  function SavedKeys(t: MTarget): (keys: set<string>)
    ensures keys <= {"target", "layers", "depends", "provides", "clean", "bootstrap", "gitbuild", "merge_branches"}
    ensures "layers" in keys <==> t.layers != []
    ensures "depends" in keys <==> t.depends != []
    ensures "provides" in keys <==> t.provided != []
    ensures forall k :: k in {"target", "clean", "bootstrap", "gitbuild", "merge_branches"} ==> (k in keys <==> k in t.params)
  {
    (if t.layers != [] then {"layers"} else {})
    + (if t.depends != [] then {"depends"} else {})
    + (if t.provided != [] then {"provides"} else {})
    + (t.params * {"target", "clean", "bootstrap", "gitbuild", "merge_branches"})
  }

  /** `JSONOutput`: an opening line, one line per target of `lTargets`, in
      order, with its saved truthy fields, a closing line. */
  method JSONOutput(reg: Registry) returns (lines: seq<JsonLine>)
    requires Registered(reg.order, reg.index)
    ensures |lines| == |reg.order| + 2
    ensures lines[0] == Open && lines[|lines| - 1] == Close
    ensures forall k :: 0 <= k < |reg.order| ==>
              reg.order[k] in reg.index && lines[k + 1] == Saved(reg.order[k], SavedKeys(reg.index[reg.order[k]]))
  {
    lines := [Open];
    var i := 0;
    while i < |reg.order|
      invariant 0 <= i <= |reg.order| && |lines| == i + 1 && lines[0] == Open
      invariant forall k :: 0 <= k < i ==>
                  reg.order[k] in reg.index && lines[k + 1] == Saved(reg.order[k], SavedKeys(reg.index[reg.order[k]]))
    {
      assert reg.order[i] in Elems(reg.order);
      lines := lines + [Saved(reg.order[i], SavedKeys(reg.index[reg.order[i]]))];
      i := i + 1;
    }
    lines := lines + [Close];
  }
}
