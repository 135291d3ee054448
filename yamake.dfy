/** The set-fixpoint engine `yamake.py`: a `Builder` holds the targets of a
    build file; `Initialize` checks them and computes the provider closure,
    `Enqueue` grows the set of targets to build from a request, choosing a
    concrete provider for each abstract dependency, and `BuildCLI` turns the
    outcome into a report. Which files exist is an input (`stamped`: the
    targets whose existence check succeeds); the timestamps themselves are
    never compared by this engine. */
module Yamake {
  import opened Util
  import opened YamakeTargets
  import opened YamakeFixpoint

  /** The stock check of `Enqueue`: among the possible stocks, those that
      exist or are requested. Its last branch, for no possible stock at all,
      cannot be reached (a single selected stock is a possible one), and the
      stock it picks when exactly one is possible is a local that is never
      used. */
  function StockCheck(stocks: set<string>, stamped: set<string>, request: set<string>): (r: Option<Fault>)
    ensures r == Some(TooManyStocks) <==> |set t | t in stocks && (t in stamped || t in request)| > 1
    ensures r == Some(NoStock) <==> (set t | t in stocks && (t in stamped || t in request)) == {} && |stocks| != 1
    ensures r.None? <==> |set t | t in stocks && (t in stamped || t in request)| == 1
                         || ((set t | t in stocks && (t in stamped || t in request)) == {} && |stocks| == 1)
  {
    var inUse := set t | t in stocks && (t in stamped || t in request);
    if |inUse| > 1 then Some(TooManyStocks)
    else if |inUse| == 0 && |stocks| != 1 then Some(NoStock)
    else None
  }

  /** The decision of the base selection when no base is set yet. */
  datatype BaseChoice =
    | Take(base: string)   // the single existing or requested base
    | Keep                 // several candidates, one of them installed: no base is set
    | Refuse               // `return False, None, None`
    | Unindexable          // `self.lBases[0]` on a set raises TypeError

  /** The base selection of `Enqueue`: the bases that exist or are in the
      target set. Several are accepted, leaving the base unset, only when
      exactly one of them exists; none is accepted only when there is a single
      base at all, and then the code indexes a set, which raises. */
  function ChooseBase(bases: set<string>, stamped: set<string>, targetSet: set<string>): (r: BaseChoice)
    ensures r.Take? <==> |set t | t in bases && (t in stamped || t in targetSet)| == 1
    ensures r.Take? ==> r.base in bases && (set t | t in bases && (t in stamped || t in targetSet)) == {r.base}
    ensures r.Keep? <==> |set t | t in bases && (t in stamped || t in targetSet)| > 1
                         && |set t | t in bases && t in stamped| == 1
    ensures r.Unindexable? <==> (set t | t in bases && (t in stamped || t in targetSet)) == {} && |bases| == 1
  {
    var candidates := set t | t in bases && (t in stamped || t in targetSet);
    if |candidates| > 1 then
      var existing := set t | t in bases && t in stamped;
      if existing == {} then Refuse
      else if |existing| == 1 then Keep
      else Refuse
    else if |candidates| == 0 then
      if |bases| == 1 then Unindexable else Refuse
    else
      var b :| b in candidates;
      SingletonIs(candidates, b);
      Take(b)
  }

  /** The base `Enqueue` works with: the one already set, otherwise the
      outcome of the selection. */
  datatype Selection = Selected(base: Option<string>) | Fails(outcome: Outcome)

  function SelectBase(bases: set<string>, stamped: set<string>, targetSet: set<string>, current: Option<string>)
    : (r: Selection)
    ensures current.Some? ==> r == Selected(current)
    ensures current.None? && r.Selected? && r.base.Some? ==> r.base.value in bases
    ensures r.Fails? ==> r.outcome == Declined || r.outcome == Raised(UnindexableBases)
  {
    if current.Some? then Selected(current)
    else
      match ChooseBase(bases, stamped, targetSet)
      case Take(b) => Selected(Some(b))
      case Keep => Selected(None)
      case Refuse => Fails(Declined)
      case Unindexable => Fails(Raised(UnindexableBases))
  }

  /** `baseFamily` when it is not set yet: the family of the base, or the
      base itself when it has none (None when there is no base). */
  function FamilyFor(families: map<string, string>, base: Option<string>): (r: Option<string>)
    ensures base.Some? && base.value in families ==> r == Some(families[base.value])
    ensures base.None? ==> r.None?
  {
    if base.Some? && base.value in families then Some(families[base.value]) else base
  }

  /** Where `Enqueue` stands before its fixpoint: it has stopped with an
      outcome, or goes on with the request, the target set, the base and the
      base family. */
  datatype Decision =
    | Stop(outcome: Outcome)
    | Go(request: set<string>, targetSet: set<string>, base: Option<string>, family: Option<string>)

  /** The part of `Enqueue` before the fixpoint: the request or the default,
      the target set with the dependencies of `any`, the stock check, the base
      selection when `base` is unset and the family when `baseFamily` is
      unset. */
  function Decide(index: map<string, YTarget>, bases: set<string>, stocks: set<string>,
                  families: map<string, string>, base: Option<string>, baseFamily: Option<string>,
                  requested: seq<string>, stamped: set<string>): (d: Decision)
    ensures d.Stop? ==> d.outcome.Raised? || d.outcome.Declined?
    ensures d.Go? ==> Request(index, requested) == Some(d.request) && d.targetSet == TargetSet(index, d.request)
    ensures d.Go? && base.Some? ==> d.base == base
    ensures d.Go? && base.None? && d.base.Some? ==> d.base.value in bases
    ensures d.Go? && baseFamily.Some? ==> d.family == baseFamily
  {
    var request := Request(index, requested);
    if request.None? then Stop(Raised(NoTargets))
    else
      var stockFault := StockCheck(stocks, stamped, request.value);
      if stockFault.Some? then Stop(Raised(stockFault.value))
      else
        var targetSet := TargetSet(index, request.value);
        match SelectBase(bases, stamped, targetSet, base)
        case Fails(o) => Stop(o)
        case Selected(b) => Go(request.value, targetSet, b, if baseFamily.None? then FamilyFor(families, b) else baseFamily)
  }

  /** The ways `Enqueue` stops before its fixpoint, each exactly when its
      condition holds: no request and no default; too many or no stock; a
      base selection that declines or that indexes a set. */
  lemma DecideStops(index: map<string, YTarget>, bases: set<string>, stocks: set<string>,
                    families: map<string, string>, base: Option<string>, baseFamily: Option<string>,
                    requested: seq<string>, stamped: set<string>)
    ensures var d := Decide(index, bases, stocks, families, base, baseFamily, requested, stamped);
            var request := Request(index, requested);
            && (d == Stop(Raised(NoTargets)) <==> request.None?)
            && (d == Stop(Raised(TooManyStocks)) || d == Stop(Raised(NoStock)) <==>
                  request.Some? && StockCheck(stocks, stamped, request.value).Some?)
            && (d == Stop(Declined) <==>
                  && request.Some? && StockCheck(stocks, stamped, request.value).None? && base.None?
                  && ChooseBase(bases, stamped, TargetSet(index, request.value)).Refuse?)
            && (d == Stop(Raised(UnindexableBases)) <==>
                  && request.Some? && StockCheck(stocks, stamped, request.value).None? && base.None?
                  && ChooseBase(bases, stamped, TargetSet(index, request.value)).Unindexable?)
  {
  }

  /** When `Enqueue` goes on without a base, the base is the single candidate,
      or stays unset because one of several candidates exists; an unset family
      becomes the family of the base, or the base itself. */
  lemma DecideBase(index: map<string, YTarget>, bases: set<string>, stocks: set<string>,
                   families: map<string, string>, base: Option<string>, baseFamily: Option<string>,
                   requested: seq<string>, stamped: set<string>)
    requires families.Keys == bases && (base.Some? ==> base.value in bases)
    ensures var d := Decide(index, bases, stocks, families, base, baseFamily, requested, stamped);
            d.Go? && base.None? ==>
              var choice := ChooseBase(bases, stamped, d.targetSet);
              || (choice.Take? && d.base == Some(choice.base))
              || (choice.Keep? && d.base.None?)
    ensures var d := Decide(index, bases, stocks, families, base, baseFamily, requested, stamped);
            d.Go? && baseFamily.None? ==>
              d.family == if d.base.Some? then Some(families[d.base.value]) else None
  {
  }

  /** `lBases` and `lStocks`: the target `root` and every target that lists it
      among its capabilities. */
  function ClassOf(index: map<string, YTarget>, root: string): (r: set<string>)
    ensures r <= index.Keys
    ensures root in index ==> root in r
    ensures forall n :: n in index && root in index[n].provided ==> n in r
    ensures forall n :: n in r ==> n == root || root in index[n].provided
  {
    set n | n in index && (n == root || root in index[n].provided)
  }

  /** The keys of `lSaved` that `JSONOutput` writes for a target: those of
      the saved fields whose value is truthy. */
  function SavedKeys(t: YTarget): (keys: set<string>)
    ensures keys <= {"target", "layers", "depends", "provides", "clean", "build"}
    ensures "layers" in keys <==> t.layers != []
    ensures "depends" in keys <==> t.depends != {}
    ensures "provides" in keys <==> t.provided != {}
    ensures "clean" in keys <==> t.clean != []
    ensures forall k :: k in {"target", "build"} ==> (k in keys <==> k in t.params)
  {
    (if t.layers != [] then {"layers"} else {})
    + (if t.depends != {} then {"depends"} else {})
    + (if t.provided != {} then {"provides"} else {})
    + (if t.clean != [] then {"clean"} else {})
    + (t.params * {"target", "build"})
  }

  class Builder {
    /** `lTargets`, by name, in declaration order. */
    var order: seq<string>
    var index: map<string, YTarget>
    var base: Option<string>
    var baseFamily: Option<string>
    var bases: set<string>
    var stocks: set<string>
    /** `dBasesToFamilies`. */
    var families: map<string, string>
    /** The targets as declared, before `Initialize` assigns their bases. */
    ghost var declared: map<string, YTarget>

    constructor()
      ensures Listed(order, index)
      ensures order == [] && index == map[] && base.None? && baseFamily.None?
      ensures bases == {} && stocks == {} && families == map[]
    {
      order, index := [], map[];
      base, baseFamily := None, None;
      bases, stocks, families := {}, {}, map[];
      declared := map[];
    }

    /** `Target(name, builder, params)`: the target is indexed under its name,
      replacing an earlier one, and appended to `lTargets`. */
    method Declare(t: YTarget)
      requires Listed(order, index)
      modifies this
      ensures Listed(order, index)
      ensures index == old(index)[t.name := t] && order == old(order) + [t.name]
      ensures base == old(base) && baseFamily == old(baseFamily)
      ensures bases == old(bases) && stocks == old(stocks) && families == old(families)
    {
      ElemsConcat(order, [t.name]);
      index := index[t.name := t];
      order := order + [t.name];
    }

    /** `Initialize` after the build file is read: the four pre-created
      targets and the entries are declared, names are resolved, bases and
      stocks classified, the base families computed, every target checked and
      given its base, and the closure of the provider map returned. */
    method Initialize(entries: seq<YTarget>) returns (r: InitResult)
      requires Listed(order, index) && base.None?
      modifies this
      ensures Listed(order, index) && base.None?
      ensures Prepared(declared, r, index, bases, stocks, families)
      ensures r.Initialized? ==> Loaded(order, index)
    {
      Declare(Blank("base"));
      Declare(Blank("stock"));
      Declare(Blank("all"));
      Declare(Blank("clean_all"));
      var i := 0;
      while i < |entries|
        invariant 0 <= i <= |entries|
        invariant Listed(order, index) && base.None? && "base" in index && "stock" in index
        decreases |entries| - i
      {
        Declare(entries[i]);
        i := i + 1;
      }
      declared := index;
      var ix, bs, st, fm;
      r, ix, bs, st, fm := PostParse(index, order, bases, stocks, families);
      SetChecked(ix, bs, st, fm);
    }

    /** The assignment of the checked targets, `lBases`, `lStocks` and
      `dBasesToFamilies`. */
    method SetChecked(ix: map<string, YTarget>, bs: set<string>, st: set<string>, fm: map<string, string>)
      requires Listed(order, index) && ix.Keys == index.Keys
      modifies this`index, this`bases, this`stocks, this`families
      ensures index == ix && bases == bs && stocks == st && families == fm
      ensures unchanged(this`order, this`base, this`baseFamily, this`declared)
      ensures Listed(order, index)
    {
      index, bases, stocks, families := ix, bs, st, fm;
    }

    /** `Enqueue`: the request (or the default), the stock check, the base
      selection when no base is set and the base family (`Decide`), then the
      fixpoint; the base and its family are the only state it changes. */
    method Enqueue(requested: seq<string>, providers: map<string, set<string>>, stamped: set<string>)
      returns (r: Outcome, ghost rounds: nat)
      requires Loaded(order, index)
      requires Elems(requested) <= index.Keys && ValuesWithin(providers, index.Keys)
      modifies this`base, this`baseFamily
      ensures Loaded(order, index)
      ensures var d := Decide(index, bases, stocks, families, old(base), old(baseFamily), requested, stamped);
              && (d.Stop? ==> r == d.outcome && base == old(base) && baseFamily == old(baseFamily))
              && (d.Go? ==> base == d.base && baseFamily == d.family && Queues(index, d.request, r, rounds)
                            && Fixed(index, providers, d.request, FirstResolvable, r, rounds))
    {
      var d := Decide(index, bases, stocks, families, base, baseFamily, requested, stamped);
      if d.Stop? {
        return d.outcome, 0;
      }
      r, rounds := Fixpoint(index, providers, d.request, d.targetSet, FirstResolvable);
      base, baseFamily := d.base, d.family;
    }

    /** `BuildCLI`: the known names among the command-line arguments (none
      known means the default request), `Enqueue`, then the report. */
    method BuildCLI(args: seq<string>, providers: map<string, set<string>>, stamped: set<string>)
      returns (ok: bool, rep: Report, ghost outcome: Outcome, ghost rounds: nat)
      requires Loaded(order, index) && ValuesWithin(providers, index.Keys)
      modifies this`base, this`baseFamily
      ensures Loaded(order, index)
      ensures ok <==> rep.Built?
      ensures var d := Decide(index, bases, stocks, families, old(base), old(baseFamily),
                              KnownNames(args, index.Keys), stamped);
              && (d.Stop? ==> base == old(base) && baseFamily == old(baseFamily) && outcome == d.outcome)
              && (d.Go? ==> base == d.base && baseFamily == d.family && Queues(index, d.request, outcome, rounds)
                            && Fixed(index, providers, d.request, FirstResolvable, outcome, rounds))
      ensures Reports(index, providers, base, outcome, rep)
    {
      var requested := KnownNames(args, index.Keys);
      var r;
      r, rounds := Enqueue(requested, providers, stamped);
      outcome := r;
      ok, rep := MakeReport(index, providers, base, r);
    }

    /** `JSONOutput` on the targets `Initialize` leaves: the opening brace is
      printed first, then one entry per target of `lTargets` with its saved
      truthy fields and the closing brace; the first target with
      dependencies or capabilities makes `json.dumps` raise after the
      opening brace. */
    method JSONOutput() returns (lines: seq<JsonLine>, unencodable: Option<string>)
      requires Listed(order, index)
      ensures unencodable.None? <==> EncodableUpTo(index, order, |order|)
      ensures unencodable.Some? ==> lines == [Open]
      ensures unencodable.Some? ==>
                exists k :: 0 <= k < |order| && order[k] == unencodable.value && EncodableUpTo(index, order, k)
                            && order[k] in index && !Encodable(index[order[k]])
      ensures unencodable.None? ==> |lines| == |order| + 2 && lines[0] == Open && lines[|order| + 1] == Close
      ensures unencodable.None? ==>
                forall k :: 0 <= k < |order| ==> order[k] in index && lines[k + 1] == Entry(order[k], SavedKeys(index[order[k]]))
    {
      var entries: seq<JsonLine> := [];
      var i := 0;
      while i < |order|
        invariant 0 <= i <= |order| && |entries| == i
        invariant EncodableUpTo(index, order, i)
        invariant forall k :: 0 <= k < i ==> order[k] in index && entries[k] == Entry(order[k], SavedKeys(index[order[k]]))
      {
        assert order[i] in Elems(order);
        var t := index[order[i]];
        if !Encodable(t) {
          return [Open], Some(order[i]);
        }
        entries := entries + [Entry(order[i], SavedKeys(t))];
        i := i + 1;
      }
      lines := [Open] + entries + [Close];
      unencodable := None;
    }
  }

  /** Why an ambiguous dependency could not be resolved, as `BuildCLI`
      reports it: the names of its possible providers (which the code sorts
      and joins), or, with none, "No target, no possible providers" when it
      has neither an existence check nor actions, or nothing. */
  datatype Cause = ProvidedBy(names: set<string>) | NoProvider | Unexplained

  datatype AmbiguousRow = AmbiguousRow(name: string, cause: Cause)

  /** A line of a layer listing: the name, the `exists` path and `GetLayers`. */
  datatype LayerRow = LayerRow(name: string, path: string, layers: seq<string>)

  /** What `BuildCLI` produces. */
  datatype Report =
    | CliRaised(fault: Fault)      // an exception propagates
    | Refused                      // `return False, []`
    | Unresolved(base: string, ambiguous: seq<AmbiguousRow>, disambiguated: seq<LayerRow>)
    | Built(base: string, rows: seq<LayerRow>)

  function CauseOf(index: map<string, YTarget>, providers: map<string, set<string>>, t: string): (c: Cause)
    requires t in index
    ensures c.ProvidedBy? <==> t in providers && providers[t] != {}
    ensures c.ProvidedBy? ==> c.names == providers[t]
    ensures c == NoProvider <==> (t !in providers || providers[t] == {})
                                 && index[t].existsPath == "" && index[t].actions == []
  {
    if t in providers && providers[t] != {} then ProvidedBy(providers[t])
    else if index[t].existsPath == "" && index[t].actions == [] then NoProvider
    else Unexplained
  }

  /** `rows` lists each of `names` once, with its path and layers. */
  ghost predicate LayerRows(index: map<string, YTarget>, names: set<string>, rows: seq<LayerRow>)
  {
    && (forall i, j :: 0 <= i < j < |rows| ==> rows[i].name != rows[j].name)
    && (set k | 0 <= k < |rows| :: rows[k].name) == names
    && forall k :: 0 <= k < |rows| ==>
         rows[k].name in index && rows[k].path == index[rows[k].name].existsPath
         && rows[k].layers == GetLayers(index[rows[k].name])
  }

  /** `rows` lists each of `names` once, with its cause. */
  ghost predicate AmbiguousRows(index: map<string, YTarget>, providers: map<string, set<string>>, names: set<string>,
                                rows: seq<AmbiguousRow>)
  {
    && (forall i, j :: 0 <= i < j < |rows| ==> rows[i].name != rows[j].name)
    && (set k | 0 <= k < |rows| :: rows[k].name) == names
    && forall k :: 0 <= k < |rows| ==>
         rows[k].name in index && rows[k].cause == CauseOf(index, providers, rows[k].name)
  }

  /** The queued targets that have an existence check. */
  function Existing(index: map<string, YTarget>, queue: set<string>): (r: set<string>)
    requires queue <= index.Keys
    ensures r <= queue
    ensures forall t :: t in queue ==> (t in r <==> index[t].existsPath != "")
  {
    set t | t in queue && index[t].existsPath != ""
  }

  /** The report `BuildCLI` makes of an outcome of `Enqueue` with `base`. An
      exception or a refusal passes through; a report names the base, so with
      no base set it raises; with ambiguous dependencies left it lists them
      and the queued targets that have a path, and fails; otherwise it lists
      every queued target and succeeds. */
  ghost predicate Reports(index: map<string, YTarget>, providers: map<string, set<string>>, base: Option<string>,
                          outcome: Outcome, rep: Report)
  {
    match outcome
    case Raised(f) => rep == CliRaised(f)
    case Declined => rep == Refused
    case Queued(queue, ambiguous) =>
      if base.None? then rep == CliRaised(NoBaseName)
      else if ambiguous != {} then
        && rep.Unresolved? && rep.base == base.value
        && AmbiguousRows(index, providers, ambiguous, rep.ambiguous)
        && queue <= index.Keys && LayerRows(index, Existing(index, queue), rep.disambiguated)
      else
        rep.Built? && rep.base == base.value && LayerRows(index, queue, rep.rows)
  }

  /** The report of `BuildCLI`, and whether it succeeded. */
  method MakeReport(index: map<string, YTarget>, providers: map<string, set<string>>, base: Option<string>,
                    outcome: Outcome) returns (ok: bool, rep: Report)
    requires outcome.Queued? ==> outcome.queue <= index.Keys && outcome.ambiguous <= index.Keys
    ensures ok <==> rep.Built?
    ensures Reports(index, providers, base, outcome, rep)
  {
    match outcome
    case Raised(f) => return false, CliRaised(f);
    case Declined => return false, Refused;
    case Queued(queue, ambiguous) =>
      if base.None? {
        return false, CliRaised(NoBaseName);
      }
      if ambiguous != {} {
        var amb := ListAmbiguous(index, providers, ambiguous);
        var dis := ListLayers(index, queue, true);
        return false, Unresolved(base.value, amb, dis);
      }
      var rows := ListLayers(index, queue, false);
      return true, Built(base.value, rows);
  }

  /** The loop over `lAmbiguous`: one row per ambiguous dependency. */
  method ListAmbiguous(index: map<string, YTarget>, providers: map<string, set<string>>, ambiguous: set<string>)
    returns (rows: seq<AmbiguousRow>)
    requires ambiguous <= index.Keys
    ensures AmbiguousRows(index, providers, ambiguous, rows)
  {
    var names := SetToSeq(ambiguous);
    rows := [];
    var i := 0;
    while i < |names|
      invariant 0 <= i <= |names| && |rows| == i
      invariant forall k :: 0 <= k < i ==> rows[k] == AmbiguousRow(names[k], CauseOf(index, providers, names[k]))
    {
      assert names[i] in Elems(names);
      rows := rows + [AmbiguousRow(names[i], CauseOf(index, providers, names[i]))];
      i := i + 1;
    }
    forall x | x in ambiguous ensures x in set k | 0 <= k < |rows| :: rows[k].name {
      assert x in Elems(names);
      var k :| 0 <= k < |names| && names[k] == x;
      assert rows[k].name == x;
    }
  }

  /** The loops over `lQueue`: one row per queued target, or, when
      `existingOnly`, per queued target with an existence check (the others
      are skipped; the rows come in the set's iteration order either way). */
  method ListLayers(index: map<string, YTarget>, queue: set<string>, existingOnly: bool) returns (rows: seq<LayerRow>)
    requires queue <= index.Keys
    ensures LayerRows(index, if existingOnly then Existing(index, queue) else queue, rows)
  {
    var names := SetToSeq(if existingOnly then Existing(index, queue) else queue);
    rows := [];
    var i := 0;
    while i < |names|
      invariant 0 <= i <= |names| && |rows| == i
      invariant forall k :: 0 <= k < i ==> names[k] in index && rows[k] == LayerRow(names[k], index[names[k]].existsPath, GetLayers(index[names[k]]))
    {
      assert names[i] in Elems(names);
      var t := index[names[i]];
      rows := rows + [LayerRow(names[i], t.existsPath, GetLayers(t))];
      i := i + 1;
    }
    forall x | x in Elems(names) ensures x in set k | 0 <= k < |rows| :: rows[k].name {
      var k :| 0 <= k < |names| && names[k] == x;
      assert rows[k].name == x;
    }
  }

  /** What `Initialize` establishes about the targets as `declared`, its
      result and the checked targets, bases, stocks and families it leaves: a
      failure leaves the targets as declared, a success gives each its base
      and returns the full provider map. */
  ghost predicate Prepared(declared: map<string, YTarget>, r: InitResult, index: map<string, YTarget>,
                           bases: set<string>, stocks: set<string>, families: map<string, string>)
  {
    && index.Keys == declared.Keys
    && (r.InitFailed? ==> index == declared && Rejected(declared, bases, r.fault))
    && (r.Initialized? ==> Accepted(declared, index, bases, stocks, families) && FullProvidersOf(declared, r.providers))
  }

  /** Why `Initialize` stops: a name that is not a target, before anything is
      classified; otherwise, with the bases classified, a family walk that
      does not end or a target that fails its checks. */
  ghost predicate Rejected(declared: map<string, YTarget>, bases: set<string>, f: Fault)
  {
    if f.UnknownName? then !Resolved(declared) && f.name !in declared
    else
      && Resolved(declared) && bases == ClassOf(declared, "base")
      && ((f.Diverges? && f.target in bases && WalksOn(declared, bases, f.target, |bases|))
          || Offends(declared, bases, f))
  }

  /** A rejection for a family walk that does not end is only given when the
      bases provide one another in a cycle, where the `while` of yamake.py
      would run for ever. */
  lemma DivergesOnCycle(declared: map<string, YTarget>, bases: set<string>, f: Fault)
    requires Rejected(declared, bases, f) && f.Diverges? && !Offends(declared, bases, f)
    ensures BaseCycle(declared, bases)
  {
    WalksOnCycle(declared, bases, f.target);
  }

  /** A successful `Initialize`: bases and stocks classified, every base
      mapped to the end of its family walk, every target sane and given its
      base. */
  ghost predicate Accepted(declared: map<string, YTarget>, index: map<string, YTarget>, bases: set<string>,
                           stocks: set<string>, families: map<string, string>)
  {
    && Resolved(declared) && Resolved(index) && index.Keys == declared.Keys
    && bases == ClassOf(declared, "base") && stocks == ClassOf(declared, "stock")
    && families.Keys == bases
    && (forall b :: b in families ==> families[b] in bases)
    && (forall b :: b in families ==> OtherBases(declared, bases, families[b]) == {})
    && (forall b :: b in families ==> WalksTo(declared, bases, b, families[b]))
    && (forall b :: b in families && OtherBases(declared, bases, b) == {} ==> families[b] == b)
    && (forall n :: n in index ==> Sane(declared, bases, n))
    && (forall n :: n in index ==> BaseAssigned(declared[n], index[n], bases, families))
  }

  /** `Initialize` after the build file is read, over the declared targets:
      names are resolved, bases and stocks classified, the base families
      computed, every target checked and given its base, and the closure of
      the provider map returned. `bases`, `stocks` and `families` are the
      values before, kept where the code stops before assigning them. */
  method PostParse(index: map<string, YTarget>, order: seq<string>, bases: set<string>, stocks: set<string>,
                   families: map<string, string>)
    returns (r: InitResult, index': map<string, YTarget>, bases': set<string>, stocks': set<string>,
             families': map<string, string>)
    requires Elems(order) == index.Keys && "base" in index && "stock" in index
    ensures Prepared(index, r, index', bases', stocks', families')
  {
    index', bases', stocks', families' := index, bases, stocks, families;
    var unknown := FinalizeInit(index, order);
    if unknown.Some? {
      return InitFailed(UnknownName(unknown.value)), index', bases', stocks', families';
    }
    bases' := ClassOf(index, "base");
    stocks' := ClassOf(index, "stock");
    var stuck;
    families', stuck := Families(index, bases', |bases'|);
    if stuck.Some? {
      return InitFailed(Diverges(stuck.value)), index', bases', stocks', families';
    }
    r, index' := CheckAll(index, order, bases', stocks', families');
  }

  /** The rest of `Initialize` once the bases have their families: the
      checks of every target, and the closure of the direct provider map. */
  method CheckAll(index: map<string, YTarget>, order: seq<string>, bases: set<string>, stocks: set<string>,
                  families: map<string, string>)
    returns (r: InitResult, index': map<string, YTarget>)
    requires Elems(order) == index.Keys && Resolved(index)
    requires bases == ClassOf(index, "base") && stocks == ClassOf(index, "stock") && families.Keys == bases
    requires forall b :: b in families ==> families[b] in bases && OtherBases(index, bases, families[b]) == {}
    requires forall b :: b in families && OtherBases(index, bases, b) == {} ==> families[b] == b
    requires forall b :: b in families ==> WalksTo(index, bases, b, families[b])
    ensures Prepared(index, r, index', bases, stocks, families)
  {
    var checked := CheckTargets(index, order, bases, families);
    if checked.CheckFailed? {
      assert Rejected(index, bases, checked.fault);
      return InitFailed(checked.fault), index;
    }
    index' := checked.index;
    AssignedKeeps(index, index', bases, families);
    assert Accepted(index, index', bases, stocks, families);
    ProvidersWithin(index, index.Keys);
    var full := FullProviders(checked.providers, index.Keys);
    assert FullProvidersOf(index, full);
    r := Initialized(full);
  }
}
