/** The variant `yamake_builder.py` of the set-fixpoint engine. Its `Builder`
    holds the same targets and runs the same checks in `Initialize`, but its
    set of essentials (`lEssentials`, the counterpart of `yamake.py`'s bases)
    starts empty and nothing ever adds to it, so no target is given a base;
    its `Enqueue` has no stock or base selection and resolves abstract
    dependencies only when a round finds exactly one provider; `JSONOutput`
    lists the saved fields of every target. */
module YamakeBuilder {
  import opened Util
  import opened YamakeTargets
  import opened YamakeFixpoint

  /** With no essentials, the base assignment of `Initialize` leaves every
      target as it is. */
  lemma NoEssentialsAssignNothing(index: map<string, YTarget>, index': map<string, YTarget>)
    requires index'.Keys == index.Keys
    requires forall n :: n in index ==> BaseAssigned(index[n], index'[n], {}, map[])
    ensures index' == index
  {
    forall n | n in index ensures index'[n] == index[n] {
      assert index[n].depends * {} == {};
    }
  }

  /** With no essentials, no target offends by depending on several of them. */
  lemma NoMultipleEssentials(index: map<string, YTarget>, f: Fault)
    requires Offends(index, {}, f)
    ensures !f.MultipleBases?
  {
    if f.MultipleBases? {
      assert false;
    }
  }

  /** What `Initialize` establishes about the declared targets: a name that
      is not a target, or a target failing the dependency-cycle or
      provides-cycle check (never the multiple-essential check); otherwise
      every target is sane and the full provider map is returned. */
  ghost predicate Vetted(index: map<string, YTarget>, r: InitResult)
  {
    match r
    case InitFailed(f) =>
      if f.UnknownName? then !Resolved(index) && f.name !in index
      else Resolved(index) && Offends(index, {}, f) && !f.MultipleBases?
    case Initialized(full) =>
      && Resolved(index)
      && (forall n :: n in index ==> Sane(index, {}, n))
      && FullProvidersOf(index, full)
  }

  /** `Initialize` after the build file is read: names are resolved, the
      family map over the (empty) essentials is empty, every target is
      checked, and the closure of the provider map is returned. The base
      assignment is computed and found to change nothing. */
  method CheckDeclared(index: map<string, YTarget>, order: seq<string>)
    returns (r: InitResult, index': map<string, YTarget>)
    requires Elems(order) == index.Keys
    ensures index' == index
    ensures Vetted(index, r)
  {
    var unknown := FinalizeInit(index, order);
    if unknown.Some? {
      return InitFailed(UnknownName(unknown.value)), index;
    }
    var checked := CheckTargets(index, order, {}, map[]);
    if checked.CheckFailed? {
      NoMultipleEssentials(index, checked.fault);
      return InitFailed(checked.fault), index;
    }
    NoEssentialsAssignNothing(index, checked.index);
    index' := checked.index;
    ProvidersWithin(index, index.Keys);
    var full := FullProviders(checked.providers, index.Keys);
    assert FullProvidersOf(index, full);
    r := Initialized(full);
  }

  /** The keys of `lSaved` that `JSONOutput` writes for a target: those of
      the saved fields whose value is truthy. */
  function SavedKeys(t: YTarget): (keys: set<string>)
    ensures keys <= {"target", "layers", "depends", "provides", "clean", "actions", "essential", "check_mtime"}
    ensures "layers" in keys <==> t.layers != []
    ensures "depends" in keys <==> t.depends != {}
    ensures "provides" in keys <==> t.provided != {}
    ensures "clean" in keys <==> t.clean != []
    ensures "actions" in keys <==> t.actions != []
    ensures forall k :: k in {"target", "essential", "check_mtime"} ==> (k in keys <==> k in t.params)
  {
    (if t.layers != [] then {"layers"} else {})
    + (if t.depends != {} then {"depends"} else {})
    + (if t.provided != {} then {"provides"} else {})
    + (if t.clean != [] then {"clean"} else {})
    + (if t.actions != [] then {"actions"} else {})
    + (t.params * {"target", "essential", "check_mtime"})
  }

  class Builder {
    /** `lTargets`, by name, in declaration order. */
    var order: seq<string>
    var index: map<string, YTarget>
    /** The targets as declared, before `Initialize` checks them. */
    ghost var declared: map<string, YTarget>

    constructor()
      ensures Listed(order, index)
      ensures order == [] && index == map[]
    {
      order, index := [], map[];
      declared := map[];
    }

    /** `Target(name, builder, params)`: the target is indexed under its name,
      replacing an earlier one, and appended to `lTargets`. */
    method Declare(t: YTarget)
      requires Listed(order, index)
      modifies this`order, this`index
      ensures Listed(order, index)
      ensures index == old(index)[t.name := t] && order == old(order) + [t.name]
    {
      ElemsConcat(order, [t.name]);
      index := index[t.name := t];
      order := order + [t.name];
    }

    /** `Initialize` after the build file is read: the four pre-created
      targets and the entries are declared, then checked; the targets stay
      as declared. */
    method Initialize(entries: seq<YTarget>) returns (r: InitResult)
      requires Listed(order, index)
      modifies this
      ensures Listed(order, index)
      ensures index == declared
      ensures Vetted(index, r)
      ensures r.Initialized? ==> Loaded(order, index)
    {
      Declare(Blank("base"));
      Declare(Blank("stock"));
      Declare(Blank("all"));
      Declare(Blank("clean_all"));
      var i := 0;
      while i < |entries|
        invariant 0 <= i <= |entries|
        invariant Listed(order, index)
        decreases |entries| - i
      {
        Declare(entries[i]);
        i := i + 1;
      }
      declared := index;
      var ix;
      r, ix := CheckDeclared(index, order);
      index := ix;
    }

    /** `Enqueue`: the request (or the dependencies of `default`), then the
      fixpoint, resolving an abstract dependency only in rounds that find a
      single provider and marking, as written, the last candidate tried. It
      changes nothing. */
    method Enqueue(requested: seq<string>, providers: map<string, set<string>>) returns (r: Outcome, ghost rounds: nat)
      requires Loaded(order, index)
      requires Elems(requested) <= index.Keys && ValuesWithin(providers, index.Keys)
      ensures Request(index, requested).None? ==> r == Raised(NoTargets)
      ensures Request(index, requested).Some? ==> Queues(index, Request(index, requested).value, r, rounds)
      ensures Request(index, requested).Some? ==>
                Fixed(index, providers, Request(index, requested).value, LastCandidate, r, rounds)
    {
      var request := Request(index, requested);
      if request.None? {
        return Raised(NoTargets), 0;
      }
      r, rounds := Fixpoint(index, providers, request.value, TargetSet(index, request.value), LastCandidate);
    }

    /** `JSONOutput` on the targets `Initialize` leaves: an opening line,
      one line per entry of `lTargets` with its saved truthy fields, a
      closing line; the first target with dependencies or capabilities makes
      `json.dumps` raise, and nothing is returned. */
    method JSONOutput() returns (lines: seq<JsonLine>, unencodable: Option<string>)
      requires Listed(order, index)
      ensures unencodable.None? <==> EncodableUpTo(index, order, |order|)
      ensures unencodable.Some? ==> lines == []
      ensures unencodable.Some? ==>
                exists k :: 0 <= k < |order| && order[k] == unencodable.value && EncodableUpTo(index, order, k)
                            && order[k] in index && !Encodable(index[order[k]])
      ensures unencodable.None? ==> |lines| == |order| + 2 && lines[0] == Open && lines[|order| + 1] == Close
      ensures unencodable.None? ==>
                forall k :: 0 <= k < |order| ==> order[k] in index && lines[k + 1] == Entry(order[k], SavedKeys(index[order[k]]))
    {
      lines := [Open];
      var i := 0;
      while i < |order|
        invariant 0 <= i <= |order| && |lines| == i + 1 && lines[0] == Open
        invariant EncodableUpTo(index, order, i)
        invariant forall k :: 0 <= k < i ==> order[k] in index && lines[k + 1] == Entry(order[k], SavedKeys(index[order[k]]))
      {
        assert order[i] in Elems(order);
        var t := index[order[i]];
        if !Encodable(t) {
          return [], Some(order[i]);
        }
        lines := lines + [Entry(order[i], SavedKeys(t))];
        i := i + 1;
      }
      lines := lines + [Close];
      unencodable := None;
    }
  }
}
