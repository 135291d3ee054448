/** The hooks of the `jsonmake-witcher3.py` plugin, written against the
    class attributes of `jsonmake.py`'s `Target`: `Initialize` classifies
    the declared targets as `jsonmake.py` does, `EnqueueTargets` selects the
    base when none is set, and `BuildQueue` picks the stock among the queued
    targets and puts it in front when it has no timestamp. */
module JsonmakeWitcher3 {
  import opened Util
  import opened MakeEngine
  import opened MakeQueue

  /** The `Initialize` hook after the layer scan: the registered targets are
      classified exactly as in `jsonmake.py`; on success the class
      attributes take the classified targets, `lBases`, `lStocks` and the
      preset base and stock, and on a stop they are left as they were. The
      hook appends to `lBases` and `lStocks`, which hold nothing yet when it
      runs on a freshly declared registry. */
  method Initialize(reg: Registry, present: map<string, int>) returns (c: Classification)
    requires Registered(reg.order, reg.index)
    requires reg.bases == [] && reg.stocks == [] && reg.base.None? && reg.stock.None?
    modifies reg
    ensures ClassifiedFrom(old(reg.index), reg.order, present, c)
    ensures unchanged(reg`order)
    ensures c.ClassifyHalted? ==> unchanged(reg`index, reg`base, reg`stock, reg`bases, reg`stocks)
    ensures c.Classified? ==>
              && reg.index == c.index && reg.base == c.base && reg.stock == c.stock
              && reg.bases == c.bases && reg.stocks == c.stocks
  {
    c := Classify(reg.index, reg.order, present);
    if c.Classified? {
      reg.Set(c.index, c.base, c.stock, c.bases, c.stocks);
    }
  }

  /** `EnqueueTargets`: with a base already set, success and the requested
      targets unchanged; otherwise the bases that have a timestamp or are
      needed are the candidates, and several or none give `(False, None)`
      with the base still unset, while a single one becomes the base. */
  method EnqueueTargets(index: map<string, MTarget>, bases: seq<string>, base: Option<string>, targets: seq<string>)
    returns (ok: bool, out: Option<seq<string>>, base': Option<string>)
    ensures base.Some? ==> ok && out == Some(targets) && base' == base
    ensures base.None? ==> (ok <==> |BaseCandidates(index, bases)| == 1)
    ensures ok ==> out == Some(targets) && base'.Some?
    ensures !ok ==> out.None? && base'.None?
    ensures base.None? && ok ==>
              && base' == Some(BaseCandidates(index, bases)[0])
              && base'.value in Elems(bases) && base'.value in index
              && (index[base'.value].timestamp != 0 || index[base'.value].needed)
  {
    base' := base;
    if base.None? {
      var candidates := BaseCandidates(index, bases);
      if |candidates| > 1 {
        return false, None, base';
      } else if |candidates| == 0 {
        return false, None, base';
      }
      FilterMembers(bases, set n | n in index && (index[n].timestamp != 0 || index[n].needed));
      assert candidates[0] in Elems(candidates);
      base' := Some(candidates[0]);
    }
    return true, Some(targets), base';
  }

  /** What the `BuildQueue` hook returns: the queue and `Target.stock`, or
      why the program stops. */
  datatype HookQueue = HookQueued(queue: seq<string>, stock: Option<string>) | HookHalted(halt: Halt)

  /** The `BuildQueue` hook: more than one stock in the queue (counting
      repeats) stops the program, a single one becomes the stock, and a
      registered `stock` with no stock selected stops it too. The stock is
      then put in front of the queue when it has no timestamp, WITHOUT being
      removed from it first, so a queued stock with no timestamp appears
      twice; otherwise the queue is returned as it came. */
  method BuildQueue(index: map<string, MTarget>, stocks: seq<string>, stock: Option<string>, q: seq<string>)
    returns (r: HookQueue)
    requires Elems(stocks) <= index.Keys
    requires stock.Some? ==> stock.value in index
    ensures var queued := Filter(q, Elems(stocks));
            && (r == HookHalted(TooManyStocks) <==> |queued| > 1)
            && (r == HookHalted(NoStock) <==> |queued| == 0 && stock.None? && "stock" in index)
            && (r.HookHalted? ==> r.halt.TooManyStocks? || r.halt.NoStock?)
            && (r.HookQueued? && |queued| == 1 ==> r.stock == Some(queued[0]))
            && (r.HookQueued? && |queued| == 0 ==> r.stock == stock)
    ensures r.HookQueued? && r.stock.Some? ==> r.stock.value in index
    ensures r.HookQueued? ==>
              if r.stock.Some? && index[r.stock.value].timestamp == 0 then r.queue == [r.stock.value] + q
              else r.queue == q
    ensures r.HookQueued? && r.stock.Some? && index[r.stock.value].timestamp == 0 ==>
              multiset(r.queue)[r.stock.value] == multiset(q)[r.stock.value] + 1
  {
    var queued := Filter(q, Elems(stocks));
    var pick := PickStock(index, stocks, q, stock);
    if pick.PickHalted? {
      return HookHalted(pick.halt);
    }
    var s := pick.stock;
    if |queued| == 1 {
      FilterMembers(q, Elems(stocks));
      assert queued[0] in Elems(queued);
    }
    var out := Prepended(index, q, s);
    if s.Some? && index[s.value].timestamp == 0 {
      assert multiset(out) == multiset([s.value]) + multiset(q);
    }
    r := HookQueued(out, s);
  }

  /** Unlike the stock placement of `jsonmake.py`'s own `BuildQueue`, the
      hook keeps the copy already in the queue: a single queued stock with
      no timestamp ends up at the front and at its old place. */
  lemma {:induction false} BuildQueueRepeatsStock(index: map<string, MTarget>, stocks: seq<string>, q: seq<string>, i: nat)
    requires Elems(stocks) <= index.Keys
    requires i < |q| && Filter(q, Elems(stocks)) == [q[i]] && q[i] in index && index[q[i]].timestamp == 0
    ensures var s := q[i];
            var placed := Prepended(index, q, Some(s));
            && PickStock(index, stocks, q, None) == Picked(Some(s))
            && placed[0] == s && placed[i + 1] == s
            && multiset(placed)[s] == 2
            && multiset(Place(index, q, Some(s)))[s] == 1
  {
    var s := q[i];
    FilterMembers(q, Elems(stocks));
    assert s in Elems([s]);
    FilterCount(q, Elems(stocks), s);
    var placed := Prepended(index, q, Some(s));
    assert placed == [s] + q;
    assert multiset(placed) == multiset([s]) + multiset(q);
    PlaceCases(index, q, s);
  }

  /** Filtering keeps every copy of a kept name. */
  lemma {:induction false} FilterCount(q: seq<string>, keep: set<string>, x: string)
    requires x in keep
    ensures multiset(Filter(q, keep))[x] == multiset(q)[x]
  {
    if q != [] {
      FilterCount(q[1..], keep, x);
      assert q == [q[0]] + q[1..];
      assert multiset(q) == multiset([q[0]]) + multiset(q[1..]);
      if q[0] in keep {
        assert multiset(Filter(q, keep)) == multiset([q[0]]) + multiset(Filter(q[1..], keep));
      }
    }
  }
}
