/** The queue hooks of the `tinymake-witcher3.py` plugin, which `tinymake.py`
    calls when the plugin is loaded: `PluginChooseBase` picks the base in
    place of the default `index['base']`, and `PluginBuildQueue` moves the
    stock to the front of the flattened queue. */
module TinymakeWitcher3 {
  import opened Util
  import opened MakeEngine
  import opened MakeQueue

  /** `PluginBuildQueue`: every copy of `Target.stock` is removed from the
      queue and one is put first when the stock has no timestamp; the hook
      always reports success. */
  function PluginBuildQueue(index: map<string, MTarget>, q: seq<string>, stock: Option<string>): (r: (bool, seq<string>))
    requires stock.Some? ==> stock.value in index
  {
    (true, Place(index, q, stock))
  }

  /** What `PluginBuildQueue` returns: success; with no stock the queue as it
      was; otherwise no copy of the stock but the one put first exactly when
      it has no timestamp, and every other name as often as before. */
  lemma PluginBuildQueueCases(index: map<string, MTarget>, q: seq<string>, stock: Option<string>)
    requires stock.Some? ==> stock.value in index
    ensures PluginBuildQueue(index, q, stock).0
    ensures stock.None? ==> PluginBuildQueue(index, q, stock).1 == q
    ensures stock.Some? ==>
              var r := PluginBuildQueue(index, q, stock).1;
              var front := index[stock.value].timestamp == 0;
              && multiset(r)[stock.value] == (if front then 1 else 0)
              && (front ==> r[0] == stock.value)
              && (forall x :: x != stock.value ==> multiset(r)[x] == multiset(q)[x])
  {
    if stock.Some? {
      PlaceCases(index, q, stock.value);
    }
  }

  /** The names `Without` keeps stay in their relative order: the name at
      position `i`, if it is kept, lands just after what is kept of the names
      before it. */
  lemma WithoutKeepsOrder(q: seq<string>, x: string, i: nat)
    requires i < |q| && q[i] != x
    ensures |Without(q[..i], x)| < |Without(q, x)|
    ensures Without(q, x)[|Without(q[..i], x)|] == q[i]
  {
    assert q == q[..i] + ([q[i]] + q[i + 1..]);
    WithoutConcat(q[..i], [q[i]] + q[i + 1..], x);
    WithoutConcat([q[i]], q[i + 1..], x);
    assert Without([q[i]], x) == [q[i]] by {
      assert [q[i]][1..] == [];
    }
  }

  /** A name kept later in the input is kept later in the result. */
  lemma WithoutMonotone(q: seq<string>, x: string, i: nat, j: nat)
    requires i < j <= |q| && q[i] != x
    ensures |Without(q[..i], x)| < |Without(q[..j], x)|
  {
    assert q[..j] == q[..i] + q[i..j];
    WithoutConcat(q[..i], q[i..j], x);
    assert q[i..j] == [q[i]] + q[i + 1..j];
    WithoutConcat([q[i]], q[i + 1..j], x);
    assert Without([q[i]], x) == [q[i]] by {
      assert [q[i]][1..] == [];
    }
  }

  /** `PluginChooseBase`: with no base selected, the single base that has a
      timestamp or is requested becomes the base and the hook succeeds;
      several or none, or a base already selected, make it fail, leaving the
      base as it was. */
  method PluginChooseBase(index: map<string, MTarget>, bases: seq<string>, base: Option<string>)
    returns (ok: bool, base': Option<string>)
    ensures ok <==> base.None? && |BaseCandidates(index, bases)| == 1
    ensures ok ==> base' == Some(BaseCandidates(index, bases)[0])
    ensures ok ==> base'.value in Elems(bases) && base'.value in index
                   && (index[base'.value].timestamp != 0 || index[base'.value].needed)
    ensures !ok ==> base' == base
  {
    if base.None? {
      var candidates := BaseCandidates(index, bases);
      if |candidates| > 1 {
        return false, base;
      } else if |candidates| == 0 {
        return false, base;
      }
      FilterMembers(bases, set n | n in index && (index[n].timestamp != 0 || index[n].needed));
      assert candidates[0] in Elems(candidates);
      return true, Some(candidates[0]);
    }
    return false, base;
  }
}
