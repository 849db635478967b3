/** The three cached system states and sequences of state messages. */
module SystemState {
  import opened Prelude

  datatype Kind = Lock | Power | Dpms
  datatype Item<V> = Item(kind: Kind, value: V)

  /** The order in which the caches are read for a new client. */
  function Rank(k: Kind): nat {
    match k case Lock => 0 case Power => 1 case Dpms => 2
  }

  function KindAt(rank: nat): (k: Kind)
    ensures rank < 3 ==> Rank(k) == rank
  {
    if rank == 0 then Lock else if rank == 1 then Power else Dpms
  }

  function Lookup<V>(cache: map<Kind, V>, k: Kind): Option<V> {
    if k in cache then Some(cache[k]) else None
  }

  /** The value of the last item of a kind. */
  function LastOf<V>(k: Kind, items: seq<Item<V>>): Option<V> {
    if items == [] then None
    else if items[|items| - 1].kind == k then Some(items[|items| - 1].value)
    else LastOf(k, items[..|items| - 1])
  }

  lemma {:induction false} LastOfConcat<V>(k: Kind, xs: seq<Item<V>>, ys: seq<Item<V>>)
    ensures LastOf(k, xs + ys) == if LastOf(k, ys).Some? then LastOf(k, ys) else LastOf(k, xs)
  {
    if ys == [] {
      assert xs + ys == xs;
    } else {
      assert (xs + ys)[..|xs + ys| - 1] == xs + ys[..|ys| - 1];
      LastOfConcat(k, xs, ys[..|ys| - 1]);
    }
  }

  lemma LastOfAppend<V>(k: Kind, items: seq<Item<V>>, item: Item<V>)
    ensures LastOf(k, items + [item]) == if item.kind == k then Some(item.value) else LastOf(k, items)
  {
    assert (items + [item])[..|items|] == items;
  }
}
