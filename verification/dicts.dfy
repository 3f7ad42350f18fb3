/**
 * A Python `dict` with string keys: a mapping that remembers the order in which
 * its keys were first inserted. Assigning to an existing key replaces its value
 * in place; a new key goes last.
 */
module Dicts {
  import opened Errors

  datatype Dict<V> = Dict(keys: seq<string>, entries: map<string, V>) {

    /** The keys are listed once each, and exactly the mapped ones are listed. */
    ghost predicate Valid() {
      && (forall i, j :: 0 <= i < j < |keys| ==> keys[i] != keys[j])
      && (forall k :: k in entries <==> k in keys)
    }

    /** `d.get(k)` */
    function Get(k: string): Option<V> {
      if k in entries then Some(entries[k]) else None
    }

    /** `d[k] = v` */
    function Put(k: string, v: V): (d: Dict<V>)
      ensures Valid() ==> d.Valid()
      ensures d.Get(k) == Some(v)
      ensures forall k' :: k' != k ==> d.Get(k') == Get(k')
      ensures k in entries ==> d.keys == keys
      ensures k !in entries ==> d.keys == keys + [k]
    {
      Dict(if k in entries then keys else keys + [k], entries[k := v])
    }

    /** `list(d.values())`: the values in key order. */
    function Values(): seq<V>
      requires Valid()
    {
      seq(|keys|, i requires 0 <= i < |keys| => entries[keys[i]])
    }
  }

  function EmptyDict<V>(): (d: Dict<V>)
    ensures d.Valid() && d.Values() == []
  {
    Dict([], map[])
  }

  /**
   * A new key's value is listed last; a replaced key's value is listed where the
   * old one was.
   */
  lemma PutValues<V>(d: Dict<V>, k: string, v: V)
    requires d.Valid()
    ensures k !in d.entries ==> d.Put(k, v).Values() == d.Values() + [v]
    ensures k in d.entries ==> |d.Put(k, v).Values()| == |d.Values()|
    ensures k in d.entries ==> forall i :: 0 <= i < |d.keys| ==>
              d.Put(k, v).Values()[i] == if d.keys[i] == k then v else d.Values()[i]
  {
  }
}
