/** JSON objects as lists of entries in insertion order, each key once. */
module OrderedMaps {
  import opened Outcomes

  datatype Json = Null | Bool(b: bool) | Text(text: string) | Many(items: seq<Json>) | Object(entries: seq<(string, Json)>)

  ghost predicate UniqueKeys<V>(es: seq<(string, V)>) {
    forall i, j :: 0 <= i < j < |es| ==> es[i].0 != es[j].0
  }

  /** Where a key stands; the length of the list if it is absent. */
  function Find<V>(es: seq<(string, V)>, key: string): (at: nat)
    ensures at <= |es| && (at < |es| ==> es[at].0 == key) && forall k :: 0 <= k < at ==> es[k].0 != key
  {
    if es == [] then 0 else if es[0].0 == key then 0 else 1 + Find(es[1..], key)
  }

  function Get<V>(es: seq<(string, V)>, key: string): Option<V> {
    if Find(es, key) < |es| then Some(es[Find(es, key)].1) else None
  }

  /** Assigning a property: in place if it is there, at the end otherwise. */
  function Put<V>(es: seq<(string, V)>, key: string, value: V): seq<(string, V)> {
    if Find(es, key) < |es| then es[Find(es, key) := (key, value)] else es + [(key, value)]
  }

  function Remove<V>(es: seq<(string, V)>, key: string): seq<(string, V)> {
    if Find(es, key) < |es| then es[..Find(es, key)] + es[Find(es, key) + 1..] else es
  }

  lemma FindUnique<V>(es: seq<(string, V)>, i: nat)
    requires UniqueKeys(es) && i < |es|
    ensures Find(es, es[i].0) == i
  {
  }

  /** What an entry list says, order aside: it has exactly these values. */
  lemma GetIs<V>(es: seq<(string, V)>, key: string)
    requires UniqueKeys(es)
    ensures Get(es, key).None? <==> forall i :: 0 <= i < |es| ==> es[i].0 != key
    ensures forall i :: 0 <= i < |es| && es[i].0 == key ==> Get(es, key) == Some(es[i].1)
  {
  }

  lemma PutGets<V>(es: seq<(string, V)>, key: string, value: V)
    requires UniqueKeys(es)
    ensures UniqueKeys(Put(es, key, value))
    ensures forall k :: Get(Put(es, key, value), k) == if k == key then Some(value) else Get(es, k)
  {
    var next := Put(es, key, value);
    assert UniqueKeys(next);
    forall k ensures Get(next, k) == if k == key then Some(value) else Get(es, k) {
      GetIs(es, k);
      GetIs(next, k);
      if k == key {
        assert next[Find(es, key)] == (key, value);
      } else if Get(es, k).Some? {
        assert next[Find(es, k)].0 == k;
      }
    }
  }

  lemma RemoveGets<V>(es: seq<(string, V)>, key: string)
    requires UniqueKeys(es)
    ensures UniqueKeys(Remove(es, key))
    ensures forall k :: Get(Remove(es, key), k) == if k == key then None else Get(es, k)
  {
    var at := Find(es, key);
    var next := Remove(es, key);
    assert forall i :: 0 <= i < |next| ==> next[i] == if i < at then es[i] else es[i + 1];
    assert UniqueKeys(next);
    forall k ensures Get(next, k) == if k == key then None else Get(es, k) {
      GetIs(es, k);
      GetIs(next, k);
      if k != key && Get(es, k).Some? {
        var i := Find(es, k);
        assert next[if i < at then i else i - 1].0 == k;
      }
    }
  }

  /** Assigning what is there already, or removing what is not, changes nothing. */
  lemma PutAgain<V>(es: seq<(string, V)>, key: string, value: V)
    requires Get(es, key) == Some(value)
    ensures Put(es, key, value) == es
  {
  }

  // ---------------------------------------------------------------- equality of JSON values

  /** `isDeepStrictEqual`: objects are equal when they have the same keys with equal values. */
  predicate DeepEqual(a: Json, b: Json)
    decreases a
  {
    match (a, b)
    case (Null, Null) => true
    case (Bool(x), Bool(y)) => x == y
    case (Text(x), Text(y)) => x == y
    case (Many(xs), Many(ys)) => |xs| == |ys| && forall i :: 0 <= i < |xs| ==> DeepEqual(xs[i], ys[i])
    case (Object(xs), Object(ys)) =>
      && |xs| == |ys|
      && forall i :: 0 <= i < |xs| ==>
           var at := Find(ys, xs[i].0);
           at < |ys| && DeepEqual(xs[i].1, ys[at].1)
    case _ => false
  }

  /** Every object in the value has each key once. */
  ghost predicate WellFormed(a: Json)
    decreases a
  {
    match a
    case Many(xs) => forall i :: 0 <= i < |xs| ==> WellFormed(xs[i])
    case Object(xs) => UniqueKeys(xs) && forall i :: 0 <= i < |xs| ==> WellFormed(xs[i].1)
    case _ => true
  }

  lemma {:induction false} DeepEqualReflexive(a: Json)
    requires WellFormed(a)
    ensures DeepEqual(a, a)
    decreases a
  {
    match a
    case Many(xs) => forall i | 0 <= i < |xs| ensures DeepEqual(xs[i], xs[i]) { DeepEqualReflexive(xs[i]); }
    case Object(xs) =>
      forall i | 0 <= i < |xs| ensures Find(xs, xs[i].0) == i && DeepEqual(xs[i].1, xs[i].1) {
        FindUnique(xs, i);
        DeepEqualReflexive(xs[i].1);
      }
    case _ =>
  }
}
