/**
 * Ordered dictionaries: a Python dict, or a JavaScript object whose keys are
 * neither array indices nor inherited member names (such an object enumerates
 * its keys in insertion order), is modelled as the sequence of its
 * (key, value) entries.
 */
module Dict {

  datatype Option<+T> = None | Some(value: T)

  /** The entries of an object or dict, in insertion order. */
  type Entries<V> = seq<(string, V)>

  /** No key occurs twice (true of every object and dict). */
  ghost predicate DistinctKeys<V>(e: Entries<V>) {
    forall i, j :: 0 <= i < j < |e| ==> e[i].0 != e[j].0
  }

  /** The keys in insertion order (`Object.keys`). */
  function Keys<V>(e: Entries<V>): seq<string> {
    seq(|e|, k requires 0 <= k < |e| => e[k].0)
  }

  /** The position of the first entry with this key, if any. */
  function FindKey<V>(e: Entries<V>, key: string): (r: Option<nat>)
    ensures r.Some? ==> r.value < |e| && e[r.value].0 == key
    ensures r.Some? ==> forall j :: 0 <= j < r.value ==> e[j].0 != key
    ensures r.None? <==> forall j :: 0 <= j < |e| ==> e[j].0 != key
  {
    if |e| == 0 then None
    else if e[0].0 == key then Some(0)
    else match FindKey(e[1..], key)
      case Some(i) => Some(i + 1)
      case None => None
  }

  /** `obj[key]` / `d.get(key)`: None stands for a missing key. */
  function Get<V>(e: Entries<V>, key: string): Option<V> {
    match FindKey(e, key)
    case Some(i) => Some(e[i].1)
    case None => None
  }

  /** `d[key] = v`: replaces the value of an existing key in place, otherwise appends. */
  function Put<V>(e: Entries<V>, key: string, v: V): Entries<V> {
    match FindKey(e, key)
    case Some(i) => e[i := (key, v)]
    case None => e + [(key, v)]
  }

  /** The first entry with the key is the one FindKey returns. */
  lemma FindKeyAt<V>(e: Entries<V>, key: string, i: nat)
    requires i < |e| && e[i].0 == key
    requires forall j :: 0 <= j < i ==> e[j].0 != key
    ensures FindKey(e, key) == Some(i)
  {
    var r := FindKey(e, key);
    assert r.Some? by { assert e[i].0 == key; }
    assert !(r.value < i);
  }

  lemma GetPut<V>(e: Entries<V>, key: string, v: V, other: string)
    ensures Get(Put(e, key, v), key) == Some(v)
    ensures other != key ==> Get(Put(e, key, v), other) == Get(e, other)
    ensures Keys(Put(e, key, v)) == if Get(e, key).Some? then Keys(e) else Keys(e) + [key]
  {
    var p := Put(e, key, v);
    match FindKey(e, key)
    case Some(i) =>
      FindKeyAt(p, key, i);
      if other != key {
        match FindKey(e, other)
        case Some(j) =>
          FindKeyAt(p, other, j);
        case None =>
          assert FindKey(p, other) == None;
      }
    case None =>
      FindKeyAt(p, key, |e|);
      if other != key {
        match FindKey(e, other)
        case Some(j) =>
          FindKeyAt(p, other, j);
        case None =>
          assert FindKey(p, other) == None;
      }
  }

  lemma PutDistinct<V>(e: Entries<V>, key: string, v: V)
    requires DistinctKeys(e)
    ensures DistinctKeys(Put(e, key, v))
  {
  }

  /** With distinct keys, a key is found exactly at the position where it is stored. */
  lemma GetAt<V>(e: Entries<V>, k: nat)
    requires DistinctKeys(e) && k < |e|
    ensures Get(e, e[k].0) == Some(e[k].1)
  {
    var r := FindKey(e, e[k].0);
    assert r.Some?;
    assert r.value == k;
  }

  /** Looking a key up after one more entry is appended. */
  lemma GetSnoc<V>(e: Entries<V>, x: (string, V), key: string)
    ensures Get(e + [x], key) == if Get(e, key).Some? then Get(e, key)
                                 else if x.0 == key then Some(x.1) else None
  {
    var e' := e + [x];
    match FindKey(e, key)
    case Some(i) =>
      FindKeyAt(e', key, i);
    case None =>
      if x.0 == key {
        FindKeyAt(e', key, |e|);
      } else {
        assert FindKey(e', key) == None;
      }
  }
}
