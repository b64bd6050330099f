/** Python's `dict`: a mapping with unique keys that remembers insertion order. Assigning to an
    existing key keeps its position; deleting a key closes the gap. Iteration follows this order,
    which is why broadcasts and `online_users` lists come out in registration order. */
module Dicts {
  import opened Wrappers

  /** The keys of an association list, in order. */
  function Keys<K, V>(s: seq<(K, V)>): (r: seq<K>)
    ensures |r| == |s|
    ensures forall i :: 0 <= i < |s| ==> r[i] == s[i].0
  {
    seq(|s|, i requires 0 <= i < |s| => s[i].0)
  }

  /** The values of an association list, in order (`list(d.values())`). */
  function Values<K, V>(s: seq<(K, V)>): (r: seq<V>)
    ensures |r| == |s|
    ensures forall i :: 0 <= i < |s| ==> r[i] == s[i].1
  {
    seq(|s|, i requires 0 <= i < |s| => s[i].1)
  }

  ghost predicate UniqueKeys<K, V>(s: seq<(K, V)>) {
    forall i, j :: 0 <= i < j < |s| ==> s[i].0 != s[j].0
  }

  type Dict<K(==), V> = s: seq<(K, V)> | UniqueKeys(s) witness []

  /** The position of `k`, if present. */
  function Find<K(==), V>(s: seq<(K, V)>, k: K): (r: Option<nat>)
    ensures r.Some? ==> r.value < |s| && s[r.value].0 == k
    ensures r.None? <==> k !in Keys(s)
  {
    if |s| == 0 then None
    else if s[0].0 == k then Some(0)
    else
      assert Keys(s) == [s[0].0] + Keys(s[1..]);
      match Find(s[1..], k)
      case Some(i) => Some(i + 1)
      case None => None
  }

  /** `d.get(k)`. */
  function Get<K(==), V>(d: Dict<K, V>, k: K): (r: Option<V>)
    ensures r.Some? <==> k in Keys(d)
    ensures forall i :: 0 <= i < |d| && d[i].0 == k ==> r == Some(d[i].1)
  {
    match Find(d, k)
    case Some(i) => Some(d[i].1)
    case None => None
  }

  /** `d[k] = v`: a new key goes last, an existing key keeps its place. */
  function Put<K(==,!new), V>(d: Dict<K, V>, k: K, v: V): (r: Dict<K, V>)
    ensures Get(r, k) == Some(v)
    ensures forall k' :: k' != k ==> Get(r, k') == Get(d, k')
    ensures k in Keys(d) ==> Keys(r) == Keys(d)
    ensures k !in Keys(d) ==> Keys(r) == Keys(d) + [k]
  {
    match Find(d, k)
    case Some(i) =>
      var r := d[i := (k, v)];
      assert Keys(r) == Keys(d);
      r
    case None =>
      var r := d + [(k, v)];
      assert Keys(r) == Keys(d) + [k];
      r
  }

  /** `del d[k]` when present; nothing happens when it is absent. */
  function Remove<K(==,!new), V>(d: Dict<K, V>, k: K): (r: Dict<K, V>)
    ensures Get(r, k) == None
    ensures forall k' :: k' != k ==> Get(r, k') == Get(d, k')
    ensures k in Keys(d) ==> |r| == |d| - 1
    ensures k !in Keys(d) ==> r == d
    ensures forall x :: x in r ==> x in d
  {
    match Find(d, k)
    case Some(i) =>
      var r := d[..i] + d[i + 1..];
      DeleteAt(d, i);
      DeleteAtKeepsOthers(d, i);
      r
    case None => d
  }

  /** Deleting position `i` keeps keys unique, drops exactly the key at `i`, and keeps every other pair. */
  lemma DeleteAt<K, V>(d: seq<(K, V)>, i: nat)
    requires UniqueKeys(d) && i < |d|
    ensures var r := d[..i] + d[i + 1..];
      && UniqueKeys(r)
      && |r| == |d| - 1
      && (forall j :: 0 <= j < |r| ==> r[j] == (if j < i then d[j] else d[j + 1]))
      && (forall j :: 0 <= j < |r| ==> r[j].0 != d[i].0)
  {
  }

  lemma DeleteAtKeepsOthers<K(!new), V>(d: Dict<K, V>, i: nat)
    requires i < |d|
    ensures UniqueKeys(d[..i] + d[i + 1..])
    ensures forall k' :: k' != d[i].0 ==> Get(d[..i] + d[i + 1..], k') == Get(d, k')
  {
    DeleteAt(d, i);
    var r: Dict<K, V> := d[..i] + d[i + 1..];
    forall k' | k' != d[i].0
      ensures Get(r, k') == Get(d, k')
    {
      match Find(d, k')
      case Some(j) =>
        var j' := if j < i then j else j - 1;
        assert r[j'] == d[j];
      case None =>
        assert k' !in Keys(r);
    }
  }
}
