/** Insertion-ordered maps: setting a present key keeps its place, setting a new one appends it. */
module OrderedMap {

  type Assoc<K, V> = seq<(K, V)>

  predicate Has<K(==), V>(m: Assoc<K, V>, k: K) {
    exists i :: 0 <= i < |m| && m[i].0 == k
  }

  predicate Distinct<K(==), V>(m: Assoc<K, V>) {
    forall i, j :: 0 <= i < j < |m| ==> m[i].0 != m[j].0
  }

  function IndexOf<K(==), V>(m: Assoc<K, V>, k: K): (i: nat)
    ensures i <= |m|
    ensures i < |m| ==> m[i].0 == k
    ensures forall j :: 0 <= j < i ==> m[j].0 != k
  {
    if m == [] || m[0].0 == k then 0 else 1 + IndexOf(m[1..], k)
  }

  function Put<K(==), V>(m: Assoc<K, V>, k: K, v: V): Assoc<K, V> {
    var i := IndexOf(m, k);
    if i < |m| then m[i := (k, v)] else m + [(k, v)]
  }

  function Remove<K(==), V>(m: Assoc<K, V>, k: K): Assoc<K, V> {
    var i := IndexOf(m, k);
    if i < |m| then m[..i] + m[i + 1..] else m
  }

  function Keys<K(==), V>(m: Assoc<K, V>): set<K> {
    set i | 0 <= i < |m| :: m[i].0
  }

  lemma PutKeepsDistinct<K, V>(m: Assoc<K, V>, k: K, v: V)
    requires Distinct(m)
    ensures Distinct(Put(m, k, v))
  {
  }

  lemma PutElements<K, V>(m: Assoc<K, V>, k: K, v: V)
    requires Distinct(m)
    ensures forall p :: p in Put(m, k, v) <==> p == (k, v) || (p in m && p.0 != k)
  {
    var i := IndexOf(m, k);
    var r := Put(m, k, v);
    forall p | p in m && p.0 != k ensures p in r {
      var j :| 0 <= j < |m| && m[j] == p;
      assert r[j] == p;
    }
    assert r[i] == (k, v);
  }

  lemma RemoveElements<K, V>(m: Assoc<K, V>, k: K)
    requires Distinct(m)
    ensures Distinct(Remove(m, k))
    ensures forall p :: p in Remove(m, k) <==> p in m && p.0 != k
  {
    var i := IndexOf(m, k);
    var r := Remove(m, k);
    forall p | p in m && p.0 != k ensures p in r {
      var j :| 0 <= j < |m| && m[j] == p;
      assert i <= |m| && (i == |m| ==> r[j] == p) && (j < i ==> r[j] == p) && (i < j ==> r[j - 1] == p);
    }
  }
}
