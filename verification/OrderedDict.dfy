/** Python dictionaries: a finite map that remembers insertion order. */
module OrderedDict {
  import opened Prelude

  datatype Dict<K(==), V> = Dict(order: seq<K>, vals: map<K, V>)

  ghost predicate NoDup<K>(s: seq<K>) {
    forall i, j :: 0 <= i < j < |s| ==> s[i] != s[j]
  }

  ghost predicate ValidDict<K(!new), V>(d: Dict<K, V>) {
    NoDup(d.order) && forall k :: k in d.order <==> k in d.vals
  }

  function EmptyDict<K, V>(): Dict<K, V> { Dict([], map[]) }

  /** `d[k] = v`: a known key keeps its place. */
  function Put<K, V>(d: Dict<K, V>, k: K, v: V): Dict<K, V> {
    Dict(if k in d.vals then d.order else d.order + [k], d.vals[k := v])
  }

  function RemoveKey<K(==)>(s: seq<K>, k: K): seq<K> {
    if s == [] then []
    else if s[0] == k then RemoveKey(s[1..], k)
    else [s[0]] + RemoveKey(s[1..], k)
  }

  /** `d.pop(k, None)`. */
  function Pop<K, V>(d: Dict<K, V>, k: K): Dict<K, V> {
    Dict(RemoveKey(d.order, k), d.vals - {k})
  }

  function PopAll<K, V>(d: Dict<K, V>, keys: seq<K>): Dict<K, V>
    decreases keys
  {
    if keys == [] then d else PopAll(Pop(d, keys[0]), keys[1..])
  }

  lemma {:induction false} RemoveKeyFacts<K(!new)>(s: seq<K>, k: K)
    ensures forall x :: x in RemoveKey(s, k) <==> x in s && x != k
    ensures NoDup(s) ==> NoDup(RemoveKey(s, k)) && |RemoveKey(s, k)| == |s| - if k in s then 1 else 0
  {
    if s != [] {
      RemoveKeyFacts(s[1..], k);
      assert s == [s[0]] + s[1..];
      if NoDup(s) {
        assert s[0] !in s[1..];
      }
    }
  }

  lemma {:induction false} PopAllFacts<K(!new), V>(d: Dict<K, V>, keys: seq<K>)
    requires ValidDict(d) && NoDup(keys) && forall k :: k in keys ==> k in d.vals
    ensures var r := PopAll(d, keys);
            && ValidDict(r)
            && |r.order| == |d.order| - |keys|
            && (forall k :: k in r.vals <==> k in d.vals && k !in keys)
            && (forall k :: k in r.vals ==> r.vals[k] == d.vals[k])
    decreases keys
  {
    if keys != [] {
      RemoveKeyFacts(d.order, keys[0]);
      assert keys[0] !in keys[1..];
      assert forall k :: k in keys <==> k == keys[0] || k in keys[1..];
      PopAllFacts(Pop(d, keys[0]), keys[1..]);
    }
  }

  /** Popping keys keeps the order of the others. */
  lemma {:induction false} PopAllSubseq<K(!new), V>(d: Dict<K, V>, keys: seq<K>)
    ensures Subseq(PopAll(d, keys).order, d.order)
    decreases keys
  {
    if keys == [] {
      SubseqRefl(d.order);
    } else {
      RemoveKeySubseq(d.order, keys[0]);
      PopAllSubseq(Pop(d, keys[0]), keys[1..]);
      SubseqTrans(PopAll(d, keys).order, RemoveKey(d.order, keys[0]), d.order);
    }
  }

  lemma {:induction false} RemoveKeySubseq<K(!new)>(s: seq<K>, k: K)
    ensures Subseq(RemoveKey(s, k), s)
  {
    if s != [] {
      RemoveKeySubseq(s[1..], k);
      assert s == [s[0]] + s[1..];
      if s[0] == k {
        SubseqCons(s[0], RemoveKey(s[1..], k), s[1..]);
      } else {
        SubseqPrefix([s[0]], RemoveKey(s[1..], k), s[1..]);
      }
    }
  }

  /** A sequence that lists the keys of a map once each has the map's size. */
  lemma {:induction false} EnumerationLength<K(!new), V>(order: seq<K>, m: map<K, V>)
    requires NoDup(order) && forall k :: k in order <==> k in m
    ensures |order| == |m|
    decreases |order|
  {
    if order == [] {
      assert m == map[];
    } else {
      var k := order[0];
      var rest := m - {k};
      assert m.Keys == rest.Keys + {k};
      assert forall x :: x in order[1..] <==> x in order && x != k;
      EnumerationLength(order[1..], rest);
      assert |m.Keys| == |rest.Keys| + 1;
    }
  }
}
