/** A Python dict as the list of its items, in insertion order. */
module Dicts {

  predicate UniqueKeys<K(==), V>(d: seq<(K, V)>) {
    forall i, j :: 0 <= i < j < |d| ==> d[i].0 != d[j].0
  }

  predicate HasKey<K(==), V>(d: seq<(K, V)>, k: K) {
    exists i :: 0 <= i < |d| && d[i].0 == k
  }

  /** `d[k] = v`: a repeated key keeps its place. */
  function Put<K(==), V>(d: seq<(K, V)>, k: K, v: V): seq<(K, V)> {
    if d == [] then [(k, v)]
    else if d[0].0 == k then [(k, v)] + d[1..]
    else [d[0]] + Put(d[1..], k, v)
  }

  lemma HasKeyHead<K, V>(d: seq<(K, V)>, k: K)
    requires d != []
    ensures HasKey(d, k) <==> d[0].0 == k || HasKey(d[1..], k)
  {
    if i :| 0 <= i < |d| && d[i].0 == k && i > 0 { assert d[1..][i - 1].0 == k; }
    if i :| 0 <= i < |d[1..]| && d[1..][i].0 == k { assert d[i + 1].0 == k; }
  }

  /** A new key goes to the end; storing the same value again changes nothing. */
  lemma {:induction false} PutIs<K, V>(d: seq<(K, V)>, k: K, v: V)
    requires forall i :: 0 <= i < |d| && d[i].0 == k ==> d[i].1 == v
    ensures Put(d, k, v) == if HasKey(d, k) then d else d + [(k, v)]
  {
    hide HasKey;
    if d == [] {
      assert !HasKey(d, k) by { NoKeys<K, V>(k); }
    } else {
      HasKeyHead(d, k);
      assert d == [d[0]] + d[1..];
      if d[0].0 != k {
        assert forall i :: 0 < i < |d| ==> d[i] == d[1..][i - 1];
        PutIs(d[1..], k, v);
      }
    }
  }

  lemma PutLast<K, V>(d: seq<(K, V)>)
    requires d != [] && UniqueKeys(d)
    ensures UniqueKeys(d[..|d| - 1]) && Put(d[..|d| - 1], d[|d| - 1].0, d[|d| - 1].1) == d
  {
    hide Put;
    var n := |d| - 1;
    PutIs(d[..n], d[n].0, d[n].1);
    assert d == d[..n] + [d[n]];
  }

  lemma NoKeys<K, V>(k: K)
    ensures !HasKey<K, V>([], k)
  {
  }

  lemma {:induction false} PutMember<K, V>(d: seq<(K, V)>, k: K, v: V, x: (K, V))
    requires UniqueKeys(d)
    ensures x in Put(d, k, v) <==> x == (k, v) || (x.0 != k && x in d)
  {
    if d != [] {
      assert d == [d[0]] + d[1..];
      assert x in d[1..] ==> x.0 != d[0].0;
      if d[0].0 != k {
        PutMember(d[1..], k, v, x);
      }
    }
  }

  lemma {:induction false} PutKeepsUnique<K, V>(d: seq<(K, V)>, k: K, v: V)
    requires UniqueKeys(d)
    ensures UniqueKeys(Put(d, k, v))
  {
    if d != [] && d[0].0 != k {
      PutKeepsUnique(d[1..], k, v);
      var r := Put(d[1..], k, v);
      forall i | 0 <= i < |r| ensures r[i].0 != d[0].0 {
        PutMember(d[1..], k, v, r[i]);
      }
    }
  }
}
