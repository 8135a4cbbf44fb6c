/** `sort_keys=True` of `json.dumps`: every object, at any depth, lists its members by key. Sorting
    keeps a value equal as Python compares, and makes equal values the same, so that their texts, and
    the cache keys hashed from them, are the same too. */
module JsonSort {
  import opened Wrappers
  import opened Json
  import J = JsonRoundTrip
  import Order = StringOrder

  function Insert(ms: seq<Member>, m: Member): (r: seq<Member>)
    ensures |r| == |ms| + 1
  {
    if ms == [] || Order.Less(m.key, ms[0].key) then [m] + ms else [ms[0]] + Insert(ms[1..], m)
  }

  function SortMembers(ms: seq<Member>): (r: seq<Member>)
    ensures |r| == |ms|
  {
    if ms == [] then [] else Insert(SortMembers(ms[1..]), ms[0])
  }

  function SortKeys(v: Json): Json
    decreases v, 0
  {
    match v
    case Arr(items) => Arr(seq(|items|, i requires 0 <= i < |items| => SortKeys(items[i])))
    case Obj(ms) => Obj(SortMembers(SortValues(ms)))
    case _ => v
  }

  function SortValues(ms: seq<Member>): (r: seq<Member>)
    ensures |r| == |ms| && forall i :: 0 <= i < |ms| ==> r[i] == Member(ms[i].key, SortKeys(ms[i].value))
    decreases ms, 1
  {
    seq(|ms|, i requires 0 <= i < |ms| => assert ms[i] in ms; Member(ms[i].key, SortKeys(ms[i].value)))
  }

  lemma GetHead(ms: seq<Member>, k: string)
    ensures Get(ms, k) == if ms == [] then None else if ms[0].key == k then Some(ms[0].value) else Get(ms[1..], k)
  {
  }

  lemma {:induction false} GetInsert(ms: seq<Member>, m: Member, k: string)
    requires !HasKey(ms, m.key)
    ensures Get(Insert(ms, m), k) == if k == m.key then Some(m.value) else Get(ms, k)
  {
    hide HasKey;
    J.HasKeyHead(ms, m.key);
    GetHead(ms, k);
    GetHead(Insert(ms, m), k);
    if ms == [] || Order.Less(m.key, ms[0].key) {
      assert ([m] + ms)[1..] == ms;
    } else {
      GetInsert(ms[1..], m, k);
      assert Insert(ms, m)[1..] == Insert(ms[1..], m);
    }
  }

  lemma UniqueTail(ms: seq<Member>)
    requires UniqueKeys(ms) && ms != []
    ensures UniqueKeys(ms[1..]) && !HasKey(ms[1..], ms[0].key)
  {
  }

  /** Sorting does not change what a dict maps to what. */
  lemma {:induction false} GetSorted(ms: seq<Member>, k: string)
    requires UniqueKeys(ms)
    ensures Get(SortMembers(ms), k) == Get(ms, k)
  {
    if ms != [] {
      UniqueTail(ms);
      GetSorted(ms[1..], k);
      GetSorted(ms[1..], ms[0].key);
      GetInsert(SortMembers(ms[1..]), ms[0], k);
      GetHead(ms, k);
    }
  }

  lemma {:induction false} GetSortedValues(ms: seq<Member>, k: string)
    ensures Get(SortValues(ms), k) == if Get(ms, k).Some? then Some(SortKeys(Get(ms, k).value)) else None
  {
    hide SortKeys;
    GetHead(ms, k);
    GetHead(SortValues(ms), k);
    if ms != [] {
      GetSortedValues(ms[1..], k);
      assert SortValues(ms)[1..] == SortValues(ms[1..]);
    }
  }

  lemma SortedLookup(ms: seq<Member>, k: string)
    requires UniqueKeys(ms)
    ensures Get(SortKeys(Obj(ms)).members, k) == if Get(ms, k).Some? then Some(SortKeys(Get(ms, k).value)) else None
  {
    hide Get;
    assert UniqueKeys(SortValues(ms));
    GetSorted(SortValues(ms), k);
    GetSortedValues(ms, k);
  }

  lemma {:induction false} InsertMembers(ms: seq<Member>, m: Member)
    ensures forall x :: x in Insert(ms, m) <==> x == m || x in ms
  {
    if ms != [] && !Order.Less(m.key, ms[0].key) {
      InsertMembers(ms[1..], m);
      assert ms == [ms[0]] + ms[1..];
    }
  }

  lemma {:induction false} SortedMembers(ms: seq<Member>)
    ensures forall x :: x in SortMembers(ms) <==> x in ms
  {
    if ms != [] {
      SortedMembers(ms[1..]);
      InsertMembers(SortMembers(ms[1..]), ms[0]);
      assert ms == [ms[0]] + ms[1..];
    }
  }

  lemma {:induction false} InsertUnique(ms: seq<Member>, m: Member)
    requires UniqueKeys(ms) && forall x :: x in ms ==> x.key != m.key
    ensures UniqueKeys(Insert(ms, m))
  {
    if ms != [] && !Order.Less(m.key, ms[0].key) {
      UniqueTail(ms);
      InsertUnique(ms[1..], m);
      InsertMembers(ms[1..], m);
      var t := Insert(ms[1..], m);
      assert forall i :: 0 <= i < |t| ==> t[i] in t;
      assert forall x :: x in ms[1..] ==> x.key != ms[0].key;
    }
  }

  lemma {:induction false} SortUnique(ms: seq<Member>)
    requires UniqueKeys(ms)
    ensures UniqueKeys(SortMembers(ms))
  {
    if ms != [] {
      UniqueTail(ms);
      SortUnique(ms[1..]);
      SortedMembers(ms[1..]);
      InsertUnique(SortMembers(ms[1..]), ms[0]);
    }
  }

  lemma {:induction false} SortKeepsWellFormed(v: Json)
    requires WellFormed(v)
    ensures WellFormed(SortKeys(v))
    decreases v
  {
    match v
    case Arr(items) =>
      forall i | 0 <= i < |items| ensures WellFormed(SortKeys(items[i])) {
        SortKeepsWellFormed(items[i]);
      }
    case Obj(ms) =>
      forall i | 0 <= i < |ms| ensures WellFormed(SortKeys(ms[i].value)) {
        assert ms[i] in ms;
        SortKeepsWellFormed(ms[i].value);
      }
      SortObject(ms);
    case _ =>
  }

  lemma SortObject(ms: seq<Member>)
    requires UniqueKeys(ms) && forall i :: 0 <= i < |ms| ==> WellFormed(SortKeys(ms[i].value))
    ensures WellFormed(SortKeys(Obj(ms)))
  {
    hide SortKeys, WellFormed;
    var vs := SortValues(ms);
    assert UniqueKeys(vs);
    SortUnique(vs);
    SortedMembers(vs);
    var r := SortMembers(vs);
    forall i | 0 <= i < |r| ensures WellFormed(r[i].value) {
      assert r[i] in r;
    }
    ObjectWellFormed(ms, r);
  }

  lemma ObjectWellFormed(ms: seq<Member>, r: seq<Member>)
    requires r == SortMembers(SortValues(ms)) && UniqueKeys(r) && forall i :: 0 <= i < |r| ==> WellFormed(r[i].value)
    ensures WellFormed(SortKeys(Obj(ms)))
  {
  }

  // ------------------------------------------------------------------------------- equal as Python

  /** `==` of Python values: dicts compare by content, whatever the order of their keys. */
  ghost predicate Same(v: Json, w: Json)
    decreases v
  {
    match v
    case Arr(items) => w.Arr? && |items| == |w.items| && forall i :: 0 <= i < |items| ==> Same(items[i], w.items[i])
    case Obj(ms) =>
      && w.Obj?
      && (forall k :: HasKey(ms, k) <==> HasKey(w.members, k))
      && (forall i :: 0 <= i < |ms| ==>
           Get(w.members, ms[i].key).Some? && Same(ms[i].value, Get(w.members, ms[i].key).value))
    case _ => v == w
  }

  /** Sorting keys gives an equal value. */
  lemma {:induction false} SortedIsSame(v: Json)
    requires WellFormed(v)
    ensures Same(v, SortKeys(v))
    decreases v
  {
    match v
    case Arr(items) =>
      forall i | 0 <= i < |items| ensures Same(items[i], SortKeys(items[i])) {
        SortedIsSame(items[i]);
      }
    case Obj(ms) =>
      var r := SortKeys(v).members;
      forall k ensures HasKey(ms, k) <==> HasKey(r, k) {
        SortedLookup(ms, k);
      }
      forall i | 0 <= i < |ms| ensures Get(r, ms[i].key).Some? && Same(ms[i].value, Get(r, ms[i].key).value) {
        assert ms[i] in ms;
        SortedIsSame(ms[i].value);
        J.GetAt(ms, i);
        SortedLookup(ms, ms[i].key);
      }
    case _ =>
  }

  // ------------------------------------------------------------------------------------ canonical

  function KeysOf(ms: seq<Member>): (ks: seq<string>)
    ensures |ks| == |ms| && forall i :: 0 <= i < |ms| ==> ks[i] == ms[i].key
  {
    seq(|ms|, i requires 0 <= i < |ms| => ms[i].key)
  }

  lemma {:induction false} InsertKeys(ms: seq<Member>, m: Member)
    requires m.key !in KeysOf(ms)
    ensures KeysOf(Insert(ms, m)) == Order.InsertNew(KeysOf(ms), m.key)
  {
    if ms == [] || Order.Less(m.key, ms[0].key) {
      assert KeysOf([m] + ms) == [m.key] + KeysOf(ms);
    } else {
      assert KeysOf(ms)[1..] == KeysOf(ms[1..]);
      InsertKeys(ms[1..], m);
      assert KeysOf(ms)[0] != m.key;
      assert KeysOf(Insert(ms, m)) == [ms[0].key] + KeysOf(Insert(ms[1..], m));
    }
  }

  lemma {:induction false} SortIncreasing(ms: seq<Member>)
    requires UniqueKeys(ms)
    ensures Order.Increasing(KeysOf(SortMembers(ms)))
  {
    if ms != [] {
      UniqueTail(ms);
      SortIncreasing(ms[1..]);
      SortedMembers(ms[1..]);
      var t := SortMembers(ms[1..]);
      assert ms[0].key !in KeysOf(t) by {
        forall i | 0 <= i < |t| ensures t[i].key != ms[0].key { assert t[i] in ms[1..]; }
      }
      InsertKeys(t, ms[0]);
      Order.InsertNewIncreasing(KeysOf(t), ms[0].key);
    }
  }

  lemma SortKeysIs(ms: seq<Member>)
    ensures SortKeys(Obj(ms)) == Obj(SortMembers(SortValues(ms)))
  {
  }

  lemma KeysAre(ms: seq<Member>, k: string)
    requires UniqueKeys(ms)
    ensures k in KeysOf(SortMembers(SortValues(ms))) <==> HasKey(ms, k)
  {
    SortKeysIs(ms);
    hide SortKeys, SortMembers, SortValues;
    var r := SortMembers(SortValues(ms));
    SortedLookup(ms, k);
    if k in KeysOf(r) {
      var i :| 0 <= i < |r| && KeysOf(r)[i] == k;
      assert r[i].key == k;
    }
    if HasKey(r, k) {
      var i :| 0 <= i < |r| && r[i].key == k;
      assert KeysOf(r)[i] == k;
    }
  }

  lemma SortedAt(ms: seq<Member>, i: nat)
    requires UniqueKeys(ms) && i < |SortMembers(SortValues(ms))|
    ensures var m := SortMembers(SortValues(ms))[i];
      Get(ms, m.key).Some? && m.value == SortKeys(Get(ms, m.key).value)
  {
    var r := SortMembers(SortValues(ms));
    assert UniqueKeys(SortValues(ms));
    SortUnique(SortValues(ms));
    J.GetAt(r, i);
    SortedLookup(ms, r[i].key);
  }

  lemma FindMember(ms: seq<Member>, k: string) returns (i: nat)
    requires UniqueKeys(ms) && Get(ms, k).Some?
    ensures i < |ms| && ms[i].key == k && Get(ms, k).value == ms[i].value
  {
    i :| 0 <= i < |ms| && ms[i].key == k;
    J.GetAt(ms, i);
  }

  /** The text with sorted keys is canonical: equal values, however their dicts were filled, print
      alike. */
  lemma {:induction false} SameSorted(v: Json, w: Json)
    requires WellFormed(v) && WellFormed(w) && Same(v, w)
    ensures SortKeys(v) == SortKeys(w)
    decreases v
  {
    match v
    case Arr(items) =>
      forall i | 0 <= i < |items| ensures SortKeys(items[i]) == SortKeys(w.items[i]) {
        SameSorted(items[i], w.items[i]);
      }
    case Obj(ms) =>
      var ws := w.members;
      var r, t := SortMembers(SortValues(ms)), SortMembers(SortValues(ws));
      SameKeyOrder(ms, ws);
      forall i | 0 <= i < |r| ensures r[i] == t[i] {
        var k := r[i].key;
        assert KeysOf(r)[i] == KeysOf(t)[i];
        SortedAt(ms, i);
        SortedAt(ws, i);
        var j := FindMember(ms, k);
        assert ms[j] in ms;
        SameValueAt(ws, k);
        SameSorted(ms[j].value, Get(ws, k).value);
      }
    case _ =>
  }

  lemma SameValueAt(ws: seq<Member>, k: string)
    requires WellFormed(Obj(ws)) && Get(ws, k).Some?
    ensures WellFormed(Get(ws, k).value)
  {
    var i := FindMember(ws, k);
  }

  lemma SameKeyOrder(ms: seq<Member>, ws: seq<Member>)
    requires UniqueKeys(ms) && UniqueKeys(ws) && forall k :: HasKey(ms, k) <==> HasKey(ws, k)
    ensures KeysOf(SortMembers(SortValues(ms))) == KeysOf(SortMembers(SortValues(ws)))
  {
    assert UniqueKeys(SortValues(ms)) && UniqueKeys(SortValues(ws));
    SortIncreasing(SortValues(ms));
    SortIncreasing(SortValues(ws));
    forall k ensures k in KeysOf(SortMembers(SortValues(ms))) <==> k in KeysOf(SortMembers(SortValues(ws))) {
      KeysAre(ms, k);
      KeysAre(ws, k);
    }
    Order.IncreasingUnique(KeysOf(SortMembers(SortValues(ms))), KeysOf(SortMembers(SortValues(ws))));
  }
}
