/** Python's string order (by code point) and `sorted(set(values))`, which the cache keys use for
    architecture and package lists, and the gate edges for the shared dependencies of a task. Two
    lists with the same elements have one canonical form. */
module StringOrder {

  predicate Less(a: string, b: string) {
    b != "" && (a == "" || a[0] < b[0] || (a[0] == b[0] && Less(a[1..], b[1..])))
  }

  lemma {:induction false} LessIrreflexive(a: string)
    ensures !Less(a, a)
  {
    if a != "" {
      LessIrreflexive(a[1..]);
    }
  }

  lemma {:induction false} LessTransitive(a: string, b: string, c: string)
    requires Less(a, b) && Less(b, c)
    ensures Less(a, c)
  {
    if a != "" && a[0] == b[0] == c[0] {
      LessTransitive(a[1..], b[1..], c[1..]);
    }
  }

  lemma {:induction false} LessTotal(a: string, b: string)
    ensures a == b || Less(a, b) || Less(b, a)
  {
    if a != "" && b != "" && a[0] == b[0] {
      LessTotal(a[1..], b[1..]);
      assert [a[0]] + a[1..] == a && [b[0]] + b[1..] == b;
    }
  }

  /** Strictly increasing, hence without duplicates. */
  predicate Increasing(s: seq<string>) {
    forall i, j :: 0 <= i < j < |s| ==> Less(s[i], s[j])
  }

  function InsertNew(s: seq<string>, x: string): seq<string> {
    if s == [] then [x]
    else if s[0] == x then s
    else if Less(x, s[0]) then [x] + s
    else [s[0]] + InsertNew(s[1..], x)
  }

  function SortedSet(values: seq<string>): seq<string> {
    if values == [] then [] else InsertNew(SortedSet(values[1..]), values[0])
  }

  lemma {:induction false} InsertNewElements(s: seq<string>, x: string, y: string)
    ensures y in InsertNew(s, x) <==> y == x || y in s
  {
    if s != [] && s[0] != x && !Less(x, s[0]) {
      InsertNewElements(s[1..], x, y);
    }
  }

  lemma {:induction false} InsertNewIncreasing(s: seq<string>, x: string)
    requires Increasing(s)
    ensures Increasing(InsertNew(s, x))
  {
    var r := InsertNew(s, x);
    if s == [] || s[0] == x {
    } else if Less(x, s[0]) {
      forall i, j | 0 <= i < j < |r| ensures Less(r[i], r[j]) {
        if i == 0 && j > 1 {
          LessTransitive(x, s[0], s[j - 1]);
        }
      }
    } else {
      LessTotal(x, s[0]);
      InsertNewIncreasing(s[1..], x);
      var t := InsertNew(s[1..], x);
      forall i, j | 0 <= i < j < |r| ensures Less(r[i], r[j]) {
        if i == 0 {
          assert r[j] == t[j - 1] && t[j - 1] in t;
          InsertNewElements(s[1..], x, r[j]);
          if r[j] != x {
            var m :| 0 <= m < |s[1..]| && s[1..][m] == r[j];
            assert s[m + 1] == r[j];
          }
        }
      }
    }
  }

  /** `sorted(set(values))` holds exactly the given values, in strictly increasing order. */
  lemma {:induction false} SortedSetIs(values: seq<string>)
    ensures Increasing(SortedSet(values))
    ensures forall y :: y in SortedSet(values) <==> y in values
  {
    if values != [] {
      SortedSetIs(values[1..]);
      InsertNewIncreasing(SortedSet(values[1..]), values[0]);
      forall y ensures y in SortedSet(values) <==> y in values {
        InsertNewElements(SortedSet(values[1..]), values[0], y);
      }
    }
  }

  /** An increasing sequence is determined by its elements. */
  lemma {:induction false} IncreasingUnique(s: seq<string>, t: seq<string>)
    requires Increasing(s) && Increasing(t)
    requires forall y :: y in s <==> y in t
    ensures s == t
  {
    assert t == [] || t[0] in t;
    if s != [] {
      assert s[0] in t;
      assert t != [] && t[0] in s;
      SameHead(s, t);
      forall y ensures y in s[1..] <==> y in t[1..] {
        TailElements(s, y);
        TailElements(t, y);
      }
      IncreasingUnique(s[1..], t[1..]);
    }
  }

  lemma SameHead(s: seq<string>, t: seq<string>)
    requires Increasing(s) && Increasing(t) && s != [] && t != []
    requires s[0] in t && t[0] in s
    ensures s[0] == t[0]
  {
    if s[0] != t[0] {
      var i :| 0 <= i < |t| && t[i] == s[0];
      var j :| 0 <= j < |s| && s[j] == t[0];
      LessTransitive(s[0], t[0], s[0]);
      LessIrreflexive(s[0]);
    }
  }

  lemma TailElements(s: seq<string>, y: string)
    requires Increasing(s) && s != []
    ensures y in s[1..] <==> y in s && y != s[0]
  {
    if y in s[1..] {
      var i :| 0 <= i < |s[1..]| && s[1..][i] == y;
      assert s[i + 1] == y;
      LessIrreflexive(y);
    }
  }

  /** Equal as sets, equal after canonicalisation; and the other way round. */
  lemma SortedSetCanonical(a: seq<string>, b: seq<string>)
    ensures SortedSet(a) == SortedSet(b) <==> (forall y :: y in a <==> y in b)
  {
    SortedSetIs(a);
    SortedSetIs(b);
    if forall y :: y in a <==> y in b {
      IncreasingUnique(SortedSet(a), SortedSet(b));
    }
  }
}
