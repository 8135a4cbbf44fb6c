/** COMMON plus per-toolchain deltas, the archives made of them, and the build-deps archive that
    leaves out what they already carry (`preflight.py`). */
module ToolchainSplit {
  import opened Wrappers
  import opened NixStore
  import opened Dicts
  import opened Sequences

  /** A Python dict from toolchain out-path to its requisites, in insertion order. */
  type Closures = seq<(string, seq<string>)>

  datatype Split = Split(common: set<string>, deltas: Closures)

  // ------------------------------------------------------------------------------------- closures

  predicate IsPath(p: string) {
    p != "" && p[0] == '/'
  }

  /** One out-path: skipped when it is no path, when the query fails, or when it prints nothing. */
  function Gather1(cs: Closures, outpath: string, q: Query): Closures {
    if !IsPath(outpath) then cs
    else
      match q([outpath])
      case None => cs
      case Some(lines) => if lines == [] then cs else Put(cs, outpath, lines)
  }

  function Gather(outpaths: seq<string>, q: Query): Closures {
    if outpaths == [] then [] else Gather1(Gather(outpaths[..|outpaths| - 1], q), outpaths[|outpaths| - 1], q)
  }

  function Union(cs: Closures): set<string> {
    if cs == [] then {} else Union(cs[..|cs| - 1]) + Elements(cs[|cs| - 1].1)
  }

  /** `Counter(p for paths in closures.values() for p in paths)[p]`. */
  function Freq(cs: Closures, p: string): nat {
    if cs == [] then 0 else Freq(cs[..|cs| - 1], p) + multiset(cs[|cs| - 1].1)[p]
  }

  function Common(cs: Closures): set<string> {
    if |cs| == 1 then Elements(cs[0].1) else set p | p in Union(cs) && Freq(cs, p) >= 2
  }

  function SplitOf(cs: Closures): (s: Split)
    ensures |s.deltas| == |cs|
  {
    Split(Common(cs), seq(|cs|, i requires 0 <= i < |cs| => (cs[i].0, Without(cs[i].1, Common(cs)))))
  }

  /** `compute_toolchain_split`. */
  method ComputeToolchainSplit(outpaths: seq<string>, q: Query) returns (r: Outcome<Split>)
    ensures r == if Gather(outpaths, q) == [] then Raised else Ok(SplitOf(Gather(outpaths, q)))
    ensures r.Ok? <==> exists p :: p in outpaths && p != "" && p[0] == '/' && q([p]).Some? && q([p]).value != []
    ensures r.Ok? ==> forall p ::
      HasKey(r.value.deltas, p) <==>
        p in outpaths && p != "" && p[0] == '/' && q([p]).Some? && q([p]).value != []
    ensures r.Ok? ==> forall i, j :: 0 <= i < j < |r.value.deltas| ==>
      ComesFirst(outpaths, r.value.deltas[i].0, r.value.deltas[j].0)
  {
    hide SplitOf, ComesFirst;
    if outpaths == [] {
      SplitSays(outpaths, q);
      return Raised;
    }
    var closures: Closures := [];
    for n := 0 to |outpaths|
      invariant closures == Gather(outpaths[..n], q)
    {
      var outpath := outpaths[n];
      assert outpaths[..n + 1][..n] == outpaths[..n] && outpaths[..n + 1][n] == outpath;
      if !IsPath(outpath) {
        continue;
      }
      var answer := q([outpath]);
      if answer == None {
        continue;
      }
      if answer.value == [] {
        continue;
      }
      closures := Put(closures, outpath, answer.value);
    }
    assert outpaths[..|outpaths|] == outpaths;
    SplitSays(outpaths, q);
    if closures == [] {
      return Raised;
    }
    return Ok(SplitOf(closures));
  }

  /** `collect_toolchain_archive_paths`. */
  method CollectToolchainArchivePaths(outpaths: seq<string>, q: Query) returns (all: set<string>)
    ensures all == Union(Gather(outpaths, q))
    ensures forall x :: x in all <==>
      exists p :: p in outpaths && p != "" && p[0] == '/' && q([p]).Some? && x in q([p]).value
  {
    UnionOfAnswers(outpaths, q);
    all := {};
    for n := 0 to |outpaths|
      invariant all == Union(Gather(outpaths[..n], q))
    {
      var outpath := outpaths[n];
      assert outpaths[..n + 1][..n] == outpaths[..n] && outpaths[..n + 1][n] == outpath;
      if !IsPath(outpath) {
        continue;
      }
      var answer := q([outpath]);
      if answer == None {
        continue;
      }
      GatherGood(outpaths[..n], q);
      if answer.value != [] { UnionOfAnswer(Gather(outpaths[..n], q), outpath, q); }
      all := all + Elements(answer.value);
    }
    assert outpaths[..|outpaths|] == outpaths;
  }

  // --------------------------------------------------------------------- what the loop has gathered

  /** Each closure is the answer the query gave for its key. */
  predicate Answered(cs: Closures, q: Query) {
    forall i :: 0 <= i < |cs| ==> cs[i].1 != [] && q([cs[i].0]) == Some(cs[i].1)
  }

  /** Asking again gives the same answer, so a repeated out-path changes nothing. */
  lemma PutAnswer(cs: Closures, outpath: string, q: Query)
    requires Answered(cs, q) && UniqueKeys(cs) && q([outpath]).Some?
    requires var lines := q([outpath]).value; lines != []
    ensures var r := Put(cs, outpath, q([outpath]).value);
      && r == (if HasKey(cs, outpath) then cs else cs + [(outpath, q([outpath]).value)])
      && Answered(r, q) && UniqueKeys(r)
  {
    PutIs(cs, outpath, q([outpath]).value);
  }

  lemma {:induction false} GatherGood(outpaths: seq<string>, q: Query)
    ensures Answered(Gather(outpaths, q), q) && UniqueKeys(Gather(outpaths, q))
    decreases |outpaths|
  {
    if outpaths != [] {
      var n := |outpaths| - 1;
      GatherGood(outpaths[..n], q);
      if IsPath(outpaths[n]) && q([outpaths[n]]).Some? && q([outpaths[n]]).value != [] {
        PutAnswer(Gather(outpaths[..n], q), outpaths[n], q);
      }
    }
  }

  /** Which out-paths are gathered: exactly those that look like a path and whose query answers. */
  lemma {:induction false} GatheredAre(outpaths: seq<string>, q: Query)
    ensures forall p :: HasKey(Gather(outpaths, q), p) <==>
      p in outpaths && p != "" && p[0] == '/' && q([p]).Some? && q([p]).value != []
    ensures Gather(outpaths, q) == [] <==>
      !exists p :: p in outpaths && p != "" && p[0] == '/' && q([p]).Some? && q([p]).value != []
    decreases |outpaths|
  {
    if outpaths != [] {
      var n := |outpaths| - 1;
      var front, last := outpaths[..n], outpaths[n];
      GatheredAre(front, q);
      GatherGood(front, q);
      assert outpaths == front + [last];
      if IsPath(last) && q([last]).Some? && q([last]).value != [] {
        PutAnswer(Gather(front, q), last, q);
        HasKeySnoc(Gather(front, q), (last, q([last]).value));
      }
    }
    NoKeyIff(Gather(outpaths, q));
  }

  lemma HasKeySnoc(cs: Closures, c: (string, seq<string>))
    ensures forall p :: HasKey(cs + [c], p) <==> HasKey(cs, p) || p == c.0
  {
    forall p ensures HasKey(cs + [c], p) <==> HasKey(cs, p) || p == c.0 {
      var t := cs + [c];
      assert t[|cs|] == c;
      if i :| 0 <= i < |cs| && cs[i].0 == p { assert t[i].0 == p; }
      if i :| 0 <= i < |t| && t[i].0 == p && i < |cs| { assert cs[i].0 == p; }
    }
  }

  lemma NoKeyIff(cs: Closures)
    ensures cs == [] <==> forall p :: !HasKey(cs, p)
  {
    if cs != [] { assert HasKey(cs, cs[0].0); }
  }

  /** `a` occurs in the list before `b` does. */
  predicate ComesFirst(s: seq<string>, a: string, b: string) {
    exists m :: 0 <= m < |s| && s[m] == a && b !in s[..m + 1]
  }

  lemma ComesFirstGrows(s: seq<string>, x: string, a: string, b: string)
    ensures ComesFirst(s, a, b) ==> ComesFirst(s + [x], a, b)
    ensures a in s && b !in s && a != b ==> ComesFirst(s + [x], a, b)
  {
    var t := s + [x];
    if m :| 0 <= m < |s| && s[m] == a && b !in s[..m + 1] {
      assert t[m] == a && t[..m + 1] == s[..m + 1];
    }
    if a in s && b !in s && a != b {
      var m :| 0 <= m < |s| && s[m] == a;
      assert t[m] == a && t[..m + 1] == s[..m + 1];
    }
  }

  /** And they keep the order in which they first occur. */
  lemma {:induction false} InOrderOfFirst(outpaths: seq<string>, q: Query)
    ensures var cs := Gather(outpaths, q);
      forall i, j :: 0 <= i < j < |cs| ==> ComesFirst(outpaths, cs[i].0, cs[j].0)
    decreases |outpaths|
  {
    hide ComesFirst;
    if outpaths != [] {
      var n := |outpaths| - 1;
      var front, last := outpaths[..n], outpaths[n];
      var cs, r := Gather(front, q), Gather(outpaths, q);
      InOrderOfFirst(front, q);
      GatherGood(front, q);
      GatheredAre(front, q);
      assert outpaths == front + [last];
      if IsPath(last) && q([last]).Some? && q([last]).value != [] {
        PutAnswer(cs, last, q);
      }
      forall i, j | 0 <= i < j < |r| ensures ComesFirst(outpaths, r[i].0, r[j].0) {
        ComesFirstGrows(front, last, r[i].0, r[j].0);
        assert i < |cs| && cs[i] == r[i] && HasKey(cs, r[i].0);
        if j == |cs| { assert !HasKey(cs, last); }
      }
    }
  }

  lemma SplitSays(outpaths: seq<string>, q: Query)
    ensures Gather(outpaths, q) != [] <==>
      exists p :: p in outpaths && p != "" && p[0] == '/' && q([p]).Some? && q([p]).value != []
    ensures var ds := SplitOf(Gather(outpaths, q)).deltas;
      && (forall p :: HasKey(ds, p) <==>
           p in outpaths && p != "" && p[0] == '/' && q([p]).Some? && q([p]).value != [])
      && forall i, j :: 0 <= i < j < |ds| ==> ComesFirst(outpaths, ds[i].0, ds[j].0)
    ensures outpaths == [] ==> Gather(outpaths, q) == []
  {
    hide ComesFirst, Common;
    GatheredAre(outpaths, q);
    InOrderOfFirst(outpaths, q);
    var cs := Gather(outpaths, q);
    var ds := SplitOf(cs).deltas;
    assert forall i :: 0 <= i < |ds| ==> ds[i].0 == cs[i].0;
  }

  /** The collected paths are those of all usable answers, and no others. */
  lemma UnionOfAnswers(outpaths: seq<string>, q: Query)
    ensures forall x :: x in Union(Gather(outpaths, q)) <==>
      exists p :: p in outpaths && p != "" && p[0] == '/' && q([p]).Some? && x in q([p]).value
  {
    hide Gather, Union;
    var cs := Gather(outpaths, q);
    GatherGood(outpaths, q);
    GatheredAre(outpaths, q);
    UnionElements(cs);
    forall x ensures InSome(cs, x) <==> exists p :: p in outpaths && p != "" && p[0] == '/' && q([p]).Some? && x in q([p]).value {
      if i :| 0 <= i < |cs| && x in cs[i].1 {
        assert HasKey(cs, cs[i].0);
      }
      if p :| p in outpaths && p != "" && p[0] == '/' && q([p]).Some? && x in q([p]).value {
        assert HasKey(cs, p);
        var i :| 0 <= i < |cs| && cs[i].0 == p;
        assert x in cs[i].1;
      }
    }
  }

  lemma UnionOfAnswer(cs: Closures, outpath: string, q: Query)
    requires Answered(cs, q) && UniqueKeys(cs) && q([outpath]).Some?
    requires q([outpath]).value != []
    ensures Union(Put(cs, outpath, q([outpath]).value)) == Union(cs) + Elements(q([outpath]).value)
  {
    hide Union;
    var lines := q([outpath]).value;
    PutAnswer(cs, outpath, q);
    UnionElements(cs);
    UnionSnoc(cs, (outpath, lines));
    if HasKey(cs, outpath) {
      var i :| 0 <= i < |cs| && cs[i].0 == outpath;
      assert forall p :: p in Elements(lines) ==> p in cs[i].1;
    }
  }

  lemma UnionSnoc(cs: Closures, c: (string, seq<string>))
    ensures Union(cs + [c]) == Union(cs) + Elements(c.1)
  {
    assert (cs + [c])[..|cs|] == cs;
  }

  lemma {:induction false} UnionElements(cs: Closures)
    ensures forall p :: p in Union(cs) <==> InSome(cs, p)
  {
    if cs != [] {
      var n := |cs| - 1;
      UnionElements(cs[..n]);
      assert forall i :: 0 <= i < n ==> cs[..n][i] == cs[i];
      forall p ensures p in Union(cs) <==> InSome(cs, p) {
        if InSome(cs[..n], p) {
          var i :| 0 <= i < n && p in cs[..n][i].1;
          assert p in cs[i].1;
        }
      }
    }
  }

  predicate InSome(cs: Closures, p: string) {
    exists i :: 0 <= i < |cs| && p in cs[i].1
  }

  // ------------------------------------------------------------------------------- shared paths

  lemma Once(s: seq<string>, p: string)
    requires Distinct(s)
    ensures multiset(s)[p] == if p in s then 1 else 0
    decreases |s|
  {
    if s != [] {
      var n := |s| - 1;
      assert s == s[..n] + [s[n]];
      Once(s[..n], p);
    }
  }

  predicate AllDistinct(cs: Closures) {
    forall i :: 0 <= i < |cs| ==> Distinct(cs[i].1)
  }

  predicate InTwo(cs: Closures, p: string) {
    exists i, j :: 0 <= i < j < |cs| && p in cs[i].1 && p in cs[j].1
  }

  lemma {:induction false} FreqIs(cs: Closures, p: string)
    requires AllDistinct(cs)
    ensures Freq(cs, p) >= 1 <==> InSome(cs, p)
    ensures Freq(cs, p) >= 2 <==> InTwo(cs, p)
  {
    if cs != [] {
      var n := |cs| - 1;
      FreqIs(cs[..n], p);
      Once(cs[n].1, p);
      assert forall i :: 0 <= i < n ==> cs[..n][i] == cs[i];
      if InSome(cs[..n], p) {
        var i :| 0 <= i < n && p in cs[..n][i].1;
        assert p in cs[i].1;
      }
      if InTwo(cs[..n], p) {
        var i, j :| 0 <= i < j < n && p in cs[..n][i].1 && p in cs[..n][j].1;
        assert p in cs[i].1 && p in cs[j].1;
      }
    }
  }
}
