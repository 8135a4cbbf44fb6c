/** The toolchain split loses nothing, ships nothing twice, and can be imported. */
module SplitTheorems {
  import opened Wrappers
  import opened NixStore
  import opened Sequences
  import opened Dicts
  import opened ToolchainSplit

  /** Each closure lists its paths once, dependencies first. */
  predicate GoodClosures(refs: Refs, cs: Closures) {
    AllDistinct(cs) && forall i :: 0 <= i < |cs| ==> DepsFirst(refs, cs[i].1)
  }

  lemma GatherGoodClosures(refs: Refs, q: Query, outpaths: seq<string>)
    requires Faithful(refs, q)
    ensures GoodClosures(refs, Gather(outpaths, q)) && UniqueKeys(Gather(outpaths, q))
  {
    hide Gather, DepsFirst, Distinct;
    GatherGood(outpaths, q);
    var cs := Gather(outpaths, q);
    forall i | 0 <= i < |cs| ensures Distinct(cs[i].1) && DepsFirst(refs, cs[i].1) {
      assert IsClosureOf(refs, [cs[i].0], q([cs[i].0]).value);
    }
  }

  // ----------------------------------------------------------------------------------- partition

  function Total(cs: Closures): nat {
    if cs == [] then 0 else Total(cs[..|cs| - 1]) + |cs[|cs| - 1].1|
  }

  predicate PairwiseDisjoint(cs: Closures) {
    forall i, j :: 0 <= i < j < |cs| ==> Elements(cs[i].1) !! Elements(cs[j].1)
  }

  lemma {:induction false} DisjointTotal(cs: Closures)
    requires AllDistinct(cs) && PairwiseDisjoint(cs)
    ensures |Union(cs)| == Total(cs)
  {
    if cs != [] {
      var n := |cs| - 1;
      assert forall i :: 0 <= i < n ==> cs[..n][i] == cs[i];
      DisjointTotal(cs[..n]);
      DistinctCount(cs[n].1);
      UnionElements(cs[..n]);
      assert Union(cs[..n]) !! Elements(cs[n].1);
    }
  }

  /** A path of two closures, or of the only one, is common. */
  lemma CommonIs(cs: Closures, p: string)
    requires AllDistinct(cs) && cs != []
    ensures p in Common(cs) <==> if |cs| == 1 then p in cs[0].1 else InTwo(cs, p)
  {
    hide Union, Freq, Distinct;
    FreqIs(cs, p);
    UnionElements(cs);
  }

  lemma DeltaElements(cs: Closures, i: nat)
    requires i < |cs|
    ensures Elements(SplitOf(cs).deltas[i].1) == Elements(cs[i].1) - Common(cs)
    ensures Distinct(cs[i].1) ==> Distinct(SplitOf(cs).deltas[i].1)
  {
    hide Common;
  }

  /** COMMON and the deltas partition the union of the closures: nothing lost, nothing twice. */
  lemma SplitPartition(cs: Closures)
    requires AllDistinct(cs) && cs != []
    ensures var s := SplitOf(cs);
      && PairwiseDisjoint(s.deltas)
      && s.common !! Union(s.deltas)
      && s.common + Union(s.deltas) == Union(cs)
      && |s.common| + Total(s.deltas) == |Union(cs)|
  {
    hide Common, Distinct, Freq, SplitOf, InTwo;
    var s := SplitOf(cs);
    assert |s.deltas| == |cs| && s.common == Common(cs) by { SplitShape(cs); }
    forall i | 0 <= i < |cs|
      ensures Elements(s.deltas[i].1) == Elements(cs[i].1) - Common(cs) && Distinct(s.deltas[i].1)
    {
      DeltaElements(cs, i);
    }
    forall i, j | 0 <= i < j < |cs| ensures Elements(s.deltas[i].1) !! Elements(s.deltas[j].1) {
      forall p | p in cs[i].1 && p in cs[j].1 ensures p in Common(cs) {
        CommonIs(cs, p);
        TwoIs(cs, p, i, j);
      }
    }
    UnionOfDeltas(cs, s);
    DisjointTotal(s.deltas);
    assert |s.common + Union(s.deltas)| == |s.common| + |Union(s.deltas)|;
  }

  lemma SplitShape(cs: Closures)
    ensures SplitOf(cs).common == Common(cs)
  {
  }

  lemma TwoIs(cs: Closures, p: string, i: nat, j: nat)
    requires i < j < |cs| && p in cs[i].1 && p in cs[j].1
    ensures InTwo(cs, p)
  {
  }

  lemma CommonInUnion(cs: Closures)
    requires cs != []
    ensures Common(cs) <= Union(cs)
  {
    UnionElements(cs);
  }

  lemma UnionOfDeltas(cs: Closures, s: Split)
    requires cs != [] && |s.deltas| == |cs| && s.common == Common(cs)
    requires forall i :: 0 <= i < |cs| ==> Elements(s.deltas[i].1) == Elements(cs[i].1) - s.common
    ensures s.common !! Union(s.deltas) && s.common + Union(s.deltas) == Union(cs)
  {
    hide Common, Union;
    UnionElements(cs);
    UnionElements(s.deltas);
    CommonInUnion(cs);
    assert forall p, i :: 0 <= i < |cs| ==> (p in s.deltas[i].1 <==> p in Elements(s.deltas[i].1));
    forall p ensures InSome(s.deltas, p) <==> InSome(cs, p) && p !in s.common {
      if InSome(s.deltas, p) {
        var i :| 0 <= i < |s.deltas| && p in s.deltas[i].1;
        assert p in Elements(cs[i].1);
      }
      if InSome(cs, p) && p !in s.common {
        var i :| 0 <= i < |cs| && p in cs[i].1;
        assert p in Elements(s.deltas[i].1);
      }
    }
  }

  // -------------------------------------------------------------------------------------- import

  /** COMMON is reference-closed: what two closed sets share is closed. */
  lemma CommonRefClosed(refs: Refs, cs: Closures)
    requires GoodClosures(refs, cs) && cs != []
    ensures RefClosed(refs, Common(cs))
  {
    hide Common, Distinct, DepsFirst;
    forall p, r | p in Common(cs) && r in refs(p) ensures r in Common(cs) {
      CommonIs(cs, p);
      CommonIs(cs, r);
      if |cs| == 1 {
        ClosedOfDepsFirst(refs, cs[0].1);
        assert p in Elements(cs[0].1);
        assert r in Elements(cs[0].1);
      } else {
        var i, j :| 0 <= i < j < |cs| && p in cs[i].1 && p in cs[j].1;
        ClosedOfDepsFirst(refs, cs[i].1);
        ClosedOfDepsFirst(refs, cs[j].1);
        assert p in Elements(cs[i].1) && p in Elements(cs[j].1);
        assert r in Elements(cs[i].1) && r in Elements(cs[j].1);
      }
    }
  }

  /** So expanding its requisites again, as the export of the common archive does, adds nothing. */
  lemma ExpandingAddsNothing(refs: Refs, seeds: seq<string>, list: seq<string>)
    requires IsClosureOf(refs, seeds, list)
    ensures Elements(list) == Elements(seeds) <==> RefClosed(refs, Elements(seeds))
  {
    ClosedOfDepsFirst(refs, list);
  }

  function ImportEach(refs: Refs, store: set<string>, archives: seq<seq<string>>): Option<set<string>> {
    if archives == [] then Some(store)
    else
      match ImportEach(refs, store, archives[..|archives| - 1])
      case None => None
      case Some(s) => Import(refs, s, archives[|archives| - 1])
  }

  /** The delta archives of the chosen toolchains. */
  function Deltas(s: Split, picks: seq<nat>): seq<seq<string>>
    requires forall k :: 0 <= k < |picks| ==> picks[k] < |s.deltas|
  {
    seq(|picks|, k requires 0 <= k < |picks| => s.deltas[picks[k]].1)
  }

  function Paths(archives: seq<seq<string>>): set<string> {
    if archives == [] then {} else Paths(archives[..|archives| - 1]) + Elements(archives[|archives| - 1])
  }

  /** One delta on top of COMMON completes that toolchain's closure. */
  lemma DeltaImports(refs: Refs, cs: Closures, i: nat, store: set<string>)
    requires GoodClosures(refs, cs) && i < |cs| && Common(cs) <= store
    ensures Import(refs, store, SplitOf(cs).deltas[i].1) == Some(store + Elements(cs[i].1))
  {
    hide Common, Distinct, DepsFirst, Import;
    ImportProvided(refs, store, cs[i].1, Common(cs));
    assert store + (Elements(cs[i].1) - Common(cs)) == store + Elements(cs[i].1);
  }

  lemma {:induction false} DeltasImport(refs: Refs, cs: Closures, picks: seq<nat>, store: set<string>)
    requires GoodClosures(refs, cs) && Common(cs) <= store
    requires forall k :: 0 <= k < |picks| ==> picks[k] < |cs|
    ensures var r := ImportEach(refs, store, Deltas(SplitOf(cs), picks));
      && r.Some? && r.value == store + Paths(Deltas(SplitOf(cs), picks))
      && forall k :: 0 <= k < |picks| ==> Elements(cs[picks[k]].1) <= r.value
  {
    hide Common, Distinct, DepsFirst, Import, GoodClosures, SplitOf;
    var archives := Deltas(SplitOf(cs), picks);
    if picks == [] {
      assert archives == [];
    } else {
      var n := |picks| - 1;
      assert archives[..n] == Deltas(SplitOf(cs), picks[..n]);
      DeltasImport(refs, cs, picks[..n], store);
      var mid := ImportEach(refs, store, archives[..n]).value;
      DeltaImports(refs, cs, picks[n], mid);
      ImportAdds(refs, mid, archives[n]);
      assert forall k :: 0 <= k < n ==> picks[..n][k] == picks[k];
    }
  }

  /** A worker that imports the common archive and then any toolchains' deltas, in any order, never
      meets an unregistered reference and holds the whole closure of each of them. */
  lemma SplitImports(refs: Refs, q: Query, outpaths: seq<string>, seeds: seq<string>, picks: seq<nat>,
      store: set<string>)
    requires Faithful(refs, q) && Gather(outpaths, q) != []
    requires var cs := Gather(outpaths, q);
      Elements(seeds) == Common(cs) && q(seeds).Some? && forall k :: 0 <= k < |picks| ==> picks[k] < |cs|
    ensures var cs := Gather(outpaths, q);
      var s := SplitOf(cs);
      && Elements(q(seeds).value) == s.common
      && Import(refs, store, q(seeds).value) == Some(store + s.common)
      && var r := ImportEach(refs, store + s.common, Deltas(s, picks));
      && r == Some(store + s.common + Paths(Deltas(s, picks)))
      && forall k :: 0 <= k < |picks| ==> Elements(cs[picks[k]].1) <= r.value
  {
    hide Gather, Common, Distinct, DepsFirst, Import, GoodClosures, ImportEach, Paths;
    var cs := Gather(outpaths, q);
    GatherGoodClosures(refs, q, outpaths);
    CommonRefClosed(refs, cs);
    assert IsClosureOf(refs, seeds, q(seeds).value);
    ExpandingAddsNothing(refs, seeds, q(seeds).value);
    ImportClosure(refs, store, q(seeds).value);
    DeltasImport(refs, cs, picks, store + Common(cs));
  }
}
