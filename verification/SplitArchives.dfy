/** The archives on the shared disk: which paths they hold after `export_toolchain_split`, and the
    build-deps archive that leaves those out (`preflight.py`). */
module SplitArchives {
  import opened Wrappers
  import opened NixStore
  import opened Sequences
  import opened ToolchainSplit
  import opened SplitTheorems
  import TaskGraph

  const COMMON_ARCHIVE := "toolchains.common.archive"

  /** `toolchain_delta_archive_name`; `None` for the `ValueError`. */
  function DeltaArchiveName(outpath: string): Option<string> {
    var hash := TaskGraph.HeadToken(TaskGraph.Basename(outpath));
    if hash == "" then None else Some("toolchains." + hash + ".out.archive")
  }

  type Archives = map<string, seq<string>>

  function WriteDelta(written: Outcome<Archives>, delta: (string, seq<string>),
      exports: seq<string> -> bool): Outcome<Archives> {
    if written.Raised? then Raised
    else if delta.1 == [] then written
    else
      match DeltaArchiveName(delta.0)
      case None => Raised
      case Some(name) => if exports(delta.1) then Ok(written.value[name := delta.1]) else Raised
  }

  function WriteDeltas(written: Outcome<Archives>, deltas: Closures, exports: seq<string> -> bool): Outcome<Archives> {
    if deltas == [] then written
    else WriteDelta(WriteDeltas(written, deltas[..|deltas| - 1], exports), deltas[|deltas| - 1], exports)
  }

  /** `export_closure` of the common paths: it refuses an empty seed list. */
  function WriteCommon(s: Split, seeds: seq<string>, q: Query, exports: seq<string> -> bool): Outcome<Archives> {
    if seeds == [] then Raised
    else
      match q(seeds)
      case None => Raised
      case Some(list) => if list != [] && exports(list) then Ok(map[COMMON_ARCHIVE := list]) else Raised
  }

  /** The common archive can be written, and so can every delta that is not empty. */
  predicate Exportable(s: Split, seeds: seq<string>, q: Query, exports: seq<string> -> bool) {
    && seeds != [] && q(seeds).Some? && q(seeds).value != [] && exports(q(seeds).value)
    && forall k :: 0 <= k < |s.deltas| && s.deltas[k].1 != [] ==>
         DeltaArchiveName(s.deltas[k].0).Some? && exports(s.deltas[k].1)
  }

  /** `export_toolchain_split`, path sets only. `seeds` is `sorted(common_paths)`. It raises exactly
      when some archive cannot be written; otherwise the common archive holds what the query lists, and
      each other name the newest non-empty delta of that store hash. */
  method ExportToolchainSplit(s: Split, seeds: seq<string>, q: Query, exports: seq<string> -> bool)
    returns (r: Outcome<Archives>)
    ensures r == WriteDeltas(WriteCommon(s, seeds, q, exports), s.deltas, exports)
    ensures r.Ok? <==> Exportable(s, seeds, q, exports)
    ensures r.Ok? ==> Holds(r.value, q(seeds).value, s.deltas)
  {
    hide Holds, Exportable, DeltaArchiveName;
    WritesIff(s, seeds, q, exports);
    var written: Archives := map[];
    if seeds == [] {
      AllRaised(s.deltas, exports);
      return Raised;
    }
    var closure := q(seeds);
    if closure == None || closure.value == [] || !exports(closure.value) {
      AllRaised(s.deltas, exports);
      return Raised;
    }
    written := map[COMMON_ARCHIVE := closure.value];
    assert s.deltas[..0] == [];
    for n := 0 to |s.deltas|
      invariant WriteDeltas(WriteCommon(s, seeds, q, exports), s.deltas[..n], exports) == Ok(written)
    {
      var (outpath, delta) := s.deltas[n];
      assert s.deltas[..n + 1][..n] == s.deltas[..n];
      if delta == [] {
        continue;
      }
      var name := DeltaArchiveName(outpath);
      if name == None || !exports(delta) {
        WriteRaised(WriteCommon(s, seeds, q, exports), s.deltas, n + 1, exports);
        return Raised;
      }
      written := written[name.value := delta];
    }
    assert s.deltas[..|s.deltas|] == s.deltas;
    return Ok(written);
  }

  lemma {:induction false} AllRaised(deltas: Closures, exports: seq<string> -> bool)
    ensures WriteDeltas(Raised, deltas, exports) == Raised
  {
    if deltas != [] { AllRaised(deltas[..|deltas| - 1], exports); }
  }

  lemma {:induction false} WriteRaised(w: Outcome<Archives>, deltas: Closures, n: nat, exports: seq<string> -> bool)
    requires n <= |deltas| && WriteDeltas(w, deltas[..n], exports) == Raised
    ensures WriteDeltas(w, deltas, exports) == Raised
    decreases |deltas| - n
  {
    if n == |deltas| {
      assert deltas[..n] == deltas;
    } else {
      assert deltas[..n + 1][..n] == deltas[..n];
      WriteRaised(w, deltas, n + 1, exports);
    }
  }

  lemma {:induction false} DeltasWritten(written: Outcome<Archives>, deltas: Closures, exports: seq<string> -> bool)
    ensures WriteDeltas(written, deltas, exports).Ok? <==>
      written.Ok? && forall k :: 0 <= k < |deltas| && deltas[k].1 != [] ==>
        DeltaArchiveName(deltas[k].0).Some? && exports(deltas[k].1)
  {
    hide DeltaArchiveName;
    if deltas != [] {
      var n := |deltas| - 1;
      DeltasWritten(written, deltas[..n], exports);
      assert forall k :: 0 <= k < n ==> deltas[..n][k] == deltas[k];
    }
  }

  lemma WritesIff(s: Split, seeds: seq<string>, q: Query, exports: seq<string> -> bool)
    ensures var r := WriteDeltas(WriteCommon(s, seeds, q, exports), s.deltas, exports);
      && (r.Ok? <==> Exportable(s, seeds, q, exports))
      && (r.Ok? ==> Holds(r.value, q(seeds).value, s.deltas))
  {
    hide DeltaArchiveName, Holds, WriteDeltas;
    DeltasWritten(WriteCommon(s, seeds, q, exports), s.deltas, exports);
    if WriteDeltas(WriteCommon(s, seeds, q, exports), s.deltas, exports).Ok? {
      WrittenHolds(q(seeds).value, s.deltas, exports);
    }
  }

  /** Whether the toolchains share a path, a single one counting as shared with itself. */
  ghost predicate ShareAPath(cs: Closures) {
    |cs| == 1 || exists p :: InTwo(cs, p)
  }

  /** Toolchains that share nothing: pairwise disjoint closures. */
  lemma UnrelatedToolchains(cs: Closures)
    requires |cs| >= 2
    ensures PairwiseDisjoint(cs) <==> !ShareAPath(cs)
  {
    if !PairwiseDisjoint(cs) {
      var i, j :| 0 <= i < j < |cs| && !(Elements(cs[i].1) !! Elements(cs[j].1));
      var p :| p in Elements(cs[i].1) && p in Elements(cs[j].1);
      TwoIs(cs, p, i, j);
    }
    if p :| InTwo(cs, p) {
      var i, j :| 0 <= i < j < |cs| && p in cs[i].1 && p in cs[j].1;
      assert p in Elements(cs[i].1) && p in Elements(cs[j].1);
    }
  }

  lemma CommonIsEmptyIff(cs: Closures)
    requires AllDistinct(cs) && cs != [] && forall i :: 0 <= i < |cs| ==> cs[i].1 != []
    ensures Common(cs) != {} <==> ShareAPath(cs)
  {
    hide Common, Distinct, InTwo;
    forall p ensures p in Common(cs) <==> if |cs| == 1 then p in cs[0].1 else InTwo(cs, p) {
      CommonIs(cs, p);
    }
    if |cs| == 1 {
      assert cs[0].1[0] in Common(cs);
    } else if Common(cs) != {} {
      var p :| p in Common(cs);
      assert InTwo(cs, p);
    }
  }

  /** When does the export of a gathered split succeed? The toolchains share a path, each toolchain with
      a path of its own has a store hash, and query and exports work. Toolchains that share nothing make
      it raise, however healthy everything else is. */
  lemma ExportSucceedsIff(refs: Refs, q: Query, outpaths: seq<string>, seeds: seq<string>, exports: seq<string> -> bool)
    requires Faithful(refs, q) && Gather(outpaths, q) != [] && Elements(seeds) == Common(Gather(outpaths, q))
    ensures var cs := Gather(outpaths, q);
      Exportable(SplitOf(cs), seeds, q, exports) <==>
        && ShareAPath(cs)
        && q(seeds).Some? && exports(q(seeds).value)
        && forall k :: 0 <= k < |cs| && !(Elements(cs[k].1) <= Common(cs)) ==>
             DeltaArchiveName(cs[k].0).Some? && exports(SplitOf(cs).deltas[k].1)
  {
    hide Gather, Common, SplitOf, DeltaArchiveName, ShareAPath, DepsFirst, Distinct, GoodClosures;
    var cs := Gather(outpaths, q);
    var s := SplitOf(cs);
    GatherGood(outpaths, q);
    GatherGoodClosures(refs, q, outpaths);
    GoodIsDistinct(refs, cs);
    CommonIsEmptyIff(cs);
    assert seeds == [] <==> Elements(seeds) == {} by { EmptyElements(seeds); }
    forall k | 0 <= k < |cs|
      ensures s.deltas[k].0 == cs[k].0 && (s.deltas[k].1 == [] <==> Elements(cs[k].1) <= Common(cs))
    {
      SameToolchain(cs, k);
      EmptyDeltaIff(cs, k);
    }
    if seeds != [] && q(seeds).Some? {
      assert IsClosureOf(refs, seeds, q(seeds).value);
      assert seeds[0] in Elements(seeds);
    }
  }

  lemma GoodIsDistinct(refs: Refs, cs: Closures)
    requires GoodClosures(refs, cs)
    ensures AllDistinct(cs)
  {
  }

  lemma EmptyElements(s: seq<string>)
    ensures s == [] <==> Elements(s) == {}
  {
    if s != [] { assert s[0] in Elements(s); }
  }

  lemma SameToolchain(cs: Closures, i: nat)
    requires i < |cs|
    ensures SplitOf(cs).deltas[i].0 == cs[i].0
  {
  }

  /** A delta is empty exactly when the whole closure is common; so always for a single toolchain. */
  lemma EmptyDeltaIff(cs: Closures, i: nat)
    requires i < |cs|
    ensures SplitOf(cs).deltas[i].1 == [] <==> Elements(cs[i].1) <= Common(cs)
    ensures |cs| == 1 ==> SplitOf(cs).deltas[i].1 == []
  {
    hide SplitOf;
    DeltaElements(cs, i);
    var delta := SplitOf(cs).deltas[i].1;
    EmptyElements(delta);
    assert Elements(cs[i].1) - Common(cs) == {} <==> Elements(cs[i].1) <= Common(cs) by {
      if Elements(cs[i].1) - Common(cs) == {} {
        forall p | p in Elements(cs[i].1) ensures p in Common(cs) { assert p !in Elements(cs[i].1) - Common(cs); }
      }
    }
  }

  // -------------------------------------------------------------------------- what the archives hold

  predicate Ships(delta: (string, seq<string>), name: string) {
    delta.1 != [] && DeltaArchiveName(delta.0) == Some(name)
  }

  /** The last delta written under `name`, or the number of deltas. */
  function Newest(ds: Closures, name: string): (k: nat)
    ensures k <= |ds|
    ensures k < |ds| ==> Ships(ds[k], name)
    ensures forall j :: 0 <= j < |ds| && (k < j || k == |ds|) ==> !Ships(ds[j], name)
  {
    if ds == [] then 0
    else
      var n := |ds| - 1;
      assert forall j :: 0 <= j < n ==> ds[..n][j] == ds[j];
      if Ships(ds[n], name) then n
      else if Newest(ds[..n], name) == n then n + 1 else Newest(ds[..n], name)
  }

  lemma NotCommonArchive(outpath: string)
    ensures DeltaArchiveName(outpath) != Some(COMMON_ARCHIVE)
  {
    var hash := TaskGraph.HeadToken(TaskGraph.Basename(outpath));
    var name := "toolchains." + hash + ".out.archive";
    if |name| == |COMMON_ARCHIVE| {
      assert |hash| == 2;
      assert name[13] == '.' && COMMON_ARCHIVE[13] == 'm';
    }
  }

  ghost predicate Holds(w: Archives, list: seq<string>, ds: Closures) {
    && COMMON_ARCHIVE in w && w[COMMON_ARCHIVE] == list
    && forall name :: name != COMMON_ARCHIVE ==>
         (name in w <==> Newest(ds, name) < |ds|) && (name in w ==> w[name] == ds[Newest(ds, name)].1)
  }

  lemma {:induction false} WrittenHolds(list: seq<string>, ds: Closures, exports: seq<string> -> bool)
    requires WriteDeltas(Ok(map[COMMON_ARCHIVE := list]), ds, exports).Ok?
    ensures Holds(WriteDeltas(Ok(map[COMMON_ARCHIVE := list]), ds, exports).value, list, ds)
  {
    hide DeltaArchiveName;
    var w0: Archives := map[COMMON_ARCHIVE := list];
    if ds != [] {
      var n := |ds| - 1;
      WrittenHolds(list, ds[..n], exports);
      var w := WriteDeltas(Ok(w0), ds[..n], exports).value;
      NotCommonArchive(ds[n].0);
      if ds[n].1 != [] {
        HoldsNext(w, list, ds);
      } else {
        HoldsSame(w, list, ds);
      }
    }
  }

  lemma HoldsNext(w: Archives, list: seq<string>, ds: Closures)
    requires ds != [] && Holds(w, list, ds[..|ds| - 1]) && ds[|ds| - 1].1 != []
    requires DeltaArchiveName(ds[|ds| - 1].0).Some? && DeltaArchiveName(ds[|ds| - 1].0).value != COMMON_ARCHIVE
    ensures Holds(w[DeltaArchiveName(ds[|ds| - 1].0).value := ds[|ds| - 1].1], list, ds)
  {
    hide DeltaArchiveName, COMMON_ARCHIVE;
  }

  lemma HoldsSame(w: Archives, list: seq<string>, ds: Closures)
    requires ds != [] && Holds(w, list, ds[..|ds| - 1]) && ds[|ds| - 1].1 == []
    ensures Holds(w, list, ds)
  {
    hide DeltaArchiveName, COMMON_ARCHIVE;
  }

  function ArchivePaths(w: Archives): set<string> {
    set name, p | name in w && p in w[name] :: p
  }

  /** No two toolchains with a non-empty delta have the same store hash. */
  predicate DistinctNames(ds: Closures) {
    forall i, j :: 0 <= i < j < |ds| && ds[i].1 != [] && ds[j].1 != [] ==> DeltaArchiveName(ds[i].0) != DeltaArchiveName(ds[j].0)
  }

  lemma HeldByDelta(w: Archives, list: seq<string>, ds: Closures, p: string) returns (k: nat)
    requires Holds(w, list, ds) && p in ArchivePaths(w) && p !in list
    ensures k < |ds| && p in ds[k].1 && exists name :: Newest(ds, name) == k
  {
    hide DeltaArchiveName, COMMON_ARCHIVE;
    var name :| name in w && p in w[name];
    k := Newest(ds, name);
  }

  lemma HeldUnderName(w: Archives, list: seq<string>, ds: Closures, i: nat)
    requires Holds(w, list, ds) && DistinctNames(ds) && i < |ds| && ds[i].1 != [] && DeltaArchiveName(ds[i].0).Some?
    ensures Elements(ds[i].1) <= ArchivePaths(w)
  {
    hide DeltaArchiveName, COMMON_ARCHIVE;
    var name := DeltaArchiveName(ds[i].0).value;
    assert name != COMMON_ARCHIVE by { NotCommonArchive(ds[i].0); }
    assert Ships(ds[i], name);
    assert Newest(ds, name) == i;
    assert w[name] == ds[i].1;
  }

  lemma {:induction false} AllNamed(w: Outcome<Archives>, ds: Closures, exports: seq<string> -> bool, i: nat)
    requires WriteDeltas(w, ds, exports).Ok? && i < |ds| && ds[i].1 != []
    ensures DeltaArchiveName(ds[i].0).Some?
  {
    hide DeltaArchiveName;
    if i < |ds| - 1 {
      AllNamed(w, ds[..|ds| - 1], exports, i);
    }
  }

  /** A successful export leaves every path of every closure in some archive exactly when no two
      non-empty deltas share a store hash; otherwise the later archive replaces the earlier. */
  lemma ArchivesHoldEverything(cs: Closures, list: seq<string>, exports: seq<string> -> bool)
    requires AllDistinct(cs) && cs != [] && Elements(list) == Common(cs)
    requires WriteDeltas(Ok(map[COMMON_ARCHIVE := list]), SplitOf(cs).deltas, exports).Ok?
    ensures var w := WriteDeltas(Ok(map[COMMON_ARCHIVE := list]), SplitOf(cs).deltas, exports).value;
      && ArchivePaths(w) <= Union(cs)
      && (ArchivePaths(w) == Union(cs) <==> DistinctNames(SplitOf(cs).deltas))
  {
    hide DeltaArchiveName, COMMON_ARCHIVE, Common, SplitOf, Union, ArchivePaths, Distinct, Holds, WriteDeltas,
        DistinctNames;
    var ds := SplitOf(cs).deltas;
    var w := WriteDeltas(Ok(map[COMMON_ARCHIVE := list]), ds, exports).value;
    WrittenHolds(list, ds, exports);
    SplitPartition(cs);
    UnionElements(ds);
    SplitShape(cs);
    forall p | p in ArchivePaths(w) ensures p in Union(cs) {
      if p !in list {
        var k := HeldByDelta(w, list, ds, p);
        assert InSome(ds, p);
      } else {
        assert p in Elements(list);
      }
    }
    if DistinctNames(ds) {
      forall p | p in Union(cs) ensures p in ArchivePaths(w) {
        if p in Elements(list) {
          CommonHeld(w, list, ds, p);
        } else {
          var i :| 0 <= i < |ds| && p in ds[i].1;
          AllNamed(Ok(map[COMMON_ARCHIVE := list]), ds, exports, i);
          HeldUnderName(w, list, ds, i);
          assert p in Elements(ds[i].1);
        }
      }
    } else {
      var p := LostPath(w, list, ds, Common(cs));
      assert InSome(ds, p);
    }
  }

  lemma CommonHeld(w: Archives, list: seq<string>, ds: Closures, p: string)
    requires Holds(w, list, ds) && p in list
    ensures p in ArchivePaths(w)
  {
    hide Newest;
  }

  lemma Overwritten(ds: Closures, i: nat, j: nat)
    requires i < j < |ds| && ds[i].1 != [] && ds[j].1 != [] && DeltaArchiveName(ds[i].0) == DeltaArchiveName(ds[j].0)
    ensures forall name :: Newest(ds, name) != i
  {
    hide DeltaArchiveName;
    forall name ensures Newest(ds, name) != i {
      assert Ships(ds[i], name) <==> Ships(ds[j], name);
    }
  }

  lemma OwnerIsUnique(ds: Closures, p: string, i: nat)
    requires PairwiseDisjoint(ds) && i < |ds| && p in ds[i].1
    ensures forall k :: 0 <= k < |ds| && p in ds[k].1 ==> k == i
  {
    assert p in Elements(ds[i].1);
    assert forall k :: 0 <= k < |ds| && p in ds[k].1 ==> p in Elements(ds[k].1);
  }

  lemma LostPath(w: Archives, list: seq<string>, ds: Closures, common: set<string>) returns (p: string)
    requires Holds(w, list, ds) && !DistinctNames(ds) && PairwiseDisjoint(ds)
    requires Elements(list) == common && common !! Union(ds)
    ensures InSome(ds, p) && p !in ArchivePaths(w)
  {
    hide DeltaArchiveName, COMMON_ARCHIVE, Union, ArchivePaths, Holds;
    var i, j :| 0 <= i < j < |ds| && ds[i].1 != [] && ds[j].1 != [] && DeltaArchiveName(ds[i].0) == DeltaArchiveName(ds[j].0);
    p := ds[i].1[0];
    UnionElements(ds);
    assert InSome(ds, p);
    assert p !in Elements(list);
    Overwritten(ds, i, j);
    assert forall k :: 0 <= k < |ds| && p in ds[k].1 ==> k == i by { OwnerIsUnique(ds, p, i); }
    if p in ArchivePaths(w) {
      var k := HeldByDelta(w, list, ds, p);
    }
  }

  // ---------------------------------------------------------------------------------- build deps

  /** `compute_build_deps_closure`: the archive's paths, and the seeds the query did not report. */
  function BuildDepsClosure(inputs: seq<string>, subtract: set<string>, q: Query): Outcome<(seq<string>, seq<string>)> {
    if inputs == [] then Ok(([], []))
    else
      match q(inputs)
      case None => Raised
      case Some(all) => Ok((Without(all, subtract), Without(inputs, Elements(all) + {""})))
  }

  /** Whatever the query answers: it raises only when asked in vain; the archive holds every reported path
      that no toolchain archive ships, and the named inputs that were not reported are handed back. */
  lemma BuildDepsAre(inputs: seq<string>, subtract: set<string>, q: Query)
    ensures var r := BuildDepsClosure(inputs, subtract, q);
      && (r.Raised? <==> inputs != [] && q(inputs) == None)
      && (r.Ok? ==> forall p ::
           && (p in r.value.0 <==> inputs != [] && p in q(inputs).value && p !in subtract)
           && (p in r.value.1 <==> p in inputs && p != "" && p !in q(inputs).value))
  {
    if inputs != [] && q(inputs).Some? {
      var all := q(inputs).value;
      assert forall p :: p in Elements(all) <==> p in all;
    }
  }

  /** The archive repeats nothing the toolchain archives ship, every seed is covered, and a worker can
      import it exactly when its store holds each subtracted path that a shipped one refers to. What
      the worker then lacks of the inputs' closure are the subtracted paths it did not have. */
  lemma BuildDepsImport(refs: Refs, q: Query, inputs: seq<string>, subtract: set<string>, store: set<string>)
    requires Faithful(refs, q) && inputs != [] && q(inputs).Some?
    ensures var (paths, uncovered) := BuildDepsClosure(inputs, subtract, q).value;
      var all := q(inputs).value;
      && uncovered == []
      && Elements(paths) !! subtract && Distinct(paths)
      && (Import(refs, store, paths).Some? <==> Provided(refs, store, all, subtract))
      && (Import(refs, store, paths).Some? ==>
           Elements(all) - Import(refs, store, paths).value == Elements(all) * subtract - store)
  {
    hide DepsFirst, Import, Distinct, Provided;
    var all := q(inputs).value;
    assert IsClosureOf(refs, inputs, all);
    assert forall p :: p in inputs ==> p in Elements(inputs);
    NothingLeft(inputs, Elements(all) + {""});
    ImportStripped(refs, store, all, subtract);
  }

  /** A worker that holds all toolchain closures can always import the build-deps archive, and ends
      with the whole closure of the inputs. */
  lemma BuildDepsOnFullWorker(refs: Refs, q: Query, inputs: seq<string>, outpaths: seq<string>, store: set<string>)
    requires Faithful(refs, q) && inputs != [] && q(inputs).Some?
    requires Union(Gather(outpaths, q)) <= store
    ensures var r := Import(refs, store, BuildDepsClosure(inputs, Union(Gather(outpaths, q)), q).value.0);
      r.Some? && Elements(q(inputs).value) <= r.value
  {
    hide DepsFirst, Import, Distinct, Gather, Union, Faithful;
    var all, subtract := q(inputs).value, Union(Gather(outpaths, q));
    BuildDepsImport(refs, q, inputs, subtract, store);
    AllProvided(refs, store, all, subtract);
    assert Elements(all) * subtract - store == {};
  }

  lemma AllProvided(refs: Refs, store: set<string>, list: seq<string>, removed: set<string>)
    requires removed <= store
    ensures Provided(refs, store, list, removed)
  {
  }
}
