/** The worker's end of the toolchain archives: an import gate opens its archive by name and imports it
    or fails hard (`workers/build_worker.py`). */
module ArchiveGates {
  import opened Wrappers
  import opened NixStore
  import opened Sequences
  import opened ToolchainSplit
  import opened SplitTheorems
  import opened SplitArchives
  import TaskGraph
  import TaskIds

  // ----------------------------------------------------------------------------------------- names

  /** `toolchain_id_for_outpath` raises only for an empty first token: a basename without a dash is its
      own id, although the documentation says it raises. */
  lemma NameWithoutDash(outpath: string)
    ensures var name := TaskGraph.Basename(outpath);
      && (DeltaArchiveName(outpath).None? <==> name == "" || name[0] == '-')
      && ('-' !in name && name != "" ==> DeltaArchiveName(outpath) == Some("toolchains." + name + ".out.archive"))
  {
    hide TaskGraph.Basename;
    var name := TaskGraph.Basename(outpath);
    if '-' !in name {
      assert TaskGraph.IndexOf(name, '-') == |name|;
      assert name[..|name|] == name;
    }
  }

  /** `import_action`: the archive behind the `import_common` gate and the `import_tc_<hash>` gates. */
  function GateArchive(gate: string): Option<string> {
    if gate == "import_common" then Some(COMMON_ARCHIVE)
    else if "import_tc_" <= gate then Some("toolchains." + gate[10..] + ".out.archive")
    else None
  }

  /** Submitter and worker agree on the name, without any map between them. */
  lemma GateFindsName(outpath: string)
    requires TaskGraph.ToolchainGateId(outpath).Some?
    ensures GateArchive(TaskGraph.ToolchainGateId(outpath).value) == DeltaArchiveName(outpath)
    ensures DeltaArchiveName(outpath).Some?
  {
    hide TaskGraph.HeadToken, TaskGraph.Basename;
    var hash := TaskGraph.HeadToken(TaskGraph.Basename(outpath));
    var gate := "import_tc_" + hash;
    assert gate[..10] == "import_tc_" && gate[10..] == hash;
    assert gate[7] == 't' && "import_common"[7] == 'c';
  }

  /** A store path's archive is named by its hash, in any directory. */
  lemma ArchiveNameIs(dir: string, hash: string, tail: string)
    requires dir == "" || dir[|dir| - 1] == '/'
    requires '-' !in hash && '/' !in hash && '/' !in tail && (tail == "" || tail[0] == '-')
    ensures DeltaArchiveName(dir + (hash + tail)) == if hash == "" then None else Some("toolchains." + hash + ".out.archive")
  {
    hide TaskGraph.Basename, TaskGraph.HeadToken;
    TaskIds.BasenameIs(dir, hash + tail);
    TaskIds.HeadIs(hash, tail);
  }

  /** The gates' archives, by the names the exporter writes. */
  lemma GateArchivesAre(hash: string)
    ensures GateArchive("import_common") == Some("toolchains.common.archive")
    ensures GateArchive("import_tc_" + hash) == Some("toolchains." + hash + ".out.archive")
  {
    var gate := "import_tc_" + hash;
    assert gate[..10] == "import_tc_" && gate[10..] == hash;
    assert gate[7] == 't' && "import_common"[7] == 'c';
  }

  // --------------------------------------------------------------------------------------- imports

  /** `_import_archive_hard`: an archive that is not there raises, like one that does not import. */
  function ImportNamed(refs: Refs, w: Archives, store: set<string>, name: string): Outcome<set<string>> {
    if name !in w then Raised
    else
      match Import(refs, store, w[name])
      case None => Raised
      case Some(s) => Ok(s)
  }

  /** The archives a successful export of a gathered split has written. */
  ghost predicate Exported(q: Query, outpaths: seq<string>, seeds: seq<string>, exports: seq<string> -> bool, w: Archives) {
    var s := SplitOf(Gather(outpaths, q));
    && Gather(outpaths, q) != [] && Elements(seeds) == s.common
    && WriteDeltas(WriteCommon(s, seeds, q, exports), s.deltas, exports) == Ok(w)
  }

  lemma {:induction false} CommonWasWritten(base: Outcome<Archives>, ds: Closures, exports: seq<string> -> bool)
    requires WriteDeltas(base, ds, exports).Ok?
    ensures base.Ok?
  {
    if ds != [] { CommonWasWritten(base, ds[..|ds| - 1], exports); }
  }

  lemma ExportedHolds(q: Query, outpaths: seq<string>, seeds: seq<string>, exports: seq<string> -> bool, w: Archives)
    requires Exported(q, outpaths, seeds, exports, w)
    ensures q(seeds).Some? && Holds(w, q(seeds).value, SplitOf(Gather(outpaths, q)).deltas)
  {
    hide Gather, SplitOf, Holds;
    var s := SplitOf(Gather(outpaths, q));
    CommonWasWritten(WriteCommon(s, seeds, q, exports), s.deltas, exports);
    WrittenHolds(q(seeds).value, s.deltas, exports);
  }

  /** What the `import_common` gate and the gate of any out-path do, each on any store: the common
      archive always imports. The other gate raises if no delta was written under its store hash;
      otherwise it imports the newest such delta exactly when the store holds every common path that
      the delta refers to, and raises if it does not. Nothing but an edge could order the two gates,
      and there is none (`SuitTask.Runner.DiscoverImportGateTasks`). */
  lemma GatesImport(refs: Refs, q: Query, outpaths: seq<string>, seeds: seq<string>, exports: seq<string> -> bool,
      w: Archives, store: set<string>, outpath: string)
    requires Faithful(refs, q) && Exported(q, outpaths, seeds, exports, w)
    requires TaskGraph.ToolchainGateId(outpath).Some?
    ensures GateArchive(TaskGraph.ToolchainGateId(outpath).value).Some?
    ensures var cs := Gather(outpaths, q);
      var ds := SplitOf(cs).deltas;
      var name := GateArchive(TaskGraph.ToolchainGateId(outpath).value).value;
      var k := Newest(ds, name);
      && ImportNamed(refs, w, store, COMMON_ARCHIVE) == Ok(store + Common(cs))
      && ImportNamed(refs, w, store, name) == (
           if k == |ds| || !Provided(refs, store, cs[k].1, Common(cs)) then Raised
           else Ok(store + (Elements(cs[k].1) - Common(cs))))
  {
    hide Gather, SplitOf, Common, Distinct, DepsFirst, Import, GoodClosures, COMMON_ARCHIVE, DeltaArchiveName, GateArchive,
        TaskGraph.ToolchainGateId, Exported, Holds, Newest, Provided;
    var cs := Gather(outpaths, q);
    var ds := SplitOf(cs).deltas;
    GatherGoodClosures(refs, q, outpaths);
    GateFindsName(outpath);
    var name := DeltaArchiveName(outpath).value;
    ExportedHolds(q, outpaths, seeds, exports, w);
    CommonImports(refs, q, outpaths, seeds, exports, w, store);
    NotCommonArchive(outpath);
    var k := Newest(ds, name);
    if k < |ds| {
      GoodClosure(refs, cs, k);
      DeltaIs(cs, k);
      ImportStripped(refs, store, cs[k].1, Common(cs));
    }
    NamedIs(w, q(seeds).value, ds, name);
  }

  lemma GoodClosure(refs: Refs, cs: Closures, k: nat)
    requires GoodClosures(refs, cs) && k < |cs|
    ensures Distinct(cs[k].1) && DepsFirst(refs, cs[k].1)
  {
  }

  lemma DeltaIs(cs: Closures, k: nat)
    requires k < |cs|
    ensures SplitOf(cs).deltas[k].1 == Without(cs[k].1, Common(cs))
  {
    hide Common;
  }

  /** After the common gate every toolchain gate that finds an archive works: it completes the closure of
      the toolchain it was written for, and without a shared store hash that is its own. */
  lemma AfterCommon(refs: Refs, q: Query, outpaths: seq<string>, seeds: seq<string>, exports: seq<string> -> bool,
      w: Archives, store: set<string>, i: nat)
    requires Faithful(refs, q) && Exported(q, outpaths, seeds, exports, w)
    requires i < |Gather(outpaths, q)| && TaskGraph.ToolchainGateId(Gather(outpaths, q)[i].0).Some?
    ensures GateArchive(TaskGraph.ToolchainGateId(Gather(outpaths, q)[i].0).value).Some?
    ensures var cs := Gather(outpaths, q);
      var ds := SplitOf(cs).deltas;
      var name := GateArchive(TaskGraph.ToolchainGateId(cs[i].0).value).value;
      var k := Newest(ds, name);
      && ImportNamed(refs, w, store + Common(cs), name) ==
           (if k == |ds| then Raised else Ok(store + Common(cs) + Elements(cs[k].1)))
      && (DistinctNames(ds) && ds[i].1 != [] ==> k == i)
  {
    hide Gather, SplitOf, Common, Import, COMMON_ARCHIVE, DeltaArchiveName, GateArchive,
        TaskGraph.ToolchainGateId, Exported, Newest, ImportNamed, Provided;
    var cs := Gather(outpaths, q);
    var ds := SplitOf(cs).deltas;
    GateFindsName(cs[i].0);
    SameToolchain(cs, i);
    var name := DeltaArchiveName(cs[i].0).value;
    GatesImport(refs, q, outpaths, seeds, exports, w, store + Common(cs), cs[i].0);
    var k := Newest(ds, name);
    if k < |ds| {
      AllProvided(refs, store + Common(cs), cs[k].1, Common(cs));
      assert store + Common(cs) + (Elements(cs[k].1) - Common(cs)) == store + Common(cs) + Elements(cs[k].1);
    }
    if DistinctNames(ds) && ds[i].1 != [] { OwnName(ds, i, name); }
  }

  lemma NamedIs(w: Archives, list: seq<string>, ds: Closures, name: string)
    requires Holds(w, list, ds) && name != COMMON_ARCHIVE
    ensures name in w <==> Newest(ds, name) < |ds|
    ensures name in w ==> w[name] == ds[Newest(ds, name)].1
  {
  }

  lemma OwnName(ds: Closures, i: nat, name: string)
    requires DistinctNames(ds) && i < |ds| && ds[i].1 != [] && DeltaArchiveName(ds[i].0) == Some(name)
    ensures Newest(ds, name) == i
  {
    hide DeltaArchiveName;
    assert Ships(ds[i], name);
  }

  lemma CommonImports(refs: Refs, q: Query, outpaths: seq<string>, seeds: seq<string>, exports: seq<string> -> bool,
      w: Archives, store: set<string>)
    requires Faithful(refs, q) && Exported(q, outpaths, seeds, exports, w)
    ensures ImportNamed(refs, w, store, COMMON_ARCHIVE) == Ok(store + Common(Gather(outpaths, q)))
  {
    hide Gather, SplitOf, Common, Distinct, DepsFirst, Import, GoodClosures, WriteDeltas, WriteCommon, Newest;
    var cs := Gather(outpaths, q);
    SplitShape(cs);
    ExportedHolds(q, outpaths, seeds, exports, w);
    SplitImports(refs, q, outpaths, seeds, [], store);
  }

  // ---------------------------------------------------------------------------- the failing gates

  /** The export skips an empty delta, and knows nothing of an out-path that the split skipped, but
      their gates are discovered all the same: after the common gate, the gate of any out-path raises
      exactly when no toolchain of the split has that store hash and a path that is not common. */
  lemma GateRaisesIff(refs: Refs, q: Query, outpaths: seq<string>, seeds: seq<string>, exports: seq<string> -> bool,
      w: Archives, store: set<string>, outpath: string)
    requires Faithful(refs, q) && Exported(q, outpaths, seeds, exports, w)
    requires TaskGraph.ToolchainGateId(outpath).Some?
    ensures GateArchive(TaskGraph.ToolchainGateId(outpath).value).Some?
    ensures var cs := Gather(outpaths, q);
      var name := GateArchive(TaskGraph.ToolchainGateId(outpath).value).value;
      ImportNamed(refs, w, store + Common(cs), name).Raised? <==>
        forall k :: 0 <= k < |cs| && DeltaArchiveName(cs[k].0) == Some(name) ==> Elements(cs[k].1) <= Common(cs)
  {
    hide Gather, SplitOf, Common, Import, COMMON_ARCHIVE, DeltaArchiveName, GateArchive, TaskGraph.ToolchainGateId,
        Exported, ImportNamed, Newest, Provided;
    var cs := Gather(outpaths, q);
    var ds := SplitOf(cs).deltas;
    GatesImport(refs, q, outpaths, seeds, exports, w, store + Common(cs), outpath);
    var name := GateArchive(TaskGraph.ToolchainGateId(outpath).value).value;
    var newest := Newest(ds, name);
    if newest < |ds| { AllProvided(refs, store + Common(cs), cs[newest].1, Common(cs)); }
    forall k | 0 <= k < |cs|
      ensures Ships(ds[k], name) <==> DeltaArchiveName(cs[k].0) == Some(name) && !(Elements(cs[k].1) <= Common(cs))
    {
      SameToolchain(cs, k);
      EmptyDeltaIff(cs, k);
    }
    NewestShips(ds, name);
  }

  lemma NewestShips(ds: Closures, name: string)
    ensures Newest(ds, name) == |ds| <==> forall k :: 0 <= k < |ds| ==> !Ships(ds[k], name)
  {
    hide Ships;
  }

  /** With a single realised toolchain the archives hold its whole closure, and still its gate raises. */
  lemma OnlyToolchainGateRaises(refs: Refs, q: Query, outpaths: seq<string>, seeds: seq<string>,
      exports: seq<string> -> bool, w: Archives, store: set<string>)
    requires Faithful(refs, q) && Exported(q, outpaths, seeds, exports, w)
    requires |Gather(outpaths, q)| == 1 && TaskGraph.ToolchainGateId(Gather(outpaths, q)[0].0).Some?
    ensures GateArchive(TaskGraph.ToolchainGateId(Gather(outpaths, q)[0].0).value).Some?
    ensures var cs := Gather(outpaths, q);
      && ImportNamed(refs, w, store, COMMON_ARCHIVE) == Ok(store + Elements(cs[0].1))
      && ImportNamed(refs, w, store + Elements(cs[0].1), GateArchive(TaskGraph.ToolchainGateId(cs[0].0).value).value) == Raised
  {
    hide Gather, SplitOf, Import, COMMON_ARCHIVE, DeltaArchiveName, GateArchive, TaskGraph.ToolchainGateId, Exported,
        ImportNamed, Newest, Provided;
    CommonImports(refs, q, outpaths, seeds, exports, w, store);
    GateRaisesIff(refs, q, outpaths, seeds, exports, w, store, Gather(outpaths, q)[0].0);
  }

  // ------------------------------------------------------------------------------- repeated calls

  /** A worker process: its store, and the archives it has tried. */
  datatype Worker = Worker(store: set<string>, tried: set<string>)

  /** One `ensure_*_imported` call: the archive is marked before it is opened. */
  function Ensure(refs: Refs, w: Archives, n: Worker, name: string): (Worker, Outcome<()>) {
    if name in n.tried then (n, Ok(()))
    else
      match ImportNamed(refs, w, n.store, name)
      case Raised => (Worker(n.store, n.tried + {name}), Raised)
      case Ok(s) => (Worker(s, n.tried + {name}), Ok(()))
  }

  function EnsureAll(refs: Refs, w: Archives, n: Worker, names: seq<string>): Worker {
    if names == [] then n else Ensure(refs, w, EnsureAll(refs, w, n, names[..|names| - 1]), names[|names| - 1]).0
  }

  lemma {:induction false} TriedAre(refs: Refs, w: Archives, n: Worker, names: seq<string>)
    ensures EnsureAll(refs, w, n, names).tried == n.tried + Elements(names)
    ensures n.store <= EnsureAll(refs, w, n, names).store
  {
    if names != [] {
      var front, last := names[..|names| - 1], names[|names| - 1];
      TriedAre(refs, w, n, front);
      assert names == front + [last];
      ElementsConcat(front, [last]);
      assert Elements([last]) == {last};
      var m := EnsureAll(refs, w, n, front);
      if last in w && Import(refs, m.store, w[last]).Some? { ImportAdds(refs, m.store, w[last]); }
    }
  }

  /** A call raises exactly when it is the process's first for that archive and the import fails; every
      later call returns normally and changes nothing, also after a failure. */
  lemma OnlyFirstCallRaises(refs: Refs, w: Archives, store: set<string>, names: seq<string>, name: string)
    ensures var n := EnsureAll(refs, w, Worker(store, {}), names);
      var (n', r) := Ensure(refs, w, n, name);
      && (r.Raised? <==> name !in names && ImportNamed(refs, w, n.store, name).Raised?)
      && (name in names ==> n' == n && r == Ok(()))
  {
    hide ImportNamed, EnsureAll;
    TriedAre(refs, w, Worker(store, {}), names);
  }
}
