/** The build graph after every streamed batch: no edge dangles exactly when the common import gate
    exists, every id is spawned once, and a rank function rules out cycles. */
module GateTheorems {
  import opened Wrappers
  import opened TaskGraph
  import opened GateGraph
  import Order = StringOrder

  /** The build phase as `on_phase_start` and the static discovery leave it. */
  ghost predicate Start(c: Config, s: Spawned) {
    && s.gateIds == {}
    && (forall k :: 0 <= k < |s.tasks| ==> IsStatic(c, s.tasks[k]))
    && (forall id :: id in StaticIds(c) ==> HasId(s.tasks, id))
    && DistinctIds(s.tasks)
  }

  function Stream(bs: seq<seq<Header>>): seq<Header> {
    if bs == [] then [] else Stream(bs[..|bs| - 1]) + bs[|bs| - 1]
  }

  lemma {:induction false} BatchesContents(c: Config, s: Spawned, bs: seq<seq<Header>>)
    requires Start(c, s) && GoodStream(c, Stream(bs))
    ensures Contents(c, Stream(bs), HandleBatches(c, s, bs))
    decreases |bs|
  {
    hide GoodStream, StaticIds, HandleHeaders, HasId, DistinctIds, IsStatic;
    if bs == [] {
    } else {
      var front := bs[..|bs| - 1];
      GoodStreamPrefix(c, Stream(front), bs[|bs| - 1]);
      BatchesContents(c, s, front);
      HandleHeadersContents(c, Stream(front), HandleBatches(c, s, front), bs[|bs| - 1]);
    }
  }

  lemma GoodStreamPrefix(c: Config, a: seq<Header>, b: seq<Header>)
    requires GoodStream(c, a + b)
    ensures GoodStream(c, a)
  {
    var all := a + b;
    assert forall i :: 0 <= i < |a| ==> all[i] == a[i];
    forall i | 0 <= i < |a| ensures DepsEarlier(a, i) {
      assert DepsEarlier(all, i);
      forall k | 0 <= k < |a[i].dependsOn| ensures IsEarlierCommonDep(a, i, a[i].dependsOn[k]) {
        assert IsEarlierCommonDep(all, i, all[i].dependsOn[k]);
      }
    }
  }

  lemma {:induction false} StreamPrefix(bs: seq<seq<Header>>, n: nat) returns (rest: seq<Header>)
    requires n <= |bs|
    ensures Stream(bs) == Stream(bs[..n]) + rest
    decreases |bs|
  {
    if n == |bs| {
      assert bs[..n] == bs;
      rest := [];
    } else {
      var front := bs[..|bs| - 1];
      var r := StreamPrefix(front, n);
      assert front[..n] == bs[..n];
      rest := r + bs[|bs| - 1];
    }
  }

  // ----------------------------------------------------------------------------- what edges name

  lemma {:induction false} GateIdsListed(deps: seq<string>, g: string)
    ensures g in GateIdsOf(deps) <==> exists k :: 0 <= k < |deps| && GateIdOf(deps[k]) == Some(g)
  {
    hide GateIdOf;
    if deps != [] {
      GateIdsListed(deps[1..], g);
      if k :| 0 <= k < |deps| && GateIdOf(deps[k]) == Some(g) {
        if k > 0 { assert deps[1..][k - 1] == deps[k]; }
      }
      if k :| 0 <= k < |deps[1..]| && GateIdOf(deps[1..][k]) == Some(g) {
        assert deps[k + 1] == deps[1..][k];
      }
    }
  }

  /** Every import gate a good header waits for is a static gate or the gate of an earlier header. */
  lemma ImportDepNames(c: Config, hs: seq<Header>, i: nat, id: string)
    requires GoodStream(c, hs) && i < |hs| && id in ImportDeps(c, hs[i])
    ensures id == "import_common" || (id == "import_build_deps" && c.buildDepsLocal) || id in StaticIds(c)
      || (c.CommonDepGates() && exists j :: 0 <= j < i && GateOf(hs[j]) == Some(id))
  {
    hide GateIdsOf, Order.SortedSet, ToolchainGateId, GateIdOf;
    var h := hs[i];
    if c.CommonDepGates() && id in CommonDepGateDeps(h) {
      Order.SortedSetIs(GateIdsOf(h.dependsOn));
      GateIdsListed(h.dependsOn, id);
      var k :| 0 <= k < |h.dependsOn| && GateIdOf(h.dependsOn[k]) == Some(id);
      assert DepsEarlier(hs, i) && IsEarlierCommonDep(hs, i, h.dependsOn[k]);
      var j :| 0 <= j < i && hs[j].taskId == h.dependsOn[k] && hs[j].itemClass == COMMON_DEP;
      assert GateOf(hs[j]) == Some(id);
    }
  }

  /** The intra-phase edges of a header's task. */
  lemma HeaderEdge(c: Config, h: Header, j: nat)
    requires j < |TaskOf(c, h).deps| && TaskOf(c, h).deps[j].Local?
    ensures !c.disableTaskDeps
    ensures TaskOf(c, h).deps[j].id in h.dependsOn || TaskOf(c, h).deps[j].id in ImportDeps(c, h)
  {
    hide ImportDeps;
    var n, m := |h.dependsOn|, |ImportDeps(c, h)|;
    if j < n {
      assert TaskOf(c, h).deps[j] == Local(h.dependsOn[j]);
    } else if j < n + m {
      assert TaskOf(c, h).deps[j] == Local(ImportDeps(c, h)[j - n]);
    }
  }

  // ------------------------------------------------------------------------------------- closure

  lemma HeaderEdgeIsSpawned(c: Config, hs: seq<Header>, s: Spawned, i: nat, id: string)
    requires Contents(c, hs, s) && GoodStream(c, hs) && i < |hs| && c.outpaths != [] && !c.disableTaskDeps
    requires id in hs[i].dependsOn || id in ImportDeps(c, hs[i])
    ensures HasId(s.tasks, id)
  {
    hide HasId, DistinctIds, IsStatic, IsHeaderTask, IsGateTask, ImportDeps, GateOf, ToolchainGateId, MatrixGateId;
    if id in hs[i].dependsOn {
      var k :| 0 <= k < |hs[i].dependsOn| && hs[i].dependsOn[k] == id;
      assert DepsEarlier(hs, i) && IsEarlierCommonDep(hs, i, id);
      var j :| 0 <= j < i && hs[j].taskId == id;
    } else {
      ImportDepNames(c, hs, i, id);
      if id !in StaticIds(c) {
        var j :| 0 <= j < i && GateOf(hs[j]) == Some(id);
        assert Owned(hs, id);
      }
    }
  }

  lemma EdgeIsSpawned(c: Config, hs: seq<Header>, s: Spawned, t: Task, j: nat)
    requires Contents(c, hs, s) && GoodStream(c, hs) && (c.outpaths != [] || c.disableTaskDeps || hs == [])
    requires IsStatic(c, t) || IsHeaderTask(c, hs, t) || IsGateTask(c, hs, t)
    requires j < |t.deps| && t.deps[j].Local?
    ensures HasId(s.tasks, t.deps[j].id)
  {
    hide GoodStream, StaticIds, HasId, DistinctIds, TaskOf, ImportDeps, GateOf;
    if IsHeaderTask(c, hs, t) {
      var i :| 0 <= i < |hs| && t == TaskOf(c, hs[i]);
      HeaderEdge(c, hs[i], j);
      HeaderEdgeIsSpawned(c, hs, s, i, t.deps[j].id);
    } else if IsGateTask(c, hs, t) {
      var i: nat :| FirstOwner(hs, i, t.id) && t == DepGate(t.id, hs[i]);
      assert t.deps[j].id == hs[i].taskId;
    }
  }

  lemma CommonIsNotStatic(c: Config)
    requires c.outpaths == []
    ensures "import_common" !in StaticIds(c)
  {
    if "import_common" in StaticIds(c) {
      MatrixIsNotCommon(c);
    }
  }

  lemma MatrixIsNotCommon(c: Config)
    ensures forall b: string :: MatrixGateId(b) != "import_common"
  {
    forall b: string ensures MatrixGateId(b) != "import_common" {
      assert MatrixGateId(b)[7] == 'm' && "import_common"[7] == 'c';
    }
  }

  /** Without a realised toolchain the common gate is named by every build task and never spawned. */
  lemma CommonGateMissing(c: Config, hs: seq<Header>, s: Spawned)
    requires Contents(c, hs, s) && GoodStream(c, hs) && c.outpaths == []
    ensures !HasId(s.tasks, "import_common")
  {
    hide Contents, HasId, Owned, DepsEarlier, StaticIds;
    CommonIsNotStatic(c);
    assert !Owned(hs, "import_common") by { CommonIsNotAGate(hs); }
    assert !HasTaskId(hs, "import_common") by { assert "import_" == "import_common"[..7]; }
    if HasId(s.tasks, "import_common") { OldIds(c, hs, s, "import_common"); }
  }

  lemma CommonIsNotAGate(hs: seq<Header>)
    ensures !Owned(hs, "import_common")
  {
    hide GateOf;
    forall j | 0 <= j < |hs| ensures GateOf(hs[j]) != Some("import_common") {
      if GateOf(hs[j]).Some? {
        GateIdShape(hs[j], GateOf(hs[j]).value);
        assert |"import_common"| < |"import_common_dep_"| <= |GateOf(hs[j]).value|;
      }
    }
  }

  lemma FirstEdgeIsCommon(c: Config, h: Header)
    requires !c.disableTaskDeps && (h.itemClass == COMMON_DEP || h.itemClass == VARIANT)
    ensures |h.dependsOn| < |TaskOf(c, h).deps| && TaskOf(c, h).deps[|h.dependsOn|] == Local("import_common")
  {
    hide CommonDepGateDeps, ToolchainGateId;
    assert ImportDeps(c, h)[0] == "import_common";
  }

  lemma HeaderIsSpawned(c: Config, hs: seq<Header>, s: Spawned, i: nat) returns (k: nat)
    requires Contents(c, hs, s) && GoodStream(c, hs) && i < |hs|
    ensures k < |s.tasks| && s.tasks[k] == TaskOf(c, hs[i])
  {
    hide StaticIds, DistinctIds, TaskOf, GateOf, DepsEarlier, IsStatic;
    assert HasId(s.tasks, hs[i].taskId);
    k :| 0 <= k < |s.tasks| && s.tasks[k].id == hs[i].taskId;
    var t := s.tasks[k];
    PlainIdIsNotAGate(c, hs, t.id);
    assert !IsStatic(c, t) by { StaticHasStaticId(c, t); }
    assert !IsGateTask(c, hs, t);
    var j :| 0 <= j < |hs| && t == TaskOf(c, hs[j]);
    TaskOfId(c, hs[j]);
  }

  lemma StaticHasStaticId(c: Config, t: Task)
    ensures IsStatic(c, t) ==> t.id in StaticIds(c)
  {
  }

  lemma KindOfTask(c: Config, hs: seq<Header>, s: Spawned, k: nat)
    requires Contents(c, hs, s) && k < |s.tasks|
    ensures IsStatic(c, s.tasks[k]) || IsHeaderTask(c, hs, s.tasks[k]) || IsGateTask(c, hs, s.tasks[k])
  {
    hide IsStatic, IsHeaderTask, IsGateTask;
  }

  lemma ClosedIffCommonGate(c: Config, hs: seq<Header>, s: Spawned)
    requires Contents(c, hs, s) && GoodStream(c, hs)
    ensures Closed(s.tasks) <==> c.outpaths != [] || c.disableTaskDeps || hs == []
  {
    hide Contents, StaticIds, HasId, IsStatic, IsHeaderTask, IsGateTask, TaskOf, DepsEarlier;
    if c.outpaths != [] || c.disableTaskDeps || hs == [] {
      forall i, j | 0 <= i < |s.tasks| && 0 <= j < |s.tasks[i].deps| && s.tasks[i].deps[j].Local?
        ensures HasId(s.tasks, s.tasks[i].deps[j].id)
      {
        KindOfTask(c, hs, s, i);
        EdgeIsSpawned(c, hs, s, s.tasks[i], j);
      }
    } else {
      var k := HeaderIsSpawned(c, hs, s, 0);
      FirstEdgeIsCommon(c, hs[0]);
      CommonGateMissing(c, hs, s);
      assert s.tasks[k].deps[|hs[0].dependsOn|].Local?;
    }
  }

  // -------------------------------------------------------------------------------------- cycles

  function IndexById(hs: seq<Header>, id: string): (i: nat)
    ensures i <= |hs| && (i < |hs| ==> hs[i].taskId == id) && forall j :: 0 <= j < i ==> hs[j].taskId != id
  {
    if hs == [] || hs[0].taskId == id then 0 else 1 + IndexById(hs[1..], id)
  }

  function FirstOwnerOf(hs: seq<Header>, g: string): (i: nat)
    ensures i <= |hs| && (i < |hs| ==> GateOf(hs[i]) == Some(g)) && forall j :: 0 <= j < i ==> GateOf(hs[j]) != Some(g)
  {
    if hs == [] || GateOf(hs[0]) == Some(g) then 0 else 1 + FirstOwnerOf(hs[1..], g)
  }

  /** Static gates first; the i-th streamed task, then the gate it was the first to call for. */
  function Rank(hs: seq<Header>, id: string): nat {
    if IndexById(hs, id) < |hs| then 2 * IndexById(hs, id) + 1
    else if FirstOwnerOf(hs, id) < |hs| then 2 * FirstOwnerOf(hs, id) + 2
    else 0
  }

  lemma HeaderRank(c: Config, hs: seq<Header>, i: nat)
    requires GoodStream(c, hs) && i < |hs|
    ensures Rank(hs, hs[i].taskId) == 2 * i + 1
  {
    hide GateOf, DepsEarlier, IndexById, FirstOwnerOf;
  }

  lemma GateRank(c: Config, hs: seq<Header>, j: nat, g: string)
    requires GoodStream(c, hs) && j < |hs| && GateOf(hs[j]) == Some(g)
    ensures Rank(hs, g) == 2 * FirstOwnerOf(hs, g) + 2 && FirstOwnerOf(hs, g) <= j
  {
    hide GateOf, DepsEarlier, IndexById, FirstOwnerOf;
    GateIdShape(hs[j], g);
  }

  lemma StaticRank(c: Config, hs: seq<Header>, c': Config, id: string)
    requires GoodStream(c, hs) && id in StaticIds(c')
    ensures Rank(hs, id) == 0
  {
    hide GateOf, DepsEarlier, IndexById, FirstOwnerOf, StaticIds;
    StaticIdShape(c', id);
    assert FirstOwnerOf(hs, id) == |hs| by {
      if FirstOwnerOf(hs, id) < |hs| { GateIdShape(hs[FirstOwnerOf(hs, id)], id); }
    }
  }

  lemma CommonRank(c: Config, hs: seq<Header>)
    requires GoodStream(c, hs)
    ensures Rank(hs, "import_common") == 0 && Rank(hs, "import_build_deps") == 0
  {
    hide GateOf, DepsEarlier, IndexById, FirstOwnerOf, StaticIds;
    var c' := c.(outpaths := [""], buildDepsLocal := true);
    assert "import_common" in StaticIds(c') && "import_build_deps" in StaticIds(c') by { CommonIsStatic(c'); }
    StaticRank(c, hs, c', "import_common");
    StaticRank(c, hs, c', "import_build_deps");
  }

  lemma CommonIsStatic(c: Config)
    requires c.outpaths != [] && c.buildDepsLocal
    ensures "import_common" in StaticIds(c) && "import_build_deps" in StaticIds(c)
  {
  }

  lemma HeaderEdgeDrops(c: Config, hs: seq<Header>, i: nat, id: string)
    requires GoodStream(c, hs) && i < |hs|
    requires id in hs[i].dependsOn || id in ImportDeps(c, hs[i])
    ensures Rank(hs, id) < 2 * i + 1
  {
    hide Rank, ImportDeps, GateOf, StaticIds;
    if id in hs[i].dependsOn {
      var k :| 0 <= k < |hs[i].dependsOn| && hs[i].dependsOn[k] == id;
      assert DepsEarlier(hs, i) && IsEarlierCommonDep(hs, i, id);
      var j :| 0 <= j < i && hs[j].taskId == id;
      HeaderRank(c, hs, j);
    } else {
      ImportDepNames(c, hs, i, id);
      CommonRank(c, hs);
      if id in StaticIds(c) {
        StaticRank(c, hs, c, id);
      } else if j :| 0 <= j < i && GateOf(hs[j]) == Some(id) {
        GateRank(c, hs, j, id);
      }
    }
  }

  lemma EdgeDrops(c: Config, hs: seq<Header>, t: Task, j: nat)
    requires GoodStream(c, hs)
    requires IsStatic(c, t) || IsHeaderTask(c, hs, t) || IsGateTask(c, hs, t)
    requires j < |t.deps| && t.deps[j].Local?
    ensures Rank(hs, t.deps[j].id) < Rank(hs, t.id)
  {
    hide GoodStream, StaticIds, TaskOf, ImportDeps, GateOf, Rank;
    if IsHeaderTask(c, hs, t) {
      var i :| 0 <= i < |hs| && t == TaskOf(c, hs[i]);
      HeaderEdge(c, hs[i], j);
      TaskOfId(c, hs[i]);
      HeaderRank(c, hs, i);
      HeaderEdgeDrops(c, hs, i, t.deps[j].id);
    } else if IsGateTask(c, hs, t) {
      var i: nat :| FirstOwner(hs, i, t.id) && t == DepGate(t.id, hs[i]);
      HeaderRank(c, hs, i);
      GateRank(c, hs, i, t.id);
    }
  }

  lemma NoCycle(c: Config, hs: seq<Header>, s: Spawned)
    requires Contents(c, hs, s) && GoodStream(c, hs)
    ensures Ranked(s.tasks, id => Rank(hs, id))
  {
    hide Contents, GoodStream, Rank, IsStatic, IsHeaderTask, IsGateTask;
    forall i, j | 0 <= i < |s.tasks| && 0 <= j < |s.tasks[i].deps| && s.tasks[i].deps[j].Local?
      ensures Rank(hs, s.tasks[i].deps[j].id) < Rank(hs, s.tasks[i].id)
    {
      KindOfTask(c, hs, s, i);
      EdgeDrops(c, hs, s.tasks[i], j);
    }
  }

  // ------------------------------------------------------------------------------- main theorem

  /** However the stream is cut into batches, after each of them the graph has every header's task
      and every gate exactly once, no cycle, and no dangling intra-phase edge if and only if the
      common import gate was discovered (or edges are disabled, or nothing was streamed yet). */
  lemma GraphAfterEveryBatch(c: Config, s: Spawned, bs: seq<seq<Header>>, n: nat)
    requires Start(c, s) && GoodStream(c, Stream(bs)) && n <= |bs|
    ensures var g, hs := HandleBatches(c, s, bs[..n]), Stream(bs[..n]);
      && Contents(c, hs, g)
      && DistinctIds(g.tasks)
      && Ranked(g.tasks, id => Rank(hs, id))
      && (Closed(g.tasks) <==> c.outpaths != [] || c.disableTaskDeps || hs == [])
  {
    hide GoodStream, Ranked, Rank, Closed, HandleBatches, Stream;
    var rest := StreamPrefix(bs, n);
    GoodStreamPrefix(c, Stream(bs[..n]), rest);
    BatchesContents(c, s, bs[..n]);
    NoCycle(c, Stream(bs[..n]), HandleBatches(c, s, bs[..n]));
    ClosedIffCommonGate(c, Stream(bs[..n]), HandleBatches(c, s, bs[..n]));
  }
}
