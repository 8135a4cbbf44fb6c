/** What the extra edges are for: which gates a build task waits for, and that a shared dependency is
    built, published and imported before its dependents start (`suit_task.py`). */
module GateEdges {
  import opened Wrappers
  import opened TaskGraph
  import opened GateGraph
  import opened GateTheorems
  import Order = StringOrder

  predicate IsBuild(h: Header) {
    h.itemClass == COMMON_DEP || h.itemClass == VARIANT
  }

  /** The gates the documentation lists for a header. */
  ghost predicate WaitsFor(c: Config, h: Header, id: string) {
    || (IsBuild(h) && (
         || id == "import_common"
         || (c.buildDepsLocal && id == "import_build_deps")
         || (c.matrixEvalOutDir && id == "import_toolchain_drv")
         || (c.CommonDepGates() && exists k :: 0 <= k < |h.dependsOn| && GateIdOf(h.dependsOn[k]) == Some(id))))
    || (h.itemClass == VARIANT && (
         || (h.toolchainOutpath != "" && ToolchainGateId(h.toolchainOutpath) == Some(id))
         || (c.matrixEvalOutDir && h.pkg != "" && id == MatrixGateId(h.pkg))))
  }

  lemma ImportDepsAre(c: Config, h: Header, id: string)
    ensures id in ImportDeps(c, h) <==> WaitsFor(c, h, id)
  {
    hide GateIdsOf, Order.SortedSet, GateIdOf, ToolchainGateId, MatrixGateId;
    Order.SortedSetIs(GateIdsOf(h.dependsOn));
    GateIdsListed(h.dependsOn, id);
  }

  ghost predicate Required(c: Config, h: Header, d: Dep) {
    match d
    case Local(id) => id in h.dependsOn || WaitsFor(c, h, id)
    case BuildCompilers(id) => id in h.compilersDependsOn
  }

  /** A spawned task's edges are its own dependencies, the listed gates, and its toolchain builds in
      their own phase; with dependencies disabled there are none. */
  lemma EdgesAre(c: Config, h: Header, d: Dep)
    ensures d in TaskOf(c, h).deps <==> !c.disableTaskDeps && Required(c, h, d)
  {
    hide ImportDeps, WaitsFor;
    ImportDepsAre(c, h, d.id);
    LocalsAre(h.dependsOn, d);
    LocalsAre(ImportDeps(c, h), d);
    CompilersAre(h.compilersDependsOn, d);
  }

  lemma LocalsAre(ids: seq<string>, d: Dep)
    ensures d in Locals(ids) <==> d.Local? && d.id in ids
  {
    if d.Local? && d.id in ids {
      var i :| 0 <= i < |ids| && ids[i] == d.id;
      assert Locals(ids)[i] == d;
    }
  }

  lemma CompilersAre(ids: seq<string>, d: Dep)
    ensures d in ToolchainBuilds(ids) <==> d.BuildCompilers? && d.id in ids
  {
    if d.BuildCompilers? && d.id in ids {
      var i :| 0 <= i < |ids| && ids[i] == d.id;
      assert ToolchainBuilds(ids)[i] == d;
    }
  }

  /** For every shared dependency of a streamed header: the header's task waits for the dependency's
      import gate, the gate is spawned on every machine, and it waits for the first streamed task that
      builds and publishes a closure with that store hash; no earlier one does. */
  lemma DependencyIsImported(c: Config, s: Spawned, bs: seq<seq<Header>>, i: nat, k: nat,
      gate: string) returns (t: nat, owner: nat)
    requires Start(c, s) && GoodStream(c, Stream(bs)) && GatesOn(c)
    requires i < |Stream(bs)| && k < |Stream(bs)[i].dependsOn| && GateIdOf(Stream(bs)[i].dependsOn[k]) == Some(gate)
    ensures var hs, g := Stream(bs), HandleBatches(c, s, bs);
      && Local(gate) in TaskOf(c, hs[i]).deps
      && t < |g.tasks| && g.tasks[t].id == gate && g.tasks[t].affine
      && owner < i && FirstOwner(hs, owner, gate)
      && g.tasks[t].deps == (if hs[owner].taskId == "" then [] else [Local(hs[owner].taskId)])
  {
    hide GateOf, GateIdOf, StaticIds, DistinctIds, HandleBatches, IsStatic, Stream, TaskOf;
    var hs, g := Stream(bs), HandleBatches(c, s, bs);
    BatchesContents(c, s, bs);
    EdgesAre(c, hs[i], Local(gate));
    assert IsBuild(hs[i]) && WaitsFor(c, hs[i], gate);
    var j := OwnerOf(c, hs, i, k, gate);
    assert Owned(hs, gate);
    t :| 0 <= t < |g.tasks| && g.tasks[t].id == gate;
    GateIdIsPlainGate(c, hs, gate);
    assert !HasTaskId(hs, gate) by {
      forall m | 0 <= m < |hs| ensures hs[m].taskId != gate { assert !("import_" <= hs[m].taskId); }
    }
    KindOfTask(c, hs, g, t);
    owner := GateTaskOwner(c, hs, g.tasks[t]);
  }

  lemma OwnerOf(c: Config, hs: seq<Header>, i: nat, k: nat, gate: string) returns (j: nat)
    requires GoodStream(c, hs) && i < |hs| && k < |hs[i].dependsOn| && GateIdOf(hs[i].dependsOn[k]) == Some(gate)
    ensures j < i && GateOf(hs[j]) == Some(gate)
  {
    hide GateIdOf;
    assert DepsEarlier(hs, i) && IsEarlierCommonDep(hs, i, hs[i].dependsOn[k]);
    j :| 0 <= j < i && hs[j].taskId == hs[i].dependsOn[k] && hs[j].itemClass == COMMON_DEP;
  }

  lemma GateTaskOwner(c: Config, hs: seq<Header>, task: Task) returns (owner: nat)
    requires IsStatic(c, task) || IsHeaderTask(c, hs, task) || IsGateTask(c, hs, task)
    requires task.id !in StaticIds(c) && !HasTaskId(hs, task.id)
    ensures FirstOwner(hs, owner, task.id) && task == DepGate(task.id, hs[owner])
  {
    hide GateOf, StaticIds, TaskOf;
    assert !IsStatic(c, task) by { StaticHasStaticId(c, task); }
    assert !IsHeaderTask(c, hs, task) by {
      forall m | 0 <= m < |hs| ensures task != TaskOf(c, hs[m]) { TaskOfId(c, hs[m]); }
    }
    owner :| FirstOwner(hs, owner, task.id) && task == DepGate(task.id, hs[owner]);
  }
}
