/** What the spawned graph says about the descriptors themselves: each has its task, with exactly the
    edges its own fields call for (`manifest_glue.py`, `suit_task.py`). */
module DescriptorTasks {
  import opened Wrappers
  import opened Json
  import opened SpawnCodec
  import opened SpawnEncoder
  import opened TaskGraph
  import opened GateGraph
  import opened GateTheorems
  import opened GateEdges

  predicate PayloadSays(d: Descriptor, key: string, value: string) {
    d.payload.Native? && Get(d.payload.members, key) == Some(Str(value))
  }

  /** The import gates a descriptor's task has to wait for. */
  ghost predicate CallsFor(c: Config, d: Descriptor, gate: string) {
    || gate == "import_common"
    || (c.buildDepsLocal && gate == "import_build_deps")
    || (c.matrixEvalOutDir && gate == "import_toolchain_drv")
    || (c.commonDepsAffine && c.matrixEvalOutDir && exists x :: x in d.dependsOn && GateIdOf(x) == Some(gate))
    || (d.kind == "build_variant" && (
         || (exists p :: PayloadSays(d, "toolchain_outpath", p) && p != "" && ToolchainGateId(p) == Some(gate))
         || (c.matrixEvalOutDir && exists b :: PayloadSays(d, "pkg", b) && b != "" && gate == "import_matrix_drv_" + b)))
  }

  /** The task of the descriptor: its id, not bound to a machine, its toolchain builds in their own phase,
      and its dependencies and import gates in the build phase; no edge when they are disabled. */
  ghost predicate IsTaskOf(c: Config, d: Descriptor, t: Task) {
    && t.id == d.taskId
    && !t.affine
    && forall x ::
      && (BuildCompilers(x) in t.deps <==> !c.disableTaskDeps && x in d.buildCompilersDependsOn)
      && (Local(x) in t.deps <==> !c.disableTaskDeps && (x in d.dependsOn || CallsFor(c, d, x)))
  }

  lemma PayloadTextIs(d: Descriptor, key: string, value: string)
    requires value != ""
    ensures PayloadText(d.payload, key) == value <==> PayloadSays(d, key, value)
  {
    hide Get;
  }

  lemma WaitsForIs(c: Config, d: Descriptor, gate: string)
    requires KnownKind(d)
    ensures WaitsFor(c, HeaderOf(d), gate) <==> CallsFor(c, d, gate)
  {
    hide GateIdOf, ToolchainGateId, PayloadText, PayloadSays;
    var h := HeaderOf(d);
    assert IsBuild(h);
    forall key: string, value: string | value != ""
      ensures PayloadText(d.payload, key) == value <==> PayloadSays(d, key, value)
    {
      PayloadTextIs(d, key, value);
    }
    assert (exists k :: 0 <= k < |h.dependsOn| && GateIdOf(h.dependsOn[k]) == Some(gate)) <==>
      exists x :: x in d.dependsOn && GateIdOf(x) == Some(gate);
  }

  /** A descriptor of a known kind becomes its task. */
  lemma TaskOfDescriptor(c: Config, d: Descriptor)
    requires KnownKind(d)
    ensures IsTaskOf(c, d, TaskOf(c, HeaderOf(d)))
  {
    hide WaitsFor, CallsFor;
    var h := HeaderOf(d);
    forall x
      ensures BuildCompilers(x) in TaskOf(c, h).deps <==> !c.disableTaskDeps && x in d.buildCompilersDependsOn
      ensures Local(x) in TaskOf(c, h).deps <==> !c.disableTaskDeps && (x in d.dependsOn || CallsFor(c, d, x))
    {
      EdgesAre(c, h, BuildCompilers(x));
      EdgesAre(c, h, Local(x));
      WaitsForIs(c, d, x);
    }
  }

  /** Each known descriptor has its header, each header comes from one, and they keep their order. */
  lemma {:induction false} HeaderAt(ds: seq<Descriptor>, i: nat) returns (j: nat)
    requires i < |ds| && KnownKind(ds[i])
    ensures j <= i && j < |HeadersOf(ds)| && HeadersOf(ds)[j] == HeaderOf(ds[i])
    ensures j == |HeadersOf(ds[..i])|
    decreases |ds|
  {
    hide HeaderOf;
    if i == 0 {
      j := 0;
    } else {
      j := HeaderAt(ds[1..], i - 1);
      assert ds[..i][1..] == ds[1..][..i - 1] && ds[..i][0] == ds[0];
      if KnownKind(ds[0]) { j := j + 1; }
    }
  }

  lemma {:induction false} HeaderFrom(ds: seq<Descriptor>, j: nat) returns (i: nat)
    requires j < |HeadersOf(ds)|
    ensures i < |ds| && KnownKind(ds[i]) && HeadersOf(ds)[j] == HeaderOf(ds[i])
    ensures j == |HeadersOf(ds[..i])|
    decreases |ds|
  {
    hide HeaderOf;
    if KnownKind(ds[0]) && j == 0 {
      i := 0;
    } else {
      i := HeaderFrom(ds[1..], if KnownKind(ds[0]) then j - 1 else j);
      assert ds[..i + 1][1..] == ds[1..][..i] && ds[..i + 1][0] == ds[0];
      i := i + 1;
    }
  }

  lemma {:induction false} HeadersGrow(ds: seq<Descriptor>, m: nat, n: nat)
    requires m < n <= |ds|
    ensures |HeadersOf(ds[..m])| + (if KnownKind(ds[m]) then 1 else 0) <= |HeadersOf(ds[..n])|
    decreases |ds|
  {
    hide HeaderOf, KnownKind;
    assert ds[..n][0] == ds[0] && ds[..n][1..] == ds[1..][..n - 1];
    if m > 0 {
      assert ds[..m][0] == ds[0] && ds[..m][1..] == ds[1..][..m - 1];
      HeadersGrow(ds[1..], m - 1, n - 1);
    }
  }

  /** How many tasks a stream spawns: its descriptors of the two known kinds. */
  lemma {:induction false} HeadersCounted(ds: seq<Descriptor>)
    ensures |HeadersOf(ds)| == multiset(Kinds(ds))["build_common_dep"] + multiset(Kinds(ds))["build_variant"]
  {
    hide HeaderOf;
    if ds != [] {
      HeadersCounted(ds[1..]);
      assert Kinds(ds) == [ds[0].kind] + Kinds(ds[1..]);
      TwoKinds();
    }
  }

  lemma TwoKinds()
    ensures "build_common_dep" != "build_variant"
  {
    assert "build_common_dep"[6] != "build_variant"[6];
  }

  // -------------------------------------------------------------------------------- import gates

  predicate Publishes(d: Descriptor, gate: string) {
    d.kind == "build_common_dep" && GateIdOf(d.taskId) == Some(gate)
  }

  /** A shared dependency that is streamed has its import gate: bound to every machine, and waiting for
      the first streamed task that publishes a closure of that store hash, and for nothing else. */
  lemma ImportGateIsSpawned(c: Config, ds: seq<Descriptor>, s: Spawned, i: nat, gate: string) returns (k: nat, j: nat)
    requires Contents(c, HeadersOf(ds), s) && GoodStream(c, HeadersOf(ds))
    requires i < |ds| && Publishes(ds[i], gate) && c.commonDepsAffine && c.matrixEvalOutDir && !c.disableTaskDeps
    ensures j <= i && Publishes(ds[j], gate) && forall m :: 0 <= m < j ==> !Publishes(ds[m], gate)
    ensures k < |s.tasks| && s.tasks[k] == Task(gate, [Local(ds[j].taskId)], true)
  {
    hide GoodStream, HeadersOf, GateIdOf, HasId, DistinctIds, StaticIds, IsStatic, IsHeaderTask, IsGateTask;
    var hs := HeadersOf(ds);
    TwoKinds();
    var a := HeaderAt(ds, i);
    assert GateOf(hs[a]) == Some(gate);
    assert Owned(hs, gate);
    assert HasId(s.tasks, gate);
    k := TaskWithId(s.tasks, gate);
    GateIsNoHeader(c, hs, gate);
    KindOfTask(c, hs, s, k);
    var owner := GateTaskOwner(c, hs, s.tasks[k]);
    j := HeaderFrom(ds, owner);
    PublisherHasId(ds[j], gate);
    forall m | 0 <= m < j ensures !Publishes(ds[m], gate) {
      if Publishes(ds[m], gate) {
        var b := HeaderAt(ds, m);
        assert GateOf(hs[b]) == Some(gate);
        HeadersGrow(ds, m, j);
      }
    }
  }

  lemma PublisherHasId(d: Descriptor, gate: string)
    requires GateOf(HeaderOf(d)) == Some(gate)
    ensures Publishes(d, gate) && d.taskId != ""
  {
  }

  lemma TaskWithId(ts: seq<Task>, id: string) returns (k: nat)
    requires HasId(ts, id)
    ensures k < |ts| && ts[k].id == id
  {
    k :| 0 <= k < |ts| && ts[k].id == id;
  }

  lemma GateIsNoHeader(c: Config, hs: seq<Header>, gate: string)
    requires GoodStream(c, hs) && Owned(hs, gate)
    ensures gate !in StaticIds(c) && !HasTaskId(hs, gate)
  {
    hide StaticIds, DepsEarlier, Owned;
    GateIdIsPlainGate(c, hs, gate);
    forall m | 0 <= m < |hs| ensures hs[m].taskId != gate { assert !("import_" <= hs[m].taskId); }
  }

  /** The static gates stay as discovered: bound to every machine and without dependencies. */
  lemma StaticGateStays(c: Config, hs: seq<Header>, s: Spawned, id: string) returns (k: nat)
    requires Contents(c, hs, s) && GoodStream(c, hs) && id in StaticIds(c)
    ensures k < |s.tasks| && s.tasks[k] == Task(id, [], true)
  {
    hide GoodStream, StaticIds, HasId, DistinctIds, IsHeaderTask, IsGateTask;
    k := TaskWithId(s.tasks, id);
    KindOfTask(c, hs, s, k);
    StaticIsNoOther(c, hs, s.tasks[k]);
  }

  lemma StaticIsNoOther(c: Config, hs: seq<Header>, t: Task)
    requires GoodStream(c, hs) && t.id in StaticIds(c)
    ensures !IsHeaderTask(c, hs, t) && !IsGateTask(c, hs, t)
  {
    hide StaticIds, DepsEarlier, TaskOf, GateOf;
    StaticIdShape(c, t.id);
    forall m | 0 <= m < |hs| ensures t != TaskOf(c, hs[m]) { TaskOfId(c, hs[m]); }
    forall m: nat | m < |hs| ensures GateOf(hs[m]) != Some(t.id) {
      if GateOf(hs[m]) == Some(t.id) { GateIdShape(hs[m], t.id); }
    }
  }

  ghost predicate IsSpawned(c: Config, d: Descriptor, ts: seq<Task>) {
    exists k :: 0 <= k < |ts| && IsTaskOf(c, d, ts[k])
  }

  /** Once the headers of a stream have been handled, every descriptor of a known kind has its task. */
  lemma DescriptorsAreSpawned(c: Config, ds: seq<Descriptor>, s: Spawned)
    requires Contents(c, HeadersOf(ds), s) && GoodStream(c, HeadersOf(ds))
    ensures forall i :: 0 <= i < |ds| && KnownKind(ds[i]) ==> IsSpawned(c, ds[i], s.tasks)
  {
    hide Contents, GoodStream, HeadersOf, IsTaskOf, KnownKind, TaskOf, HeaderOf;
    forall i | 0 <= i < |ds| && KnownKind(ds[i]) ensures IsSpawned(c, ds[i], s.tasks) {
      var j := HeaderAt(ds, i);
      var k := HeaderIsSpawned(c, HeadersOf(ds), s, j);
      TaskOfDescriptor(c, ds[i]);
      assert IsTaskOf(c, ds[i], s.tasks[k]);
    }
  }
}
