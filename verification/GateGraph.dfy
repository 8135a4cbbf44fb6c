/** The graph the primary spawns while batches stream in: which tasks it holds after every batch,
    that no intra-phase edge dangles, and that it has no cycle. */
module GateGraph {
  import opened Wrappers
  import opened TaskGraph
  import Order = StringOrder

  predicate GatesOn(c: Config) {
    c.CommonDepGates() && !c.disableTaskDeps
  }

  predicate Owned(hs: seq<Header>, g: string) {
    exists i :: 0 <= i < |hs| && GateOf(hs[i]) == Some(g)
  }

  predicate HasTaskId(hs: seq<Header>, id: string) {
    exists i :: 0 <= i < |hs| && hs[i].taskId == id
  }

  /** Header `i` is the first of the stream that calls for its gate. */
  predicate FirstOwner(hs: seq<Header>, i: nat, g: string) {
    i < |hs| && GateOf(hs[i]) == Some(g) && forall j :: 0 <= j < i ==> GateOf(hs[j]) != Some(g)
  }

  /** The stream handled so far: what `dependency_graph` promises about it. */
  predicate GoodStream(c: Config, hs: seq<Header>) {
    && (forall i, j :: 0 <= i < j < |hs| ==> hs[i].taskId != hs[j].taskId)
    && (forall i :: 0 <= i < |hs| ==> !("import_" <= hs[i].taskId))
    && (forall i :: 0 <= i < |hs| ==> hs[i].itemClass == COMMON_DEP || hs[i].itemClass == VARIANT)
    && (forall i :: 0 <= i < |hs| ==> DepsEarlier(hs, i))
    && (forall i :: 0 <= i < |hs| ==> hs[i].toolchainOutpath == "" || hs[i].toolchainOutpath in c.outpaths)
    && (forall i :: 0 <= i < |hs| ==> hs[i].pkg == "" || hs[i].pkg in c.binaries)
  }

  /** Each shared dependency is listed before its dependents. */
  predicate DepsEarlier(hs: seq<Header>, i: nat)
    requires i < |hs|
  {
    forall k :: 0 <= k < |hs[i].dependsOn| ==> IsEarlierCommonDep(hs, i, hs[i].dependsOn[k])
  }

  predicate IsEarlierCommonDep(hs: seq<Header>, i: nat, id: string)
    requires i <= |hs|
  {
    exists j :: 0 <= j < i && hs[j].taskId == id && hs[j].itemClass == COMMON_DEP
  }

  // ------------------------------------------------------------------------ what has been spawned

  predicate IsStatic(c: Config, t: Task) {
    t == StaticGate(t.id) && t.id in StaticIds(c)
  }

  predicate IsHeaderTask(c: Config, hs: seq<Header>, t: Task) {
    exists i :: 0 <= i < |hs| && t == TaskOf(c, hs[i])
  }

  ghost predicate IsGateTask(c: Config, hs: seq<Header>, t: Task) {
    GatesOn(c) && IsFirstGate(hs, t)
  }

  ghost predicate Contents(c: Config, hs: seq<Header>, s: Spawned) {
    && (forall g :: g in s.gateIds <==> GatesOn(c) && Owned(hs, g))
    && (forall k :: 0 <= k < |s.tasks| ==>
         IsStatic(c, s.tasks[k]) || IsHeaderTask(c, hs, s.tasks[k]) || IsGateTask(c, hs, s.tasks[k]))
    && (forall id :: id in StaticIds(c) ==> HasId(s.tasks, id))
    && (forall i :: 0 <= i < |hs| ==> HasId(s.tasks, hs[i].taskId))
    && (forall g :: g in s.gateIds ==> HasId(s.tasks, g))
    && DistinctIds(s.tasks)
  }

  // ---------------------------------------------------------------------------- ids never collide

  lemma PrefixOfConcat(p: string, t: string)
    ensures p <= p + t
  {
  }

  lemma MatrixIdShape(b: string)
    ensures "import_" <= MatrixGateId(b) && !("import_common_dep_" <= MatrixGateId(b))
  {
    var id := MatrixGateId(b);
    assert id[..7] == "import_" && id[7] == 'm' && "import_common_dep_"[7] == 'c';
  }

  lemma ToolchainIdShape(p: string)
    requires ToolchainGateId(p).Some?
    ensures "import_" <= ToolchainGateId(p).value && !("import_common_dep_" <= ToolchainGateId(p).value)
  {
    var id := ToolchainGateId(p).value;
    assert id[..7] == "import_" && id[7] == 't' && "import_common_dep_"[7] == 'c';
  }

  lemma FixedIdShape(id: string)
    requires id == "import_common" || id == "import_build_deps" || id == "import_toolchain_drv"
    ensures "import_" <= id && !("import_common_dep_" <= id)
  {
    assert "import_" == id[..7];
    assert |"import_common_dep_"| == 18 && |"import_common"| == 13 && |"import_build_deps"| == 17;
    assert "import_toolchain_drv"[7] == 't' && "import_common_dep_"[7] == 'c';
  }

  lemma StaticIdShape(c: Config, id: string)
    requires id in StaticIds(c)
    ensures "import_" <= id && !("import_common_dep_" <= id)
  {
    hide MatrixGateId, ToolchainGateId;
    if id == "import_common" || id == "import_build_deps" || id == "import_toolchain_drv" {
      FixedIdShape(id);
    } else if b :| b in c.binaries && id == MatrixGateId(b) {
      MatrixIdShape(b);
    } else {
      var p :| p in c.outpaths && ToolchainGateId(p).Some? && ToolchainGateId(p).value == id;
      ToolchainIdShape(p);
    }
  }

  lemma GateIdShape(h: Header, g: string)
    requires GateOf(h) == Some(g)
    ensures "import_" <= g && "import_common_dep_" <= g
  {
    var t := HeadToken(IdentOf(h.taskId).value);
    PrefixOfConcat("import_common_dep_", t);
    assert g[..7] == "import_";
  }

  // --------------------------------------------------------------------------------- one batch

  ghost predicate IsFirstGate(hs: seq<Header>, t: Task) {
    exists i: nat :: FirstOwner(hs, i, t.id) && t == DepGate(t.id, hs[i])
  }

  lemma {:induction false} NewGatesSpec(done: seq<Header>, hs: seq<Header>, seen: set<string>)
    requires forall g :: g in seen <==> Owned(done, g)
    ensures var (ts, seen') := NewGates(hs, seen);
      && (forall g :: g in seen' <==> Owned(done + hs, g))
      && (forall k :: 0 <= k < |ts| ==> ts[k].id !in seen && ts[k].id in seen' && IsFirstGate(done + hs, ts[k]))
      && (forall g :: g in seen' && g !in seen ==> HasId(ts, g))
      && DistinctIds(ts)
    decreases |hs|
  {
    hide GateOf, DepGate, Owned, IsFirstGate, HasId, DistinctIds;
    if hs == [] {
      assert done + hs == done;
      NoTasks();
    } else {
      var next := done + [hs[0]];
      assert next + hs[1..] == done + hs;
      OwnedSnoc(done, hs[0]);
      var g0 := GateOf(hs[0]);
      if g0.None? || g0.value in seen {
        NewGatesSpec(next, hs[1..], seen);
      } else {
        NewGatesSpec(next, hs[1..], seen + {g0.value});
        FirstGate(done, hs, g0.value);
        var gate := DepGate(g0.value, hs[0]);
        var rest := NewGates(hs[1..], seen + {g0.value}).0;
        DistinctCons(gate, rest);
        assert NewGates(hs, seen).0 == [gate] + rest;
        forall k | 0 <= k < |[gate] + rest| ensures ([gate] + rest)[k].id !in seen
            && ([gate] + rest)[k].id in NewGates(hs, seen).1 && IsFirstGate(done + hs, ([gate] + rest)[k]) {
          if k > 0 { assert ([gate] + rest)[k] == rest[k - 1]; }
        }
      }
    }
  }

  lemma NoTasks()
    ensures DistinctIds([])
  {
  }

  lemma DistinctCons(t: Task, ts: seq<Task>)
    ensures forall id :: HasId([t] + ts, id) <==> id == t.id || HasId(ts, id)
    ensures DistinctIds(ts) && (forall k :: 0 <= k < |ts| ==> ts[k].id != t.id) ==> DistinctIds([t] + ts)
  {
    HasIdConcat([t], ts);
    assert [t][0].id == t.id;
  }

  lemma FirstGate(done: seq<Header>, hs: seq<Header>, g: string)
    requires hs != [] && GateOf(hs[0]) == Some(g) && !Owned(done, g)
    ensures DepGate(g, hs[0]).id == g
    ensures IsFirstGate(done + hs, DepGate(g, hs[0])) && Owned(done + hs, g)
  {
    hide GateOf;
    assert (done + hs)[|done|] == hs[0];
    forall j | 0 <= j < |done| ensures GateOf((done + hs)[j]) != Some(g) {
      assert (done + hs)[j] == done[j];
    }
    assert FirstOwner(done + hs, |done|, g);
  }

  lemma OwnedSnoc(hs: seq<Header>, h: Header)
    ensures forall g :: Owned(hs + [h], g) <==> Owned(hs, g) || GateOf(h) == Some(g)
  {
    var t := hs + [h];
    forall g ensures Owned(t, g) <==> Owned(hs, g) || GateOf(h) == Some(g) {
      assert t[|hs|] == h;
      if i :| 0 <= i < |hs| && GateOf(hs[i]) == Some(g) { assert t[i] == hs[i]; }
      if i :| 0 <= i < |t| && GateOf(t[i]) == Some(g) {
        if i < |hs| { assert t[i] == hs[i]; }
      }
    }
  }

  lemma HasIdConcat(a: seq<Task>, b: seq<Task>)
    ensures forall id :: HasId(a + b, id) <==> HasId(a, id) || HasId(b, id)
  {
    forall id ensures HasId(a + b, id) <==> HasId(a, id) || HasId(b, id) {
      if i :| 0 <= i < |a| && a[i].id == id { assert (a + b)[i].id == id; }
      if i :| 0 <= i < |b| && b[i].id == id { assert (a + b)[|a| + i].id == id; }
    }
  }

  /** Earlier tasks keep their description when the stream grows. */
  lemma TaskKindGrows(c: Config, done: seq<Header>, hs: seq<Header>, t: Task)
    requires IsStatic(c, t) || IsHeaderTask(c, done, t) || IsGateTask(c, done, t)
    ensures IsStatic(c, t) || IsHeaderTask(c, done + hs, t) || IsGateTask(c, done + hs, t)
  {
    hide TaskOf, GateOf, StaticIds;
    var all := done + hs;
    if IsHeaderTask(c, done, t) {
      var i :| 0 <= i < |done| && t == TaskOf(c, done[i]);
      assert all[i] == done[i];
    } else if IsGateTask(c, done, t) {
      var i: nat :| FirstOwner(done, i, t.id) && t == DepGate(t.id, done[i]);
      assert all[..|done|] == done;
      assert FirstOwner(all, i, t.id) by {
        assert forall j :: 0 <= j <= i ==> all[j] == done[j];
      }
    }
  }

  /** Where the id of a task spawned earlier came from. */
  lemma OldId(c: Config, done: seq<Header>, t: Task)
    requires IsStatic(c, t) || IsHeaderTask(c, done, t) || IsGateTask(c, done, t)
    ensures t.id in StaticIds(c) || HasTaskId(done, t.id) || (GatesOn(c) && Owned(done, t.id))
  {
    hide GateOf, StaticIds, HeaderDependsOn;
    if IsGateTask(c, done, t) {
      var j: nat :| FirstOwner(done, j, t.id) && t == DepGate(t.id, done[j]);
    } else if IsHeaderTask(c, done, t) {
      var j :| 0 <= j < |done| && t == TaskOf(c, done[j]);
      assert done[j].taskId == t.id;
    }
  }

  lemma OldIds(c: Config, done: seq<Header>, s: Spawned, id: string)
    requires Contents(c, done, s) && HasId(s.tasks, id)
    ensures id in StaticIds(c) || HasTaskId(done, id) || (GatesOn(c) && Owned(done, id))
  {
    hide GateOf, StaticIds, IsStatic, IsHeaderTask, IsGateTask, HasTaskId, Owned;
    var k :| 0 <= k < |s.tasks| && s.tasks[k].id == id;
    OldId(c, done, s.tasks[k]);
  }

  lemma PlainIdIsNotAGate(c: Config, hs: seq<Header>, id: string)
    requires !("import_" <= id)
    ensures id !in StaticIds(c) && !Owned(hs, id)
  {
    hide StaticIds, GateOf;
    if id in StaticIds(c) { StaticIdShape(c, id); }
    if j :| 0 <= j < |hs| && GateOf(hs[j]) == Some(id) { GateIdShape(hs[j], id); }
  }

  lemma GateIdIsPlainGate(c: Config, hs: seq<Header>, g: string)
    requires Owned(hs, g)
    ensures "import_" <= g && g !in StaticIds(c)
  {
    hide StaticIds, GateOf;
    var j :| 0 <= j < |hs| && GateOf(hs[j]) == Some(g);
    GateIdShape(hs[j], g);
    if g in StaticIds(c) { StaticIdShape(c, g); }
  }

  lemma HeaderIdIsNew(c: Config, done: seq<Header>, s: Spawned, hs: seq<Header>, i: nat)
    requires Contents(c, done, s) && GoodStream(c, done + hs) && i < |hs|
    ensures !HasId(s.tasks, hs[i].taskId)
  {
    hide Contents, StaticIds, Owned, DepsEarlier, HasId;
    var all := done + hs;
    assert all[|done| + i] == hs[i];
    PlainIdIsNotAGate(c, done, hs[i].taskId);
    assert !HasTaskId(done, hs[i].taskId) by {
      forall j | 0 <= j < |done| ensures done[j].taskId != hs[i].taskId { assert all[j] == done[j]; }
    }
    if HasId(s.tasks, hs[i].taskId) { OldIds(c, done, s, hs[i].taskId); }
  }

  lemma GateIdIsNew(c: Config, done: seq<Header>, s: Spawned, hs: seq<Header>, g: string)
    requires Contents(c, done, s) && GoodStream(c, done + hs)
    requires g !in s.gateIds && Owned(done + hs, g) && GatesOn(c)
    ensures !HasId(s.tasks, g)
  {
    hide StaticIds, Owned, DepsEarlier, HasId, IsStatic, IsHeaderTask, IsGateTask;
    var all := done + hs;
    GateIdIsPlainGate(c, all, g);
    assert !HasTaskId(done, g) by {
      forall j | 0 <= j < |done| ensures done[j].taskId != g { assert all[j] == done[j]; }
    }
    if HasId(s.tasks, g) { OldIds(c, done, s, g); }
  }

  lemma TaskOfId(c: Config, h: Header)
    ensures TaskOf(c, h).id == h.taskId
  {
  }

  lemma FreshTasksDistinct(c: Config, done: seq<Header>, hs: seq<Header>, gates: seq<Task>)
    requires GoodStream(c, done + hs) && DistinctIds(gates)
    requires forall k :: 0 <= k < |gates| ==> Owned(done + hs, gates[k].id)
    ensures DistinctIds(TasksOf(c, hs) + gates)
  {
    hide TaskOf, GateOf, DepsEarlier;
    var all := done + hs;
    var ts := TasksOf(c, hs);
    var r := ts + gates;
    forall i, j | 0 <= i < j < |r| ensures r[i].id != r[j].id {
      if i < |ts| {
        TaskOfId(c, hs[i]);
        assert all[|done| + i] == hs[i];
        if j < |ts| {
          TaskOfId(c, hs[j]);
          assert all[|done| + j] == hs[j];
        } else {
          var m :| 0 <= m < |all| && GateOf(all[m]) == Some(gates[j - |ts|].id);
          GateIdShape(all[m], r[j].id);
        }
      }
    }
  }

  lemma DistinctConcat(a: seq<Task>, b: seq<Task>)
    requires DistinctIds(a) && DistinctIds(b)
    requires forall j :: 0 <= j < |b| ==> !HasId(a, b[j].id)
    ensures DistinctIds(a + b)
  {
  }

  /** One batch, cut from the stream anywhere, adds exactly its tasks and the gates not yet there. */
  lemma HandleHeadersContents(c: Config, done: seq<Header>, s: Spawned, hs: seq<Header>)
    requires Contents(c, done, s) && GoodStream(c, done + hs)
    ensures Contents(c, done + hs, HandleHeaders(c, s, hs))
  {
    hide TaskOf, GateOf, StaticIds, GoodStream, NewGates;
    var all := done + hs;
    var s' := HandleHeaders(c, s, hs);
    var gates := if GatesOn(c) then NewGates(hs, s.gateIds).0 else [];
    var added := TasksOf(c, hs) + gates;
    assert s'.tasks == s.tasks + added;
    if GatesOn(c) { NewGatesSpec(done, hs, s.gateIds); }
    BatchKinds(c, done, s, hs, gates);
    HasIdConcat(TasksOf(c, hs), gates);
    HasIdConcat(s.tasks, added);
    forall i | 0 <= i < |all| ensures HasId(s'.tasks, all[i].taskId) {
      if i < |done| {
        assert all[i] == done[i];
      } else {
        TaskOfId(c, hs[i - |done|]);
        assert TasksOf(c, hs)[i - |done|].id == all[i].taskId;
        assert HasId(TasksOf(c, hs), all[i].taskId);
      }
    }
    forall j | 0 <= j < |added| ensures !HasId(s.tasks, added[j].id) {
      if j < |hs| {
        TaskOfId(c, hs[j]);
        HeaderIdIsNew(c, done, s, hs, j);
      } else {
        GateIdIsNew(c, done, s, hs, added[j].id);
      }
    }
    FreshTasksDistinct(c, done, hs, gates);
    DistinctConcat(s.tasks, added);
  }

  lemma BatchKinds(c: Config, done: seq<Header>, s: Spawned, hs: seq<Header>, gates: seq<Task>)
    requires Contents(c, done, s)
    requires gates != [] ==> GatesOn(c)
    requires forall k :: 0 <= k < |gates| ==>
      IsFirstGate(done + hs, gates[k])
    ensures var r := s.tasks + (TasksOf(c, hs) + gates);
      forall k :: 0 <= k < |r| ==> IsStatic(c, r[k]) || IsHeaderTask(c, done + hs, r[k]) || IsGateTask(c, done + hs, r[k])
  {
    hide TaskOf, GateOf, StaticIds, FirstOwner, Owned;
    var all := done + hs;
    var r := s.tasks + (TasksOf(c, hs) + gates);
    forall k | 0 <= k < |r| ensures IsStatic(c, r[k]) || IsHeaderTask(c, all, r[k]) || IsGateTask(c, all, r[k]) {
      if k < |s.tasks| {
        TaskKindGrows(c, done, hs, s.tasks[k]);
      } else if k < |s.tasks| + |hs| {
        assert all[|done| + (k - |s.tasks|)] == hs[k - |s.tasks|];
        assert r[k] == TaskOf(c, all[|done| + (k - |s.tasks|)]);
      } else {
        assert r[k] == gates[k - |s.tasks| - |hs|];
      }
    }
  }
}
