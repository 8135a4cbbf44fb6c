/** The primary's `SuitTask`: static gate discovery, the consumer of streamed messages, and the two
    phase hooks (`suit_task.py`), proved against `TaskGraph` and `Handoff`. */
module SuitTask {
  import opened Wrappers
  import opened SpawnCodec
  import opened SpawnEncoder
  import opened TaskGraph
  import opened GateGraph
  import opened GateTheorems
  import opened Handoff
  import opened SpawnFailure
  import Order = StringOrder

  const DEPENDENCY_GRAPH := "dependency_graph"

  class Runner {
    const config: Config
    var spawnedCount: nat
    var expectedTotal: Option<nat>
    var summaryBatches: Option<nat>
    var summaryCounters: Option<map<string, int>>
    var gateIds: set<string>
    var hasPrimaryHandle: bool
    /** What the primary handle's `spawn_tasks` has taken so far. */
    var spawned: seq<Task>

    predicate Valid()
      reads this
    {
      expectedTotal.Some? == summaryBatches.Some? == summaryCounters.Some?
    }

    function State(): Primary
      reads this
      requires Valid()
    {
      Primary(spawnedCount,
        if expectedTotal.Some? then Some(Totals(expectedTotal.value, summaryBatches.value, summaryCounters.value)) else None,
        Spawned(spawned, gateIds))
    }

    constructor (config: Config)
      ensures Valid() && this.config == config && !hasPrimaryHandle
      ensures State() == Primary(0, None, Spawned([], {}))
    {
      this.config := config;
      spawnedCount, expectedTotal, summaryBatches, summaryCounters := 0, None, None, None;
      gateIds, hasPrimaryHandle, spawned := {}, false, [];
    }

    /** `on_phase_start`: a fresh stream per run. */
    method OnPhaseStart(phase: string)
      requires Valid()
      modifies this
      ensures Valid() && hasPrimaryHandle == old(hasPrimaryHandle)
      ensures State() == if phase == DEPENDENCY_GRAPH then Fresh(old(State())) else old(State())
      ensures phase == "dependency_graph" ==> spawnedCount == 0 && expectedTotal.None? && gateIds == {}
      ensures phase != "dependency_graph" ==> unchanged(this)
      ensures spawned == old(spawned)
    {
      if phase == DEPENDENCY_GRAPH {
        spawnedCount := 0;
        expectedTotal := None;
        summaryCounters := None;
        summaryBatches := None;
        gateIds := {};
      }
    }

    /** `on_phase_end`: a barrier, and only for dependency_graph on a primary. */
    method OnPhaseEnd(phase: string) returns (r: Outcome<()>)
      requires Valid()
      ensures r.Ok? <==> phase != DEPENDENCY_GRAPH || !hasPrimaryHandle || Reconciled(State())
      ensures r.Ok? <==> phase != "dependency_graph" || !hasPrimaryHandle || expectedTotal == Some(spawnedCount)
    {
      if phase != DEPENDENCY_GRAPH {
        return Ok(());
      }
      if !hasPrimaryHandle {
        return Ok(());
      }
      if expectedTotal == None {
        return Raised;
      }
      if spawnedCount != expectedTotal.value {
        return Raised;
      }
      return Ok(());
    }

    /** `custom_message_handler`. */
    method CustomMessageHandler(topic: string, data: Bytes, handle: Handle) returns (r: Outcome<()>)
      requires Valid()
      modifies this
      ensures Valid() && hasPrimaryHandle == old(hasPrimaryHandle)
      ensures (State(), r.Raised?) == ReceiveWith(config, old(State()), topic, data, handle)
      ensures !handle.Raises? && r.Raised? ==> unchanged(this)
      ensures topic != "dependency_graph_spawn" && topic != "dependency_graph_summary" ==> r.Raised? && unchanged(this)
      ensures DecodeMessage(data).Raised? ==> r.Raised? && unchanged(this)
    {
      hide DecodeMessage, HandleHeaders, HeadersOf;
      if topic != SPAWN_TOPIC && topic != SUMMARY_TOPIC {
        return Raised;
      }
      match DecodeMessage(data) {
        case Raised => return Raised;
        case Ok(SpawnBatch(_, ds)) => r := HandleStreamedSpawnBatch(ds, handle);
        case Ok(Summary(total, batches, counters)) => r := HandleStreamedSummary(Totals(total, batches, AsDict(counters)));
      }
    }

    /** `_handle_streamed_spawn_batch`. */
    method HandleStreamedSpawnBatch(ds: seq<Descriptor>, handle: Handle) returns (r: Outcome<()>)
      requires Valid()
      modifies this
      ensures Valid() && hasPrimaryHandle == old(hasPrimaryHandle)
      ensures (State(), r.Raised?) == BatchWith(config, old(State()), ds, handle)
      ensures !handle.Raises? && r.Raised? ==> unchanged(this)
      ensures r.Ok? <==> handle.Works?
      ensures r.Ok? ==> spawnedCount == old(spawnedCount) + |HeadersOf(ds)|
      ensures spawnedCount == old(spawnedCount) || r.Ok?
      ensures expectedTotal == old(expectedTotal) && summaryBatches == old(summaryBatches) && summaryCounters == old(summaryCounters)
    {
      hide HeadersOf, NewGates;
      if handle.Unusable? {
        return Raised;
      }
      var headers := HeadersOf(ds);
      var taskInfos := TasksOf(config, headers);
      var gateInfos: seq<Task> := [];
      if config.CommonDepGates() && !config.disableTaskDeps {
        gateInfos := BuildCommonDepGateInfos(headers);
      }
      if handle.Raises? {
        return Raised;
      }
      spawned := spawned + (taskInfos + gateInfos);
      spawnedCount := spawnedCount + |taskInfos|;
      return Ok(());
    }

    /** `_build_common_dep_gate_infos`: one gate for every shared dependency not gated before. */
    method BuildCommonDepGateInfos(headers: seq<Header>) returns (newGates: seq<Task>)
      modifies `gateIds
      ensures (newGates, gateIds) == NewGates(headers, old(gateIds))
    {
      newGates := [];
      assert headers[0..] == headers;
      for n := 0 to |headers|
        invariant newGates + NewGates(headers[n..], gateIds).0 == NewGates(headers, old(gateIds)).0
        invariant NewGates(headers[n..], gateIds).1 == NewGates(headers, old(gateIds)).1
      {
        var header := headers[n];
        assert headers[n..][0] == header && headers[n..][1..] == headers[n + 1..];
        if header.itemClass != COMMON_DEP {
          continue;
        }
        var ident := IdentOf(header.taskId);
        if ident == None || HeadToken(ident.value) == "" {
          continue;
        }
        var gateId := "import_common_dep_" + HeadToken(ident.value);
        if gateId in gateIds {
          continue;
        }
        ghost var rest := NewGates(headers[n + 1..], gateIds + {gateId}).0;
        assert newGates + ([DepGate(gateId, header)] + rest) == newGates + [DepGate(gateId, header)] + rest;
        gateIds := gateIds + {gateId};
        newGates := newGates + [DepGate(gateId, header)];
      }
      assert headers[|headers|..] == [];
      assert NewGates(headers, old(gateIds)).0 == newGates;
    }

    /** `_handle_streamed_summary`: an identical redelivery is harmless, a conflicting one raises. */
    method HandleStreamedSummary(t: Totals) returns (r: Outcome<()>)
      requires Valid()
      modifies this
      ensures Valid() && hasPrimaryHandle == old(hasPrimaryHandle)
      ensures match ReceiveSummary(old(State()), t)
        case Raised => r == Raised && unchanged(this)
        case Ok(p) => r == Ok(()) && State() == p
      ensures old(expectedTotal).None? ==> r.Ok?
      ensures old(expectedTotal).Some? ==> unchanged(this)
      ensures old(expectedTotal).Some? ==> (r.Ok? <==>
        expectedTotal == Some(t.total) && summaryBatches == Some(t.batches) && summaryCounters == Some(t.counters))
      ensures r.Ok? ==> expectedTotal == Some(t.total) && summaryBatches == Some(t.batches) && summaryCounters == Some(t.counters)
      ensures spawnedCount == old(spawnedCount) && spawned == old(spawned) && gateIds == old(gateIds)
    {
      if expectedTotal != None {
        if expectedTotal.value == t.total && summaryBatches.value == t.batches && summaryCounters.value == t.counters {
          return Ok(());
        }
        return Raised;
      }
      expectedTotal := Some(t.total);
      summaryBatches := Some(t.batches);
      summaryCounters := Some(t.counters);
      return Ok(());
    }

    /** `_discover_import_gate_tasks`: every static gate, each id once. */
    method DiscoverImportGateTasks() returns (gates: seq<Task>)
      ensures Start(config, Spawned(gates, {}))
      ensures forall k :: 0 <= k < |gates| ==> gates[k] == Task(gates[k].id, [], true) && Discovers(config, gates[k].id)
      ensures forall id :: Discovers(config, id) ==> HasId(gates, id)
    {
      hide MatrixGateId, ToolchainGateId, StaticIds, HasId, DistinctIds, StaticGate, MatrixIds, ToolchainIds;
      hide Order.SortedSet;
      gates := [];
      ghost var ids: set<string> := {};
      NoGates();
      if config.matrixEvalOutDir {
        var binaries := Order.SortedSet(config.binaries);
        gates := [StaticGate("import_toolchain_drv")];
        FirstMatrixIds();
        var seen: set<string> := {};
        for n := 0 to |binaries|
          invariant Gates(gates, MatrixIds(binaries[..n]))
          invariant forall b :: b in seen <==> b in binaries[..n] && b != ""
        {
          var binary := binaries[n];
          assert binaries[..n + 1] == binaries[..n] + [binary];
          MatrixIdsSnoc(binaries[..n], binary);
          if binary == "" || binary in seen {
            continue;
          }
          AddGate(gates, MatrixIds(binaries[..n]), MatrixGateId(binary));
          seen := seen + {binary};
          gates := gates + [StaticGate(MatrixGateId(binary))];
        }
        assert binaries[..|binaries|] == binaries;
        ids := MatrixIds(binaries);
      }
      DrvIds(config, ids);
      if config.outpaths == [] {
        StartOf(config, gates, ids);
        StartDiscovers(config, gates);
        return;
      }
      AddGate(gates, ids, "import_common");
      gates := gates + [StaticGate("import_common")];
      ids := ids + {"import_common"};
      if config.buildDepsLocal {
        AddGate(gates, ids, "import_build_deps");
        gates := gates + [StaticGate("import_build_deps")];
        ids := ids + {"import_build_deps"};
      }
      var seenIds: set<string> := {};
      assert ids + seenIds == ids;
      NoToolchainIds();
      for n := 0 to |config.outpaths|
        invariant seenIds == ToolchainIds(config.outpaths[..n])
        invariant Gates(gates, ids + seenIds)
      {
        var outpath := config.outpaths[n];
        assert config.outpaths[..n + 1] == config.outpaths[..n] + [outpath];
        ToolchainIdsSnoc(config.outpaths[..n], outpath);
        if outpath == "" || ToolchainGateId(outpath) == None {
          continue;
        }
        var id := ToolchainGateId(outpath).value;
        if id in seenIds {
          assert seenIds + {id} == seenIds;
          continue;
        }
        ToolchainIdIsOwn(config, ids, outpath);
        AddGate(gates, ids + seenIds, id);
        assert ids + seenIds + {id} == ids + (seenIds + {id});
        seenIds := seenIds + {id};
        gates := gates + [StaticGate(id)];
      }
      assert config.outpaths[..|config.outpaths|] == config.outpaths;
      AllIds(config, ids);
      StartOf(config, gates, ids + seenIds);
      StartDiscovers(config, gates);
    }
  }

  // ------------------------------------------------------------------------------ gate discovery

  /** The gates the documentation lists. */
  ghost predicate Discovers(c: Config, id: string) {
    || (c.matrixEvalOutDir && (
         || id == "import_toolchain_drv"
         || exists b :: b in c.binaries && b != "" && id == "import_matrix_drv_" + b))
    || (c.outpaths != [] && (
         || id == "import_common"
         || (c.buildDepsLocal && id == "import_build_deps")
         || exists p :: p in c.outpaths && p != "" && ToolchainGateId(p) == Some(id)))
  }

  lemma StartDiscovers(c: Config, gates: seq<Task>)
    requires Start(c, Spawned(gates, {}))
    ensures forall k :: 0 <= k < |gates| ==> gates[k] == Task(gates[k].id, [], true) && Discovers(c, gates[k].id)
    ensures forall id :: Discovers(c, id) ==> HasId(gates, id)
  {
    hide ToolchainGateId, HasId, DistinctIds;
    forall id ensures Discovers(c, id) <==> id in StaticIds(c) {}
    forall k | 0 <= k < |gates| ensures gates[k] == Task(gates[k].id, [], true) && Discovers(c, gates[k].id) {
      assert IsStatic(c, Spawned(gates, {}).tasks[k]);
    }
  }

  /** `ts` are static gates for exactly the ids in `ids`, one each. */
  ghost predicate Gates(ts: seq<Task>, ids: set<string>) {
    && (forall k :: 0 <= k < |ts| ==> ts[k] == StaticGate(ts[k].id) && ts[k].id in ids)
    && (forall id :: id in ids ==> HasId(ts, id))
    && DistinctIds(ts)
  }

  function MatrixIds(binaries: seq<string>): set<string> {
    {"import_toolchain_drv"} + (set b | b in binaries && b != "" :: MatrixGateId(b))
  }

  function ToolchainIds(outpaths: seq<string>): set<string> {
    set p | p in outpaths && p != "" && ToolchainGateId(p).Some? :: ToolchainGateId(p).value
  }

  lemma NoGates()
    ensures Gates([], {})
  {
  }

  lemma FirstMatrixIds()
    ensures Gates([StaticGate("import_toolchain_drv")], MatrixIds([]))
  {
    AddGate([], {}, "import_toolchain_drv");
    assert [] + [StaticGate("import_toolchain_drv")] == [StaticGate("import_toolchain_drv")];
    assert {} + {"import_toolchain_drv"} == MatrixIds([]);
  }

  lemma NoToolchainIds()
    ensures ToolchainIds([]) == {}
  {
  }

  lemma AddGate(ts: seq<Task>, ids: set<string>, id: string)
    requires Gates(ts, ids) && id !in ids
    ensures Gates(ts + [StaticGate(id)], ids + {id})
  {
    hide HasId;
    HasIdConcat(ts, [StaticGate(id)]);
    assert HasId([StaticGate(id)], id) by { HasGate(id); }
  }

  lemma HasGate(id: string)
    ensures HasId([StaticGate(id)], id)
  {
    assert [StaticGate(id)][0].id == id;
  }

  lemma MatrixIdsSnoc(binaries: seq<string>, b: string)
    ensures MatrixIds(binaries + [b]) == MatrixIds(binaries) + (if b == "" then {} else {MatrixGateId(b)})
    ensures b !in binaries ==> MatrixGateId(b) !in MatrixIds(binaries)
    ensures b in binaries || b == "" ==> MatrixIds(binaries + [b]) == MatrixIds(binaries)
  {
    assert MatrixGateId(b)[7] == 'm' && "import_toolchain_drv"[7] == 't';
    forall a | MatrixGateId(a) == MatrixGateId(b) ensures a == b {
      assert MatrixGateId(a)[18..] == a && MatrixGateId(b)[18..] == b;
    }
  }

  lemma ToolchainIdsSnoc(outpaths: seq<string>, p: string)
    ensures ToolchainIds(outpaths + [p]) ==
      ToolchainIds(outpaths) + (if p != "" && ToolchainGateId(p).Some? then {ToolchainGateId(p).value} else {})
  {
    hide ToolchainGateId;
  }

  /** The ids of the matrix-eval part. */
  lemma DrvIds(c: Config, ids: set<string>)
    requires ids == if c.matrixEvalOutDir then MatrixIds(Order.SortedSet(c.binaries)) else {}
    ensures ids == if c.matrixEvalOutDir then MatrixIds(c.binaries) else {}
    ensures "import_common" !in ids && "import_build_deps" !in ids
    ensures c.outpaths == [] ==> ids == StaticIds(c)
  {
    Order.SortedSetIs(c.binaries);
    forall b: string ensures MatrixGateId(b)[7] == 'm' {}
    assert "import_common"[7] == 'c' && "import_build_deps"[7] == 'b' && "import_toolchain_drv"[7] == 't';
  }

  lemma AllIds(c: Config, ids: set<string>)
    requires c.outpaths != []
    requires ids == (if c.matrixEvalOutDir then MatrixIds(c.binaries) else {}) + {"import_common"}
      + (if c.buildDepsLocal then {"import_build_deps"} else {})
    ensures ids + ToolchainIds(c.outpaths) == StaticIds(c)
  {
    hide ToolchainGateId, MatrixGateId;
  }

  lemma ToolchainIdIsOwn(c: Config, ids: set<string>, p: string)
    requires ToolchainGateId(p).Some?
    requires ids == (if c.matrixEvalOutDir then MatrixIds(c.binaries) else {}) + {"import_common"}
      + (if c.buildDepsLocal then {"import_build_deps"} else {})
    ensures ToolchainGateId(p).value !in ids
  {
    var id := ToolchainGateId(p).value;
    assert id[7] == 't' && id[8] == 'c' by { assert id[..10] == "import_tc_"; }
    forall b: string ensures MatrixGateId(b)[7] == 'm' {}
    assert "import_common"[7] == 'c' && "import_build_deps"[7] == 'b' && "import_toolchain_drv"[8] == 'o';
  }

  lemma StartOf(c: Config, gates: seq<Task>, ids: set<string>)
    requires Gates(gates, ids) && ids == StaticIds(c)
    ensures Start(c, Spawned(gates, {}))
  {
    hide StaticIds, HasId, DistinctIds;
  }
}
