/** Task ids, import gates and dependency edges of the build phase (`suit_task.py`), with the
    descriptor -> header step of `manifest_glue.py`. `TaskIds`, `GateGraph`, `GateEdges` and
    `GateTheorems` prove what holds of them. */
module TaskGraph {
  import opened Wrappers
  import opened Json
  import opened SpawnCodec
  import Order = StringOrder

  datatype Header = Header(
    itemClass: string,
    taskId: string,
    dependsOn: seq<string>,
    compilersDependsOn: seq<string>,
    toolchainOutpath: string,
    pkg: string)

  /** A bare string resolves to the build phase; a toolchain id is tagged with its own phase. */
  datatype Dep = Local(id: string) | BuildCompilers(id: string)

  datatype Task = Task(id: string, deps: seq<Dep>, affine: bool)

  /** The parts of `SuitTaskConfig` that shape the graph. `outpaths` are the values of
      `toolchain_outpaths_map`, `binaries` the keys of `per_binary_metadata`. */
  datatype Config = Config(
    matrixEvalOutDir: bool,
    binaries: seq<string>,
    outpaths: seq<string>,
    buildDepsLocal: bool,
    commonDepsAffine: bool,
    disableTaskDeps: bool)
  {
    predicate CommonDepGates() {
      commonDepsAffine && matrixEvalOutDir
    }
  }

  const COMMON_DEP := "build_common_dep"
  const VARIANT := "build_variant"

  // -------------------------------------------------------------------------------- string tools

  /** Position of the first occurrence of `c`, or the length. */
  function IndexOf(s: string, c: char): (i: nat)
    ensures i <= |s| && (i < |s| ==> s[i] == c)
    ensures forall j :: 0 <= j < i ==> s[j] != c
  {
    if s == "" || s[0] == c then 0 else 1 + IndexOf(s[1..], c)
  }

  /** `s.split("-", 1)[0]`. */
  function HeadToken(s: string): string {
    s[..IndexOf(s, '-')]
  }

  /** `s.rsplit("/", 1)[-1]`. */
  function Basename(s: string): string
    decreases |s|
  {
    if IndexOf(s, '/') == |s| then s else Basename(s[IndexOf(s, '/') + 1..])
  }

  /** `s.partition("__")[2]`, or `s` itself when there is no separator. */
  function AfterSeparator(s: string): Option<string> {
    if |s| < 2 then None
    else if s[0] == '_' && s[1] == '_' then Some(s[2..])
    else AfterSeparator(s[1..])
  }

  // -------------------------------------------------------------------------------------- ids

  /** `_ident_from_common_dep_task_id`. */
  function IdentOf(taskId: string): Option<string> {
    if !("build_common_dep__" <= taskId) then None
    else
      var rest := taskId[18..];
      var ident :=
        if "arch_indep__" <= rest then rest[12..]
        else if "cross_arch__" <= rest then rest[12..]
        else if "family__" <= rest then
          match AfterSeparator(rest[8..])
          case Some(tail) => tail
          case None => rest[8..]
        else rest;
      if ident == "" then None else Some(ident)
  }

  /** `_import_common_dep_task_id` of a task id's ident; `None` where the caller skips. */
  function GateIdOf(taskId: string): Option<string> {
    match IdentOf(taskId)
    case None => None
    case Some(ident) => if HeadToken(ident) == "" then None else Some("import_common_dep_" + HeadToken(ident))
  }

  /** `_import_tc_task_id`; `None` for the `ValueError`. */
  function ToolchainGateId(outpath: string): Option<string> {
    var hash := HeadToken(Basename(outpath));
    if hash == "" then None else Some("import_tc_" + hash)
  }

  function MatrixGateId(binary: string): string {
    "import_matrix_drv_" + binary
  }

  // ----------------------------------------------------------------------------------- headers

  /** `payload.get(k) or ""`. */
  function PayloadText(p: Payload, k: string): string {
    if p.Native? && Get(p.members, k).Some? && Get(p.members, k).value.Str? then Get(p.members, k).value.s else ""
  }

  function HeaderOf(d: Descriptor): Header {
    Header(d.kind, d.taskId, d.dependsOn, d.buildCompilersDependsOn, PayloadText(d.payload, "toolchain_outpath"),
      PayloadText(d.payload, "pkg"))
  }

  predicate KnownKind(d: Descriptor) {
    d.kind == COMMON_DEP || d.kind == VARIANT
  }

  /** `headers_from_descriptors`: descriptors of an unknown kind are dropped. */
  function HeadersOf(ds: seq<Descriptor>): (hs: seq<Header>)
    ensures |hs| <= |ds|
    ensures forall i :: 0 <= i < |hs| ==> hs[i].itemClass == COMMON_DEP || hs[i].itemClass == VARIANT
  {
    if ds == [] then []
    else (if KnownKind(ds[0]) then [HeaderOf(ds[0])] else []) + HeadersOf(ds[1..])
  }

  // -------------------------------------------------------------------------------------- edges

  function GateIdsOf(deps: seq<string>): seq<string> {
    if deps == [] then []
    else
      match GateIdOf(deps[0])
      case None => GateIdsOf(deps[1..])
      case Some(g) => [g] + GateIdsOf(deps[1..])
  }

  /** `_common_dep_gate_deps`: one gate per shared dependency, deduplicated and sorted. */
  function CommonDepGateDeps(h: Header): seq<string> {
    Order.SortedSet(GateIdsOf(h.dependsOn))
  }

  function Locals(ids: seq<string>): (deps: seq<Dep>)
    ensures |deps| == |ids| && forall i :: 0 <= i < |ids| ==> deps[i] == Local(ids[i])
  {
    seq(|ids|, i requires 0 <= i < |ids| => Local(ids[i]))
  }

  function ToolchainBuilds(ids: seq<string>): (deps: seq<Dep>)
    ensures |deps| == |ids| && forall i :: 0 <= i < |ids| ==> deps[i] == BuildCompilers(ids[i])
  {
    seq(|ids|, i requires 0 <= i < |ids| => BuildCompilers(ids[i]))
  }

  /** The import gates a header is made to wait for, in the order they are appended. */
  function ImportDeps(c: Config, h: Header): seq<string> {
    (if h.itemClass == COMMON_DEP || h.itemClass == VARIANT then
       ["import_common"]
       + (if c.buildDepsLocal then ["import_build_deps"] else [])
       + (if c.matrixEvalOutDir then ["import_toolchain_drv"] else [])
       + (if c.CommonDepGates() then CommonDepGateDeps(h) else [])
     else [])
    + (if h.itemClass == VARIANT then
         (if h.toolchainOutpath != "" && ToolchainGateId(h.toolchainOutpath).Some?
          then [ToolchainGateId(h.toolchainOutpath).value] else [])
         + (if c.matrixEvalOutDir && h.pkg != "" then [MatrixGateId(h.pkg)] else [])
       else [])
  }

  /** `_header_depends_on`. */
  function HeaderDependsOn(c: Config, h: Header): seq<Dep> {
    Locals(h.dependsOn) + Locals(ImportDeps(c, h))
    + ToolchainBuilds(h.compilersDependsOn)
  }

  /** `_header_to_task_info`. */
  function TaskOf(c: Config, h: Header): Task {
    Task(h.taskId, if c.disableTaskDeps then [] else HeaderDependsOn(c, h), false)
  }

  function TasksOf(c: Config, hs: seq<Header>): (ts: seq<Task>)
    ensures |ts| == |hs| && forall i :: 0 <= i < |hs| ==> ts[i] == TaskOf(c, hs[i])
  {
    seq(|hs|, i requires 0 <= i < |hs| => TaskOf(c, hs[i]))
  }

  // -------------------------------------------------------------------------------------- gates

  function StaticGate(id: string): Task {
    Task(id, [], true)
  }

  /** The gate a `build_common_dep` header calls for. */
  function GateOf(h: Header): Option<string> {
    if h.itemClass == COMMON_DEP then GateIdOf(h.taskId) else None
  }

  /** The synthesised gate waits for the task that publishes its archive. */
  function DepGate(id: string, h: Header): Task {
    Task(id, if h.taskId != "" then [Local(h.taskId)] else [], true)
  }

  /** `_build_common_dep_gate_infos`: gates for the ids not seen before, with the ids seen after. */
  function NewGates(hs: seq<Header>, seen: set<string>): (seq<Task>, set<string>)
    decreases |hs|
  {
    if hs == [] then ([], seen)
    else
      match GateOf(hs[0])
      case None => NewGates(hs[1..], seen)
      case Some(g) =>
        if g in seen then NewGates(hs[1..], seen)
        else
          var (ts, seen') := NewGates(hs[1..], seen + {g});
          ([DepGate(g, hs[0])] + ts, seen')
  }

  /** The ids `_discover_import_gate_tasks` yields. */
  function StaticIds(c: Config): set<string> {
    (if c.matrixEvalOutDir then
       {"import_toolchain_drv"} + (set b | b in c.binaries && b != "" :: MatrixGateId(b))
     else {})
    + (if c.outpaths != [] then
         {"import_common"} + (if c.buildDepsLocal then {"import_build_deps"} else {})
         + (set p | p in c.outpaths && p != "" && ToolchainGateId(p).Some? :: ToolchainGateId(p).value)
       else {})
  }

  // --------------------------------------------------------------------------- the spawned graph

  /** What the primary has spawned into the build phase, and the gate ids it remembers. */
  datatype Spawned = Spawned(tasks: seq<Task>, gateIds: set<string>)

  /** The effect of one batch of headers. */
  function HandleHeaders(c: Config, s: Spawned, hs: seq<Header>): Spawned {
    var (gates, seen) := if c.CommonDepGates() && !c.disableTaskDeps then NewGates(hs, s.gateIds) else ([], s.gateIds);
    Spawned(s.tasks + (TasksOf(c, hs) + gates), seen)
  }

  function HandleBatches(c: Config, s: Spawned, bs: seq<seq<Header>>): Spawned {
    if bs == [] then s else HandleHeaders(c, HandleBatches(c, s, bs[..|bs| - 1]), bs[|bs| - 1])
  }

  predicate HasId(ts: seq<Task>, id: string) {
    exists i :: 0 <= i < |ts| && ts[i].id == id
  }

  /** Every intra-phase dependency of a spawned task is itself spawned. */
  predicate Closed(ts: seq<Task>) {
    forall i, j :: 0 <= i < |ts| && 0 <= j < |ts[i].deps| && ts[i].deps[j].Local? ==> HasId(ts, ts[i].deps[j].id)
  }

  predicate DistinctIds(ts: seq<Task>) {
    forall i, j :: 0 <= i < j < |ts| ==> ts[i].id != ts[j].id
  }

  /** A rank that strictly drops along every intra-phase edge: no cycle. */
  predicate Ranked(ts: seq<Task>, rank: string -> nat) {
    forall i, j :: 0 <= i < |ts| && 0 <= j < |ts[i].deps| && ts[i].deps[j].Local? ==>
      rank(ts[i].deps[j].id) < rank(ts[i].id)
  }
}
