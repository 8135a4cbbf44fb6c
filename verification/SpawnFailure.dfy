/** A `spawn_tasks` that raises: what one message does then, and what is lost (`suit_task.py`). */
module SpawnFailure {
  import opened Wrappers
  import opened SpawnCodec
  import opened SpawnEncoder
  import opened TaskGraph
  import opened Handoff

  /** The primary handle: none with a `spawn_tasks`, one that works, or one whose call raises. */
  datatype Handle = Unusable | Works | Raises

  function NewGatesOf(c: Config, s: Spawned, hs: seq<Header>): (seq<Task>, set<string>) {
    if c.CommonDepGates() && !c.disableTaskDeps then NewGates(hs, s.gateIds) else ([], s.gateIds)
  }

  /** The gates were made, and remembered, before the call that raised: only their ids stay. */
  function Interrupted(c: Config, p: Primary, ds: seq<Descriptor>): Primary {
    p.(graph := p.graph.(gateIds := NewGatesOf(c, p.graph, HeadersOf(ds)).1))
  }

  /** `_handle_streamed_spawn_batch`: the new state, and whether it raised. */
  function BatchWith(c: Config, p: Primary, ds: seq<Descriptor>, handle: Handle): (Primary, bool) {
    if handle.Raises? then (Interrupted(c, p, ds), true)
    else
      match ReceiveBatch(c, p, ds, handle.Works?)
      case Raised => (p, true)
      case Ok(q) => (q, false)
  }

  /** `custom_message_handler`: the new state, and whether it raised. */
  function ReceiveWith(c: Config, p: Primary, topic: string, data: Bytes, handle: Handle): (Primary, bool) {
    if topic != SPAWN_TOPIC && topic != SUMMARY_TOPIC then (p, true)
    else
      match DecodeMessage(data)
      case Raised => (p, true)
      case Ok(SpawnBatch(_, ds)) => BatchWith(c, p, ds, handle)
      case Ok(Summary(total, batches, counters)) =>
        match ReceiveSummary(p, Totals(total, batches, AsDict(counters)))
        case Raised => (p, true)
        case Ok(q) => (q, false)
  }

  /** Without a raising handle a raise leaves no effect: this is `Receive`. */
  lemma OtherwiseReceive(c: Config, p: Primary, topic: string, data: Bytes, handle: Handle)
    requires !handle.Raises?
    ensures ReceiveWith(c, p, topic, data, handle) ==
      match Receive(c, p, topic, data, handle.Works?) case Raised => (p, true) case Ok(q) => (q, false)
  {
    hide DecodeMessage, ReceiveBatch, ReceiveSummary;
  }

  lemma {:induction false} AllRemembered(hs: seq<Header>, seen: set<string>)
    ensures seen <= NewGates(hs, seen).1
    ensures forall i :: 0 <= i < |hs| && GateOf(hs[i]).Some? ==> GateOf(hs[i]).value in NewGates(hs, seen).1
    decreases |hs|
  {
    hide GateOf;
    if hs != [] {
      assert forall i :: 0 < i < |hs| ==> hs[i] == hs[1..][i - 1];
      if GateOf(hs[0]).None? || GateOf(hs[0]).value in seen {
        AllRemembered(hs[1..], seen);
      } else {
        AllRemembered(hs[1..], seen + {GateOf(hs[0]).value});
      }
    }
  }

  lemma {:induction false} NothingNew(hs: seq<Header>, seen: set<string>)
    requires forall i :: 0 <= i < |hs| && GateOf(hs[i]).Some? ==> GateOf(hs[i]).value in seen
    ensures NewGates(hs, seen) == ([], seen)
  {
    hide GateOf;
    if hs != [] {
      assert forall i :: 0 < i < |hs| ==> hs[i] == hs[1..][i - 1];
      NothingNew(hs[1..], seen);
    }
  }

  lemma HandleHeadersIs(c: Config, s: Spawned, hs: seq<Header>)
    ensures HandleHeaders(c, s, hs) == Spawned(s.tasks + (TasksOf(c, hs) + NewGatesOf(c, s, hs).0), NewGatesOf(c, s, hs).1)
  {
    hide TasksOf, NewGates;
  }

  lemma NoGatesLeft(c: Config, s: Spawned, hs: seq<Header>)
    ensures var ids := NewGatesOf(c, s, hs).1; NewGatesOf(c, s.(gateIds := ids), hs) == ([], ids)
  {
    if c.CommonDepGates() && !c.disableTaskDeps {
      hide NewGates;
      AllRemembered(hs, s.gateIds);
      NothingNew(hs, NewGates(hs, s.gateIds).1);
    }
  }

  lemma SameOnlyWithout(a: seq<Task>, b: seq<Task>, gates: seq<Task>)
    ensures a + (b + gates) == a + b <==> gates == []
  {
    assert |a + (b + gates)| == |a + b| + |gates|;
  }

  /** When the same primary handles the batch again after a raise, it spawns and counts the header tasks
      as it should, but no gate: the outcome is the undisturbed one exactly if the batch called for no
      new gate. Otherwise its gates are never spawned. */
  lemma RedeliveryLosesGates(c: Config, p: Primary, ds: seq<Descriptor>)
    ensures var hs := HeadersOf(ds);
      var again := ReceiveBatch(c, Interrupted(c, p, ds), ds, true);
      && again == Ok(Primary(p.count + |hs|, p.summary,
           Spawned(p.graph.tasks + TasksOf(c, hs), NewGatesOf(c, p.graph, hs).1)))
      && (again == ReceiveBatch(c, p, ds, true) <==> NewGatesOf(c, p.graph, hs).0 == [])
  {
    hide HeadersOf, TasksOf, NewGatesOf, HandleHeaders;
    var hs := HeadersOf(ds);
    HandleHeadersIs(c, p.graph, hs);
    HandleHeadersIs(c, Interrupted(c, p, ds).graph, hs);
    NoGatesLeft(c, p.graph, hs);
    SameOnlyWithout(p.graph.tasks, TasksOf(c, hs), NewGatesOf(c, p.graph, hs).0);
    assert TasksOf(c, hs) + [] == TasksOf(c, hs);
  }
}
