/** The barrier between dependency_graph and build: what one handled message does to the primary. */
module Handoff {
  import opened Wrappers
  import Dicts
  import opened SpawnCodec
  import opened BatchPlan
  import opened GreedyPacking
  import opened SpawnEncoder
  import opened TaskGraph

  /** What a summary message states; `counters` is a dict. */
  datatype Totals = Totals(total: nat, batches: nat, counters: map<string, int>)

  /** The primary's `_streamed_*` fields and what it has spawned. */
  datatype Primary = Primary(count: nat, summary: Option<Totals>, graph: Spawned)

  function AsDict(counters: seq<(string, int)>): map<string, int> {
    if counters == [] then map[]
    else AsDict(counters[..|counters| - 1])[counters[|counters| - 1].0 := counters[|counters| - 1].1]
  }

  /** `on_phase_start("dependency_graph")`. */
  function Fresh(p: Primary): Primary {
    Primary(0, None, Spawned(p.graph.tasks, {}))
  }

  function ReceiveBatch(c: Config, p: Primary, ds: seq<Descriptor>, usableHandle: bool): Outcome<Primary> {
    if usableHandle
    then Ok(Primary(p.count + |HeadersOf(ds)|, p.summary, HandleHeaders(c, p.graph, HeadersOf(ds))))
    else Raised
  }

  function ReceiveSummary(p: Primary, t: Totals): Outcome<Primary> {
    if p.summary == None then Ok(p.(summary := Some(t)))
    else if p.summary == Some(t) then Ok(p)
    else Raised
  }

  /** `custom_message_handler`. A raise is terminal for the message; it leaves no
      effect unless it is `spawn_tasks` that raises (`SpawnFailure`). */
  function Receive(c: Config, p: Primary, topic: string, data: Bytes, usableHandle: bool): Outcome<Primary> {
    if topic != SPAWN_TOPIC && topic != SUMMARY_TOPIC then Raised
    else
      match DecodeMessage(data)
      case Raised => Raised
      case Ok(SpawnBatch(_, ds)) => ReceiveBatch(c, p, ds, usableHandle)
      case Ok(Summary(total, batches, counters)) => ReceiveSummary(p, Totals(total, batches, AsDict(counters)))
  }

  /** Whether `on_phase_end("dependency_graph")` returns normally on a primary. */
  predicate Reconciled(p: Primary) {
    p.summary.Some? && p.count == p.summary.value.total
  }

  // -------------------------------------------------------------------------------- deliveries

  /** One delivery of a message the worker emitted: batch number `i`, or the summary. */
  datatype Delivery = BatchNo(i: nat) | TheSummary

  /** What the worker emitted: non-empty batches of descriptors with dict payloads. */
  ghost predicate Emitted(bs: seq<seq<Descriptor>>) {
    forall i :: 0 <= i < |bs| ==> bs[i] != [] && AllNative(bs[i]) && AllValid(bs[i])
  }

  predicate OfStream(bs: seq<seq<Descriptor>>, es: seq<Delivery>) {
    forall k :: 0 <= k < |es| && es[k].BatchNo? ==> es[k].i < |bs|
  }

  /** No batch is handled twice; the summary may be redelivered. */
  predicate AtMostOnce(es: seq<Delivery>) {
    forall j, k :: 0 <= j < k < |es| && es[j].BatchNo? ==> es[j] != es[k]
  }

  function SummaryOf(bs: seq<seq<Descriptor>>): Bytes {
    SummaryWire(|Flatten(bs)|, |bs|, Counters(KindCounts(Flatten(bs))))
  }

  function Deliver(c: Config, bs: seq<seq<Descriptor>>, p: Primary, e: Delivery): Primary
    requires forall i :: 0 <= i < |bs| ==> AllNative(bs[i])
    requires e.BatchNo? ==> e.i < |bs|
  {
    var r := if e.BatchNo? then Receive(c, p, SPAWN_TOPIC, Wire(e.i, bs[e.i]), true)
             else Receive(c, p, SUMMARY_TOPIC, SummaryOf(bs), true);
    if r.Ok? then r.value else p
  }

  function DeliverAll(c: Config, bs: seq<seq<Descriptor>>, p: Primary, es: seq<Delivery>): Primary
    requires forall i :: 0 <= i < |bs| ==> AllNative(bs[i])
    requires OfStream(bs, es)
  {
    if es == [] then p else Deliver(c, bs, DeliverAll(c, bs, p, es[..|es| - 1]), es[|es| - 1])
  }

  // ------------------------------------------------------------------------------- one delivery

  function TotalsOf(bs: seq<seq<Descriptor>>): Totals {
    Totals(|Flatten(bs)|, |bs|, AsDict(Counters(KindCounts(Flatten(bs)))))
  }

  /** Batch `i` adds its headers if it decodes, that is if no priority hint in it is negative. */
  function Weight(bs: seq<seq<Descriptor>>, i: nat): nat
    requires i < |bs|
  {
    if AllHintsNonNegative(bs[i]) then |HeadersOf(bs[i])| else 0
  }

  lemma DeliverBatch(c: Config, bs: seq<seq<Descriptor>>, p: Primary, i: nat)
    requires Emitted(bs) && i < |bs|
    ensures var q := Deliver(c, bs, p, BatchNo(i));
      q.count == p.count + Weight(bs, i) && q.summary == p.summary
  {
    hide Wire, HandleHeaders, HeadersOf, DecodeMessage, AllHintsNonNegative;
    RoundTripOne(i, bs[i]);
  }

  lemma DeliverSummary(c: Config, bs: seq<seq<Descriptor>>, p: Primary)
    requires Emitted(bs) && (p.summary == None || p.summary == Some(TotalsOf(bs)))
    ensures Deliver(c, bs, p, TheSummary) == p.(summary := Some(TotalsOf(bs)))
  {
    hide Wire, SummaryWire, HandleHeaders, HeadersOf, DecodeMessage, Flatten, KindCounts, Counters, AsDict;
    var ds := Flatten(bs);
    KindCountsUnique(ds);
    CounterKeys(ds);
    SummaryDecodes(|ds|, |bs|, Counters(KindCounts(ds)));
  }

  lemma SummaryDecodes(total: nat, batches: nat, counters: seq<(string, int)>)
    requires Dicts.UniqueKeys(counters)
    ensures DecodeMessage(SummaryWire(total, batches, counters)) == Ok(Summary(total, batches, counters))
  {
    hide DecodeMessage;
    SummaryRoundTrip(total, batches, counters);
  }

  lemma CounterKeys(ds: seq<Descriptor>)
    ensures Dicts.UniqueKeys(Counters(KindCounts(ds)))
  {
    hide KindCounts;
    KindCountsUnique(ds);
  }

  // ------------------------------------------------------------------------------------ counting

  /** The headers of the batches in `done` among the first `n`. */
  function Sum(bs: seq<seq<Descriptor>>, done: set<nat>, n: nat): nat
    requires n <= |bs|
  {
    if n == 0 then 0 else Sum(bs, done, n - 1) + (if n - 1 in done then Weight(bs, n - 1) else 0)
  }

  lemma {:induction false} SumAdd(bs: seq<seq<Descriptor>>, done: set<nat>, i: nat, n: nat)
    requires i !in done && n <= |bs|
    ensures Sum(bs, done + {i}, n) == Sum(bs, done, n) + (if i < n then Weight(bs, i) else 0)
  {
    hide Weight;
    if n > 0 { SumAdd(bs, done, i, n - 1); }
  }

  predicate Handled(bs: seq<seq<Descriptor>>, done: set<nat>, n: nat)
    requires n <= |bs|
  {
    forall i :: 0 <= i < n ==> i in done && Complete(bs[i])
  }

  /** Every descriptor of the batch passes the decoder and has a known kind: one header each. */
  predicate Complete(ds: seq<Descriptor>) {
    AllHintsNonNegative(ds) && forall i :: 0 <= i < |ds| ==> KnownKind(ds[i])
  }

  lemma {:induction false} AllKnown(ds: seq<Descriptor>)
    ensures |HeadersOf(ds)| == |ds| <==> forall i :: 0 <= i < |ds| ==> KnownKind(ds[i])
  {
    hide KnownKind;
    if ds != [] {
      AllKnown(ds[1..]);
      assert forall i :: 0 < i < |ds| ==> ds[i] == ds[1..][i - 1];
      if forall i :: 0 <= i < |ds[1..]| ==> KnownKind(ds[1..][i]) {
        assert forall i :: 0 < i < |ds| ==> KnownKind(ds[i]);
      }
    }
  }

  lemma FullWeight(bs: seq<seq<Descriptor>>, i: nat)
    requires i < |bs| && bs[i] != []
    ensures Weight(bs, i) <= |bs[i]| && (Weight(bs, i) == |bs[i]| <==> Complete(bs[i]))
  {
    AllKnown(bs[i]);
  }

  /** The barrier's count reaches the total exactly when nothing is missing. */
  lemma {:induction false} SumIsTotal(bs: seq<seq<Descriptor>>, done: set<nat>, n: nat)
    requires n <= |bs| && forall i :: 0 <= i < |bs| ==> bs[i] != []
    ensures Sum(bs, done, n) <= |Flatten(bs[..n])|
    ensures Sum(bs, done, n) == |Flatten(bs[..n])| <==> Handled(bs, done, n)
  {
    hide Weight, Complete;
    if n == 0 {
    } else {
      SumIsTotal(bs, done, n - 1);
      FullWeight(bs, n - 1);
      assert bs[..n] == bs[..n - 1] + [bs[n - 1]];
      FlattenSnoc(bs[..n - 1], bs[n - 1]);
    }
  }

  // -------------------------------------------------------------------------------- the barrier

  function DoneBy(es: seq<Delivery>): set<nat> {
    set k | 0 <= k < |es| && es[k].BatchNo? :: es[k].i
  }

  lemma DoneBySnoc(es: seq<Delivery>, e: Delivery)
    ensures DoneBy(es + [e]) == DoneBy(es) + (if e.BatchNo? then {e.i} else {})
    ensures TheSummary in es + [e] <==> TheSummary in es || e == TheSummary
  {
    var t := es + [e];
    forall i ensures i in DoneBy(t) <==> i in DoneBy(es) || (e.BatchNo? && i == e.i) {
      if e.BatchNo? && i == e.i { assert t[|es|] == e; }
      if i in DoneBy(es) {
        var k :| 0 <= k < |es| && es[k] == BatchNo(i);
        assert t[k] == es[k];
      }
    }
  }

  lemma {:induction false} CountAfter(c: Config, bs: seq<seq<Descriptor>>, p: Primary, es: seq<Delivery>)
    requires Emitted(bs) && OfStream(bs, es) && AtMostOnce(es)
    requires p.count == 0 && p.summary == None
    ensures var q := DeliverAll(c, bs, p, es);
      && q.count == Sum(bs, DoneBy(es), |bs|)
      && q.summary == (if TheSummary in es then Some(TotalsOf(bs)) else None)
    decreases |es|
  {
    hide Deliver, Weight, TotalsOf, DoneBy;
    if es == [] {
      NothingDone(bs);
    } else {
      var front, e := es[..|es| - 1], es[|es| - 1];
      assert es == front + [e];
      CountAfter(c, bs, p, front);
      DoneBySnoc(front, e);
      var mid := DeliverAll(c, bs, p, front);
      if e.BatchNo? {
        NotDone(front, e);
        DeliverBatch(c, bs, mid, e.i);
        SumAdd(bs, DoneBy(front), e.i, |bs|);
      } else {
        DeliverSummary(c, bs, mid);
        assert DoneBy(front) + {} == DoneBy(front);
      }
    }
  }

  lemma NotDone(es: seq<Delivery>, e: Delivery)
    requires AtMostOnce(es + [e]) && e.BatchNo?
    ensures e.i !in DoneBy(es)
  {
    var t := es + [e];
    assert t[|es|] == e;
    forall k | 0 <= k < |es| ensures es[k] != e { assert t[k] == es[k]; }
  }

  lemma NothingDone(bs: seq<seq<Descriptor>>)
    ensures DoneBy([]) == {}
    ensures Sum(bs, {}, |bs|) == 0
  {
    EmptySum(bs, |bs|);
  }

  lemma {:induction false} EmptySum(bs: seq<seq<Descriptor>>, n: nat)
    requires n <= |bs|
    ensures Sum(bs, {}, n) == 0
  {
    if n > 0 { EmptySum(bs, n - 1); }
  }

  /** After a fresh phase start, and with messages delivered in any order, some of them lost, none of
      the batches twice: the barrier opens exactly when the summary and every batch were handled, no
      batch was rejected by the decoder, and every descriptor became a header. Redelivered summaries
      and the gates the primary adds on its own make no difference. */
  lemma BarrierIsExact(c: Config, bs: seq<seq<Descriptor>>, p: Primary, es: seq<Delivery>)
    requires Emitted(bs) && OfStream(bs, es) && AtMostOnce(es)
    ensures Reconciled(DeliverAll(c, bs, Fresh(p), es)) <==>
      TheSummary in es && forall i :: 0 <= i < |bs| ==> BatchNo(i) in es && Complete(bs[i])
  {
    hide DeliverAll, Complete, Weight, Flatten, Sum;
    CountAfter(c, bs, Fresh(p), es);
    SumIsTotal(bs, DoneBy(es), |bs|);
    assert bs[..|bs|] == bs;
    assert forall i: nat :: i in DoneBy(es) <==> BatchNo(i) in es;
  }

  // -------------------------------------------------------------------------------- duplicates

  /** The headers of every handled batch, one summand for each time it was handled. */
  function Counted(bs: seq<seq<Descriptor>>, es: seq<Delivery>): nat
    requires OfStream(bs, es)
  {
    if es == [] then 0
    else
      var n := |es| - 1;
      Counted(bs, es[..n]) + (if es[n].BatchNo? then Weight(bs, es[n].i) else 0)
  }

  lemma {:induction false} CountWithDuplicates(c: Config, bs: seq<seq<Descriptor>>, p: Primary, es: seq<Delivery>)
    requires Emitted(bs) && OfStream(bs, es)
    requires p.count == 0 && p.summary == None
    ensures var q := DeliverAll(c, bs, p, es);
      && q.count == Counted(bs, es)
      && q.summary == (if TheSummary in es then Some(TotalsOf(bs)) else None)
    decreases |es|
  {
    hide Deliver, Weight, TotalsOf;
    if es != [] {
      var front, e := es[..|es| - 1], es[|es| - 1];
      assert es == front + [e];
      CountWithDuplicates(c, bs, p, front);
      var mid := DeliverAll(c, bs, p, front);
      if e.BatchNo? { DeliverBatch(c, bs, mid, e.i); } else { DeliverSummary(c, bs, mid); }
    }
  }

  /** For any deliveries at all, repeated ones included, the barrier opens exactly when the summary was
      handled and the handled headers, repetitions counted, number as many as the descriptors. */
  lemma BarrierCounts(c: Config, bs: seq<seq<Descriptor>>, p: Primary, es: seq<Delivery>)
    requires Emitted(bs) && OfStream(bs, es)
    ensures Reconciled(DeliverAll(c, bs, Fresh(p), es)) <==> TheSummary in es && Counted(bs, es) == |Flatten(bs)|
  {
    hide DeliverAll, Weight, Flatten, Counted, KindCounts, Counters, AsDict;
    CountWithDuplicates(c, bs, Fresh(p), es);
  }

  /** So when everything but one batch was handled, handling another one again opens the barrier exactly
      if it has as many descriptors as the lost one. */
  lemma DuplicateMasksLoss(c: Config, bs: seq<seq<Descriptor>>, p: Primary, es: seq<Delivery>, i: nat, j: nat)
    requires Emitted(bs) && OfStream(bs, es) && AtMostOnce(es) && TheSummary in es
    requires i < |bs| && j < |bs| && BatchNo(i) in es && BatchNo(j) !in es
    requires forall k :: 0 <= k < |bs| && k != j ==> BatchNo(k) in es && Complete(bs[k])
    ensures OfStream(bs, es + [BatchNo(i)])
    ensures Reconciled(DeliverAll(c, bs, Fresh(p), es + [BatchNo(i)])) <==> |bs[i]| == |bs[j]|
  {
    hide DeliverAll, Weight, Flatten, Counted, Complete, Sum, KindCounts, Counters, AsDict;
    var again := es + [BatchNo(i)];
    assert again[..|es|] == es && again[|es|] == BatchNo(i) && TheSummary in again;
    BarrierCounts(c, bs, p, again);
    CountedAgain(bs, es, i);
    CountAfter(c, bs, Fresh(p), es);
    CountWithDuplicates(c, bs, Fresh(p), es);
    FullWeight(bs, i);
    assert forall k: nat :: k in DoneBy(es) <==> BatchNo(k) in es;
    OneMissing(bs, DoneBy(es), j, |bs|);
    assert bs[..|bs|] == bs;
  }

  lemma CountedAgain(bs: seq<seq<Descriptor>>, es: seq<Delivery>, i: nat)
    requires OfStream(bs, es) && i < |bs|
    ensures OfStream(bs, es + [BatchNo(i)]) && Counted(bs, es + [BatchNo(i)]) == Counted(bs, es) + Weight(bs, i)
  {
    hide Weight;
    assert (es + [BatchNo(i)])[..|es|] == es;
  }

  lemma {:induction false} OneMissing(bs: seq<seq<Descriptor>>, done: set<nat>, j: nat, n: nat)
    requires n <= |bs| && j < |bs| && j !in done && forall i :: 0 <= i < |bs| ==> bs[i] != []
    requires forall k :: 0 <= k < |bs| && k != j ==> k in done && Complete(bs[k])
    ensures Sum(bs, done, n) == |Flatten(bs[..n])| - (if j < n then |bs[j]| else 0)
  {
    hide Weight, Complete, Flatten;
    if n == 0 {
      NoBatches();
    } else {
      OneMissing(bs, done, j, n - 1);
      FullWeight(bs, n - 1);
      assert bs[..n] == bs[..n - 1] + [bs[n - 1]];
      FlattenSnoc(bs[..n - 1], bs[n - 1]);
    }
  }

  lemma NoBatches()
    ensures Flatten<Descriptor>([]) == []
  {
  }
}
