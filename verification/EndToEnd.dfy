/** The handoff as a whole: a plan is packed into messages, sent, decoded and spawned batch by batch,
    and the barrier and the graph come out right. */
module EndToEnd {
  import opened Wrappers
  import opened SpawnCodec
  import opened BatchPlan
  import opened GreedyPacking
  import opened SpawnEncoder
  import opened TaskGraph
  import opened GateGraph
  import opened GateTheorems
  import opened Handoff
  import opened DescriptorTasks

  function Headers(bs: seq<seq<Descriptor>>): (r: seq<seq<Header>>)
    ensures |r| == |bs| && forall i :: 0 <= i < |bs| ==> r[i] == HeadersOf(bs[i])
  {
    seq(|bs|, i requires 0 <= i < |bs| => HeadersOf(bs[i]))
  }

  /** Delivery of the first `n` batches in `seq` order. */
  function InOrder(n: nat): (es: seq<Delivery>)
    ensures |es| == n && forall i :: 0 <= i < n ==> es[i] == BatchNo(i)
  {
    seq(n, i requires 0 <= i < n => BatchNo(i))
  }

  lemma {:induction false} HeadersConcat(a: seq<Descriptor>, b: seq<Descriptor>)
    ensures HeadersOf(a + b) == HeadersOf(a) + HeadersOf(b)
  {
    if a == [] {
      assert a + b == b;
    } else {
      assert (a + b)[1..] == a[1..] + b && (a + b)[0] == a[0];
      HeadersConcat(a[1..], b);
    }
  }

  /** However the plan was cut, the headers made batch by batch are the headers of the plan. */
  lemma {:induction false} HeadersStream(bs: seq<seq<Descriptor>>)
    ensures Stream(Headers(bs)) == HeadersOf(Flatten(bs))
  {
    hide HeadersOf, Flatten;
    if bs == [] {
      NoHeaders();
    } else {
      var n := |bs| - 1;
      HeadersStream(bs[..n]);
      assert Headers(bs)[..n] == Headers(bs[..n]);
      assert bs == bs[..n] + [bs[n]];
      FlattenSnoc(bs[..n], bs[n]);
      HeadersConcat(Flatten(bs[..n]), bs[n]);
    }
  }

  lemma NoHeaders()
    ensures HeadersOf(Flatten([])) == []
  {
  }

  lemma DeliverGraph(c: Config, bs: seq<seq<Descriptor>>, p: Primary, i: nat)
    requires Emitted(bs) && i < |bs| && AllHintsNonNegative(bs[i])
    ensures Deliver(c, bs, p, BatchNo(i)).graph == HandleHeaders(c, p.graph, HeadersOf(bs[i]))
  {
    hide Wire, HandleHeaders, HeadersOf, DecodeMessage;
    RoundTripOne(i, bs[i]);
  }

  lemma {:induction false} GraphInOrder(c: Config, bs: seq<seq<Descriptor>>, p: Primary, n: nat)
    requires Emitted(bs) && n <= |bs| && forall i :: 0 <= i < |bs| ==> AllHintsNonNegative(bs[i])
    ensures DeliverAll(c, bs, p, InOrder(n)).graph == HandleBatches(c, p.graph, Headers(bs)[..n])
  {
    hide Deliver, HandleHeaders, HeadersOf, AllHintsNonNegative;
    if n > 0 {
      GraphInOrder(c, bs, p, n - 1);
      assert InOrder(n)[..n - 1] == InOrder(n - 1);
      assert Headers(bs)[..n][..n - 1] == Headers(bs)[..n - 1];
      DeliverGraph(c, bs, DeliverAll(c, bs, p, InOrder(n - 1)), n - 1);
    }
  }

  lemma AllComplete(bs: seq<seq<Descriptor>>, ds: seq<Descriptor>)
    requires Flatten(bs) == ds && AllHintsNonNegative(ds) && forall i :: 0 <= i < |ds| ==> KnownKind(ds[i])
    ensures forall i :: 0 <= i < |bs| ==> Complete(bs[i])
  {
    hide Flatten, KnownKind;
    forall i | 0 <= i < |bs| ensures Complete(bs[i]) {
      BatchIsSlice(bs, i);
      var a := GreedyPacking.Start(bs, i);
      assert forall j :: 0 <= j < |bs[i]| ==> bs[i][j] == ds[a + j];
    }
  }

  /** All batches in order, then the summary. */
  function AllInOrder(n: nat): seq<Delivery> {
    InOrder(n) + [TheSummary]
  }

  lemma InOrderIsOnce(bs: seq<seq<Descriptor>>)
    ensures OfStream(bs, InOrder(|bs|)) && OfStream(bs, AllInOrder(|bs|)) && AtMostOnce(AllInOrder(|bs|))
    ensures TheSummary in AllInOrder(|bs|) && forall i :: 0 <= i < |bs| ==> BatchNo(i) in AllInOrder(|bs|)
  {
    var es := AllInOrder(|bs|);
    assert es[|bs|] == TheSummary;
    forall i | 0 <= i < |bs| ensures BatchNo(i) in es { assert es[i] == BatchNo(i); }
  }

  lemma SummaryLast(c: Config, bs: seq<seq<Descriptor>>, p: Primary)
    requires Emitted(bs) && OfStream(bs, InOrder(|bs|)) && OfStream(bs, AllInOrder(|bs|))
    ensures DeliverAll(c, bs, p, AllInOrder(|bs|)).graph == DeliverAll(c, bs, p, InOrder(|bs|)).graph
  {
    hide Deliver;
    var es := AllInOrder(|bs|);
    assert es[..|es| - 1] == InOrder(|bs|) && es[|es| - 1] == TheSummary;
    SummaryKeepsGraph(c, bs, DeliverAll(c, bs, p, InOrder(|bs|)));
  }

  /** The graph after complete batches were handled in order. */
  lemma GraphOfBatches(c: Config, bs: seq<seq<Descriptor>>, p: Primary)
    requires Emitted(bs) && forall i :: 0 <= i < |bs| ==> Complete(bs[i])
    requires OfStream(bs, AllInOrder(|bs|))
    requires GateTheorems.Start(c, p.graph) && GoodStream(c, HeadersOf(Flatten(bs)))
    ensures Contents(c, HeadersOf(Flatten(bs)), DeliverAll(c, bs, p, AllInOrder(|bs|)).graph)
  {
    hide Flatten, HeadersOf, Deliver, HandleBatches, Contents, GoodStream, GateTheorems.Start, Complete, DeliverAll;
    InOrderIsOnce(bs);
    CompleteHints(bs);
    GraphInOrder(c, bs, p, |bs|);
    assert Headers(bs)[..|bs|] == Headers(bs);
    HeadersStream(bs);
    BatchesContents(c, p.graph, Headers(bs));
    SummaryLast(c, bs, p);
  }

  /** The messages of a plan: the encoder's batches. */
  function Batches(caps: Caps, ds: seq<Descriptor>): seq<seq<Descriptor>>
    requires caps.maxCount > 0 && Run(caps, ds).Some?
  {
    BatchPlan.Flush(Run(caps, ds).value)
  }

  lemma BatchesEmitted(caps: Caps, ds: seq<Descriptor>)
    requires caps.maxCount > 0 && Run(caps, ds).Some? && AllValid(ds)
    ensures Emitted(Batches(caps, ds)) && Flatten(Batches(caps, ds)) == ds
  {
    hide Flatten, Wire, Run;
    StreamRoundTrip(caps, ds);
    RunIsSplit(caps, ds);
    RunSendsNoEmpty(caps, ds);
    NativeBatches(caps, Batches(caps, ds), ds);
  }

  /** For every plan the encoder gets through, with known kinds and non-negative hints, and a stream
      that keeps the planner's promises: after a phase start, whatever gates an earlier run left
      remembered, delivering the messages in order and then the summary opens the barrier. The spawned
      graph then holds for every descriptor its task, with the edges its fields call for, and every gate
      once; it has no cycle, and no dangling edge if and only if the common gate was discovered (or edges
      are disabled, or the plan is empty). */
  lemma HandoffDelivers(caps: Caps, c: Config, p: Primary, ds: seq<Descriptor>)
    requires caps.maxCount > 0 && Run(caps, ds).Some? && AllValid(ds) && AllHintsNonNegative(ds)
    requires forall i :: 0 <= i < |ds| ==> KnownKind(ds[i])
    requires GateTheorems.Start(c, Spawned(p.graph.tasks, {})) && GoodStream(c, HeadersOf(ds))
    ensures var bs := Batches(caps, ds);
      Emitted(bs) && OfStream(bs, AllInOrder(|bs|)) && var q := DeliverAll(c, bs, Fresh(p), AllInOrder(|bs|));
      && Reconciled(q)
      && Contents(c, HeadersOf(ds), q.graph)
      && (forall i :: 0 <= i < |ds| ==> IsSpawned(c, ds[i], q.graph.tasks))
      && Ranked(q.graph.tasks, id => Rank(HeadersOf(ds), id))
      && (Closed(q.graph.tasks) <==> c.outpaths != [] || c.disableTaskDeps || HeadersOf(ds) == [])
  {
    BatchesEmitted(caps, ds);
    var bs := Batches(caps, ds);
    hide Flatten, HeadersOf, Run, Contents, GoodStream, GateTheorems.Start, Rank, Closed, Ranked, Complete,
        DeliverAll, KnownKind;
    hide Batches, Emitted, Reconciled, OfStream, AllInOrder, AllHintsNonNegative, IsSpawned;
    AllComplete(bs, ds);
    InOrderIsOnce(bs);
    NativeOf(bs);
    GraphOfBatches(c, bs, Fresh(p));
    var q := DeliverAll(c, bs, Fresh(p), AllInOrder(|bs|));
    DescriptorsAreSpawned(c, ds, q.graph);
    NoCycle(c, HeadersOf(ds), q.graph);
    ClosedIffCommonGate(c, HeadersOf(ds), q.graph);
    BarrierIsExact(c, bs, p, AllInOrder(|bs|));
  }

  lemma NativeOf(bs: seq<seq<Descriptor>>)
    requires Emitted(bs)
    ensures forall i :: 0 <= i < |bs| ==> AllNative(bs[i])
  {
  }

  lemma CompleteHints(bs: seq<seq<Descriptor>>)
    requires forall i :: 0 <= i < |bs| ==> Complete(bs[i])
    ensures forall i :: 0 <= i < |bs| ==> AllHintsNonNegative(bs[i])
  {
  }

  lemma NativeBatches(caps: Caps, bs: seq<seq<Descriptor>>, ds: seq<Descriptor>)
    requires IsSplit(caps, bs, ds) && forall i :: 0 <= i < |bs| ==> AllValid(bs[i]) && bs[i] != []
    ensures Emitted(bs)
  {
    hide Wire, Flatten;
  }

  lemma SummaryKeepsGraph(c: Config, bs: seq<seq<Descriptor>>, p: Primary)
    requires Emitted(bs)
    ensures Deliver(c, bs, p, TheSummary).graph == p.graph
  {
    hide Wire, SummaryWire, HandleHeaders, HeadersOf, DecodeMessage, Flatten, KindCounts, Counters, AsDict;
    var ds := Flatten(bs);
    CounterKeys(ds);
    SummaryDecodes(|ds|, |bs|, Counters(KindCounts(ds)));
  }
}
