/** How a stream is cut into batches, in terms of whole messages (`streamed_spawn.py`). */
module BatchPlan {
  import opened Wrappers
  import opened Json
  import opened SpawnCodec
  import J = JsonRoundTrip
  import Utf8

  datatype Caps = Caps(maxBytes: int, maxCount: int)

  predicate AllNative(ds: seq<Descriptor>) {
    forall i :: 0 <= i < |ds| ==> ds[i].payload.Native?
  }

  /** The batch message as it goes on the wire. */
  function Wire(seqNo: nat, ds: seq<Descriptor>): Bytes
    requires AllNative(ds)
  {
    Utf8.Encode(Compact(BatchJson(seqNo, ds)))
  }

  predicate Fits(caps: Caps, seqNo: nat, ds: seq<Descriptor>) {
    AllNative(ds) && |Wire(seqNo, ds)| <= caps.maxBytes && |ds| <= caps.maxCount
  }

  /** The batches already returned, in `seq` order, and the pending one. */
  datatype Plan = Plan(sent: seq<seq<Descriptor>>, open: seq<Descriptor>)

  const EMPTY := Plan([], [])

  /** The descriptor joins the pending batch; a batch that reaches the count cap is returned. */
  function Place(caps: Caps, sent: seq<seq<Descriptor>>, batch: seq<Descriptor>): Plan {
    if |batch| >= caps.maxCount then Plan(sent + [batch], []) else Plan(sent, batch)
  }

  /** `add`, in terms of whole messages; `None` when it raises. */
  function Add(caps: Caps, p: Plan, d: Descriptor): Option<Plan>
    requires AllNative(p.open)
  {
    if !d.payload.Native? then None
    else if |Wire(|p.sent|, p.open + [d])| <= caps.maxBytes then Some(Place(caps, p.sent, p.open + [d]))
    else if p.open != [] && |Wire(|p.sent| + 1, [d])| <= caps.maxBytes then Some(Plan(p.sent + [p.open], [d]))
    else None
  }

  /** The batches after `flush`. */
  function Flush(p: Plan): seq<seq<Descriptor>> {
    if p.open == [] then p.sent else p.sent + [p.open]
  }

  function Flatten<T>(bs: seq<seq<T>>): seq<T> {
    if bs == [] then [] else bs[0] + Flatten(bs[1..])
  }

  /** `flush`: the pending batch, if any, is returned. */
  function Flushed(p: Plan): Plan {
    Plan(Flush(p), [])
  }

  /** What every plan reached by `add` and `flush` satisfies. */
  predicate PlanOk(caps: Caps, p: Plan) {
    && (forall i :: 0 <= i < |p.sent| ==> p.sent[i] != [] && Fits(caps, i, p.sent[i]))
    && (p.open != [] ==> Fits(caps, |p.sent|, p.open))
    && |p.open| < caps.maxCount
    && AllNative(p.open)
  }

  /** Adding the whole stream, one descriptor after the other. */
  function Run(caps: Caps, ds: seq<Descriptor>): (r: Option<Plan>)
    requires caps.maxCount > 0
    ensures r.Some? ==> PlanOk(caps, r.value)
  {
    if ds == [] then Some(EMPTY)
    else
      match Run(caps, ds[..|ds| - 1])
      case None => None
      case Some(p) =>
        AddKeepsPlanOk(caps, p, ds[|ds| - 1]);
        Add(caps, p, ds[|ds| - 1])
  }

  lemma AddKeepsPlanOk(caps: Caps, p: Plan, d: Descriptor)
    requires caps.maxCount > 0 && PlanOk(caps, p)
    ensures Add(caps, p, d).Some? ==> PlanOk(caps, Add(caps, p, d).value)
  {
    hide Wire;
  }

  // ------------------------------------------------------------------------------- concatenation

  lemma {:induction false} FlattenSnoc<T>(bs: seq<seq<T>>, b: seq<T>)
    ensures Flatten(bs + [b]) == Flatten(bs) + b
  {
    if bs == [] {
      assert bs + [b] == [b];
      assert Flatten([b]) == b + Flatten([b][1..]);
    } else {
      assert (bs + [b])[1..] == bs[1..] + [b];
      FlattenSnoc(bs[1..], b);
      assert bs[0] + (Flatten(bs[1..]) + b) == bs[0] + Flatten(bs[1..]) + b;
    }
  }

  /** Nothing is lost, duplicated or reordered by one `add`. */
  lemma AddAppends(caps: Caps, p: Plan, d: Descriptor)
    requires AllNative(p.open) && Add(caps, p, d).Some?
    ensures Flatten(Flush(Add(caps, p, d).value)) == Flatten(Flush(p)) + [d]
  {
    hide Wire, Flatten;
    FlattenSnoc(p.sent, p.open);
    FlattenSnoc(p.sent, p.open + [d]);
    FlattenSnoc(p.sent + [p.open], [d]);
    assert Flatten(p.sent) + (p.open + [d]) == Flatten(p.sent) + p.open + [d];
    assert p.open == [] ==> Flatten(p.sent) + p.open == Flatten(p.sent);
  }

  lemma {:induction false} RunKeepsStream(caps: Caps, ds: seq<Descriptor>)
    requires caps.maxCount > 0 && Run(caps, ds).Some?
    ensures Flatten(Flush(Run(caps, ds).value)) == ds
  {
    hide Add, Flatten, Flush;
    if ds == [] {
      NothingPlanned();
    } else {
      var n := |ds| - 1;
      RunKeepsStream(caps, ds[..n]);
      AddAppends(caps, Run(caps, ds[..n]).value, ds[n]);
      assert ds[..n] + [ds[n]] == ds;
    }
  }

  lemma NothingPlanned()
    ensures Flatten(Flush(EMPTY)) == []
  {
  }

  /** Any order-preserving cut of the stream into messages within both caps; `seq` counts up. */
  predicate IsSplit(caps: Caps, bs: seq<seq<Descriptor>>, ds: seq<Descriptor>) {
    Flatten(bs) == ds && forall i :: 0 <= i < |bs| ==> Fits(caps, i, bs[i])
  }

  lemma FlushKeepsPlanOk(caps: Caps, p: Plan)
    requires caps.maxCount > 0 && PlanOk(caps, p)
    ensures PlanOk(caps, Flushed(p))
    ensures forall i :: 0 <= i < |Flush(p)| ==> Flush(p)[i] != [] && Fits(caps, i, Flush(p)[i])
  {
    hide Wire;
  }

  /** No message of a run is empty. */
  lemma {:induction false} RunSendsNoEmpty(caps: Caps, ds: seq<Descriptor>)
    requires caps.maxCount > 0 && Run(caps, ds).Some?
    ensures forall b :: b in Flush(Run(caps, ds).value) ==> b != []
  {
    hide Fits, Run;
    FlushKeepsPlanOk(caps, Run(caps, ds).value);
  }

  /** The greedy result is such a cut. */
  lemma {:induction false} RunIsSplit(caps: Caps, ds: seq<Descriptor>)
    requires caps.maxCount > 0 && Run(caps, ds).Some?
    ensures IsSplit(caps, Flush(Run(caps, ds).value), ds)
  {
    hide Fits, Run;
    RunKeepsStream(caps, ds);
    FlushKeepsPlanOk(caps, Run(caps, ds).value);
  }

  // --------------------------------------------------------------------- any mix of add and flush

  datatype Call = AddCall(d: Descriptor) | FlushCall

  /** The plan after one call; an `add` that raises changes nothing. */
  function After(caps: Caps, p: Plan, call: Call): Plan
    requires AllNative(p.open)
  {
    match call
    case AddCall(d) => (match Add(caps, p, d) case Some(q) => q case None => p)
    case FlushCall => Flushed(p)
  }

  /** The plan of an encoder's whole life. */
  function Life(caps: Caps, calls: seq<Call>): (p: Plan)
    requires caps.maxCount > 0
    ensures PlanOk(caps, p)
  {
    if calls == [] then EMPTY
    else
      var p := Life(caps, calls[..|calls| - 1]);
      CallKeepsPlanOk(caps, p, calls[|calls| - 1]);
      After(caps, p, calls[|calls| - 1])
  }

  lemma CallKeepsPlanOk(caps: Caps, p: Plan, call: Call)
    requires caps.maxCount > 0 && PlanOk(caps, p)
    ensures PlanOk(caps, After(caps, p, call))
  {
    hide Wire, Add, PlanOk;
    match call
    case AddCall(d) => AddKeepsPlanOk(caps, p, d);
    case FlushCall => FlushKeepsPlanOk(caps, p);
  }

  /** The descriptors whose `add` returned. */
  function Accepted(caps: Caps, calls: seq<Call>): seq<Descriptor>
    requires caps.maxCount > 0
  {
    if calls == [] then []
    else
      var front, call := calls[..|calls| - 1], calls[|calls| - 1];
      Accepted(caps, front) + (if call.AddCall? && Add(caps, Life(caps, front), call.d).Some? then [call.d] else [])
  }

  lemma FlushedTwice(p: Plan)
    ensures Flush(Flushed(p)) == Flush(p) && Flushed(Flushed(p)) == Flushed(p)
  {
  }

  /** Whatever mix of calls an encoder sees: returned and pending batches are the accepted descriptors
      in order, cut into non-empty messages that each fit both caps under their own `seq`. */
  lemma {:induction false} LifeIsSplit(caps: Caps, calls: seq<Call>)
    requires caps.maxCount > 0
    ensures IsSplit(caps, Flush(Life(caps, calls)), Accepted(caps, calls))
    ensures forall b :: b in Flush(Life(caps, calls)) ==> b != []
  {
    hide Fits, Flatten, Add, Flush;
    FlushKeepsPlanOk(caps, Life(caps, calls));
    if calls == [] {
      NothingPlanned();
    } else {
      var front, call := calls[..|calls| - 1], calls[|calls| - 1];
      LifeIsSplit(caps, front);
      var p := Life(caps, front);
      if call.AddCall? {
        if Add(caps, p, call.d).Some? { AddAppends(caps, p, call.d); }
      } else {
        FlushedTwice(p);
      }
    }
  }
}
