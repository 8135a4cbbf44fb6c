/** `SpawnBatchEncoder` and the worker loop around it, proved to send the messages of `BatchPlan`. */
module SpawnEncoder {
  import opened Wrappers
  import opened Json
  import opened SpawnCodec
  import opened BatchPlan
  import opened GreedyPacking
  import J = JsonRoundTrip
  import Utf8

  /** What a call returned: the messages of the batches that `after` has and `before` has not. */
  function NewMessage(before: Plan, after: Plan): Option<Bytes>
    requires |after.sent| == |before.sent| + 1 ==> AllNative(after.sent[|before.sent|])
  {
    if |after.sent| == |before.sent| + 1 then Some(Wire(|before.sent|, after.sent[|before.sent|])) else None
  }

  class SpawnBatchEncoder {
    const maxMessageBytes: int
    const maxBatchDescriptors: int
    var parts: seq<string>
    var pendingBytes: nat
    var batchesEmitted: nat
    var descriptorsEmitted: nat
    /** The batches the messages returned so far carry, and the descriptors behind `parts`. */
    ghost var plan: Plan

    ghost function Limits(): Caps {
      Caps(maxMessageBytes, maxBatchDescriptors)
    }

    ghost predicate Valid()
      reads this
    {
      && maxMessageBytes > 0 && maxBatchDescriptors > 0
      && PlanOk(Limits(), plan)
      && parts == Parts(plan.open)
      && pendingBytes == |Join(parts)|
      && batchesEmitted == |plan.sent|
      && descriptorsEmitted == |Flatten(plan.sent)|
    }

    /** Only ever called with positive limits; `Create` is the raising constructor. */
    constructor Init(maxMessageBytes: int, maxBatchDescriptors: int)
      requires maxMessageBytes > 0 && maxBatchDescriptors > 0
      ensures Valid() && plan == EMPTY && Limits() == Caps(maxMessageBytes, maxBatchDescriptors)
    {
      this.maxMessageBytes := maxMessageBytes;
      this.maxBatchDescriptors := maxBatchDescriptors;
      parts, pendingBytes, batchesEmitted, descriptorsEmitted := [], 0, 0, 0;
      plan := EMPTY;
    }

    static method Create(maxMessageBytes: int, maxBatchDescriptors: int) returns (r: Outcome<SpawnBatchEncoder>)
      ensures r.Ok? <==> maxMessageBytes > 0 && maxBatchDescriptors > 0
      ensures r.Ok? ==> fresh(r.value) && r.value.Valid() && r.value.plan == EMPTY
      ensures r.Ok? ==> r.value.Limits() == Caps(maxMessageBytes, maxBatchDescriptors)
    {
      if maxMessageBytes <= 0 || maxBatchDescriptors <= 0 {
        return Raised;
      }
      var e := new SpawnBatchEncoder.Init(maxMessageBytes, maxBatchDescriptors);
      return Ok(e);
    }

    /** `_emit`: splice the pending parts into the envelope of the current `seq`. */
    method Emit() returns (message: Bytes)
      requires AllNative(plan.open) && parts == Parts(plan.open) && parts != []
      requires |plan.sent| == batchesEmitted && descriptorsEmitted == |Flatten(plan.sent)|
      modifies this
      ensures message == Wire(old(batchesEmitted), old(plan.open))
      ensures plan == Plan(old(plan.sent) + [old(plan.open)], [])
      ensures parts == [] && pendingBytes == 0 == |Join(parts)|
      ensures batchesEmitted == |plan.sent| && descriptorsEmitted == |Flatten(plan.sent)|
    {
      hide Envelope, Wire, Flatten;
      var envelope := Envelope(batchesEmitted);
      SpliceIsPrint(batchesEmitted, plan.open, parts);
      var text := envelope[..|envelope| - 2] + Join(parts) + "]}";
      FlattenSnoc(plan.sent, plan.open);
      descriptorsEmitted := descriptorsEmitted + |parts|;
      batchesEmitted := batchesEmitted + 1;
      plan := Plan(plan.sent + [plan.open], []);
      parts := [];
      pendingBytes := 0;
      message := Utf8.Encode(text);
      WireText(batchesEmitted - 1, old(plan.open), text);
    }

    /** `add`: exactly the plan's `Add`; when it raises, nothing has changed. */
    method AddDescriptor(d: Descriptor) returns (r: Outcome<Option<Bytes>>)
      requires Valid()
      modifies this
      ensures Valid()
      ensures match Add(Limits(), old(plan), d)
        case None => r == Raised && unchanged(this)
        case Some(p) => plan == p && r == Ok(NewMessage(old(plan), p))
    {
      hide Envelope, Wire, Flatten, EncodeDescriptorText, Join, Fits, Parts, UniqueKeys;
      AddKeepsPlanOk(Limits(), plan, d);
      var encoded := EncodeDescriptorText(d);
      if encoded.Raised? {
        NotEncodable(d);
        return Raised;
      }
      NotEncodable(d);
      var part := encoded.value;
      SizeWith(batchesEmitted, plan.open, d, part);
      SizeWith(batchesEmitted + 1, [], d, part);
      assert [] + [d] == [d];
      if parts == [] {
        assert plan.open + [d] == [d];
        SizeWith(batchesEmitted, [], d, part);
        if |Envelope(batchesEmitted)| + |part| > maxMessageBytes {
          return Raised;
        }
        parts := [part];
        pendingBytes := |part|;
        plan := Plan(plan.sent, plan.open + [d]);
        assert parts == Parts(plan.open) && pendingBytes == |Join(parts)|;
        if |parts| >= maxBatchDescriptors {
          var message := Emit();
          return Ok(Some(message));
        }
        assert Add(Limits(), old(plan), d) == Some(plan);
        return Ok(None);
      }
      var projected := |Envelope(batchesEmitted)| + pendingBytes + 1 + |part|;
      if projected <= maxMessageBytes {
        parts := parts + [part];
        pendingBytes := pendingBytes + 1 + |part|;
        plan := Plan(plan.sent, plan.open + [d]);
        assert parts == Parts(plan.open) && pendingBytes == |Join(parts)|;
        if |parts| >= maxBatchDescriptors {
          var message := Emit();
          return Ok(Some(message));
        }
        assert Add(Limits(), old(plan), d) == Some(plan);
        return Ok(None);
      }
      var nextSeq := batchesEmitted + 1;
      if |Envelope(nextSeq)| + |part| > maxMessageBytes {
        return Raised;
      }
      var message := Emit();
      parts := parts + [part];
      pendingBytes := |part|;
      plan := Plan(plan.sent, [d]);
      return Ok(Some(message));
    }

    /** `flush`: the remainder, if there is one; the next `flush` then returns nothing. */
    method FlushPending() returns (message: Option<Bytes>)
      requires Valid()
      modifies this
      ensures Valid() && plan == Flushed(old(plan))
      ensures message == NewMessage(old(plan), plan)
      ensures message.None? <==> old(plan.open) == []
    {
      hide Wire, Flatten, Fits;
      FlushKeepsPlanOk(Limits(), plan);
      if parts == [] {
        return None;
      }
      var m := Emit();
      return Some(m);
    }

    /** `encode_summary`: the totals of the returned messages, refused while a batch is pending. */
    method EncodeSummary(counters: seq<Member>) returns (r: Outcome<Bytes>)
      requires Valid()
      ensures r.Ok? <==> (
        && plan.open == [] && ReadCounters(counters).Ok?
        && |SummaryWire(|Flatten(plan.sent)|, |plan.sent|, ReadCounters(counters).value)| <= maxMessageBytes)
      ensures r.Ok? ==> r.value == SummaryWire(|Flatten(plan.sent)|, |plan.sent|, ReadCounters(counters).value)
    {
      hide SummaryWire, Flatten;
      if parts != [] {
        return Raised;
      }
      var validated: seq<(string, int)> := [];
      var i := 0;
      assert counters[0..] == counters;
      assert ReadCounters(counters).Ok? ==> [] + ReadCounters(counters).value == ReadCounters(counters).value;
      while i < |counters|
        invariant 0 <= i <= |counters|
        invariant ReadCounters(counters) == match ReadCounters(counters[i..]) case Ok(rest) => Ok(validated + rest) case Raised => Raised
      {
        assert counters[i..][1..] == counters[i + 1..];
        if !counters[i].value.Num? {
          return Raised;
        }
        ghost var before := validated;
        validated := validated + [(counters[i].key, counters[i].value.n)];
        if ReadCounters(counters[i + 1..]).Ok? {
          var rest := ReadCounters(counters[i + 1..]).value;
          assert before + ([(counters[i].key, counters[i].value.n)] + rest) == validated + rest;
        }
        i := i + 1;
      }
      assert counters[i..] == [];
      assert ReadCounters(counters[i..]) == Ok([]);
      assert validated + [] == validated;
      var message := SummaryWire(descriptorsEmitted, batchesEmitted, validated);
      if |message| > maxMessageBytes {
        return Raised;
      }
      return Ok(message);
    }
  }

  function SummaryWire(total: nat, batches: nat, counters: seq<(string, int)>): Bytes {
    Utf8.Encode(Compact(Obj(SummaryMembers(total, batches, counters))))
  }

  lemma WireText(seqNo: nat, ds: seq<Descriptor>, text: string)
    requires AllNative(ds) && text == Compact(BatchJson(seqNo, ds))
    ensures Utf8.Encode(text) == Wire(seqNo, ds)
  {
  }

  lemma NotEncodable(d: Descriptor)
    ensures EncodeDescriptorText(d).Raised? <==> !d.payload.Native?
  {
  }

  /** The sum the encoder compares with its limit is the length of the message it would send. */
  lemma SizeWith(seqNo: nat, open: seq<Descriptor>, d: Descriptor, part: string)
    requires AllNative(open) && d.payload.Native? && Ok(part) == EncodeDescriptorText(d)
    ensures AllNative(open + [d])
    ensures Parts(open + [d]) == Parts(open) + [part]
    ensures |Join(Parts(open + [d]))| == (if open == [] then 0 else |Join(Parts(open))| + 1) + |part|
    ensures |Wire(seqNo, open + [d])| == |Envelope(seqNo)| + |Join(Parts(open + [d]))|
  {
    hide Envelope, Wire, Join;
    WireLength(seqNo, open + [d]);
    assert Parts(open + [d]) == Parts(open) + [part];
    SnocJoin(Parts(open), part);
  }

  lemma SnocJoin(ps: seq<string>, part: string)
    ensures |Join(ps + [part])| == (if ps == [] then 0 else |Join(ps)| + 1) + |part|
  {
    if ps == [] {
      assert ps + [part] == [part];
    } else {
      JoinConcat(ps, [part]);
    }
  }

  // --------------------------------------------------------------------------- the worker's loop

  const SPAWN_TOPIC := "dependency_graph_spawn"
  const SUMMARY_TOPIC := "dependency_graph_summary"

  const DEFAULT_CAPS := Caps(DEFAULT_MAX_MESSAGE_BYTES, MAX_BATCH_DESCRIPTORS)

  /** `collections.Counter`: one more of kind `k`. */
  function Bump(counts: seq<Member>, k: string): (r: seq<Member>)
    requires forall i :: 0 <= i < |counts| ==> counts[i].value.Num?
    ensures forall i :: 0 <= i < |r| ==> r[i].value.Num?
  {
    if counts == [] then [Member(k, Num(1))]
    else if counts[0].key == k then [Member(k, Num(counts[0].value.n + 1))] + counts[1..]
    else [counts[0]] + Bump(counts[1..], k)
  }

  function KindCounts(ds: seq<Descriptor>): (r: seq<Member>)
    ensures forall i :: 0 <= i < |r| ==> r[i].value.Num?
  {
    if ds == [] then [] else Bump(KindCounts(ds[..|ds| - 1]), ds[|ds| - 1].kind)
  }

  function Counters(ms: seq<Member>): seq<(string, int)>
    requires forall i :: 0 <= i < |ms| ==> ms[i].value.Num?
  {
    seq(|ms|, i requires 0 <= i < |ms| => (ms[i].key, ms[i].value.n))
  }

  lemma {:induction false} CountsAreReadable(ms: seq<Member>)
    requires forall i :: 0 <= i < |ms| ==> ms[i].value.Num?
    ensures ReadCounters(ms) == Ok(Counters(ms))
  {
    if ms != [] {
      CountsAreReadable(ms[1..]);
      assert [(ms[0].key, ms[0].value.n)] + Counters(ms[1..]) == Counters(ms);
    }
  }

  lemma {:induction false} BumpKeepsKeys(counts: seq<Member>, k: string, q: string)
    requires forall i :: 0 <= i < |counts| ==> counts[i].value.Num?
    ensures HasKey(Bump(counts, k), q) <==> HasKey(counts, q) || q == k
  {
    J.HasKeyHead(counts, q);
    J.HasKeyHead(Bump(counts, k), q);
    if counts != [] && counts[0].key != k {
      BumpKeepsKeys(counts[1..], k, q);
    }
  }

  lemma {:induction false} BumpKeepsUnique(counts: seq<Member>, k: string)
    requires forall i :: 0 <= i < |counts| ==> counts[i].value.Num?
    requires UniqueKeys(counts)
    ensures UniqueKeys(Bump(counts, k))
  {
    if counts != [] && counts[0].key != k {
      BumpKeepsUnique(counts[1..], k);
      BumpKeepsKeys(counts[1..], k, counts[0].key);
      assert !HasKey(Bump(counts[1..], k), counts[0].key);
    }
  }

  /** The per-kind counters form a dict, so the summary carries each kind once. */
  lemma {:induction false} KindCountsUnique(ds: seq<Descriptor>)
    ensures UniqueKeys(KindCounts(ds))
  {
    if ds != [] {
      KindCountsUnique(ds[..|ds| - 1]);
      BumpKeepsUnique(KindCounts(ds[..|ds| - 1]), ds[|ds| - 1].kind);
    }
  }

  lemma GetNil(k: string)
    ensures Get([], k) == None
  {
  }

  lemma GetCons(ms: seq<Member>, k: string)
    requires ms != []
    ensures Get(ms, k) == if ms[0].key == k then Some(ms[0].value) else Get(ms[1..], k)
  {
  }

  lemma {:induction false} BumpCounts(counts: seq<Member>, k: string, q: string)
    requires forall i :: 0 <= i < |counts| ==> counts[i].value.Num?
    ensures Get(Bump(counts, k), q) == if q != k then Get(counts, q) else
      Some(Num(1 + match Get(counts, k) case Some(Num(n)) => n case _ => 0))
  {
    hide Get;
    if counts == [] {
      GetNil(q);
      GetNil(k);
      GetCons([Member(k, Num(1))], q);
      assert [Member(k, Num(1))][1..] == [];
    } else {
      GetCons(counts, q);
      GetCons(Bump(counts, k), q);
      GetCons(counts, k);
      if counts[0].key == k {
        assert Bump(counts, k)[1..] == counts[1..];
      } else {
        assert Bump(counts, k)[1..] == Bump(counts[1..], k);
        BumpCounts(counts[1..], k, q);
      }
    }
  }

  function Kinds(ds: seq<Descriptor>): seq<string> {
    seq(|ds|, i requires 0 <= i < |ds| => ds[i].kind)
  }

  /** The counter of a kind is the number of its descriptors; a kind without any has no counter. */
  lemma {:induction false} KindCountsCount(ds: seq<Descriptor>, k: string)
    ensures Get(KindCounts(ds), k) == var n := multiset(Kinds(ds))[k]; if n == 0 then None else Some(Num(n))
  {
    hide Bump, Get;
    if ds == [] {
      GetNil(k);
    } else {
      var rest := ds[..|ds| - 1];
      KindCountsCount(rest, k);
      BumpCounts(KindCounts(rest), ds[|ds| - 1].kind, k);
      assert Kinds(ds) == Kinds(rest) + [ds[|ds| - 1].kind];
    }
  }

  /** The spawn messages of a finished run, by `seq`. */
  function SpawnMessages(bs: seq<seq<Descriptor>>): (ms: seq<(string, Bytes)>)
    requires forall i :: 0 <= i < |bs| ==> AllNative(bs[i])
    ensures |ms| == |bs|
  {
    seq(|bs|, i requires 0 <= i < |bs| => (SPAWN_TOPIC, Wire(i, bs[i])))
  }

  lemma SpawnMessagesSnoc(bs: seq<seq<Descriptor>>, b: seq<Descriptor>)
    requires AllNative(b) && forall i :: 0 <= i < |bs| ==> AllNative(bs[i])
    ensures SpawnMessages(bs + [b]) == SpawnMessages(bs) + [(SPAWN_TOPIC, Wire(|bs|, b))]
  {
  }

  function SummaryMessage(ds: seq<Descriptor>, batches: nat): Bytes {
    SummaryWire(|ds|, batches, Counters(KindCounts(ds)))
  }

  /** `_stream_descriptors`: every returned batch, the remainder, then one summary. It raises exactly
      when the stream cannot be cut into messages or the summary itself is too long. */
  method StreamDescriptors(ds: seq<Descriptor>) returns (sent: seq<(string, Bytes)>, r: Outcome<()>)
    ensures r.Ok? <==> (
      && Run(DEFAULT_CAPS, ds).Some?
      && |SummaryMessage(ds, |BatchPlan.Flush(Run(DEFAULT_CAPS, ds).value)|)| <= DEFAULT_MAX_MESSAGE_BYTES)
    ensures r.Ok? ==> forall b :: b in BatchPlan.Flush(Run(DEFAULT_CAPS, ds).value) ==> AllNative(b)
    ensures r.Ok? ==> var bs := BatchPlan.Flush(Run(DEFAULT_CAPS, ds).value);
      sent == SpawnMessages(bs) + [(SUMMARY_TOPIC, SummaryMessage(ds, |bs|))]
    ensures r.Ok? ==> InTopicsAndSize(sent)
  {
    hide Wire, Flatten, SummaryWire, Add, SpawnMessages, KindCounts, Counters, ReadCounters, InTopicsAndSize;
    sent := [];
    var created := SpawnBatchEncoder.Create(DEFAULT_MAX_MESSAGE_BYTES, MAX_BATCH_DESCRIPTORS);
    var encoder := created.value;
    assert SpawnMessages([]) == [];
    for n := 0 to |ds|
      invariant fresh(encoder) && encoder.Valid() && encoder.Limits() == DEFAULT_CAPS
      invariant Run(DEFAULT_CAPS, ds[..n]) == Some(encoder.plan)
      invariant sent == SpawnMessages(encoder.plan.sent)
    {
      assert ds[..n + 1][..n] == ds[..n];
      ghost var before := encoder.plan;
      AddShape(DEFAULT_CAPS, before, ds[n]);
      var added := encoder.AddDescriptor(ds[n]);
      if added.Raised? {
        RunPrefix(DEFAULT_CAPS, ds, n + 1);
        return sent, Raised;
      }
      if added.value.Some? {
        SpawnMessagesSnoc(before.sent, encoder.plan.sent[|before.sent|]);
        sent := sent + [(SPAWN_TOPIC, added.value.value)];
      }
    }
    assert ds[..|ds|] == ds;
    ghost var p := encoder.plan;
    RunKeepsStream(DEFAULT_CAPS, ds);
    var remainder := encoder.FlushPending();
    if remainder.Some? {
      SpawnMessagesSnoc(p.sent, p.open);
      sent := sent + [(SPAWN_TOPIC, remainder.value)];
    }
    CountsAreReadable(KindCounts(ds));
    var summary := encoder.EncodeSummary(KindCounts(ds));
    if summary.Raised? {
      return sent, Raised;
    }
    sent := sent + [(SUMMARY_TOPIC, summary.value)];
    SentFits(ds);
    return sent, Ok(());
  }

  /** Spawn messages and then one summary, none of them longer than 100 KiB. */
  predicate InTopicsAndSize(sent: seq<(string, Bytes)>) {
    sent != [] && forall i :: 0 <= i < |sent| ==>
      && |sent[i].1| <= 102400
      && sent[i].0 == (if i + 1 < |sent| then "dependency_graph_spawn" else "dependency_graph_summary")
  }

  lemma SentFits(ds: seq<Descriptor>)
    requires Run(DEFAULT_CAPS, ds).Some?
    ensures var bs := BatchPlan.Flush(Run(DEFAULT_CAPS, ds).value);
      && (forall i :: 0 <= i < |bs| ==> AllNative(bs[i]))
      && (|SummaryMessage(ds, |bs|)| <= DEFAULT_MAX_MESSAGE_BYTES ==>
            InTopicsAndSize(SpawnMessages(bs) + [(SUMMARY_TOPIC, SummaryMessage(ds, |bs|))]))
  {
    hide Run, Wire, Flatten, SummaryMessage;
    RunIsSplit(DEFAULT_CAPS, ds);
    var bs := BatchPlan.Flush(Run(DEFAULT_CAPS, ds).value);
    forall i | 0 <= i < |bs| ensures AllNative(bs[i]) && |Wire(i, bs[i])| <= 102400 {
      assert Fits(DEFAULT_CAPS, i, bs[i]);
    }
  }

  /** One `add` returns at most one message: the batches so far stay, and at most one is new. */
  lemma AddShape(caps: Caps, p: Plan, d: Descriptor)
    requires caps.maxCount > 0 && PlanOk(caps, p)
    ensures Add(caps, p, d).Some? ==> var q := Add(caps, p, d).value;
      q.sent == p.sent || (|q.sent| == |p.sent| + 1 && q.sent == p.sent + [q.sent[|p.sent|]] && AllNative(q.sent[|p.sent|]))
  {
    hide Wire;
  }

  lemma {:induction false} RunPrefix(caps: Caps, ds: seq<Descriptor>, n: nat)
    requires caps.maxCount > 0 && n <= |ds| && Run(caps, ds[..n]).None?
    ensures Run(caps, ds).None?
    decreases |ds| - n
  {
    if n == |ds| {
      assert ds[..n] == ds;
    } else {
      assert ds[..n + 1][..n] == ds[..n];
      RunPrefix(caps, ds, n + 1);
    }
  }

  // ------------------------------------------------------------------------- the whole round trip

  /** All messages of a cut decode, to exactly its batches under `seq` 0, 1, 2, ..., if and only if
      every priority hint is non-negative. */
  lemma SplitRoundTrip(caps: Caps, bs: seq<seq<Descriptor>>, ds: seq<Descriptor>)
    requires IsSplit(caps, bs, ds) && AllValid(ds)
    ensures forall i :: 0 <= i < |bs| ==> AllValid(bs[i])
    ensures AllHintsNonNegative(ds) <==>
      forall i :: 0 <= i < |bs| ==> DecodeMessage(Wire(i, bs[i])) == Ok(SpawnBatch(i, bs[i]))
  {
    hide Wire, Flatten, DecodeMessage, Fits;
    forall i | 0 <= i < |bs|
      ensures AllValid(bs[i])
      ensures AllHintsNonNegative(ds) ==> AllHintsNonNegative(bs[i])
      ensures DecodeMessage(Wire(i, bs[i])) == if AllHintsNonNegative(bs[i]) then Ok(SpawnBatch(i, bs[i])) else Raised
    {
      BatchIsSlice(bs, i);
      assert forall d :: d in bs[i] ==> d in ds;
      assert forall j :: 0 <= j < |bs[i]| ==> bs[i][j] in bs[i];
      RoundTripOne(i, bs[i]);
    }
    if !AllHintsNonNegative(ds) {
      NegativeHintSurvives(bs, ds);
    }
  }

  /** For every stream the encoder gets through: the batches are the stream cut in order, message
      number `i` carries `seq` `i`, and all of them decode, to exactly those batches, if and only if
      every priority hint in the stream is non-negative. */
  lemma StreamRoundTrip(caps: Caps, ds: seq<Descriptor>)
    requires caps.maxCount > 0 && Run(caps, ds).Some? && AllValid(ds)
    ensures var bs := BatchPlan.Flush(Run(caps, ds).value);
      && Flatten(bs) == ds
      && (forall i :: 0 <= i < |bs| ==> AllValid(bs[i]) && bs[i] != [])
      && (AllHintsNonNegative(ds) <==>
          forall i :: 0 <= i < |bs| ==> DecodeMessage(Wire(i, bs[i])) == Ok(SpawnBatch(i, bs[i])))
  {
    hide Wire, Flatten, DecodeMessage, Run, Fits;
    RunIsSplit(caps, ds);
    RunSendsNoEmpty(caps, ds);
    SplitRoundTrip(caps, BatchPlan.Flush(Run(caps, ds).value), ds);
  }

  /** The same for an encoder that is flushed and used again at will, and whatever adds have raised. */
  lemma LifeRoundTrip(caps: Caps, calls: seq<Call>)
    requires caps.maxCount > 0 && AllValid(Accepted(caps, calls))
    ensures var bs, ds := BatchPlan.Flush(Life(caps, calls)), Accepted(caps, calls);
      && Flatten(bs) == ds
      && (forall i :: 0 <= i < |bs| ==> Fits(caps, i, bs[i]) && AllValid(bs[i]) && bs[i] != [])
      && (AllHintsNonNegative(ds) <==>
          forall i :: 0 <= i < |bs| ==> DecodeMessage(Wire(i, bs[i])) == Ok(SpawnBatch(i, bs[i])))
  {
    hide Wire, Flatten, DecodeMessage, Fits, Life, Accepted;
    LifeIsSplit(caps, calls);
    SplitRoundTrip(caps, BatchPlan.Flush(Life(caps, calls)), Accepted(caps, calls));
  }

  lemma StartNext(bs: seq<seq<Descriptor>>, i: nat)
    requires i < |bs|
    ensures Start(bs, i + 1) == Start(bs, i) + |bs[i]|
  {
  }

  /** Every descriptor of the stream lies in some batch. */
  lemma InSomeBatch(bs: seq<seq<Descriptor>>, n: nat) returns (i: nat, k: nat)
    requires n < |Flatten(bs)|
    ensures i < |bs| && k < |bs[i]| && bs[i][k] == Flatten(bs)[n]
  {
    hide Flatten, Start;
    StartEnd(bs);
    i := Locate(bs, n, |bs|);
    StartNext(bs, i);
    BatchIsSlice(bs, i);
    k := n - Start(bs, i);
  }

  lemma NegativeHintSurvives(bs: seq<seq<Descriptor>>, ds: seq<Descriptor>)
    requires Flatten(bs) == ds && !AllHintsNonNegative(ds)
    ensures exists i :: 0 <= i < |bs| && !AllHintsNonNegative(bs[i])
  {
    hide Flatten;
    var n :| 0 <= n < |ds| && ds[n].priorityHint < 0;
    var i, k := InSomeBatch(bs, n);
    assert bs[i][k].priorityHint < 0;
  }

  lemma RoundTripOne(seqNo: nat, ds: seq<Descriptor>)
    requires AllValid(ds)
    ensures DecodeMessage(Wire(seqNo, ds)) == if AllHintsNonNegative(ds) then Ok(SpawnBatch(seqNo, ds)) else Raised
  {
    hide DecodeMessage;
    BatchRoundTrip(seqNo, ds);
  }

  /** The summary decodes to the true totals of the stream. */
  lemma SummaryCarriesTotals(caps: Caps, ds: seq<Descriptor>)
    requires caps.maxCount > 0 && Run(caps, ds).Some?
    ensures var batches := |BatchPlan.Flush(Run(caps, ds).value)|;
      DecodeMessage(SummaryMessage(ds, batches)) == Ok(Summary(|ds|, batches, Counters(KindCounts(ds))))
  {
    hide DecodeMessage, Run, KindCounts;
    KindCountsUnique(ds);
    SummaryRoundTrip(|ds|, |BatchPlan.Flush(Run(caps, ds).value)|, Counters(KindCounts(ds)));
  }
}
