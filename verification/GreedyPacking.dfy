/** Greedy packing is optimal: a run never falls behind any other cut of the stream. */
module GreedyPacking {
  import opened Wrappers
  import opened Json
  import opened SpawnCodec
  import J = JsonRoundTrip
  import Utf8
  import opened BatchPlan

  // ------------------------------------------------------------------------------- message sizes

  function Parts(ds: seq<Descriptor>): (ps: seq<string>)
    requires AllNative(ds)
    ensures |ps| == |ds| && forall i :: 0 <= i < |ds| ==> Ok(ps[i]) == EncodeDescriptorText(ds[i])
  {
    seq(|ds|, i requires 0 <= i < |ds| => Compact(EncodeDescriptor(ds[i])))
  }

  /** The exact accounting: envelope for the actual `seq`, the parts, and the commas. */
  lemma WireLength(seqNo: nat, ds: seq<Descriptor>)
    requires AllNative(ds)
    ensures |Wire(seqNo, ds)| == |Envelope(seqNo)| + |Join(Parts(ds))|
  {
    SpliceIsPrint(seqNo, ds, Parts(ds));
    J.PrintedByteLength(BatchJson(seqNo, ds), Tight);
  }

  lemma {:induction false} JoinConcat(a: seq<string>, b: seq<string>)
    requires a != [] && b != []
    ensures Join(a + b) == Join(a) + "," + Join(b)
  {
    if |a| == 1 {
      assert (a + b)[1..] == b;
    } else {
      assert (a + b)[1..] == a[1..] + b;
      JoinConcat(a[1..], b);
      assert a[0] + "," + (Join(a[1..]) + "," + Join(b)) == a[0] + "," + Join(a[1..]) + "," + Join(b);
    }
  }

  /** A message for part of a batch, under an earlier or equal `seq`, is no longer. */
  lemma SliceShrinks(s: nat, t: nat, ds: seq<Descriptor>, i: nat, j: nat)
    requires s <= t && i <= j <= |ds| && AllNative(ds)
    ensures |Wire(s, ds[i..j])| <= |Wire(t, ds)|
  {
    hide Envelope, Wire;
    WireLength(s, ds[i..j]);
    WireLength(t, ds);
    EnvelopeMonotone(s, t);
    var ps := Parts(ds);
    assert Parts(ds[i..j]) == ps[i..j];
    SliceJoin(ps, i, j);
  }

  lemma JoinGrows(a: seq<string>, b: seq<string>)
    ensures |Join(a)| <= |Join(a + b)| && |Join(b)| <= |Join(a + b)|
  {
    if a == [] {
      assert a + b == b;
    } else if b == [] {
      assert a + b == a;
    } else {
      JoinConcat(a, b);
    }
  }

  lemma SliceJoin(ps: seq<string>, i: nat, j: nat)
    requires i <= j <= |ps|
    ensures |Join(ps[i..j])| <= |Join(ps)|
  {
    assert ps[..j] + ps[j..] == ps && ps[..i] + ps[i..j] == ps[..j];
    JoinGrows(ps[..j], ps[j..]);
    JoinGrows(ps[..i], ps[i..j]);
  }

  // ------------------------------------------------------------------------------ greedy is best

  /** Where batch `j` starts in the stream. */
  function Start<T>(bs: seq<seq<T>>, j: nat): nat
    requires j <= |bs|
  {
    if j == 0 then 0 else Start(bs, j - 1) + |bs[j - 1]|
  }

  lemma {:induction false} StartTail<T>(bs: seq<seq<T>>, j: nat)
    requires bs != [] && j < |bs|
    ensures Start(bs, j + 1) == |bs[0]| + Start(bs[1..], j)
  {
    if j > 0 {
      StartTail(bs, j - 1);
    } else {
      assert Start(bs, 1) == Start(bs, 0) + |bs[0]|;
    }
  }

  lemma {:induction false} StartMonotone<T>(bs: seq<seq<T>>, i: nat, j: nat)
    requires i <= j <= |bs|
    ensures Start(bs, i) <= Start(bs, j)
    decreases j
  {
    if i < j {
      StartMonotone(bs, i, j - 1);
    }
  }

  /** Batch `j` is the slice of the stream between two starts. */
  lemma {:induction false} BatchIsSlice<T>(bs: seq<seq<T>>, j: nat)
    requires j < |bs|
    ensures Start(bs, j) + |bs[j]| <= |Flatten(bs)|
    ensures Flatten(bs)[Start(bs, j)..Start(bs, j) + |bs[j]|] == bs[j]
  {
    if j > 0 {
      StartTail(bs, j - 1);
      BatchIsSlice(bs[1..], j - 1);
      var k := Start(bs[1..], j - 1);
      assert Flatten(bs)[|bs[0]| + k..|bs[0]| + k + |bs[j]|] == Flatten(bs[1..])[k..k + |bs[j]|];
    }
  }

  lemma {:induction false} StartEnd<T>(bs: seq<seq<T>>)
    ensures Start(bs, |bs|) == |Flatten(bs)|
  {
    if bs != [] {
      StartTail(bs, |bs| - 1);
      StartEnd(bs[1..]);
      hide Start;
      assert Start(bs[1..], |bs[1..]|) == |Flatten(bs[1..])|;
    } else {
      assert Start(bs, 0) == 0;
    }
  }

  /** The batch that holds position `n` of the stream. */
  lemma {:induction false} Locate<T>(bs: seq<seq<T>>, n: nat, k: nat) returns (j: nat)
    requires k <= |bs| && n < Start(bs, k)
    ensures j < k && Start(bs, j) <= n < Start(bs, j + 1)
    decreases k
  {
    if Start(bs, k - 1) <= n {
      j := k - 1;
    } else {
      j := Locate(bs, n, k - 1);
    }
  }

  function Used(p: Plan): nat {
    |Flush(p)|
  }

  /** Size of the last batch the greedy run has started. */
  function LastSize(p: Plan): nat {
    if Flush(p) == [] then 0 else |Flush(p)[|Flush(p)| - 1]|
  }

  /** Greedy stays ahead: after `n` descriptors, of which the other cut has `k` batches begun, the
      greedy run has begun no more, and if as many, its last one starts no earlier. */
  predicate Ahead(p: Plan, bs: seq<seq<Descriptor>>, n: nat, k: nat) {
    && k <= |bs| && n <= Start(bs, k)
    && (k > 0 ==> Start(bs, k - 1) < n)
    && (k == 0 ==> n == 0)
    && Used(p) <= k
    && LastSize(p) <= n
    && (Used(p) == k && k > 0 ==> n - LastSize(p) >= Start(bs, k - 1))
  }

  lemma SliceOfSlice<T>(s: seq<T>, a: nat, b: nat, lo: nat, hi: nat)
    requires a <= lo <= hi <= b <= |s|
    ensures s[a..b][lo - a..hi - a] == s[lo..hi]
  {
    var left, right := s[a..b][lo - a..hi - a], s[lo..hi];
    forall i | 0 <= i < |right| ensures left[i] == right[i] {
      assert s[a..b][lo - a + i] == s[lo + i];
    }
    assert left == right;
  }

  /** A slice that lies inside batch `j` of the other cut fits under every `seq` up to `j`. */
  lemma InsideFits(caps: Caps, bs: seq<seq<Descriptor>>, ds: seq<Descriptor>, j: nat, s: nat, lo: nat, hi: nat)
    requires IsSplit(caps, bs, ds) && AllNative(ds)
    requires j < |bs| && s <= j && Start(bs, j) <= lo <= hi <= Start(bs, j + 1) <= |ds|
    ensures |Wire(s, ds[lo..hi])| <= caps.maxBytes && hi - lo <= caps.maxCount
  {
    hide Wire, Flatten;
    BatchIsSlice(bs, j);
    var a := Start(bs, j);
    SliceOfSlice(ds, a, Start(bs, j + 1), lo, hi);
    assert bs[j][lo - a..hi - a] == ds[lo..hi];
    SliceShrinks(s, j, bs[j], lo - a, hi - a);
  }

  lemma FlushSuffix(p: Plan)
    ensures p.open != [] ==> LastSize(p) == |p.open| && Used(p) == |p.sent| + 1
    ensures p.open == [] ==> Used(p) == |p.sent|
  {
  }

  lemma {:induction false} OpenIsSuffix(p: Plan, ds: seq<Descriptor>)
    requires Flatten(Flush(p)) == ds && p.open != []
    ensures |p.open| <= |ds| && ds[|ds| - |p.open|..] == p.open
  {
    FlattenSnoc(p.sent, p.open);
  }

  /** Without a `flush` in between, a batch is only complete when it is full. */
  predicate FullWhenIdle(caps: Caps, p: Plan) {
    p.open == [] && p.sent != [] ==> |p.sent[|p.sent| - 1]| == caps.maxCount
  }

  lemma AddKeepsFull(caps: Caps, p: Plan, d: Descriptor)
    requires caps.maxCount > 0 && PlanOk(caps, p)
    ensures Add(caps, p, d).Some? ==> FullWhenIdle(caps, Add(caps, p, d).value)
  {
    hide Wire;
  }

  lemma {:induction false} RunIsFull(caps: Caps, ds: seq<Descriptor>)
    requires caps.maxCount > 0 && Run(caps, ds).Some?
    ensures FullWhenIdle(caps, Run(caps, ds).value)
  {
    hide Add, PlanOk, FullWhenIdle;
    if ds == [] {
      NothingSent(caps);
    } else {
      AddKeepsFull(caps, Run(caps, ds[..|ds| - 1]).value, ds[|ds| - 1]);
    }
  }

  lemma NothingSent(caps: Caps)
    ensures FullWhenIdle(caps, EMPTY)
  {
  }

  lemma StayAhead(caps: Caps, bs: seq<seq<Descriptor>>, ds: seq<Descriptor>, n: nat, p: Plan, k: nat) returns (k': nat)
    requires caps.maxCount > 0 && AllNative(ds) && IsSplit(caps, bs, ds)
    requires n < |ds| && PlanOk(caps, p) && FullWhenIdle(caps, p) && Flatten(Flush(p)) == ds[..n]
    requires Ahead(p, bs, n, k)
    ensures Add(caps, p, ds[n]).Some?
    ensures Ahead(Add(caps, p, ds[n]).value, bs, n + 1, k')
  {
    hide Wire, Flatten, Fits, Start;
    StartEnd(bs);
    var j := Locate(bs, n, |bs|);
    k' := j + 1;
    if k > k' { StartMonotone(bs, k', k - 1); }
    StartMonotone(bs, j + 1, |bs|);
    FlushSuffix(p);
    var d := ds[n];
    assert d.payload.Native?;
    assert ds[n..n + 1] == [d];
    if p.open != [] { OpenIsSuffix(p, ds[..n]); }
    if Used(p) == k' {
      OtherBatchHoldsMore(caps, bs, ds, n, p, j);
    } else {
      InsideFits(caps, bs, ds, j, |p.sent| + (if p.open == [] then 0 else 1), n, n + 1);
      assert p.open == [] ==> p.open + [d] == [d];
    }
  }

  /** When the other cut still has room in the batch with the same number, so has the greedy one. */
  lemma OtherBatchHoldsMore(caps: Caps, bs: seq<seq<Descriptor>>, ds: seq<Descriptor>, n: nat, p: Plan, j: nat)
    requires caps.maxCount > 0 && AllNative(ds) && IsSplit(caps, bs, ds)
    requires n < |ds| && PlanOk(caps, p) && FullWhenIdle(caps, p) && Flatten(Flush(p)) == ds[..n]
    requires j < |bs| && Start(bs, j) <= n < Start(bs, j + 1) <= |ds|
    requires Used(p) == j + 1 && LastSize(p) <= n && n - LastSize(p) >= Start(bs, j)
    ensures p.open != [] && |Wire(|p.sent|, p.open + [ds[n]])| <= caps.maxBytes
  {
    hide Wire, Flatten, Fits, Start;
    var lo := n - LastSize(p);
    InsideFits(caps, bs, ds, j, j, lo, n + 1);
    if p.open != [] {
      OpenIsSuffix(p, ds[..n]);
      assert ds[lo..n + 1] == p.open + [ds[n]];
    }
  }

  lemma {:induction false} RunAhead(caps: Caps, bs: seq<seq<Descriptor>>, ds: seq<Descriptor>, n: nat) returns (k: nat)
    requires caps.maxCount > 0 && AllNative(ds) && IsSplit(caps, bs, ds) && n <= |ds|
    ensures Run(caps, ds[..n]).Some? && Ahead(Run(caps, ds[..n]).value, bs, n, k)
  {
    hide Wire, Flatten, Fits, Add;
    if n == 0 {
      k := 0;
    } else {
      var k0 := RunAhead(caps, bs, ds, n - 1);
      assert ds[..n][..n - 1] == ds[..n - 1];
      RunKeepsStream(caps, ds[..n - 1]);
      RunIsFull(caps, ds[..n - 1]);
      k := StayAhead(caps, bs, ds, n - 1, Run(caps, ds[..n - 1]).value, k0);
    }
  }

  /** No other cut of the same stream under the same caps uses fewer messages, and if there is any
      cut at all, the greedy run does not raise. */
  lemma GreedyIsOptimal(caps: Caps, ds: seq<Descriptor>, bs: seq<seq<Descriptor>>)
    requires caps.maxCount > 0 && AllNative(ds) && IsSplit(caps, bs, ds)
    ensures Run(caps, ds).Some?
    ensures |Flush(Run(caps, ds).value)| <= |bs|
  {
    hide Fits;
    var k := RunAhead(caps, bs, ds, |ds|);
    assert ds[..|ds|] == ds;
  }

  /** The encoder gets through the whole stream exactly when the stream can be cut at all. */
  lemma RunSucceedsIffSplittable(caps: Caps, ds: seq<Descriptor>)
    requires caps.maxCount > 0 && AllNative(ds)
    ensures Run(caps, ds).Some? <==> exists bs :: IsSplit(caps, bs, ds)
  {
    if Run(caps, ds).Some? {
      RunIsSplit(caps, ds);
    }
    if bs :| IsSplit(caps, bs, ds) {
      GreedyIsOptimal(caps, ds, bs);
    }
  }
}
