/** `ReplicationReceiver` (`peer_replication.py`): which offers are taken, which fetches recorded. */
module ReplicationReceiver {
  import opened Wrappers
  import opened Cluster
  import opened PushStep

  // ----------------------------------------------------------------------- one outpath's bookkeeping

  /** The sender this outpath is being fetched from, and the senders whose accepted offer was
      withdrawn. */
  datatype Rx = Rx(target: Option<Sid>, cancelled: set<Sid>)

  /** The locked part of `on_offer`: `None` is the already-targeted reject. */
  function Offered(r: Rx, from: Sid): Option<Rx> {
    if r.target.Some? && r.target.value != from then None else Some(r.(target := Some(from)))
  }

  /** `on_cancel`: only the current offerer can cancel. */
  function CancelledBy(r: Rx, from: Sid): Rx {
    if r.target == Some(from) then Rx(None, r.cancelled + {from}) else r
  }

  /** `_do_fetch` when the offerer is no longer a known peer. */
  function OffererGone(r: Rx, from: Sid): Rx {
    if r.target == Some(from) then r.(target := None) else r
  }

  /** The locked part after the fetch: the cleared bookkeeping, and whether the fetch was cancelled. */
  function Fetched(r: Rx, from: Sid): (Rx, bool) {
    (Rx(if r.target == Some(from) then None else r.target, r.cancelled - {from}), from in r.cancelled)
  }

  datatype Verdict = Ignored | Rejected(reason: string) | Accepted

  class Receiver {
    var targeting: map<Outpath, Sid>
    var cancelled: map<Outpath, set<Sid>>
    var stopped: bool

    function View(o: Outpath): Rx
      reads this
    {
      Rx(if o in targeting then Some(targeting[o]) else None, if o in cancelled then cancelled[o] else {})
    }

    constructor ()
      ensures !stopped && forall o :: View(o) == Rx(None, {})
    {
      targeting, cancelled, stopped := map[], map[], false;
    }

    /** `on_offer`. An accepted offer starts a fetch thread. */
    method OnOffer(from: Sid, o: Outpath, locallyValid: bool) returns (v: Verdict)
      modifies `targeting
      ensures v == (
        if from == "" || o == "" then Ignored
        else if stopped then Rejected("shutting-down")
        else if locallyValid then Rejected("already-have")
        else if Offered(old(View(o)), from) == None then Rejected("already-targeted")
        else Accepted)
      ensures v == Accepted ==> Some(View(o)) == Offered(old(View(o)), from)
      ensures v != Accepted ==> View(o) == old(View(o))
      ensures v == Accepted <==>
        from != "" && o != "" && !stopped && !locallyValid && (o !in old(targeting) || old(targeting)[o] == from)
      ensures targeting == if v == Accepted then old(targeting)[o := from] else old(targeting)
      ensures forall p :: p != o ==> View(p) == old(View(p))
    {
      if from == "" || o == "" {
        return Ignored;
      }
      if stopped {
        return Rejected("shutting-down");
      }
      if locallyValid {
        return Rejected("already-have");
      }
      if o in targeting && targeting[o] != from {
        return Rejected("already-targeted");
      }
      targeting := targeting[o := from];
      return Accepted;
    }

    /** `on_cancel`. */
    method OnCancel(from: Sid, o: Outpath)
      modifies `targeting, `cancelled
      ensures View(o) == if from == "" || o == "" then old(View(o)) else CancelledBy(old(View(o)), from)
      ensures var current := from != "" && o != "" && o in old(targeting) && old(targeting)[o] == from;
        && targeting == (if current then old(targeting) - {o} else old(targeting))
        && View(o).cancelled == old(View(o)).cancelled + if current then {from} else {}
      ensures forall p :: p != o ==> View(p) == old(View(p))
    {
      if from == "" || o == "" {
        return;
      }
      if o !in targeting || targeting[o] != from {
        return;
      }
      cancelled := cancelled[o := (if o in cancelled then cancelled[o] else {}) + {from}];
      targeting := targeting - {o};
    }

    /** `_do_fetch` for an offerer that has left the peers list. */
    method FetchFromUnknown(from: Sid, o: Outpath)
      modifies `targeting
      ensures View(o) == OffererGone(old(View(o)), from)
      ensures targeting == if o in old(targeting) && old(targeting)[o] == from then old(targeting) - {o} else old(targeting)
      ensures forall p :: p != o ==> View(p) == old(View(p))
    {
      if o in targeting && targeting[o] == from {
        targeting := targeting - {o};
      }
    }

    /** `_do_fetch` after `fetch_from_peer` returned: is the path recorded, and is it cascaded? */
    method FetchDone(from: Sid, o: Outpath, fetched: bool, recordWorks: bool, isToolchain: bool)
      returns (recorded: bool, cascades: bool)
      modifies `targeting, `cancelled
      ensures View(o) == Fetched(old(View(o)), from).0
      ensures recorded <==> !stopped && fetched && recordWorks && !Fetched(old(View(o)), from).1
      ensures recorded <==> !stopped && fetched && recordWorks && from !in old(View(o)).cancelled
      ensures targeting == if o in old(targeting) && old(targeting)[o] == from then old(targeting) - {o} else old(targeting)
      ensures View(o).cancelled == old(View(o)).cancelled - {from}
      ensures cascades <==> recorded && isToolchain
      ensures forall p :: p != o ==> View(p) == old(View(p))
    {
      var wasCancelled := o in cancelled && from in cancelled[o];
      if o in targeting && targeting[o] == from {
        targeting := targeting - {o};
      }
      if o in cancelled {
        cancelled := cancelled[o := cancelled[o] - {from}];
      }
      if stopped || wasCancelled || !fetched {
        return false, false;
      }
      if !recordWorks {
        return false, false;
      }
      return true, isToolchain;
    }

    /** `stop`. */
    method Stop()
      modifies this
      ensures stopped && forall o :: View(o) == Rx(None, {})
    {
      stopped := true;
      targeting, cancelled := map[], map[];
    }
  }

  // ------------------------------------------------------------------------------- interleavings

  /** One outpath on one running node: the bookkeeping, the fetch threads, and who was recorded as
      the source of a copy. */
  datatype Node = Node(rx: Rx, running: multiset<Sid>, recorded: seq<Sid>)

  datatype Event =
    | Offer(from: Sid, locallyValid: bool)
    | Cancel(from: Sid)
    | Gone(from: Sid)
    | Done(from: Sid, fetched: bool)

  const IDLE := Node(Rx(None, {}), multiset{}, [])

  predicate Possible(n: Node, e: Event) {
    (e.Gone? || e.Done?) ==> e.from in n.running
  }

  /** The sender offers again only after its last fetch of this outpath has ended. */
  predicate Polite(n: Node, e: Event) {
    e.Offer? ==> e.from !in n.running
  }

  function Step(n: Node, e: Event): Node {
    match e
    case Offer(from, locallyValid) =>
      if locallyValid || Offered(n.rx, from) == None then n
      else Node(Offered(n.rx, from).value, n.running + multiset{from}, n.recorded)
    case Cancel(from) => n.(rx := CancelledBy(n.rx, from))
    case Gone(from) => Node(OffererGone(n.rx, from), n.running - multiset{from}, n.recorded)
    case Done(from, fetched) =>
      var (rx, wasCancelled) := Fetched(n.rx, from);
      Node(rx, n.running - multiset{from}, if fetched && !wasCancelled then n.recorded + [from] else n.recorded)
  }

  predicate Run(n: Node, es: seq<Event>, n': Node)
    decreases |es|
  {
    if es == [] then n == n'
    else Possible(n, es[0]) && Polite(n, es[0]) && Run(Step(n, es[0]), es[1..], n')
  }

  /** Each running fetch is the current target or flagged, no sender runs two, and a target runs. */
  ghost predicate Exclusive(n: Node) {
    && (forall s :: s in n.running ==> n.running[s] == 1 && (n.rx.target == Some(s) || s in n.rx.cancelled))
    && (n.rx.target.Some? ==> n.rx.target.value in n.running)
  }

  lemma StepKeepsExclusive(n: Node, e: Event)
    requires Exclusive(n) && Possible(n, e) && Polite(n, e)
    ensures Exclusive(Step(n, e))
  {
  }

  lemma {:induction false} RunKeepsExclusive(n: Node, es: seq<Event>, n': Node)
    requires Exclusive(n) && Run(n, es, n')
    ensures Exclusive(n')
    decreases |es|
  {
    hide Exclusive, Step;
    if es != [] {
      StepKeepsExclusive(n, es[0]);
      RunKeepsExclusive(Step(n, es[0]), es[1..], n');
    }
  }

  /** In every such run at most one un-cancelled fetch of the outpath is under way, and it is the
      target's. */
  lemma AtMostOneUncancelled(es: seq<Event>, n: Node, a: Sid, b: Sid)
    requires Run(IDLE, es, n)
    requires a in n.running && a !in n.rx.cancelled && b in n.running && b !in n.rx.cancelled
    ensures a == b && n.running[a] == 1 && n.rx.target == Some(a)
  {
    RunKeepsExclusive(IDLE, es, n);
  }

  /** A copy is recorded exactly when the current target's un-flagged fetch succeeds. */
  lemma OnlyTargetRecords(es: seq<Event>, n: Node, e: Event)
    requires Run(IDLE, es, n) && Possible(n, e) && Polite(n, e)
    ensures Step(n, e).recorded != n.recorded <==>
      e.Done? && e.fetched && n.rx.target == Some(e.from) && e.from !in n.rx.cancelled
  {
    RunKeepsExclusive(IDLE, es, n);
    if e.Done? {
      assert (n.recorded + [e.from])[|n.recorded|] == e.from;
    }
  }

  /** A sender whose offer timed out may offer again while its first fetch still runs. If it had
      withdrawn the first offer, the first fetch to end clears the shared bookkeeping of both, and a
      second sender is accepted beside the one still running. */
  lemma ReofferBreaksExclusivity(a: Sid, b: Sid)
    requires a != b
    ensures var n := Step(Step(Step(Step(Step(IDLE, Offer(a, false)), Cancel(a)), Offer(a, false)), Done(a, true)), Offer(b, false));
      a in n.running && b in n.running && n.rx.cancelled == {}
  {
    var n1 := Step(IDLE, Offer(a, false));
    assert n1 == Node(Rx(Some(a), {}), multiset{a}, []);
    var n2 := Step(n1, Cancel(a));
    assert n2 == Node(Rx(None, {a}), multiset{a}, []);
    var n3 := Step(n2, Offer(a, false));
    TwoFetches(n3, a, b);
  }

  lemma TwoFetches(n: Node, a: Sid, b: Sid)
    requires a != b && n.rx == Rx(Some(a), {a}) && n.running == multiset{a, a}
    ensures var n' := Step(Step(n, Done(a, true)), Offer(b, false));
      a in n'.running && b in n'.running && n'.rx.cancelled == {}
  {
    var n4 := Step(n, Done(a, true));
    assert n4.rx == Rx(None, {});
    assert n4.running[a] == 1;
  }

  // --------------------------------------------------------------------- which fetch is recorded

  predicate NeverDone(es: seq<Event>, a: Sid) {
    forall i :: 0 <= i < |es| ==> !(es[i].Done? && es[i].from == a)
  }

  lemma NeverDoneHead(es: seq<Event>, a: Sid)
    requires es != []
    ensures NeverDone(es, a) <==> !(es[0].Done? && es[0].from == a) && NeverDone(es[1..], a)
  {
    assert forall i :: 0 < i < |es| ==> es[i] == es[1..][i - 1];
  }

  /** No fetch from `a` ends in `es`. */
  predicate NeverEnds(es: seq<Event>, a: Sid) {
    NeverDone(es, a) && Gone(a) !in es
  }

  lemma NeverEndsHead(es: seq<Event>, a: Sid)
    requires es != []
    ensures NeverEnds(es, a) <==> es[0] != Gone(a) && !(es[0].Done? && es[0].from == a) && NeverEnds(es[1..], a)
  {
    NeverDoneHead(es, a);
    assert es == [es[0]] + es[1..];
  }

  lemma {:induction false} WhileItRuns(n: Node, es: seq<Event>, n': Node, a: Sid)
    requires Exclusive(n) && Run(n, es, n') && a in n.running && NeverEnds(es, a)
    ensures a in n'.running
    ensures a in n'.rx.cancelled <==> a in n.rx.cancelled || Cancel(a) in es
    decreases |es|
  {
    hide Exclusive, NeverEnds;
    if es != [] {
      NeverEndsHead(es, a);
      StepKeepsExclusive(n, es[0]);
      FlagDuringFetch(n, es[0], a);
      WhileItRuns(Step(n, es[0]), es[1..], n', a);
      assert es == [es[0]] + es[1..];
    }
  }

  lemma FlagDuringFetch(n: Node, e: Event, a: Sid)
    requires Exclusive(n) && Possible(n, e) && Polite(n, e) && a in n.running
    requires e != Gone(a) && !(e.Done? && e.from == a)
    ensures a in Step(n, e).running
    ensures a in Step(n, e).rx.cancelled <==> a in n.rx.cancelled || e == Cancel(a)
  {
  }

  /** In every polite run, a fetch that was accepted from `a` and ends successfully is recorded exactly
      when no flag of `a` was up at the offer and `a` did not withdraw while it ran. */
  lemma RecordedIffNotWithdrawn(before: seq<Event>, n: Node, a: Sid, during: seq<Event>, m: Node)
    requires Run(IDLE, before, n) && Polite(n, Offer(a, false)) && Offered(n.rx, a).Some?
    requires Run(Step(n, Offer(a, false)), during, m) && NeverEnds(during, a)
    ensures Possible(m, Done(a, true))
    ensures Step(m, Done(a, true)).recorded ==
      if a !in n.rx.cancelled && Cancel(a) !in during then m.recorded + [a] else m.recorded
  {
    hide NeverEnds, Run, Exclusive;
    IdleIsExclusive();
    RunKeepsExclusive(IDLE, before, n);
    StepKeepsExclusive(n, Offer(a, false));
    WhileItRuns(Step(n, Offer(a, false)), during, m, a);
  }

  /** Somewhere in the run `a` withdraws while a fetch from it is running, and no fetch from it
      completes afterwards. */
  predicate Withdrawn(n: Node, es: seq<Event>, a: Sid)
    decreases |es|
  {
    && es != []
    && ((es[0] == Cancel(a) && a in n.running && NeverDone(es[1..], a)) || Withdrawn(Step(n, es[0]), es[1..], a))
  }

  /** The same, and the fetch was given up because its offerer had left the peers list. */
  predicate LeftBehind(n: Node, es: seq<Event>, a: Sid)
    decreases |es|
  {
    && es != []
    && ((es[0] == Cancel(a) && a in n.running && NeverDone(es[1..], a) && Gone(a) in es[1..])
        || LeftBehind(Step(n, es[0]), es[1..], a))
  }

  lemma {:induction false} FlagIffWithdrawn(n: Node, es: seq<Event>, n': Node, a: Sid)
    requires Exclusive(n) && Run(n, es, n')
    ensures a in n'.rx.cancelled <==> (a in n.rx.cancelled && NeverDone(es, a)) || Withdrawn(n, es, a)
    decreases |es|
  {
    hide Exclusive, NeverDone;
    if es == [] {
      NothingDone(a);
    } else {
      var e := es[0];
      NeverDoneHead(es, a);
      StepKeepsExclusive(n, e);
      FlagIffWithdrawn(Step(n, e), es[1..], n', a);
      FlagAfter(n, e, a);
    }
  }

  lemma NothingDone(a: Sid)
    ensures NeverDone([], a)
  {
  }

  lemma FlagAfter(n: Node, e: Event, a: Sid)
    requires Exclusive(n) && Possible(n, e) && Polite(n, e)
    ensures a in Step(n, e).rx.cancelled <==>
      (a in n.rx.cancelled && !(e.Done? && e.from == a)) || (e == Cancel(a) && a in n.running)
  {
  }

  lemma KeepsRunning(n: Node, e: Event, a: Sid)
    requires a in n.running && e != Gone(a) && !(e.Done? && e.from == a)
    ensures a in Step(n, e).running
  {
  }

  lemma {:induction false} GoneIfEnded(n: Node, es: seq<Event>, n': Node, a: Sid)
    requires Run(n, es, n') && a in n.running && a !in n'.running && NeverDone(es, a)
    ensures Gone(a) in es
    decreases |es|
  {
    hide NeverDone, Step;
    if es == [] {
      assert false;
    } else if es[0] != Gone(a) {
      NeverDoneHead(es, a);
      KeepsRunning(n, es[0], a);
      GoneIfEnded(Step(n, es[0]), es[1..], n', a);
      assert es == [es[0]] + es[1..];
    }
  }

  lemma {:induction false} LeftBehindIs(n: Node, es: seq<Event>, n': Node, a: Sid)
    requires Run(n, es, n') && a !in n'.running
    ensures LeftBehind(n, es, a) <==> Withdrawn(n, es, a)
    decreases |es|
  {
    hide NeverDone;
    if es != [] {
      LeftBehindIs(Step(n, es[0]), es[1..], n', a);
      if es[0] == Cancel(a) && a in n.running && NeverDone(es[1..], a) {
        GoneIfEnded(Step(n, es[0]), es[1..], n', a);
      }
    }
  }

  /** A flag is up exactly when `a` withdrew during a fetch and none from it has completed since. It is
      up while no fetch from `a` runs exactly when such a fetch was given up for an unknown offerer. */
  lemma StaleFlagIff(es: seq<Event>, n: Node, a: Sid)
    requires Run(IDLE, es, n)
    ensures a in n.rx.cancelled <==> Withdrawn(IDLE, es, a)
    ensures a in n.rx.cancelled && a !in n.running <==> LeftBehind(IDLE, es, a) && a !in n.running
  {
    hide Exclusive, Run, Withdrawn, LeftBehind, NeverDone;
    IdleIsExclusive();
    FlagIffWithdrawn(IDLE, es, n, a);
    if a !in n.running {
      LeftBehindIs(IDLE, es, n, a);
    }
  }

  lemma IdleIsExclusive()
    ensures Exclusive(IDLE)
  {
  }

  /** An example: a cancel flag outlives the fetch when the offerer leaves the peers list first; the next fetch
      from that sender, never cancelled, is then dropped although it succeeds. */
  lemma StaleFlagDropsNextFetch(a: Sid)
    ensures var es := [Offer(a, false), Cancel(a), Gone(a), Offer(a, false), Done(a, true)];
      Run(IDLE, es, Node(Rx(None, {}), multiset{}, []))
  {
    hide Run;
    var n1 := Step(IDLE, Offer(a, false));
    assert n1 == Node(Rx(Some(a), {}), multiset{a}, []);
    var n2 := Step(n1, Cancel(a));
    assert n2 == Node(Rx(None, {a}), multiset{a}, []);
    var n3 := Step(n2, Gone(a));
    assert n3 == Node(Rx(None, {a}), multiset{}, []);
    var n4 := Step(n3, Offer(a, false));
    assert n4 == Node(Rx(Some(a), {a}), multiset{a}, []);
    var n5 := Step(n4, Done(a, true));
    assert n5 == Node(Rx(None, {}), multiset{}, []);
    var es := [Offer(a, false), Cancel(a), Gone(a), Offer(a, false), Done(a, true)];
    NoEvents(n5);
    RunOne(n4, es[4], [], n5);
    assert [es[4]] + [] == [es[4]];
    RunOne(n3, es[3], [es[4]], n5);
    assert [es[3]] + [es[4]] == [es[3], es[4]];
    RunOne(n2, es[2], [es[3], es[4]], n5);
    assert [es[2]] + [es[3], es[4]] == [es[2], es[3], es[4]];
    RunOne(n1, es[1], [es[2], es[3], es[4]], n5);
    assert [es[1]] + [es[2], es[3], es[4]] == [es[1], es[2], es[3], es[4]];
    RunOne(IDLE, es[0], [es[1], es[2], es[3], es[4]], n5);
    assert es == [es[0]] + [es[1], es[2], es[3], es[4]];
  }

  lemma NoEvents(n: Node)
    ensures Run(n, [], n)
  {
  }

  lemma RunOne(n: Node, e: Event, es: seq<Event>, n': Node)
    requires Possible(n, e) && Polite(n, e) && Run(Step(n, e), es, n')
    ensures Run(n, [e] + es, n')
  {
    assert ([e] + es)[1..] == es;
  }
}
