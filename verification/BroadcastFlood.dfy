/** One broadcast id over a cluster, under any delivery order: every message, dedup check, callback and
    fan-out is a step of its own (`peer_push.py`, `peer_replication.py`). */
module BroadcastFlood {
  import opened Broadcast
  import opened Sequences

  datatype Msg = Msg(to: Peer, origin: Peer, hop: int)

  /** An offer past the dedup check whose callback has not returned, or a queued cascade. */
  datatype Pending = Pending(origin: Peer, hop: int)

  datatype Cluster = Cluster(
    seen: set<Peer>,
    handling: map<Peer, Pending>,
    jobs: map<Peer, Pending>,
    inFlight: multiset<Msg>,
    holds: set<Peer>,
    recorded: set<Peer>,
    cascaded: set<Peer>,
    cascadeMessages: nat)

  datatype Step =
    | Deliver(m: Msg)
    | Lose(m: Msg)
    | Callback(p: Peer, stopped: bool, answers: Answers, stopsMeanwhile: bool)
    | Dispatch(p: Peer, targets: set<Peer>)

  /** The cluster: its peers, the hop cap, and the (non-empty) path being broadcast. */
  datatype Setup = Setup(peers: set<Peer>, maxHop: nat, path: string)

  function Fan(from: Peer, hop: int, targets: set<Peer>): multiset<Msg> {
    multiset(set t | t in targets :: Msg(t, from, hop))
  }

  function Start(origin: Peer, seeds: set<Peer>, holders: set<Peer>): Cluster {
    Cluster({}, map[], map[], Fan(origin, 0, seeds), holders, {}, {}, 0)
  }

  predicate Enabled(u: Setup, c: Cluster, s: Step) {
    match s
    case Deliver(m) => m in c.inFlight
    case Lose(m) => m in c.inFlight
    case Callback(p, _, a, _) => p in c.handling && (a.probe ==> p in c.holds) && (a.fetched ==> c.handling[p].origin in c.holds)
    case Dispatch(p, targets) => p in c.jobs && targets <= u.peers - {p, c.jobs[p].origin}
  }

  function Apply(u: Setup, c: Cluster, s: Step): Cluster
    requires Enabled(u, c, s)
  {
    match s
    case Deliver(m) =>
      var c' := c.(inFlight := c.inFlight - multiset{m});
      if m.to in c.seen then c'
      else c'.(seen := c.seen + {m.to}, handling := c.handling[m.to := Pending(m.origin, m.hop)])
    case Lose(m) => c.(inFlight := c.inFlight - multiset{m})
    case Callback(p, stopped, a, stopsMeanwhile) =>
      var offer := c.handling[p];
      var d := Decide(stopped, u.path, a, offer.hop, u.maxHop);
      var goesOn := d.cascades && !stopsMeanwhile;
      c.(handling := c.handling - {p},
         holds := if d.copied then c.holds + {p} else c.holds,
         recorded := if d.recorded then c.recorded + {p} else c.recorded,
         jobs := if goesOn then c.jobs[p := Pending(offer.origin, offer.hop + 1)] else c.jobs,
         cascaded := if goesOn then c.cascaded + {p} else c.cascaded)
    case Dispatch(p, targets) =>
      c.(jobs := c.jobs - {p},
         inFlight := c.inFlight + Fan(p, c.jobs[p].hop, targets),
         cascadeMessages := c.cascadeMessages + |targets|)
  }

  predicate Run(u: Setup, c: Cluster, steps: seq<Step>, c': Cluster)
    decreases |steps|
  {
    if steps == [] then c == c'
    else Enabled(u, c, steps[0]) && Run(u, Apply(u, c, steps[0]), steps[1..], c')
  }

  // ------------------------------------------------------------------------------------ accounting

  /** What every reachable state satisfies: each peer is unseen, handling, or done with the offer, and
      it cascades only after handling. */
  ghost predicate Sane(u: Setup, c: Cluster) {
    && PhasesOrdered(u, c)
    && HopsCapped(u, c)
    && CascadesCounted(u, c)
  }

  ghost predicate PhasesOrdered(u: Setup, c: Cluster) {
    && (forall p :: p in c.seen ==> p in u.peers)
    && (forall p :: p in c.handling ==> p in c.seen && p !in c.cascaded)
    && (forall p :: p in c.cascaded ==> p in c.seen)
    && (forall p :: p in c.jobs ==> p in c.cascaded)
  }

  ghost predicate HopsCapped(u: Setup, c: Cluster) {
    && (forall m :: m in c.inFlight ==> m.to in u.peers && 0 <= m.hop <= u.maxHop)
    && (forall p :: p in c.handling ==> 0 <= c.handling[p].hop <= u.maxHop)
    && (forall p :: p in c.jobs ==> 0 < c.jobs[p].hop <= u.maxHop)
  }

  function Dispatched(c: Cluster): set<Peer> {
    set p | p in c.cascaded && p !in c.jobs
  }

  /** Peers that have dispatched their cascade sent at most one message to every other peer. */
  predicate CascadesCounted(u: Setup, c: Cluster) {
    c.cascadeMessages <= |Dispatched(c)| * (|u.peers| - 1)
  }

  /** Nobody claims to hold the path without holding it: offers name a holder, records are true. */
  ghost predicate Sound(c: Cluster) {
    && (forall m :: m in c.inFlight ==> m.origin in c.holds)
    && (forall p :: p in c.handling ==> c.handling[p].origin in c.holds)
    && (forall p :: p in c.jobs ==> p in c.holds)
    && c.recorded <= c.holds
  }

  lemma FanMembers(from: Peer, hop: int, targets: set<Peer>)
    ensures forall m :: m in Fan(from, hop, targets) <==> m.to in targets && m == Msg(m.to, from, hop)
  {
    var s := set t | t in targets :: Msg(t, from, hop);
    forall m ensures m in Fan(from, hop, targets) <==> m.to in targets && m == Msg(m.to, from, hop) {
      assert m in Fan(from, hop, targets) <==> m in s;
    }
  }

  lemma {:induction false} FanSize(from: Peer, hop: int, targets: set<Peer>)
    ensures |Fan(from, hop, targets)| == |targets|
  {
    if targets == {} {
      assert (set t | t in targets :: Msg(t, from, hop)) == {};
    } else {
      var t :| t in targets;
      var rest := targets - {t};
      FanSize(from, hop, rest);
      var a := set x | x in targets :: Msg(x, from, hop);
      var b := set x | x in rest :: Msg(x, from, hop);
      assert a == b + {Msg(t, from, hop)};
      assert Msg(t, from, hop) !in b;
    }
  }

  lemma StartIsSane(u: Setup, origin: Peer, seeds: set<Peer>, holders: set<Peer>)
    requires seeds <= u.peers && origin in holders
    ensures Sane(u, Start(origin, seeds, holders)) && Sound(Start(origin, seeds, holders))
  {
    FanMembers(origin, 0, seeds);
  }

  lemma StepKeepsSound(u: Setup, c: Cluster, s: Step)
    requires Sound(c) && Enabled(u, c, s)
    ensures Sound(Apply(u, c, s))
  {
    hide Apply, Enabled, Sound;
    match s
    case Callback(_, _, _, _) => CallbackKeepsSound(u, c, s);
    case Dispatch(_, _) => DispatchKeepsSound(u, c, s);
    case _ => MessageKeepsSound(u, c, s);
  }

  lemma MessageKeepsSound(u: Setup, c: Cluster, s: Step)
    requires Sound(c) && (s.Deliver? || s.Lose?) && Enabled(u, c, s)
    ensures Sound(Apply(u, c, s))
  {
    OneLess(c.inFlight, s.m);
  }

  lemma OneLess(ms: multiset<Msg>, m: Msg)
    ensures forall x :: x in ms - multiset{m} ==> x in ms
  {
  }

  lemma DispatchKeepsSound(u: Setup, c: Cluster, s: Step)
    requires Sound(c) && s.Dispatch? && Enabled(u, c, s)
    ensures Sound(Apply(u, c, s))
  {
    hide Fan;
    var fan := Fan(s.p, c.jobs[s.p].hop, s.targets);
    FanMembers(s.p, c.jobs[s.p].hop, s.targets);
    assert forall x :: x in c.inFlight + fan ==> x in c.inFlight || x in fan;
  }

  lemma CallbackKeepsSound(u: Setup, c: Cluster, s: Step)
    requires Sound(c) && s.Callback? && Enabled(u, c, s)
    ensures Sound(Apply(u, c, s))
  {
  }

  lemma StepKeepsHops(u: Setup, c: Cluster, s: Step)
    requires HopsCapped(u, c) && Enabled(u, c, s)
    ensures HopsCapped(u, Apply(u, c, s))
  {
    hide Apply, Enabled, HopsCapped;
    match s
    case Callback(_, _, _, _) => CallbackKeepsHops(u, c, s);
    case Dispatch(_, _) => DispatchKeepsHops(u, c, s);
    case _ => MessageKeepsHops(u, c, s);
  }

  lemma MessageKeepsHops(u: Setup, c: Cluster, s: Step)
    requires HopsCapped(u, c) && (s.Deliver? || s.Lose?) && Enabled(u, c, s)
    ensures HopsCapped(u, Apply(u, c, s))
  {
    OneLess(c.inFlight, s.m);
  }

  lemma CallbackKeepsHops(u: Setup, c: Cluster, s: Step)
    requires HopsCapped(u, c) && s.Callback? && Enabled(u, c, s)
    ensures HopsCapped(u, Apply(u, c, s))
  {
  }

  lemma DispatchKeepsHops(u: Setup, c: Cluster, s: Step)
    requires HopsCapped(u, c) && s.Dispatch? && Enabled(u, c, s)
    ensures HopsCapped(u, Apply(u, c, s))
  {
    hide Fan;
    var fan := Fan(s.p, c.jobs[s.p].hop, s.targets);
    FanMembers(s.p, c.jobs[s.p].hop, s.targets);
    assert forall x :: x in c.inFlight + fan ==> x in c.inFlight || x in fan;
  }

  /** A dispatch moves one peer to the dispatched ones; nothing else changes them. */
  lemma StepMovesDispatched(u: Setup, c: Cluster, s: Step)
    requires PhasesOrdered(u, c) && Enabled(u, c, s)
    ensures Dispatched(Apply(u, c, s)) == Dispatched(c) + if s.Dispatch? then {s.p} else {}
    ensures s.Dispatch? ==> s.p !in Dispatched(c) && s.p in u.peers
  {
    hide Fan, Decide;
    if s.Callback? { CallbackJobs(u, c, s); }
  }

  lemma CallbackJobs(u: Setup, c: Cluster, s: Step)
    requires PhasesOrdered(u, c) && Enabled(u, c, s) && s.Callback?
    ensures var c' := Apply(u, c, s);
      forall q :: (q in c'.cascaded && q !in c'.jobs) <==> (q in c.cascaded && q !in c.jobs)
  {
    hide Fan, Decide;
  }

  lemma StepKeepsCount(u: Setup, c: Cluster, s: Step)
    requires CascadesCounted(u, c) && PhasesOrdered(u, c) && Enabled(u, c, s)
    ensures CascadesCounted(u, Apply(u, c, s))
  {
    hide PhasesOrdered, Fan, Dispatched;
    StepMovesDispatched(u, c, s);
    if s.Dispatch? {
      SubsetSize(s.targets, u.peers - {s.p});
      assert |u.peers - {s.p}| == |u.peers| - 1;
      OneMoreTimes(|Dispatched(c)|, |u.peers| - 1);
    } else {
      assert Dispatched(Apply(u, c, s)) == Dispatched(c);
    }
  }

  lemma StepKeepsPhases(u: Setup, c: Cluster, s: Step)
    requires PhasesOrdered(u, c) && HopsCapped(u, c) && Enabled(u, c, s)
    ensures PhasesOrdered(u, Apply(u, c, s))
  {
    hide Fan, Decide;
  }

  lemma StepKeepsSane(u: Setup, c: Cluster, s: Step)
    requires Sane(u, c) && Enabled(u, c, s)
    ensures Sane(u, Apply(u, c, s))
  {
    hide HopsCapped, CascadesCounted, PhasesOrdered, Apply, Enabled;
    StepKeepsHops(u, c, s);
    StepKeepsCount(u, c, s);
    StepKeepsPhases(u, c, s);
  }

  lemma OneMoreTimes(a: nat, b: int)
    ensures (a + 1) * b == a * b + b
  {
  }

  lemma {:induction false} RunKeeps(u: Setup, c: Cluster, steps: seq<Step>, c': Cluster)
    requires Sane(u, c) && Sound(c) && Run(u, c, steps, c')
    ensures Sane(u, c') && Sound(c')
    decreases |steps|
  {
    hide Sane, Sound, Apply, Enabled;
    if steps != [] {
      StepKeepsSane(u, c, steps[0]);
      StepKeepsSound(u, c, steps[0]);
      RunKeeps(u, Apply(u, c, steps[0]), steps[1..], c');
    }
  }

  /** In any run, with losses, failures, stops and incomplete maps: each peer cascades at most once,
      all cascades together send at most n(n-1) messages, no hop count passes the cap, every offer in
      flight names a peer that holds the path, and every placement record is true. */
  lemma FloodIsBounded(u: Setup, origin: Peer, seeds: set<Peer>, holders: set<Peer>, steps: seq<Step>, c: Cluster)
    requires seeds <= u.peers && origin in holders && Run(u, Start(origin, seeds, holders), steps, c)
    ensures c.cascadeMessages <= |u.peers| * (|u.peers| - 1)
    ensures forall m :: m in c.inFlight ==> 0 <= m.hop <= u.maxHop && m.origin in c.holds
    ensures c.recorded <= c.holds
  {
    StartIsSane(u, origin, seeds, holders);
    hide Run, Start;
    RunKeeps(u, Start(origin, seeds, holders), steps, c);
    SubsetSize(Dispatched(c), u.peers);
    if u.peers != {} {
      Times(|Dispatched(c)|, |u.peers|, |u.peers| - 1);
    }
  }

  lemma Times(a: nat, b: nat, c: nat)
    requires a <= b
    ensures a * c <= b * c
  {
  }

  // ----------------------------------------------------------------------------------- termination

  function Unseen(u: Setup, c: Cluster): set<Peer> {
    set p | p in u.peers && p !in c.seen
  }

  function Weight(n: nat, unseen: nat, handling: nat, jobs: nat, messages: nat): nat {
    unseen * (n + 3) + handling * (n + 2) + jobs * (n + 1) + messages
  }

  /** Work left: an unseen peer weighs more than a callback, that more than a cascade, and that more
      than the messages it turns into. */
  function Measure(u: Setup, c: Cluster): nat {
    Weight(|u.peers|, |Unseen(u, c)|, |c.handling.Keys|, |c.jobs.Keys|, |c.inFlight|)
  }

  /** One unit of work becomes a lighter one. */
  lemma WeightDrops(n: nat, a: nat, b: nat, c: nat, d: nat)
    ensures Weight(n, a, b + 1, c, d) < Weight(n, a + 1, b, c, d + 1)
    ensures Weight(n, a, b, c + 1, d) < Weight(n, a, b + 1, c, d)
    ensures Weight(n, a, b, c, d) < Weight(n, a, b + 1, c, d)
    ensures Weight(n, a, b, c, d) < Weight(n, a, b, c, d + 1)
  {
    OneMoreTimes(a, n + 3);
    OneMoreTimes(b, n + 2);
    OneMoreTimes(c, n + 1);
  }

  lemma CascadeWeightDrops(n: nat, a: nat, b: nat, c: nat, d: nat, t: nat)
    requires t <= n
    ensures Weight(n, a, b, c, d + t) < Weight(n, a, b, c + 1, d)
  {
    OneMoreTimes(c, n + 1);
  }

  lemma KeysGrow<V>(m: map<Peer, V>, p: Peer, v: V)
    requires p !in m
    ensures |m[p := v].Keys| == |m.Keys| + 1
  {
    assert m[p := v].Keys == m.Keys + {p};
  }

  lemma KeysShrink<V>(m: map<Peer, V>, p: Peer)
    requires p in m
    ensures |m.Keys| == |(m - {p}).Keys| + 1
  {
    assert m.Keys == (m - {p}).Keys + {p};
  }

  lemma MessageTaken(ms: multiset<Msg>, m: Msg)
    requires m in ms
    ensures |ms| == |ms - multiset{m}| + 1
  {
    assert ms == (ms - multiset{m}) + multiset{m};
  }

  lemma UnseenShrinks(u: Setup, c: Cluster, c': Cluster, p: Peer)
    requires p in u.peers && p !in c.seen && c'.seen == c.seen + {p}
    ensures |Unseen(u, c)| == |Unseen(u, c')| + 1
  {
    assert Unseen(u, c) == Unseen(u, c') + {p};
  }

  lemma DeliverDecreases(u: Setup, c: Cluster, m: Msg)
    requires Sane(u, c) && m in c.inFlight
    ensures Measure(u, Apply(u, c, Deliver(m))) < Measure(u, c)
  {
    hide Weight, CascadesCounted, Unseen;
    MessageTaken(c.inFlight, m);
    if m.to !in c.seen {
      FreshDecreases(u, c, m);
    } else {
      var c' := Apply(u, c, Deliver(m));
      assert Unseen(u, c') == Unseen(u, c) by { SameUnseen(u, c, c'); }
      WeightDrops(|u.peers|, |Unseen(u, c)|, |c.handling.Keys|, |c.jobs.Keys|, |c'.inFlight|);
    }
  }

  lemma SameUnseen(u: Setup, c: Cluster, c': Cluster)
    requires c'.seen == c.seen
    ensures Unseen(u, c') == Unseen(u, c)
  {
  }

  lemma FreshDecreases(u: Setup, c: Cluster, m: Msg)
    requires m.to in u.peers && m.to !in c.handling && m in c.inFlight && m.to !in c.seen
    requires |c.inFlight| == |c.inFlight - multiset{m}| + 1
    ensures Measure(u, Apply(u, c, Deliver(m))) < Measure(u, c)
  {
    hide Weight, Unseen;
    var c' := Apply(u, c, Deliver(m));
    UnseenShrinks(u, c, c', m.to);
    KeysGrow(c.handling, m.to, Pending(m.origin, m.hop));
    WeightDrops(|u.peers|, |Unseen(u, c')|, |c.handling.Keys|, |c.jobs.Keys|, |c'.inFlight|);
  }

  lemma CallbackShape(u: Setup, c: Cluster, s: Step)
    requires s.Callback? && Enabled(u, c, s)
    ensures s.p in c.handling
    ensures var c' := Apply(u, c, s);
      && c'.seen == c.seen && c'.inFlight == c.inFlight && c'.handling == c.handling - {s.p}
      && (c'.jobs == c.jobs || c'.jobs == c.jobs[s.p := Pending(c.handling[s.p].origin, c.handling[s.p].hop + 1)])
  {
    hide Decide;
  }

  lemma CallbackCounts(u: Setup, c: Cluster, s: Step)
    requires s.Callback? && Enabled(u, c, s) && s.p !in c.jobs
    ensures var c' := Apply(u, c, s);
      && |c.handling.Keys| == |c'.handling.Keys| + 1 && c'.inFlight == c.inFlight && c'.seen == c.seen
      && (|c'.jobs.Keys| == |c.jobs.Keys| || |c'.jobs.Keys| == |c.jobs.Keys| + 1)
  {
    hide Apply, Enabled;
    CallbackShape(u, c, s);
    KeysShrink(c.handling, s.p);
    KeysGrow(c.jobs, s.p, Pending(c.handling[s.p].origin, c.handling[s.p].hop + 1));
  }

  lemma CallbackDecreases(u: Setup, c: Cluster, s: Step)
    requires s.Callback? && Enabled(u, c, s) && s.p !in c.jobs
    ensures Measure(u, Apply(u, c, s)) < Measure(u, c)
  {
    hide Weight, Unseen, Apply, Enabled;
    var c' := Apply(u, c, s);
    CallbackCounts(u, c, s);
    SameUnseen(u, c, c');
    WeightDrops(|u.peers|, |Unseen(u, c)|, |c'.handling.Keys|, |c.jobs.Keys|, |c.inFlight|);
  }

  lemma DispatchDecreases(u: Setup, c: Cluster, s: Step)
    requires s.Dispatch? && Enabled(u, c, s)
    ensures Measure(u, Apply(u, c, s)) < Measure(u, c)
  {
    hide Weight, Fan, Unseen;
    var c' := Apply(u, c, s);
    var fan := Fan(s.p, c.jobs[s.p].hop, s.targets);
    SameUnseen(u, c, c');
    KeysShrink(c.jobs, s.p);
    FanSize(s.p, c.jobs[s.p].hop, s.targets);
    SubsetSize(s.targets, u.peers);
    MessagesAdded(c.inFlight, fan);
    CascadeWeightDrops(|u.peers|, |Unseen(u, c)|, |c.handling.Keys|, |c'.jobs.Keys|, |c.inFlight|, |s.targets|);
  }

  lemma MessagesAdded(a: multiset<Msg>, b: multiset<Msg>)
    ensures |a + b| == |a| + |b|
  {
  }

  /** Every step, whatever it is, uses work up. */
  lemma StepDecreases(u: Setup, c: Cluster, s: Step)
    requires Sane(u, c) && Enabled(u, c, s)
    ensures Measure(u, Apply(u, c, s)) < Measure(u, c)
  {
    assert s.Callback? ==> s.p !in c.jobs;
    hide Sane;
    match s
    case Deliver(m) => DeliverDecreases(u, c, m);
    case Lose(m) => MessageTaken(c.inFlight, m);
    case Callback(_, _, _, _) => CallbackDecreases(u, c, s);
    case Dispatch(_, _) => DispatchDecreases(u, c, s);
  }

  /** The flood ends: no run is longer than the work the start held. */
  lemma {:induction false} FloodEnds(u: Setup, c: Cluster, steps: seq<Step>, c': Cluster)
    requires Sane(u, c) && Sound(c) && Run(u, c, steps, c')
    ensures |steps| + Measure(u, c') <= Measure(u, c)
    decreases |steps|
  {
    hide Sane, Sound, Apply, Enabled, Measure;
    if steps != [] {
      StepKeepsSane(u, c, steps[0]);
      StepKeepsSound(u, c, steps[0]);
      StepDecreases(u, c, steps[0]);
      FloodEnds(u, Apply(u, c, steps[0]), steps[1..], c');
    }
  }
}
