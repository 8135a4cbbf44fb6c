/** Which floods reach everybody, when nothing is lost or fails (`peer_replication.py`). */
module BroadcastCoverage {
  import opened Broadcast
  import opened BroadcastFlood
  import opened Sequences

  /** Nothing is lost or fails, nobody stops, and every fan-out knows every peer. */
  predicate Flawless(u: Setup, c: Cluster, s: Step)
    requires Enabled(u, c, s)
  {
    match s
    case Deliver(_) => true
    case Lose(_) => false
    case Callback(_, stopped, a, stopsMeanwhile) => !stopped && !stopsMeanwhile && (a.probe || (a.known && a.fetched))
    case Dispatch(p, targets) => targets == u.peers - {p, c.jobs[p].origin}
  }

  predicate FlawlessRun(u: Setup, c: Cluster, steps: seq<Step>, c': Cluster)
    decreases |steps|
  {
    if steps == [] then c == c'
    else Enabled(u, c, steps[0]) && Flawless(u, c, steps[0]) && FlawlessRun(u, Apply(u, c, steps[0]), steps[1..], c')
  }

  predicate Quiet(c: Cluster) {
    c.inFlight == multiset{} && c.handling == map[] && c.jobs == map[]
  }

  predicate HasMail(c: Cluster, p: Peer) {
    exists m :: m in c.inFlight && m.to == p
  }

  /** Whoever saw the offer has recorded the path it holds, even when it held it before, or is about to. */
  ghost predicate Kept(holders: set<Peer>, c: Cluster) {
    && holders <= c.holds
    && (forall p :: p in c.seen ==> p in c.handling || (p in c.holds && p in c.recorded))
    && (forall p :: p in c.holds ==> p in holders || p in c.recorded)
  }

  /** Every peer holds the path, is fetching it, or has the offer on its way. */
  ghost predicate OnTrack(u: Setup, c: Cluster) {
    forall p :: p in u.peers && p !in c.holds ==> p in c.handling || (p !in c.seen && HasMail(c, p))
  }

  /** No cascade has been sent yet: all traffic is the originator's, and some peer that did not hold
      the path is on the way to the first cascade. */
  ghost predicate Early(origin: Peer, holders: set<Peer>, c: Cluster) {
    EarlyPeers(holders, c) && EarlyTraffic(origin, c) && UnderWay(holders, c)
  }

  ghost predicate EarlyPeers(holders: set<Peer>, c: Cluster) {
    && (forall p :: p in c.holds ==> p in holders || p in c.jobs)
    && (forall p :: p in c.seen && p !in holders ==> p in c.handling || p in c.jobs)
  }

  ghost predicate EarlyTraffic(origin: Peer, c: Cluster) {
    && (forall m :: m in c.inFlight ==> m.origin == origin && m.hop == 0)
    && (forall p :: p in c.handling ==> c.handling[p] == Pending(origin, 0))
    && (forall p :: p in c.jobs ==> c.jobs[p].origin == origin)
  }

  ghost predicate UnderWay(holders: set<Peer>, c: Cluster) {
    exists p :: p !in holders && Busy(c, p)
  }

  predicate Busy(c: Cluster, p: Peer) {
    HasMail(c, p) || p in c.handling || p in c.jobs
  }

  lemma StepKeepsKept(u: Setup, holders: set<Peer>, c: Cluster, s: Step)
    requires Kept(holders, c) && Enabled(u, c, s) && Flawless(u, c, s) && u.path != ""
    ensures Kept(holders, Apply(u, c, s))
  {
    hide Fan;
  }

  lemma StepKeepsOnTrack(u: Setup, holders: set<Peer>, c: Cluster, s: Step)
    requires Kept(holders, c) && OnTrack(u, c) && Enabled(u, c, s) && Flawless(u, c, s) && u.path != ""
    ensures OnTrack(u, Apply(u, c, s))
  {
    hide Fan;
    var c' := Apply(u, c, s);
    forall p | p in u.peers && p !in c'.holds ensures p in c'.handling || (p !in c'.seen && HasMail(c', p)) {
      if p !in c.handling && !(s.Deliver? && s.m.to == p) {
        MailStays(u, c, s, p);
      }
    }
  }

  lemma MailStays(u: Setup, c: Cluster, s: Step, p: Peer)
    requires Enabled(u, c, s) && HasMail(c, p) && !s.Lose? && !(s.Deliver? && s.m.to == p)
    ensures HasMail(Apply(u, c, s), p)
  {
    hide Fan, Decide;
    var m :| m in c.inFlight && m.to == p;
    assert m in Apply(u, c, s).inFlight;
  }

  lemma DispatchGetsOnTrack(u: Setup, origin: Peer, holders: set<Peer>, c: Cluster, s: Step)
    requires origin in holders && Kept(holders, c) && Sound(c) && Early(origin, holders, c) && s.Dispatch? && Enabled(u, c, s) && Flawless(u, c, s)
    ensures OnTrack(u, Apply(u, c, s))
  {
    var c' := Apply(u, c, s);
    FanMembers(s.p, c.jobs[s.p].hop, s.targets);
    forall p | p in u.peers && p !in c'.holds ensures p in c'.handling || (p !in c'.seen && HasMail(c', p)) {
      assert p in s.targets;
      assert Msg(p, s.p, c.jobs[s.p].hop) in c'.inFlight;
    }
  }

  lemma StepKeepsEarlyTraffic(u: Setup, origin: Peer, c: Cluster, s: Step)
    requires EarlyTraffic(origin, c) && Enabled(u, c, s) && !s.Dispatch?
    ensures EarlyTraffic(origin, Apply(u, c, s))
  {
    hide Fan, Decide;
  }

  lemma StepKeepsEarlyPeers(u: Setup, origin: Peer, holders: set<Peer>, c: Cluster, s: Step)
    requires PhasesOrdered(u, c) && EarlyTraffic(origin, c) && EarlyPeers(holders, c) && holders <= c.holds && u.maxHop >= 1 && u.path != ""
    requires Enabled(u, c, s) && Flawless(u, c, s) && !s.Dispatch?
    ensures EarlyPeers(holders, Apply(u, c, s))
  {
    hide Fan;
  }

  lemma StepKeepsEarly(u: Setup, origin: Peer, holders: set<Peer>, c: Cluster, s: Step)
    requires PhasesOrdered(u, c) && Early(origin, holders, c) && holders <= c.holds && u.maxHop >= 1 && u.path != ""
    requires Enabled(u, c, s) && Flawless(u, c, s) && !s.Dispatch?
    ensures Early(origin, holders, Apply(u, c, s))
  {
    hide Fan;
    var c' := Apply(u, c, s);
    StepKeepsEarlyTraffic(u, origin, c, s);
    StepKeepsEarlyPeers(u, origin, holders, c, s);
    var p :| p !in holders && Busy(c, p);
    assert Busy(c', p) by { StepKeepsBusy(u, origin, holders, c, s, p); }
  }

  lemma StepKeepsBusy(u: Setup, origin: Peer, holders: set<Peer>, c: Cluster, s: Step, p: Peer)
    requires PhasesOrdered(u, c) && EarlyPeers(holders, c) && EarlyTraffic(origin, c) && u.maxHop >= 1 && u.path != ""
    requires Enabled(u, c, s) && Flawless(u, c, s) && !s.Dispatch? && p !in holders && Busy(c, p)
    ensures Busy(Apply(u, c, s), p)
  {
    hide Fan;
    if HasMail(c, p) && !(s.Deliver? && s.m.to == p) { MailStays(u, c, s, p); }
  }

  lemma {:induction false} RunCovers(u: Setup, origin: Peer, holders: set<Peer>, c: Cluster, steps: seq<Step>,
      c': Cluster)
    requires origin in holders && Sane(u, c) && Sound(c) && Kept(holders, c)
    requires OnTrack(u, c) || (Early(origin, holders, c) && u.maxHop >= 1)
    requires u.path != "" && FlawlessRun(u, c, steps, c')
    ensures Kept(holders, c') && (OnTrack(u, c') || Early(origin, holders, c'))
    decreases |steps|
  {
    hide HopsCapped, CascadesCounted, PhasesOrdered, Sound, Apply, Enabled, OnTrack, Early;
    if steps != [] {
      var s := steps[0];
      StepKeepsSane(u, c, s);
      StepKeepsSound(u, c, s);
      StepKeepsKept(u, holders, c, s);
      if OnTrack(u, c) {
        StepKeepsOnTrack(u, holders, c, s);
      } else if s.Dispatch? {
        DispatchGetsOnTrack(u, origin, holders, c, s);
      } else {
        StepKeepsEarly(u, origin, holders, c, s);
      }
      RunCovers(u, origin, holders, Apply(u, c, s), steps[1..], c');
    }
  }

  lemma StartIsKept(origin: Peer, seeds: set<Peer>, holders: set<Peer>)
    ensures Kept(holders, Start(origin, seeds, holders))
  {
  }

  lemma SeededHasMail(origin: Peer, seeds: set<Peer>, holders: set<Peer>, p: Peer)
    requires p in seeds
    ensures HasMail(Start(origin, seeds, holders), p)
  {
    hide Fan;
    FanMembers(origin, 0, seeds);
    assert Msg(p, origin, 0) in Start(origin, seeds, holders).inFlight;
  }

  lemma StartIsEarly(origin: Peer, seeds: set<Peer>, holders: set<Peer>, seed: Peer)
    requires seed in seeds && seed !in holders
    ensures Early(origin, holders, Start(origin, seeds, holders))
  {
    hide Fan;
    var c := Start(origin, seeds, holders);
    FanMembers(origin, 0, seeds);
    SeededHasMail(origin, seeds, holders, seed);
    assert Busy(c, seed);
  }

  lemma StartIsOnTrack(u: Setup, origin: Peer, seeds: set<Peer>, holders: set<Peer>)
    requires u.peers <= holders + seeds
    ensures OnTrack(u, Start(origin, seeds, holders))
  {
    hide HasMail;
    forall p | p in u.peers && p !in holders ensures HasMail(Start(origin, seeds, holders), p) {
      SeededHasMail(origin, seeds, holders, p);
    }
  }

  lemma QuietIsCovered(u: Setup, origin: Peer, holders: set<Peer>, c: Cluster)
    requires Quiet(c) && Kept(holders, c) && (OnTrack(u, c) || Early(origin, holders, c))
    ensures u.peers <= c.holds && forall p :: p in u.peers && p !in holders ==> p in c.recorded
  {
    hide EarlyPeers, EarlyTraffic;
    assert forall p :: !Busy(c, p);
  }

  /** What a caller can check before a broadcast: everybody has the path; or a cascade is allowed and
      some seeded peer lacks it; or the seeds make up for all that lack it. */
  predicate Reaches(u: Setup, seeds: set<Peer>, holders: set<Peer>) {
    || u.peers <= holders
    || (u.path != "" && (u.peers <= holders + seeds || (u.maxHop >= 1 && exists p :: p in seeds && p !in holders)))
  }

  /** One seeded peer without the path is enough, whoever else has it already: when a flawless flood has
      come to rest every peer holds the path, and every peer that lacked it has recorded it. */
  lemma OneSeedCovers(u: Setup, origin: Peer, seeds: set<Peer>, holders: set<Peer>, steps: seq<Step>, c: Cluster)
    requires seeds <= u.peers && origin in holders && Reaches(u, seeds, holders)
    requires FlawlessRun(u, Start(origin, seeds, holders), steps, c) && Quiet(c)
    ensures u.peers <= c.holds && forall p :: p in u.peers && p !in holders ==> p in c.recorded
  {
    hide Start, Sane, Sound, Kept, OnTrack, Early, FlawlessRun, Quiet;
    var c0 := Start(origin, seeds, holders);
    StartIsSane(u, origin, seeds, holders);
    StartIsKept(origin, seeds, holders);
    if u.peers <= holders {
      HoldersStay(u, c0, steps, c);
      assert holders <= c.holds by { StartHolds(origin, seeds, holders); }
    } else {
      if u.peers <= holders + seeds {
        StartIsOnTrack(u, origin, seeds, holders);
      } else {
        var seed :| seed in seeds && seed !in holders;
        StartIsEarly(origin, seeds, holders, seed);
      }
      RunCovers(u, origin, holders, c0, steps, c);
      QuietIsCovered(u, origin, holders, c);
    }
  }

  lemma {:induction false} RunKeepsKept(u: Setup, holders: set<Peer>, c: Cluster, steps: seq<Step>, c': Cluster)
    requires Kept(holders, c) && u.path != "" && FlawlessRun(u, c, steps, c')
    ensures Kept(holders, c')
    decreases |steps|
  {
    hide Kept, Apply, Enabled, Flawless;
    if steps != [] {
      StepKeepsKept(u, holders, c, steps[0]);
      RunKeepsKept(u, holders, Apply(u, c, steps[0]), steps[1..], c');
    }
  }

  /** Every peer that saw an offer of a path has recorded itself as a holder of it when a flawless flood
      has come to rest, also one that had the path all along. */
  lemma WhoSawRecorded(u: Setup, origin: Peer, seeds: set<Peer>, holders: set<Peer>, steps: seq<Step>, c: Cluster)
    requires u.path != "" && FlawlessRun(u, Start(origin, seeds, holders), steps, c) && Quiet(c)
    ensures c.seen <= c.recorded
  {
    hide Start, FlawlessRun;
    StartIsKept(origin, seeds, holders);
    RunKeepsKept(u, holders, Start(origin, seeds, holders), steps, c);
  }

  lemma StartHolds(origin: Peer, seeds: set<Peer>, holders: set<Peer>)
    ensures Start(origin, seeds, holders).holds == holders
  {
  }

  lemma {:induction false} HoldersStay(u: Setup, c: Cluster, steps: seq<Step>, c': Cluster)
    requires FlawlessRun(u, c, steps, c')
    ensures c.holds <= c'.holds
    decreases |steps|
  {
    if steps != [] {
      HoldersStay(u, Apply(u, c, steps[0]), steps[1..], c');
    }
  }

  // ---------------------------------------------------------------------- floods that come to rest

  /** Every local probe tells the truth. */
  predicate Truthful(c: Cluster, s: Step) {
    s.Callback? ==> s.answers.probe == (s.p in c.holds)
  }

  predicate TruthfulRun(u: Setup, c: Cluster, steps: seq<Step>, c': Cluster)
    decreases |steps|
  {
    if steps == [] then c == c'
    else
      && Enabled(u, c, steps[0]) && Flawless(u, c, steps[0]) && Truthful(c, steps[0])
      && TruthfulRun(u, Apply(u, c, steps[0]), steps[1..], c')
  }

  lemma {:induction false} TruthfulIsFlawless(u: Setup, c: Cluster, steps: seq<Step>, c': Cluster)
    requires TruthfulRun(u, c, steps, c')
    ensures FlawlessRun(u, c, steps, c')
    decreases |steps|
  {
    hide Apply, Enabled, Flawless, Truthful;
    if steps != [] {
      TruthfulIsFlawless(u, Apply(u, c, steps[0]), steps[1..], c');
    }
  }

  lemma NextStep(u: Setup, c: Cluster) returns (s: Step)
    requires Sane(u, c) && Sound(c) && !Quiet(c)
    ensures Enabled(u, c, s) && Flawless(u, c, s) && Truthful(c, s)
  {
    if c.inFlight != multiset{} {
      var m :| m in c.inFlight;
      s := Deliver(m);
    } else if c.handling != map[] {
      var p :| p in c.handling;
      s := Callback(p, false, Answers(p in c.holds, true, true), false);
    } else {
      var p :| p in c.jobs;
      s := Dispatch(p, u.peers - {p, c.jobs[p].origin});
    }
  }

  /** A flawless flood can always go on until it rests. */
  lemma {:induction false} ComesToRest(u: Setup, c: Cluster) returns (steps: seq<Step>, c': Cluster)
    requires Sane(u, c) && Sound(c)
    ensures TruthfulRun(u, c, steps, c') && Quiet(c')
    decreases Measure(u, c)
  {
    hide Sane, Sound, Apply, Enabled, Flawless, Truthful, Quiet, Measure;
    if Quiet(c) {
      steps, c' := [], c;
    } else {
      var s := NextStep(u, c);
      StepKeepsSane(u, c, s);
      StepKeepsSound(u, c, s);
      StepDecreases(u, c, s);
      var rest;
      rest, c' := ComesToRest(u, Apply(u, c, s));
      steps := [s] + rest;
      assert steps[1..] == rest;
    }
  }

  /** Nobody forwards: the path is empty, the cap forbids it, or every seed has the path already. */
  predicate Stalls(u: Setup, seeds: set<Peer>, holders: set<Peer>) {
    u.path == "" || u.maxHop == 0 || seeds <= holders
  }

  function MayGain(u: Setup, seeds: set<Peer>, holders: set<Peer>): set<Peer> {
    if u.path == "" then holders else holders + seeds
  }

  ghost predicate Stalled(u: Setup, seeds: set<Peer>, holders: set<Peer>, c: Cluster) {
    && (forall m :: m in c.inFlight ==> m.to in seeds && m.hop == 0)
    && (forall p :: p in c.handling ==> p in seeds && c.handling[p].hop == 0)
    && c.jobs == map[]
    && holders <= c.holds <= MayGain(u, seeds, holders)
  }

  lemma StartIsStalled(u: Setup, origin: Peer, seeds: set<Peer>, holders: set<Peer>)
    ensures Stalled(u, seeds, holders, Start(origin, seeds, holders))
  {
    FanMembers(origin, 0, seeds);
  }

  lemma StepKeepsStalled(u: Setup, seeds: set<Peer>, holders: set<Peer>, c: Cluster, s: Step)
    requires Stalls(u, seeds, holders) && Stalled(u, seeds, holders, c)
    requires Enabled(u, c, s) && Flawless(u, c, s) && Truthful(c, s)
    ensures Stalled(u, seeds, holders, Apply(u, c, s))
  {
    hide Fan;
  }

  lemma {:induction false} RunKeepsStalled(u: Setup, seeds: set<Peer>, holders: set<Peer>, c: Cluster,
      steps: seq<Step>, c': Cluster)
    requires Stalls(u, seeds, holders) && Stalled(u, seeds, holders, c) && TruthfulRun(u, c, steps, c')
    ensures Stalled(u, seeds, holders, c')
    decreases |steps|
  {
    hide Stalled, Apply, Enabled, Flawless, Truthful;
    if steps != [] {
      StepKeepsStalled(u, seeds, holders, c, steps[0]);
      RunKeepsStalled(u, seeds, holders, Apply(u, c, steps[0]), steps[1..], c');
    }
  }

  /** A peer that has the path records it and forwards nothing. So if all seeds have it, a flawless flood
      comes to rest without any new holder; and without cascades at most the seeds get the path. */
  lemma HolderDoesNotForward(u: Setup, origin: Peer, seeds: set<Peer>, holders: set<Peer>)
      returns (steps: seq<Step>, c: Cluster)
    requires seeds <= u.peers && origin in holders && Stalls(u, seeds, holders)
    ensures TruthfulRun(u, Start(origin, seeds, holders), steps, c) && Quiet(c)
    ensures holders <= c.holds <= MayGain(u, seeds, holders)
    ensures seeds <= holders ==> c.holds == holders
  {
    hide Start, Quiet, TruthfulRun;
    StartIsSane(u, origin, seeds, holders);
    StartIsStalled(u, origin, seeds, holders);
    steps, c := ComesToRest(u, Start(origin, seeds, holders));
    RunKeepsStalled(u, seeds, holders, Start(origin, seeds, holders), steps, c);
  }

  /** Every flawless flood that has come to rest has reached every peer. */
  ghost predicate AlwaysCovers(u: Setup, origin: Peer, seeds: set<Peer>, holders: set<Peer>) {
    forall steps: seq<Step>, c: Cluster ::
      FlawlessRun(u, Start(origin, seeds, holders), steps, c) && Quiet(c) ==> u.peers <= c.holds
  }

  /** The exact condition for coverage, whoever holds the path at first, whatever the hop cap and the
      path: it is `Reaches`. */
  lemma CoversIffReaches(u: Setup, origin: Peer, seeds: set<Peer>, holders: set<Peer>)
    requires seeds <= u.peers && origin in holders
    ensures AlwaysCovers(u, origin, seeds, holders) <==> Reaches(u, seeds, holders)
  {
    hide Start, Quiet, FlawlessRun;
    if Reaches(u, seeds, holders) {
      forall steps: seq<Step>, c: Cluster | FlawlessRun(u, Start(origin, seeds, holders), steps, c) && Quiet(c)
        ensures u.peers <= c.holds
      {
        OneSeedCovers(u, origin, seeds, holders, steps, c);
      }
    } else {
      var steps, c := HolderDoesNotForward(u, origin, seeds, holders);
      TruthfulIsFlawless(u, Start(origin, seeds, holders), steps, c);
      assert !(u.peers <= MayGain(u, seeds, holders));
    }
  }
}
