/** What one push step of the replication sender may do, and the settle flag of one outpath: the
    vocabulary `ReplicationSender` is specified in (`peer_replication.py`). */
module PushStep {
  import opened Cluster
  import opened Sequences

  /** What the sender sees at one moment: the placement snapshot, the peers (ids distinct), and which
      peers' transports accept a message now. */
  datatype Env = Env(placements: Aggregate, peers: seq<Sid>, reachable: set<Sid>)

  function Candidates(env: Env, me: Sid, o: Outpath, excludes: set<Sid>, inFlight: set<Sid>): set<Sid> {
    set p | p in env.peers && p != me && p !in HoldersIn(env.placements, o) - excludes && p !in inFlight && p !in excludes
  }

  function Clamp(needed: int, available: nat): nat {
    if needed <= 0 then 0 else if needed <= available then needed else available
  }

  /** How many offers a push step sends. */
  function Quota(env: Env, me: Sid, k: int, o: Outpath, excludes: set<Sid>, inFlight: set<Sid>): nat {
    Clamp(k - |HoldersIn(env.placements, o) - excludes| - |inFlight|, |Candidates(env, me, o, excludes, inFlight)|)
  }

  /** One push step sends offers to `sent` and turns the in-flight set from `before` into `after`. */
  predicate Pushed(env: Env, me: Sid, k: int, o: Outpath, excludes: set<Sid>, sent: set<Sid>, before: set<Sid>,
      after: set<Sid>) {
    && sent <= Candidates(env, me, o, excludes, before)
    && |sent| == Quota(env, me, k, o, excludes, before)
    && after == before + sent * env.reachable
  }

  /** A step that issues an offer never over-commits, and never bothers the sender itself, a holder,
      an excluded peer, or one that already has an offer; with all transports up it issues exactly as
      many offers as are needed or possible. */
  lemma PushedNeverOvercommits(env: Env, me: Sid, k: int, o: Outpath, excludes: set<Sid>, sent: set<Sid>,
      before: set<Sid>, after: set<Sid>)
    requires Pushed(env, me, k, o, excludes, sent, before, after)
    ensures after != before ==> |HoldersIn(env.placements, o) - excludes| + |after| <= k
    ensures forall t :: t in after - before ==> t in env.peers && t != me && t !in HoldersIn(env.placements, o) && t !in excludes
    ensures |after| <= |before| || |after| <= k
    ensures (forall p :: p in env.peers ==> p in env.reachable) ==> |after| == |before| + Quota(env, me, k, o, excludes, before)
  {
    var gained := sent * env.reachable;
    assert before !! gained;
    assert |after| == |before| + |gained|;
    SubsetSize(gained, sent);
    if after != before {
      assert gained != {};
    }
    if forall p :: p in env.peers ==> p in env.reachable {
      assert gained == sent;
    }
  }

  /** How many offers a step sends: only to peers that may have one, never more than are missing, and
      fewer than are missing only if every such peer gets one. A peer whose transport fails gets an
      offer but no slot. */
  lemma OffersWhatIsMissing(env: Env, me: Sid, k: int, o: Outpath, excludes: set<Sid>, sent: set<Sid>,
      before: set<Sid>, after: set<Sid>)
    requires Pushed(env, me, k, o, excludes, sent, before, after)
    ensures forall p :: p in sent ==>
      p in env.peers && p != me && p !in HoldersIn(env.placements, o) && p !in before && p !in excludes
    ensures var missing := k - |HoldersIn(env.placements, o) - excludes| - |before|;
      && |sent| <= (if missing < 0 then 0 else missing)
      && ((exists p :: p in env.peers && p != me && p !in HoldersIn(env.placements, o) && p !in before && p !in excludes
             && p !in sent)
          ==> |sent| == if missing < 0 then 0 else missing)
    ensures forall p :: p in after <==> p in before || (p in sent && p in env.reachable)
  {
    var all := Candidates(env, me, o, excludes, before);
    if p :| p in env.peers && p != me && p !in HoldersIn(env.placements, o) && p !in before && p !in excludes && p !in sent {
      assert p in all;
      SubsetSize(sent + {p}, all);
    }
  }

  /** So with all transports up a step leaves K live holders and offers, or an offer at every peer that
      could take one. */
  lemma PushFills(env: Env, me: Sid, k: int, o: Outpath, excludes: set<Sid>, sent: set<Sid>, before: set<Sid>,
      after: set<Sid>)
    requires Pushed(env, me, k, o, excludes, sent, before, after)
    requires forall p :: p in env.peers ==> p in env.reachable
    ensures |HoldersIn(env.placements, o) - excludes| + |after| >= k
      || forall p :: p in env.peers && p != me && p !in HoldersIn(env.placements, o) && p !in excludes ==> p in after
  {
    hide Pushed;
    OffersWhatIsMissing(env, me, k, o, excludes, sent, before, after);
    assert sent !! before;
    assert after == before + sent;
    assert |after| == |before| + |sent|;
  }

  // -------------------------------------------------------------------------------- settle window

  /** One outpath's debounce: is a timer armed, and has the single publication been claimed? */
  datatype Slot = Slot(armed: bool, fired: bool)

  /** `_arm_settle_locked`. */
  function Arm(s: Slot, converged: bool, bound: bool): Slot {
    if !converged then s.(armed := false)
    else if s.fired || !bound then s
    else s.(armed := true)
  }

  /** First lock section of `_fire_settle`; the flag says whether this fire goes on. */
  function BeginFire(s: Slot, stopped: bool): (Slot, bool) {
    if stopped then (s, false)
    else if s.fired then (s.(armed := false), false)
    else (Slot(false, true), true)
  }

  /** Second lock section: give the claim back. */
  function Rollback(s: Slot): Slot {
    s.(fired := false)
  }

  datatype FireEnd = Publish | GiveBack | Quiet

  /** How a fire that went on ends: unbound hook or no task hash, quietly; too few holders, the claim
      is given back; otherwise one publication. */
  function EndOf(bound: bool, taskHash: string, holders: set<Sid>, k: int): FireEnd {
    if !bound || taskHash == "" then Quiet else if |holders| < k then GiveBack else Publish
  }
}
