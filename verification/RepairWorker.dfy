/** `ReplicationRepairWorker.on_peer_removed`: which outpaths are pushed again when a peer dies, and
    when a toolchain is reported lost (`peer_replication.py`). */
module RepairWorker {
  import opened Cluster
  import opened PushStep
  import opened Sequences
  import RS = ReplicationSender

  /** We hold the path, the dead peer did too, and without it the path is below K. */
  predicate NeedsRepair(snapshot: Aggregate, me: Sid, k: int, dead: Sid, o: Outpath) {
    o in snapshot && me in snapshot[o] && dead in snapshot[o] && |snapshot[o]| - 1 < k
  }

  /** `_maybe_mark_unfulfillable`: no live holder is left and the path belongs to a toolchain task. */
  predicate MarksLost(w: Answers, dead: Sid, o: Outpath) {
    HoldersIn(w.later, o) - {dead} == {} && w.taskHash != ""
  }

  /** What the injected callables return for one path: the view its push sees, its metadata, the
      placement map when the loss is checked (it may refresh at any moment), and the task hash (empty
      for none). */
  datatype Answers = Answers(env: Env, drvPath: string, itemClass: string, later: Aggregate, taskHash: string)

  /** One push step with the dead peer excluded; nothing once the sender has stopped. */
  predicate Tried(stopped: bool, env: Env, me: Sid, k: int, o: Outpath, dead: Sid, sent: set<Sid>,
      before: set<Sid>, after: set<Sid>) {
    if stopped then sent == {} && after == before else Pushed(env, me, k, o, {dead}, sent, before, after)
  }

  lemma WasTried(stopped: bool, env: Env, me: Sid, k: int, o: Outpath, dead: Sid, sent: set<Sid>,
      before: set<Sid>, after: set<Sid>)
    requires stopped ==> sent == {} && after == before
    requires !stopped ==> Pushed(env, me, k, o, {dead}, sent, before, after)
    ensures Tried(stopped, env, me, k, o, dead, sent, before, after)
  {
    hide Pushed;
  }

  /** "Minus one" counts the live holders, because the dead peer is one of the listed. */
  lemma WithoutDead(snapshot: Aggregate, me: Sid, k: int, dead: Sid)
    ensures forall o :: NeedsRepair(snapshot, me, k, dead, o) <==>
      o in snapshot && {me, dead} <= snapshot[o] && |snapshot[o] - {dead}| < k
  {
    forall o | o in snapshot && dead in snapshot[o] ensures |snapshot[o] - {dead}| == |snapshot[o]| - 1 {
      assert snapshot[o] == (snapshot[o] - {dead}) + {dead};
    }
  }

  /** What the push step of a repair may do: the dead peer is neither counted as a holder nor offered the
      path, and as many others are as are missing to K, or all that could take it. */
  lemma RepairOffers(env: Env, me: Sid, k: int, o: Outpath, dead: Sid, sent: set<Sid>, before: set<Sid>,
      after: set<Sid>)
    requires Tried(false, env, me, k, o, dead, sent, before, after)
    ensures forall p :: p in sent ==> p in env.peers && p != me && p != dead && p !in HoldersIn(env.placements, o) && p !in before
    ensures var missing := k - |HoldersIn(env.placements, o) - {dead}| - |before|;
      && |sent| <= (if missing < 0 then 0 else missing)
      && ((exists p :: p in env.peers && p != me && p != dead && p !in HoldersIn(env.placements, o) && p !in before
             && p !in sent)
          ==> |sent| == if missing < 0 then 0 else missing)
    ensures forall p :: p in after <==> p in before || (p in sent && p in env.reachable)
  {
    hide Pushed;
    OffersWhatIsMissing(env, me, k, o, {dead}, sent, before, after);
  }

  class Worker {
    const sender: RS.Sender
    const markBound: bool

    constructor (sender: RS.Sender, markBound: bool)
      ensures this.sender == sender && this.markBound == markBound
    {
      this.sender, this.markBound := sender, markBound;
    }

    /** Every affected outpath gets exactly one push step, with the dead peer neither counted as a
        holder nor chosen; nothing else is touched. `order` lists the snapshot's keys. */
    method OnPeerRemoved(dead: Sid, snapshot: Aggregate, order: seq<Outpath>, w: map<Outpath, Answers>)
      returns (repaired: seq<Outpath>, lost: set<Outpath>, ghost sent: seq<set<Sid>>)
      requires sender.Valid()
      requires Distinct(order) && forall o :: o in order <==> o in snapshot
      requires forall o :: o in snapshot ==> o in w && Distinct(w[o].env.peers)
      modifies sender
      ensures sender.Valid() && sender.stopped == old(sender.stopped)
      ensures Distinct(repaired)
      ensures forall o :: o in repaired <==> dead != "" && NeedsRepair(snapshot, sender.me, sender.k, dead, o)
      ensures forall o :: o in repaired <==>
        dead != "" && o in snapshot && {sender.me, dead} <= snapshot[o] && |snapshot[o] - {dead}| < sender.k
      ensures |sent| == |repaired| && forall i :: 0 <= i < |repaired| ==> var o := repaired[i];
        o in w && Tried(sender.stopped, w[o].env, sender.me, sender.k, o, dead, sent[i], old(sender.Targets(o)), sender.Targets(o))
      ensures forall o :: o !in repaired ==> sender.Targets(o) == old(sender.Targets(o))
      ensures forall o :: o in lost <==> markBound && o in repaired && o in w && MarksLost(w[o], dead, o)
      ensures forall o :: o in lost <==>
        markBound && o in repaired && o in w && w[o].taskHash != "" && HoldersIn(w[o].later, o) <= {dead}
    {
      WithoutDead(snapshot, sender.me, sender.k, dead);
      repaired := [];
      if dead == "" {
        lost, sent := {}, [];
        return;
      }
      for n := 0 to |order|
        invariant Distinct(repaired)
        invariant forall o :: o in repaired <==> o in order[..n] && NeedsRepair(snapshot, sender.me, sender.k, dead, o)
      {
        var o := order[n];
        assert o !in order[..n];
        if sender.me !in snapshot[o] || dead !in snapshot[o] || |snapshot[o]| - 1 >= sender.k {
          continue;
        }
        repaired := repaired + [o];
      }
      assert order[..|order|] == order;
      lost, sent := RepairForOutpaths(repaired, dead, w);
    }

    /** `_repair_for_outpaths`. */
    method RepairForOutpaths(outpaths: seq<Outpath>, dead: Sid, w: map<Outpath, Answers>)
      returns (lost: set<Outpath>, ghost sent: seq<set<Sid>>)
      requires sender.Valid() && Distinct(outpaths)
      requires forall o :: o in outpaths ==> o in w && Distinct(w[o].env.peers)
      modifies sender
      ensures sender.Valid() && sender.stopped == old(sender.stopped)
      ensures |sent| == |outpaths| && forall i :: 0 <= i < |outpaths| ==> var o := outpaths[i];
        Tried(sender.stopped, w[o].env, sender.me, sender.k, o, dead, sent[i], old(sender.Targets(o)), sender.Targets(o))
      ensures forall o :: o !in outpaths ==> sender.Targets(o) == old(sender.Targets(o))
      ensures forall o :: o in lost <==> markBound && o in outpaths && o in w && MarksLost(w[o], dead, o)
    {
      hide Tried, RS.Sender.Valid, RS.Sender.Targets, MarksLost, RS.SameElsewhere, RS.Logged;
      lost, sent := {}, [];
      for n := 0 to |outpaths|
        invariant sender.Valid() && sender.stopped == old(sender.stopped) && |sent| == n
        invariant forall i :: 0 <= i < n ==> var o := outpaths[i];
          Tried(sender.stopped, w[o].env, sender.me, sender.k, o, dead, sent[i], old(sender.Targets(o)), sender.Targets(o))
        invariant forall o :: o !in outpaths[..n] ==> sender.Targets(o) == old(sender.Targets(o))
        invariant forall o :: o in lost <==> markBound && o in outpaths[..n] && o in w && MarksLost(w[o], dead, o)
      {
        var o := outpaths[n];
        assert o !in outpaths[..n];
        assert outpaths[..n + 1] == outpaths[..n] + [o];
        var isLost: bool;
        ghost var now: set<Sid>;
        isLost, now := RepairOne(o, dead, w[o]);
        sent := sent + [now];
        if isLost {
          lost := lost + {o};
        }
      }
      assert outpaths[..|outpaths|] == outpaths;
    }

    /** One outpath: push, then report it if nobody alive holds it. */
    method RepairOne(o: Outpath, dead: Sid, a: Answers) returns (lost: bool, ghost sent: set<Sid>)
      requires sender.Valid() && Distinct(a.env.peers)
      modifies sender
      ensures sender.Valid() && sender.stopped == old(sender.stopped)
      ensures Tried(sender.stopped, a.env, sender.me, sender.k, o, dead, sent, old(sender.Targets(o)), sender.Targets(o))
      ensures forall p :: p != o ==> sender.Targets(p) == old(sender.Targets(p))
      ensures lost <==> markBound && MarksLost(a, dead, o)
    {
      hide Tried, Pushed, RS.Sender.Valid, RS.Sender.Targets, MarksLost, RS.SameElsewhere, RS.Logged;
      var issued: nat;
      ghost var before := sender.Targets(o);
      issued, sent := sender.PushAttempt(o, a.drvPath, a.itemClass, {dead}, a.env);
      WasTried(sender.stopped, a.env, sender.me, sender.k, o, dead, sent, before, sender.Targets(o));
      lost := markBound && MarksLost(a, dead, o);
    }
  }

  /** While we are still listed as a holder when the loss is checked, no path is reported lost: only
      paths we hold ourselves are looked at, and we are not the peer that died. */
  lemma LostNeedsARefresh(snapshot: Aggregate, w: Answers, me: Sid, k: int, dead: Sid, o: Outpath)
    requires NeedsRepair(snapshot, me, k, dead, o) && dead != me && MarksLost(w, dead, o)
    ensures me !in HoldersIn(w.later, o) && HoldersIn(w.later, o) != snapshot[o]
  {
    assert me in snapshot[o];
    assert me !in HoldersIn(w.later, o) - {dead};
  }
}
