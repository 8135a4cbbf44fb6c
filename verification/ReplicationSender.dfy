/** `ReplicationSender`: outgoing offer slots per outpath, and the settle-window flags
    (`peer_replication.py`). Timers and network answers arrive as calls and environments. */
module ReplicationSender {
  import opened Cluster
  import opened PushStep
  import opened Sequences

  datatype Offer = Offer(target: Sid, drvPath: string, itemClass: string)

  class Sender {
    const me: Sid
    const k: int
    /** Whether the framework's `update_preferred_secondaries` is bound. */
    const updaterBound: bool
    var inFlight: map<Outpath, map<Sid, Offer>>
    var metadata: map<Outpath, (string, string)>
    var stopped: bool
    var settleTimers: set<Outpath>
    var fired: set<Outpath>
    /** Every offer, with what it said, and every cancel pushed so far. */
    ghost var offers: multiset<(Outpath, Offer)>
    ghost var cancels: multiset<(Sid, Outpath)>

    ghost predicate Valid()
      reads `inFlight, `stopped
    {
      && (forall o :: o in inFlight ==> SlotsOk(me, k, inFlight[o]))
      && (stopped ==> inFlight == map[])
    }

    function Targets(o: Outpath): set<Sid>
      reads `inFlight
    {
      TargetsIn(inFlight, o)
    }

    function SettleSlot(o: Outpath): Slot
      reads `settleTimers, `fired
    {
      Slot(o in settleTimers, o in fired)
    }

    /** What an offer of the outpath says: the metadata of the last push attempt for it. */
    function Said(o: Outpath): (string, string)
      reads `metadata
    {
      if o in metadata then metadata[o] else ("", "")
    }

    constructor (me: Sid, k: int, updaterBound: bool)
      ensures Valid() && !stopped && inFlight == map[] && metadata == map[] && settleTimers == {} && fired == {}
      ensures this.me == me && this.k == k && this.updaterBound == updaterBound
    {
      this.me, this.k, this.updaterBound := me, k, updaterBound;
      inFlight, metadata, stopped, settleTimers, fired := map[], map[], false, {}, {};
      offers, cancels := multiset{}, multiset{};
    }

    // ------------------------------------------------------------------------------ offer slots

    /** `push_attempt`. */
    method PushAttempt(o: Outpath, drvPath: string, itemClass: string, excludes: set<Sid>, env: Env)
      returns (issued: nat, ghost sent: set<Sid>)
      requires Valid() && Distinct(env.peers)
      modifies `inFlight, `metadata, `offers
      ensures Valid()
      ensures stopped ==> issued == 0 && sent == {} && Targets(o) == old(Targets(o)) && metadata == old(metadata)
      ensures !stopped ==> Pushed(env, me, k, o, excludes, sent, old(Targets(o)), Targets(o))
      ensures !stopped ==> metadata == old(metadata)[o := (drvPath, itemClass)]
      ensures forall p :: p != o ==> Targets(p) == old(Targets(p))
      ensures issued == |Targets(o)| - |old(Targets(o))|
      ensures Offered(old(offers), offers, sent, o, drvPath, itemClass)
      ensures SameElsewhere(inFlight, old(inFlight), o)
      ensures NewSlots(inFlight, old(inFlight), o, drvPath, itemClass)
    {
      hide Offered, NewSlots, SlotsOk, SameElsewhere, Pushed, Valid;
      NothingOffered(offers, o, drvPath, itemClass);
      NoChange(inFlight, o);
      SameSlots(inFlight, o, drvPath, itemClass);
      if stopped {
        return 0, {};
      }
      metadata := metadata[o := (drvPath, itemClass)];
      issued, sent := PushAttemptLocked(o, excludes, env);
      SameTargets(inFlight, old(inFlight), o);
    }

    /** `_push_attempt_locked`. */
    method PushAttemptLocked(o: Outpath, excludes: set<Sid>, env: Env) returns (issued: nat, ghost sent: set<Sid>)
      requires Valid() && Distinct(env.peers)
      modifies `inFlight, `offers
      ensures Valid()
      ensures stopped ==> issued == 0 && sent == {} && Targets(o) == old(Targets(o))
      ensures !stopped ==> Pushed(env, me, k, o, excludes, sent, old(Targets(o)), Targets(o))
      ensures issued == |Targets(o)| - |old(Targets(o))|
      ensures Offered(old(offers), offers, sent, o, Said(o).0, Said(o).1)
      ensures SameElsewhere(inFlight, old(inFlight), o)
      ensures NewSlots(inFlight, old(inFlight), o, Said(o).0, Said(o).1)
    {
      hide Offered, NewSlots, SlotsOk, SameElsewhere, Candidates, Pushed, Elements, Distinct, Targets, Valid;
      var (drvPath, itemClass) := if o in metadata then metadata[o] else ("", "");
      NothingOffered(offers, o, drvPath, itemClass);
      NoChange(inFlight, o);
      SameSlots(inFlight, o, drvPath, itemClass);
      if stopped {
        return 0, {};
      }
      var holders := HoldersIn(env.placements, o) - excludes;
      var needed := k - |holders| - |Targets(o)|;
      if needed <= 0 {
        NothingPushed(env, me, k, o, excludes, Targets(o));
        return 0, {};
      }
      var candidates := CandidateList(env, me, o, excludes, Targets(o));
      if candidates == [] {
        NothingPushed(env, me, k, o, excludes, Targets(o));
        return 0, {};
      }
      var chosen := Sample(candidates, if needed <= |candidates| then needed else |candidates|);
      ChosenAreFree(env, me, o, excludes, Targets(o), candidates, chosen);
      issued := SendOffers(o, chosen, drvPath, itemClass, env);
      sent := Elements(chosen);
      SomePushed(env, me, k, o, excludes, sent, old(Targets(o)), Targets(o));
    }

    /** The offer loop. */
    method SendOffers(o: Outpath, chosen: seq<Sid>, drvPath: string, itemClass: string, env: Env) returns (issued: nat)
      requires Valid() && !stopped && Distinct(chosen) && |Targets(o)| + |chosen| <= k
      requires forall t :: t in chosen ==> t != me && t !in Targets(o)
      modifies `inFlight, `offers
      ensures Valid()
      ensures Targets(o) == old(Targets(o)) + Elements(chosen) * env.reachable
      ensures issued == |Targets(o)| - |old(Targets(o))|
      ensures Offered(old(offers), offers, Elements(chosen), o, drvPath, itemClass)
      ensures SameElsewhere(inFlight, old(inFlight), o)
      ensures NewSlots(inFlight, old(inFlight), o, drvPath, itemClass)
    {
      hide Offered, NewSlots, SlotsOk, SameElsewhere, Elements, Distinct, Targets, Valid;
      NothingOffered(offers, o, drvPath, itemClass);
      NoChange(inFlight, o);
      SameSlots(inFlight, o, drvPath, itemClass);
      NothingChosen();
      assert chosen[..0] == [];
      issued := 0;
      ghost var before := Targets(o);
      ghost var sent, gained: set<Sid> := {}, {};
      for n := 0 to |chosen|
        invariant Valid() && |Targets(o)| == |before| + issued <= |before| + n
        invariant sent == Elements(chosen[..n]) && gained == sent * env.reachable
        invariant Targets(o) == before + gained
        invariant SameElsewhere(inFlight, old(inFlight), o)
        invariant Offered(old(offers), offers, sent, o, drvPath, itemClass)
        invariant NewSlots(inFlight, old(inFlight), o, drvPath, itemClass)
      {
        var target := chosen[n];
        NextOf(chosen, n);
        ghost var offersBefore, slotsBefore := offers, inFlight;
        var ok := SendOffer(o, Offer(target, drvPath, itemClass), env);
        OfferedStep(old(offers), offersBefore, offers, sent, target, o, drvPath, itemClass);
        SameStep(inFlight, slotsBefore, old(inFlight), o);
        NewSlotsStep(inFlight, slotsBefore, old(inFlight), o, drvPath, itemClass);
        sent := sent + {target};
        gained := sent * env.reachable;
        if !ok {
          continue;
        }
        issued := issued + 1;
      }
      assert chosen[..|chosen|] == chosen;
    }

    /** One offer: a peer whose transport fails gets no slot. */
    method SendOffer(o: Outpath, slot: Offer, env: Env) returns (ok: bool)
      requires Valid() && !stopped && slot.target != me && slot.target !in Targets(o) && |Targets(o)| < k
      modifies `inFlight, `offers
      ensures Valid() && ok == (slot.target in env.reachable)
      ensures Targets(o) == old(Targets(o)) + (if ok then {slot.target} else {})
      ensures |Targets(o)| == |old(Targets(o))| + (if ok then 1 else 0)
      ensures Offered(old(offers), offers, {slot.target}, o, slot.drvPath, slot.itemClass)
      ensures SameElsewhere(inFlight, old(inFlight), o)
      ensures NewSlots(inFlight, old(inFlight), o, slot.drvPath, slot.itemClass)
    {
      hide Offered, NewSlots, SlotsOk, SameElsewhere;
      NoChange(inFlight, o);
      SameSlots(inFlight, o, slot.drvPath, slot.itemClass);
      OneOffered(offers, slot, o);
      offers := offers + multiset{(o, slot)};
      ok := slot.target in env.reachable;
      if !ok {
        return;
      }
      AddSlot(o, slot);
    }

    /** `self._in_flight.setdefault(outpath, {})[sid] = slot`. */
    method AddSlot(o: Outpath, slot: Offer)
      requires Valid() && !stopped && slot.target != me && slot.target !in Targets(o) && |Targets(o)| < k
      modifies `inFlight
      ensures Valid() && Targets(o) == old(Targets(o)) + {slot.target}
      ensures SameElsewhere(inFlight, old(inFlight), o)
      ensures NewSlots(inFlight, old(inFlight), o, slot.drvPath, slot.itemClass)
    {
      hide SlotsOk;
      var slots := if o in inFlight then inFlight[o] else map[];
      SlotAdded(me, k, slots, slot);
      inFlight := inFlight[o := slots[slot.target := slot]];
    }

    /** `_release_slot`: the last slot of an outpath takes its entry along. */
    method ReleaseSlot(o: Outpath, target: Sid)
      requires Valid()
      modifies `inFlight
      ensures Valid()
      ensures Targets(o) == old(Targets(o)) - {target}
      ensures SameElsewhere(inFlight, old(inFlight), o)
    {
      hide SlotsOk;
      if o !in inFlight || target !in inFlight[o] {
        return;
      }
      SlotRemoved(me, k, inFlight[o], target);
      var slots := inFlight[o] - {target};
      if slots == map[] {
        inFlight := inFlight - {o};
      } else {
        inFlight := inFlight[o := slots];
      }
    }

    /** `on_reject`: the slot is free again, and another peer (possibly the same) is tried. */
    method OnReject(from: Sid, o: Outpath, env: Env) returns (ghost sent: set<Sid>)
      requires Valid() && Distinct(env.peers)
      modifies `inFlight, `offers
      ensures Valid()
      ensures stopped ==> sent == {} && inFlight == map[]
      ensures !stopped ==> Pushed(env, me, k, o, {}, sent, old(Targets(o)) - {from}, Targets(o))
      ensures Offered(old(offers), offers, sent, o, Said(o).0, Said(o).1)
      ensures SameElsewhere(inFlight, old(inFlight), o)
    {
      hide Offered, NewSlots, SlotsOk, SameElsewhere, Pushed;
      ReleaseSlot(o, from);
      ghost var mid := inFlight;
      var issued: nat;
      issued, sent := PushAttemptLocked(o, {}, env);
      SameStep(inFlight, mid, old(inFlight), o);
    }

    /** `on_timeout`: nothing happens if the slot was settled in the meantime. */
    method OnTimeout(o: Outpath, target: Sid, env: Env) returns (ghost sent: set<Sid>)
      requires Valid() && Distinct(env.peers)
      modifies `inFlight, `offers
      ensures Valid()
      ensures target !in old(Targets(o)) ==> sent == {} && inFlight == old(inFlight)
      ensures target in old(Targets(o)) ==> Pushed(env, me, k, o, {}, sent, old(Targets(o)) - {target}, Targets(o))
      ensures Offered(old(offers), offers, sent, o, Said(o).0, Said(o).1)
      ensures SameElsewhere(inFlight, old(inFlight), o)
    {
      hide Offered, NewSlots, SlotsOk, SameElsewhere, Pushed;
      NothingOffered(offers, o, Said(o).0, Said(o).1);
      NoChange(inFlight, o);
      sent := {};
      if target !in Targets(o) {
        return;
      }
      ReleaseSlot(o, target);
      ghost var mid := inFlight;
      var issued: nat;
      issued, sent := PushAttemptLocked(o, {}, env);
      SameStep(inFlight, mid, old(inFlight), o);
    }

    /** `on_path_have`: the holder's slot is settled; at K holders, counting the announcing one, every
        remaining offer of the outpath is withdrawn and its target told so if it is a known peer. */
    method OnPathHave(holder: Sid, o: Outpath, env: Env)
      requires Valid()
      modifies `inFlight, `settleTimers, `cancels
      ensures Valid()
      ensures var converged := |HoldersIn(env.placements, o) + {holder}| >= k;
        var left := old(Targets(o)) - {holder};
        && Targets(o) == (if converged then {} else left)
        && Logged(old(cancels), cancels, if converged then set t | t in left && t in env.peers else {}, o)
        && SettleSlot(o) == Arm(old(SettleSlot(o)), converged, updaterBound)
        && (o in settleTimers <==> converged && (o in old(settleTimers) || (updaterBound && o !in fired)))
      ensures SameElsewhere(inFlight, old(inFlight), o)
      ensures settleTimers - {o} == old(settleTimers) - {o}
    {
      hide Logged, Arm, SlotsOk, SameElsewhere, Targets, Valid, SettleSlot;
      NothingLogged(cancels, o);
      ReleaseSlot(o, holder);
      var effective := HoldersIn(env.placements, o) + {holder};
      var converged := |effective| >= k;
      ArmSettleLocked(o, converged);
      if !converged {
        return;
      }
      if Targets(o) == {} {
        assert Known(env, Targets(o)) == {};
        return;
      }
      ghost var mid := inFlight;
      Withdraw(o, env);
      SameStep(inFlight, mid, old(inFlight), o);
    }

    /** Cancel every outstanding offer of the outpath and forget the slots. */
    method Withdraw(o: Outpath, env: Env)
      requires Valid()
      modifies `inFlight, `cancels
      ensures Valid() && Targets(o) == {}
      ensures Logged(old(cancels), cancels, Known(env, old(Targets(o))), o)
      ensures SameElsewhere(inFlight, old(inFlight), o)
    {
      hide Logged, SlotsOk, SameElsewhere;
      NothingLogged(cancels, o);
      var outstanding := Targets(o);
      ghost var told: set<Sid> := {};
      while outstanding != {}
        invariant inFlight == old(inFlight) && outstanding <= Targets(o)
        invariant told == Known(env, Targets(o) - outstanding)
        invariant Logged(old(cancels), cancels, told, o)
        decreases |outstanding|
      {
        var target :| target in outstanding;
        outstanding := outstanding - {target};
        if target in env.peers {
          ghost var before := cancels;
          OneLogged(cancels, target, o);
          cancels := cancels + multiset{(target, o)};
          LoggedStep(old(cancels), before, cancels, told, target, o);
          told := told + {target};
        }
      }
      assert Targets(o) - outstanding == Targets(o);
      Dropped(inFlight, o);
      inFlight := inFlight - {o};
    }

    /** `stop`: no slot and no timer is left, and no later push attempt makes a new slot. */
    method Stop()
      modifies `stopped, `inFlight, `settleTimers
      ensures Valid() && stopped && inFlight == map[] && settleTimers == {}
    {
      stopped := true;
      inFlight := map[];
      settleTimers := {};
    }

    // ---------------------------------------------------------------------------- settle window

    /** `_arm_settle_locked`. */
    method ArmSettleLocked(o: Outpath, converged: bool)
      modifies `settleTimers
      ensures SettleSlot(o) == Arm(old(SettleSlot(o)), converged, updaterBound)
      ensures o in settleTimers <==> converged && (o in old(settleTimers) || (updaterBound && o !in fired))
      ensures settleTimers - {o} == old(settleTimers) - {o}
    {
      if !converged {
        settleTimers := settleTimers - {o};
        return;
      }
      if o in fired {
        return;
      }
      if !updaterBound {
        return;
      }
      settleTimers := settleTimers + {o};
    }

    /** `_fire_settle`, first lock section: claim the publication and read the holders. */
    method FireSettleBegin(o: Outpath, env: Env) returns (goesOn: bool, holders: set<Sid>)
      modifies `settleTimers, `fired
      ensures (SettleSlot(o), goesOn) == BeginFire(old(SettleSlot(o)), stopped)
      ensures goesOn <==> !stopped && o !in old(fired)
      ensures o in fired <==> o in old(fired) || !stopped
      ensures o in settleTimers <==> o in old(settleTimers) && stopped
      ensures goesOn ==> holders == HoldersIn(env.placements, o)
      ensures settleTimers - {o} == old(settleTimers) - {o} && fired - {o} == old(fired) - {o}
    {
      holders := {};
      if stopped {
        return false, holders;
      }
      if o in fired {
        settleTimers := settleTimers - {o};
        return false, holders;
      }
      holders := HoldersIn(env.placements, o);
      settleTimers := settleTimers - {o};
      fired := fired + {o};
      return true, holders;
    }

    /** `_fire_settle` after the lock is released: publish, or give the claim back in a second
        section. `taskHash` is what the lookup returned, empty for `None` or a raise. */
    method FireSettleFinish(o: Outpath, holders: set<Sid>, taskHash: string) returns (published: bool)
      modifies `fired
      ensures published <==> EndOf(updaterBound, taskHash, holders, k) == Publish
      ensures published <==> updaterBound && taskHash != "" && |holders| >= k
      ensures SettleSlot(o) ==
        if EndOf(updaterBound, taskHash, holders, k) == GiveBack then Rollback(old(SettleSlot(o))) else old(SettleSlot(o))
      ensures o in fired <==> o in old(fired) && !(updaterBound && taskHash != "" && |holders| < k)
      ensures fired - {o} == old(fired) - {o}
    {
      if !updaterBound {
        return false;
      }
      if taskHash == "" {
        return false;
      }
      if |holders| < k {
        fired := fired - {o};
        return false;
      }
      return true;
    }
  }

  // -------------------------------------------------------------------------------------- helpers

  function TargetsIn(slots: map<Outpath, map<Sid, Offer>>, o: Outpath): set<Sid> {
    if o in slots then slots[o].Keys else {}
  }

  /** The slots of one outpath: never none, never more than K, never the sender itself, keyed by target. */
  predicate SlotsOk(me: Sid, k: int, slots: map<Sid, Offer>) {
    slots.Keys != {} && |slots.Keys| <= k && me !in slots && forall t :: t in slots ==> slots[t].target == t
  }

  /** Nothing changed for other outpaths. */
  predicate SameElsewhere(a: map<Outpath, map<Sid, Offer>>, b: map<Outpath, map<Sid, Offer>>, o: Outpath) {
    forall p :: p in a.Keys + b.Keys && p != o ==> p in a && p in b && a[p] == b[p]
  }

  lemma SameTargets(a: map<Outpath, map<Sid, Offer>>, b: map<Outpath, map<Sid, Offer>>, o: Outpath)
    requires SameElsewhere(a, b, o)
    ensures forall p :: p != o ==> TargetsIn(a, p) == TargetsIn(b, p)
  {
    forall p | p != o ensures TargetsIn(a, p) == TargetsIn(b, p) {
      if p in a || p in b { assert p in a.Keys + b.Keys; }
    }
  }

  lemma NoChange(a: map<Outpath, map<Sid, Offer>>, o: Outpath)
    ensures SameElsewhere(a, a, o)
  {
  }

  lemma SameStep(a: map<Outpath, map<Sid, Offer>>, b: map<Outpath, map<Sid, Offer>>, c: map<Outpath, map<Sid,
      Offer>>, o: Outpath)
    requires SameElsewhere(a, b, o) && SameElsewhere(b, c, o)
    ensures SameElsewhere(a, c, o)
  {
  }

  lemma Dropped(a: map<Outpath, map<Sid, Offer>>, o: Outpath)
    ensures SameElsewhere(a - {o}, a, o)
  {
  }

  lemma SlotAdded(me: Sid, k: int, slots: map<Sid, Offer>, slot: Offer)
    requires slots == map[] || SlotsOk(me, k, slots)
    requires slot.target != me && slot.target !in slots && |slots.Keys| < k
    ensures slots[slot.target := slot].Keys == slots.Keys + {slot.target}
    ensures SlotsOk(me, k, slots[slot.target := slot])
  {
  }

  lemma SlotRemoved(me: Sid, k: int, slots: map<Sid, Offer>, t: Sid)
    requires SlotsOk(me, k, slots) && t in slots
    ensures (slots - {t}).Keys == slots.Keys - {t}
    ensures slots - {t} == map[] <==> slots.Keys == {t}
    ensures slots - {t} != map[] ==> SlotsOk(me, k, slots - {t})
  {
    assert (slots - {t}).Keys == slots.Keys - {t};
    assert slots - {t} == map[] <==> (slots - {t}).Keys == {};
  }

  /** Exactly one more message about `o` went to each of `targets`, and no other message. */
  ghost predicate Logged(before: multiset<(Sid, Outpath)>, after: multiset<(Sid, Outpath)>, targets: set<Sid>,
      o: Outpath) {
    forall t: Sid, p: Outpath :: after[(t, p)] == before[(t, p)] + (if p == o && t in targets then 1 else 0)
  }

  lemma NothingLogged(log: multiset<(Sid, Outpath)>, o: Outpath)
    ensures Logged(log, log, {}, o)
  {
  }

  lemma OneLogged(log: multiset<(Sid, Outpath)>, t: Sid, o: Outpath)
    ensures Logged(log, log + multiset{(t, o)}, {t}, o)
  {
  }

  lemma LoggedStep(a: multiset<(Sid, Outpath)>, b: multiset<(Sid, Outpath)>, c: multiset<(Sid, Outpath)>,
      targets: set<Sid>, t: Sid, o: Outpath)
    requires Logged(a, b, targets, o) && Logged(b, c, {t}, o) && t !in targets
    ensures Logged(a, c, targets + {t}, o)
  {
  }

  /** Exactly one more offer about `o`, with these words, went to each of `targets`, and no other. */
  ghost predicate Offered(before: multiset<(Outpath, Offer)>, after: multiset<(Outpath, Offer)>, targets: set<Sid>,
      o: Outpath, drvPath: string, itemClass: string) {
    forall p: Outpath, m: Offer ::
      after[(p, m)] == before[(p, m)]
        + (if p == o && m.target in targets && m.drvPath == drvPath && m.itemClass == itemClass then 1 else 0)
  }

  lemma NothingOffered(log: multiset<(Outpath, Offer)>, o: Outpath, drvPath: string, itemClass: string)
    ensures Offered(log, log, {}, o, drvPath, itemClass)
  {
  }

  lemma OneOffered(log: multiset<(Outpath, Offer)>, slot: Offer, o: Outpath)
    ensures Offered(log, log + multiset{(o, slot)}, {slot.target}, o, slot.drvPath, slot.itemClass)
  {
  }

  lemma OfferedStep(a: multiset<(Outpath, Offer)>, b: multiset<(Outpath, Offer)>, c: multiset<(Outpath, Offer)>,
      targets: set<Sid>, t: Sid, o: Outpath, drvPath: string, itemClass: string)
    requires Offered(a, b, targets, o, drvPath, itemClass) && Offered(b, c, {t}, o, drvPath, itemClass) && t !in targets
    ensures Offered(a, c, targets + {t}, o, drvPath, itemClass)
  {
  }

  /** A slot of `o` is an old one, or records the offer that was sent. */
  predicate NewSlots(a: map<Outpath, map<Sid, Offer>>, b: map<Outpath, map<Sid, Offer>>, o: Outpath,
      drvPath: string, itemClass: string) {
    o in a ==> forall t :: t in a[o] ==>
      (o in b && t in b[o] && a[o][t] == b[o][t]) || a[o][t] == Offer(t, drvPath, itemClass)
  }

  lemma SameSlots(a: map<Outpath, map<Sid, Offer>>, o: Outpath, drvPath: string, itemClass: string)
    ensures NewSlots(a, a, o, drvPath, itemClass)
  {
  }

  lemma NewSlotsStep(a: map<Outpath, map<Sid, Offer>>, b: map<Outpath, map<Sid, Offer>>,
      c: map<Outpath, map<Sid, Offer>>, o: Outpath, drvPath: string, itemClass: string)
    requires NewSlots(a, b, o, drvPath, itemClass) && NewSlots(b, c, o, drvPath, itemClass)
    ensures NewSlots(a, c, o, drvPath, itemClass)
  {
  }

  lemma NothingPushed(env: Env, me: Sid, k: int, o: Outpath, excludes: set<Sid>, before: set<Sid>)
    requires Quota(env, me, k, o, excludes, before) == 0
    ensures Pushed(env, me, k, o, excludes, {}, before, before)
  {
    hide Quota;
    assert before == before + {} * env.reachable;
  }

  lemma SomePushed(env: Env, me: Sid, k: int, o: Outpath, excludes: set<Sid>, sent: set<Sid>, before: set<Sid>,
      after: set<Sid>)
    requires sent <= Candidates(env, me, o, excludes, before) && |sent| == Quota(env, me, k, o, excludes, before)
    requires after == before + sent * env.reachable
    ensures Pushed(env, me, k, o, excludes, sent, before, after)
  {
    hide Quota;
  }

  lemma ChosenAreFree(env: Env, me: Sid, o: Outpath, excludes: set<Sid>, inFlight: set<Sid>, candidates: seq<Sid>,
      chosen: seq<Sid>)
    requires Elements(candidates) == Candidates(env, me, o, excludes, inFlight)
    requires Distinct(chosen) && forall p :: p in chosen ==> p in candidates
    ensures Elements(chosen) <= Candidates(env, me, o, excludes, inFlight) && |Elements(chosen)| == |chosen|
    ensures forall t :: t in chosen ==> t != me && t !in inFlight
  {
    DistinctCount(chosen);
    assert forall t :: t in chosen ==> t in Elements(candidates);
  }

  /** The eligible peers in list order. */
  method CandidateList(env: Env, me: Sid, o: Outpath, excludes: set<Sid>, inFlight: set<Sid>) returns (r: seq<Sid>)
    requires Distinct(env.peers)
    ensures Distinct(r) && Elements(r) == Candidates(env, me, o, excludes, inFlight)
    ensures |r| == |Candidates(env, me, o, excludes, inFlight)|
  {
    var holders := HoldersIn(env.placements, o) - excludes;
    r := [];
    for n := 0 to |env.peers|
      invariant Distinct(r)
      invariant forall p :: p in r <==> p in env.peers[..n] && p in Candidates(env, me, o, excludes, inFlight)
    {
      var p := env.peers[n];
      if p != me && p !in holders && p !in inFlight && p !in excludes {
        assert p !in env.peers[..n];
        r := r + [p];
      }
    }
    assert env.peers[..|env.peers|] == env.peers;
    DistinctCount(r);
  }

  /** The targets that are in the peers list. */
  function Known(env: Env, targets: set<Sid>): set<Sid> {
    set t | t in targets && t in env.peers
  }

  lemma NothingChosen()
    ensures Elements<Sid>([]) == {}
  {
  }

  lemma NextOf(s: seq<Sid>, n: nat)
    requires Distinct(s) && n < |s|
    ensures s[n] in s && s[n] !in Elements(s[..n]) && Elements(s[..n + 1]) == Elements(s[..n]) + {s[n]}
  {
    assert s[..n + 1] == s[..n] + [s[n]];
  }

  /** `random.sample`: callers may rely on nothing but the size, and that nothing is picked twice. */
  method Sample(candidates: seq<Sid>, n: nat) returns (chosen: seq<Sid>)
    requires Distinct(candidates) && n <= |candidates|
    ensures |chosen| == n && Distinct(chosen) && forall p :: p in chosen ==> p in candidates
  {
    chosen := candidates[..n];
  }
}
