/** One outpath's settle window under every interleaving of announcements, timer threads and the two
    separately locked sections of `_fire_settle` (`peer_replication.py`). */
module SettleWindow {
  import opened Wrappers
  import opened Cluster
  import opened PushStep

  /** A timer thread between its first lock section and its end. */
  datatype Fire = Fire(id: nat, holders: set<Sid>)

  /** `timers` counts threads that were started and may still enter; a cancelled one may have been
      too late to stop. `setter` names the fire that last set the flag. */
  datatype Window = Window(
    slot: Slot,
    timers: nat,
    fires: seq<Fire>,
    published: seq<set<Sid>>,
    quiet: nat,
    setter: Option<nat>,
    nextId: nat,
    stopped: bool)

  datatype Step =
    | Announce(converged: bool, cancelWins: bool)
    | Enter(holders: set<Sid>)
    | End(i: nat, taskHash: string)
    | Stop(cancelled: nat)

  const START := Window(Slot(false, false), 0, [], [], 0, None, 0, false)

  predicate Enabled(w: Window, s: Step) {
    match s
    case Announce(_, _) => true
    case Enter(_) => w.timers > 0
    case End(i, _) => i < |w.fires|
    case Stop(cancelled) => cancelled <= w.timers
  }

  function Without(fires: seq<Fire>, i: nat): (r: seq<Fire>)
    requires i < |fires|
    ensures |r| == |fires| - 1
  {
    fires[..i] + fires[i + 1..]
  }

  /** An announcement replaces the pending timer (`on_path_have`, `_arm_settle_locked`). */
  function Announced(w: Window, bound: bool, converged: bool, cancelWins: bool): Window {
    var kept := if w.slot.armed && w.timers > 0 && cancelWins && (!converged || (!w.slot.fired && bound)) then w.timers - 1 else w.timers;
    w.(slot := Arm(w.slot, converged, bound), timers := kept + if converged && !w.slot.fired && bound then 1 else 0)
  }

  function Apply(w: Window, k: int, bound: bool, s: Step): Window
    requires Enabled(w, s)
  {
    match s
    case Announce(converged, cancelWins) => Announced(w, bound, converged, cancelWins)
    case Enter(holders) =>
      var (slot, goesOn) := BeginFire(w.slot, w.stopped);
      if goesOn
      then w.(slot := slot, timers := w.timers - 1, fires := w.fires + [Fire(w.nextId, holders)], setter := Some(w.nextId), nextId := w.nextId + 1)
      else w.(slot := slot, timers := w.timers - 1)
    case End(i, taskHash) =>
      var w' := w.(fires := Without(w.fires, i));
      (match EndOf(bound, taskHash, w.fires[i].holders, k)
       case Publish => w'.(published := w.published + [w.fires[i].holders])
       case GiveBack => w'.(slot := Rollback(w.slot))
       case Quiet => w'.(quiet := w.quiet + 1))
    case Stop(cancelled) => w.(stopped := true, slot := w.slot.(armed := false), timers := w.timers - cancelled)
  }

  predicate Reaches(w: Window, k: int, bound: bool, steps: seq<Step>, w': Window)
    decreases |steps|
  {
    if steps == [] then w == w'
    else Enabled(w, steps[0]) && Reaches(Apply(w, k, bound, steps[0]), k, bound, steps[1..], w')
  }

  /** The flag is worth exactly one claim: a fire under way, a publication, or a quiet end. */
  predicate OneClaim(w: Window, k: int) {
    && |w.fires| + |w.published| + w.quiet == (if w.slot.fired then 1 else 0)
    && (forall i :: 0 <= i < |w.fires| ==> w.setter == Some(w.fires[i].id))
    && (forall i :: 0 <= i < |w.published| ==> |w.published[i]| >= k)
  }

  lemma StepKeepsOneClaim(w: Window, k: int, bound: bool, s: Step)
    requires OneClaim(w, k) && Enabled(w, s)
    ensures OneClaim(Apply(w, k, bound, s), k)
  {
  }

  lemma {:induction false} RunKeepsOneClaim(w: Window, k: int, bound: bool, steps: seq<Step>, w': Window)
    requires OneClaim(w, k) && Reaches(w, k, bound, steps, w')
    ensures OneClaim(w', k)
    decreases |steps|
  {
    hide OneClaim, Apply, Enabled;
    if steps != [] {
      StepKeepsOneClaim(w, k, bound, steps[0]);
      RunKeepsOneClaim(Apply(w, k, bound, steps[0]), k, bound, steps[1..], w');
    }
  }

  /** However announcements, timers and lock sections interleave: at most one publication ever, always
      of at least K holders, and none while a fire is still under way. */
  lemma PublishedAtMostOnce(k: int, bound: bool, steps: seq<Step>, w: Window)
    requires Reaches(START, k, bound, steps, w)
    ensures |w.published| <= 1
    ensures forall i :: 0 <= i < |w.published| ==> |w.published[i]| >= k
    ensures w.published != [] ==> w.slot.fired && w.fires == []
  {
    RunKeepsOneClaim(START, k, bound, steps, w);
  }

  /** What the end of a fire does: with a bound hook and a task hash it publishes its holders if they are
      at least K, and otherwise gives the claim back; in every other case it ends quietly, claim kept. */
  lemma PublishesIff(k: int, bound: bool, steps: seq<Step>, w: Window, i: nat, taskHash: string)
    requires Reaches(START, k, bound, steps, w) && i < |w.fires|
    ensures var w' := Apply(w, k, bound, End(i, taskHash));
      && w'.published == w.published + (if bound && taskHash != "" && |w.fires[i].holders| >= k then [w.fires[i].holders] else [])
      && w'.slot.fired == !(bound && taskHash != "" && |w.fires[i].holders| < k)
      && w'.slot.armed == w.slot.armed && w'.timers == w.timers
  {
    RunKeepsOneClaim(START, k, bound, steps, w);
  }

  /** A settled outpath is published: while nothing has claimed it and the sender runs, a converging
      announcement leaves a timer whose fire reads the holders, and its end publishes them. */
  lemma SettledIsPublished(k: int, steps: seq<Step>, w: Window, cancelWins: bool, holders: set<Sid>, taskHash: string)
    requires Reaches(START, k, true, steps, w) && !w.slot.fired && !w.stopped
    requires taskHash != "" && |holders| >= k
    ensures var w1 := Apply(w, k, true, Announce(true, cancelWins));
      && w1.slot.armed && Enabled(w1, Enter(holders))
      && var w2 := Apply(w1, k, true, Enter(holders));
      && w2.slot == Slot(false, true) && w2.fires == [Fire(w1.nextId, holders)] && Enabled(w2, End(0, taskHash))
      && var w3 := Apply(w2, k, true, End(0, taskHash));
      && w3.published == [holders] && w3.fires == [] && w3.slot == Slot(false, true)
  {
    RunKeepsOneClaim(START, k, true, steps, w);
    var w1 := Apply(w, k, true, Announce(true, cancelWins));
    assert w.fires == [] && w.published == [];
    var w2 := Apply(w1, k, true, Enter(holders));
    assert w2.fires == [Fire(w1.nextId, holders)];
    assert Without(w2.fires, 0) == [];
    assert w.published + [holders] == [holders];
  }

  /** A timer is armed only for a bound hook and an unclaimed outpath; an announcement below K disarms
      it; and a claimed or stopped window lets no further fire begin. */
  lemma ArmedOnlyToPublish(k: int, bound: bool, w: Window, converged: bool, cancelWins: bool, holders: set<Sid>)
    ensures !converged ==> !Apply(w, k, bound, Announce(converged, cancelWins)).slot.armed
    ensures !w.slot.armed && Apply(w, k, bound, Announce(converged, cancelWins)).slot.armed ==>
      converged && bound && !w.slot.fired
    ensures w.timers > 0 && (w.slot.fired || w.stopped) ==>
      Apply(w, k, bound, Enter(holders)).fires == w.fires && Apply(w, k, bound, Enter(holders)).slot.fired == w.slot.fired
    ensures w.timers > 0 && !w.stopped ==> !Apply(w, k, bound, Enter(holders)).slot.armed
  {
  }

  /** Only the fire that set the flag can clear it. */
  lemma OnlySetterClears(k: int, bound: bool, steps: seq<Step>, w: Window, s: Step)
    requires Reaches(START, k, bound, steps, w) && Enabled(w, s)
    requires w.slot.fired && !Apply(w, k, bound, s).slot.fired
    ensures s.End? && w.setter == Some(w.fires[s.i].id) && |w.fires[s.i].holders| < k
    ensures w.published == []
  {
    RunKeepsOneClaim(START, k, bound, steps, w);
  }

  /** After a rollback the next converging announcement arms a timer again, so a later set can still
      be published; after a publication or a quiet end nothing is armed any more. */
  lemma RearmIffUnclaimed(k: int, steps: seq<Step>, w: Window, cancelWins: bool)
    requires Reaches(START, k, true, steps, w) && !w.slot.armed
    ensures var w' := Apply(w, k, true, Announce(true, cancelWins));
      w'.slot.armed <==> w.fires == [] && w.published == [] && w.quiet == 0
  {
    RunKeepsOneClaim(START, k, true, steps, w);
  }
}
