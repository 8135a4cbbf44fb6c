/** `PathPlacementWatcher` (`peer_cache.py`): refreshes, subscribers and the wake-up flag. */
module PlacementWatcher {
  import opened Wrappers
  import opened Cluster
  import opened Placements

  class Watcher {
    var placements: Aggregate
    /** How many diff callbacks are registered. */
    var callbacks: nat
    var wake: bool
    var stopRequested: bool

    predicate Valid()
      reads `placements
    {
      NoEmpty(placements)
    }

    constructor ()
      ensures Valid() && placements == map[] && callbacks == 0 && !wake && !stopRequested
    {
      placements, callbacks, wake, stopRequested := map[], 0, false, false;
    }

    method RegisterDiffCallback()
      modifies `callbacks
      ensures callbacks == old(callbacks) + 1
    {
      callbacks := callbacks + 1;
    }

    method RequestRefresh()
      modifies `wake
      ensures wake
    {
      wake := true;
    }

    method Stop()
      modifies `wake, `stopRequested
      ensures wake && stopRequested
    {
      stopRequested := true;
      wake := true;
    }

    /** `_refresh`: the aggregate becomes what the files say; every callback gets the difference to
        the previous aggregate, unless there is none. */
    method Refresh(dir: Option<seq<Entry>>, fireCallbacks: bool) returns (delivered: Option<Diff>)
      requires Valid()
      modifies `placements
      ensures Valid()
      ensures forall o, s :: s in HoldersIn(placements, o) <==> dir.Some? && Listed(dir.value, o, s)
      ensures delivered ==
        if fireCallbacks && callbacks > 0 && placements != old(placements) then Some(DiffOf(old(placements), placements))
        else None
    {
      hide Listed, Gained;
      var newPlacements := ReadAllPlacementFiles(dir);
      var oldPlacements := placements;
      placements := newPlacements;
      if !fireCallbacks || callbacks == 0 {
        return None;
      }
      var diff := ComputePlacementDiff(oldPlacements, newPlacements);
      EmptyDiffIff(oldPlacements, newPlacements);
      if diff.added == map[] && diff.removed == map[] {
        return None;
      }
      return Some(diff);
    }
  }

  // ----------------------------------------------------------------------------------- subscribers

  /** A refresh between the swap and its last callback: the aggregate before it, and how many
      callbacks have run. */
  datatype Delivery = Delivery(before: Aggregate, next: nat)

  /** `views` holds one entry per registered callback: what the subscriber has, `None` before its
      first snapshot. */
  datatype Feed = Feed(placements: Aggregate, pending: Option<Delivery>, views: seq<Option<Aggregate>>)

  /** `TakeSnapshot` is a subscriber that calls `snapshot()` and installs the value before its next
      callback can run; one that stored it later could put an old aggregate back. */
  datatype Event =
    | Register
    | TakeSnapshot(j: nat)
    | Swap(fresh_: Aggregate)
    | Deliver
    | Finish

  predicate Possible(f: Feed, e: Event) {
    match e
    case Register => true
    case TakeSnapshot(j) => j < |f.views|
    case Swap(a) => f.pending.None? && NoEmpty(a)
    case Deliver => f.pending.Some? && f.pending.value.next < |f.views| && f.pending.value.before != f.placements
    case Finish => f.pending.Some? && (f.pending.value.next >= |f.views| || f.pending.value.before == f.placements)
  }

  function Next(f: Feed, e: Event): Feed
    requires Possible(f, e)
  {
    match e
    case Register => f.(views := f.views + [None])
    case TakeSnapshot(j) => f.(views := f.views[j := Some(f.placements)])
    case Swap(a) => f.(placements := a, pending := Some(Delivery(f.placements, 0)))
    case Deliver =>
      var d := f.pending.value;
      var view := f.views[d.next];
      var patched := if view.Some? then Some(Patch(view.value, DiffOf(d.before, f.placements))) else None;
      f.(views := f.views[d.next := patched], pending := Some(Delivery(d.before, d.next + 1)))
    case Finish => f.(pending := None)
  }

  predicate Run(f: Feed, es: seq<Event>, f': Feed)
    decreases |es|
  {
    if es == [] then f == f'
    else Possible(f, es[0]) && Run(Next(f, es[0]), es[1..], f')
  }

  /** Where subscriber `j` may be: up to date, or one diff behind while that diff is still to come. */
  predicate ViewOk(f: Feed, j: nat)
    requires j < |f.views|
  {
    f.views[j].Some? ==>
      f.views[j].value == f.placements
      || (f.pending.Some? && f.pending.value.next <= j && f.views[j].value == f.pending.value.before)
  }

  ghost predicate InStep(f: Feed) {
    && NoEmpty(f.placements) && (f.pending.Some? ==> NoEmpty(f.pending.value.before))
    && forall j :: 0 <= j < |f.views| ==> ViewOk(f, j)
  }

  lemma StepKeepsInStep(f: Feed, e: Event)
    requires InStep(f) && Possible(f, e)
    ensures InStep(Next(f, e))
  {
    hide NoEmpty, Patch, DiffOf;
    if e.Deliver? {
      PatchReconstructs(f.pending.value.before, f.placements);
    }
    var f' := Next(f, e);
    forall j | 0 <= j < |f'.views| ensures ViewOk(f', j) {
      if j < |f.views| { assert ViewOk(f, j); }
    }
  }

  lemma {:induction false} RunKeepsInStep(f: Feed, es: seq<Event>, f': Feed)
    requires InStep(f) && Run(f, es, f')
    ensures InStep(f')
    decreases |es|
  {
    hide InStep, Next, Possible;
    if es != [] {
      StepKeepsInStep(f, es[0]);
      RunKeepsInStep(Next(f, es[0]), es[1..], f');
    }
  }

  /** Whenever no refresh is under way, every subscriber that took a snapshot at any time after it
      registered holds exactly the watcher's aggregate; and during a refresh it holds that or the
      previous one, and the former once its callback has run. */
  lemma SubscribersAgree(initial: Aggregate, es: seq<Event>, f: Feed, j: nat)
    requires NoEmpty(initial) && Run(Feed(initial, None, []), es, f) && j < |f.views| && f.views[j].Some?
    ensures f.pending.None? ==> f.views[j].value == f.placements
    ensures f.pending.Some? && j < f.pending.value.next ==> f.views[j].value == f.placements
    ensures f.pending.Some? ==> f.views[j].value == f.placements || f.views[j].value == f.pending.value.before
  {
    RunKeepsInStep(Feed(initial, None, []), es, f);
    assert ViewOk(f, j);
  }

  // -------------------------------------------------------------------------------------- wake-ups

  /** The run loop: `Top` checks the stop flag and clears the wake flag, `Cleared` reads the files,
      `Waits` blocks on the flag or the tick. */
  datatype At = Top | Cleared | Waits | Stopped

  /** `disk` counts writes to the placement files; `requested` is the count at the last request, and
      `read` the count the last refresh saw. */
  datatype Loop = Loop(at: At, wake: bool, stop: bool, disk: nat, requested: nat, read: nat)

  datatype Tick =
    | Write
    | Request
    | RequestStop
    | Clear
    | Refresh
    | Awake(byTimeout: bool)

  predicate CanTick(l: Loop, t: Tick) {
    match t
    case Write => true
    case Request => true
    case RequestStop => true
    case Clear => l.at == Top
    case Refresh => l.at == Cleared
    case Awake(byTimeout) => l.at == Waits && (l.wake || byTimeout)
  }

  function DoTick(l: Loop, t: Tick): Loop
    requires CanTick(l, t)
  {
    match t
    case Write => l.(disk := l.disk + 1)
    case Request => l.(wake := true, requested := l.disk)
    case RequestStop => l.(stop := true, wake := true)
    case Clear => if l.stop then l.(at := Stopped) else l.(at := Cleared, wake := false)
    case Refresh => l.(at := Waits, read := l.disk)
    case Awake(_) => l.(at := Top)
  }

  predicate Ticks(l: Loop, ts: seq<Tick>, l': Loop)
    decreases |ts|
  {
    if ts == [] then l == l'
    else CanTick(l, ts[0]) && Ticks(DoTick(l, ts[0]), ts[1..], l')
  }

  const BOOTED := Loop(Top, false, false, 0, 0, 0)

  /** An unserved request keeps the flag up, or a read is about to happen. */
  predicate NothingLost(l: Loop) {
    l.read <= l.disk && l.requested <= l.disk && (l.read < l.requested ==> l.wake || l.at != Waits)
  }

  lemma {:induction false} TicksLoseNothing(l: Loop, ts: seq<Tick>, l': Loop)
    requires NothingLost(l) && Ticks(l, ts, l')
    ensures NothingLost(l')
    decreases |ts|
  {
    if ts != [] {
      TicksLoseNothing(DoTick(l, ts[0]), ts[1..], l');
    }
  }

  /** How many of its own steps the loop needs until a refresh has read the files again. */
  function UntilRead(l: Loop): nat {
    match l.at
    case Waits => 3
    case Top => 2
    case Cleared => 1
    case Stopped => 0
  }

  predicate OwnTick(t: Tick) {
    t.Clear? || t.Refresh? || t.Awake?
  }

  /** No request is lost: the loop never sleeps on an unserved one, it does not need the timeout to
      go on, and three of its own steps later at most, however writes and further requests fall in
      between, it has read at least what was there when the request was made. */
  lemma RequestIsServed(ts: seq<Tick>, l: Loop, more: seq<Tick>, l': Loop)
    requires Ticks(BOOTED, ts, l) && l.read < l.requested && !l.at.Stopped?
    requires Ticks(l, more, l') && !l'.at.Stopped? && |OwnTicks(more)| >= UntilRead(l)
    ensures l.at == Waits ==> CanTick(l, Awake(false))
    ensures l'.read >= l.requested
  {
    TicksLoseNothing(BOOTED, ts, l);
    OwnStepsRead(l, more, l');
  }

  function OwnTicks(ts: seq<Tick>): seq<Tick> {
    if ts == [] then [] else (if OwnTick(ts[0]) then [ts[0]] else []) + OwnTicks(ts[1..])
  }

  lemma {:induction false} OwnStepsRead(l: Loop, more: seq<Tick>, l': Loop)
    requires NothingLost(l) && Ticks(l, more, l') && !l.at.Stopped? && !l'.at.Stopped? && |OwnTicks(more)| >= UntilRead(l)
    ensures l'.read >= l.disk >= l.requested
    decreases |more|
  {
    if more != [] {
      var n := DoTick(l, more[0]);
      if n.at.Stopped? { StoppedStays(n, more[1..], l'); }
      TicksLoseNothing(l, [more[0]], n);
      if more[0].Refresh? {
        ReadGrows(n, more[1..], l');
      } else {
        OwnStepsRead(n, more[1..], l');
      }
    }
  }

  lemma {:induction false} StoppedStays(l: Loop, ts: seq<Tick>, l': Loop)
    requires Ticks(l, ts, l') && l.at.Stopped?
    ensures l'.at.Stopped?
    decreases |ts|
  {
    if ts != [] { StoppedStays(DoTick(l, ts[0]), ts[1..], l'); }
  }

  lemma {:induction false} ReadGrows(l: Loop, ts: seq<Tick>, l': Loop)
    requires NothingLost(l) && Ticks(l, ts, l')
    ensures l'.read >= l.read
    decreases |ts|
  {
    if ts != [] {
      TicksLoseNothing(l, [ts[0]], DoTick(l, ts[0]));
      ReadGrows(DoTick(l, ts[0]), ts[1..], l');
    }
  }
}
