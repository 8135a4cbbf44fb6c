/** The memo cache on a shared disk (`incremental_cache.py`), one file operation of a process a step. */
module MemoCache {
  import opened Wrappers

  /** What is memoized: which inputs have a key (an overlong one raises before the cache is touched),
      the key, the value computed for an input, and the entry's text. */
  datatype Memo<!I(==), !V(==)> = Memo(
    keyed: I -> bool,
    key: I -> string,
    value: I -> V,
    encode: V -> string,
    decode: string -> Option<V>)

  /** `<namespace>/<key>`: no directory, or one with or without a complete `entry.json`. */
  datatype Slot = Absent | Dir(entry: Option<string>)

  /** Where a process is inside `_store_subentry` or `lookup_*`. */
  datatype At<I(==)> =
    | Idle
    | Staged(input: I)
    | Checked(input: I)
    | Reading(input: I)
    | Missing(input: I)
    | HasText(input: I, text: string)
    | Discards(key: string, unlinked: bool)

  datatype World<I(==), V(==)> = World(slots: map<string, Slot>, procs: map<nat, At<I>>, results: seq<(I, Option<V>)>)

  /** A process starts a store (its own directory is written, unseen by others) or a lookup, or takes
      its next file operation; `fails` makes a read an `OSError`, a rename refused (the directory of a
      retired format is not empty), and a decoded value unusable (its aggregate drv left the store). */
  datatype Step<I(==)> = BeginStore(p: nat, i: I) | BeginLookup(p: nat, i: I) | Go(p: nat, fails: bool)

  function SlotOf<I, V>(w: World<I, V>, k: string): Slot {
    if k in w.slots then w.slots[k] else Absent
  }

  function Where<I, V>(w: World<I, V>, p: nat): At<I> {
    if p in w.procs then w.procs[p] else Idle
  }

  function Settle<I, V>(w: World<I, V>, p: nat, i: I, v: Option<V>, at: At<I>): World<I, V> {
    w.(procs := w.procs[p := at], results := w.results + [(i, v)])
  }

  function Move<I, V>(w: World<I, V>, p: nat, at: At<I>): World<I, V> {
    w.(procs := w.procs[p := at])
  }

  function Put<I, V>(w: World<I, V>, k: string, s: Slot): World<I, V> {
    w.(slots := w.slots[k := s])
  }

  /** The next file operation of process `p`. */
  function Advance<I, V>(m: Memo<I, V>, w: World<I, V>, p: nat, fails: bool): World<I, V> {
    match Where(w, p)
    case Idle => w
    case Staged(i) =>
      // `target_dir.exists()`: someone else got here first
      Move(w, p, if SlotOf(w, m.key(i)).Absent? then Checked(i) else Idle)
    case Checked(i) =>
      // `os.replace` of a directory succeeds onto nothing and onto an empty directory
      if fails then Move(w, p, Idle)
      else (match SlotOf(w, m.key(i))
       case Dir(Some(_)) => Move(w, p, Idle)
       case _ => Move(Put(w, m.key(i), Dir(Some(m.encode(m.value(i))))), p, Idle))
    case Reading(i) =>
      if fails then Settle(w, p, i, None, Idle)
      else
        (match SlotOf(w, m.key(i))
         case Dir(Some(text)) => Move(w, p, HasText(i, text))
         case _ => Move(w, p, Missing(i)))
    case Missing(i) =>
      // `entry_dir.is_dir()`, after the file was not found: an entry without its file is discarded
      Settle(w, p, i, None, if SlotOf(w, m.key(i)).Dir? then Discards(m.key(i), false) else Idle)
    case HasText(i, text) =>
      (match m.decode(text)
       case None => Settle(w, p, i, None, Discards(m.key(i), false))
       case Some(v) => if fails then Settle(w, p, i, None, Discards(m.key(i), false)) else Settle(w, p, i, Some(v), Idle))
    case Discards(k, false) =>
      // `rmtree`, first the file
      Move(if SlotOf(w, k).Dir? then Put(w, k, Dir(None)) else w, p, Discards(k, true))
    case Discards(k, true) =>
      // then the directory, which must still be empty
      Move(if SlotOf(w, k) == Dir(None) then Put(w, k, Absent) else w, p, Idle)
  }

  predicate Enabled<I, V>(m: Memo<I, V>, w: World<I, V>, s: Step<I>) {
    s.Go? || (Where(w, s.p).Idle? && m.keyed(s.i))
  }

  function Apply<I, V>(m: Memo<I, V>, w: World<I, V>, s: Step<I>): World<I, V> {
    match s
    case BeginStore(p, i) => Move(w, p, Staged(i))
    case BeginLookup(p, i) => Move(w, p, Reading(i))
    case Go(p, fails) => Advance(m, w, p, fails)
  }

  predicate Run<I, V>(m: Memo<I, V>, w: World<I, V>, steps: seq<Step<I>>, w': World<I, V>)
    decreases |steps|
  {
    if steps == [] then w == w'
    else Enabled(m, w, steps[0]) && Run(m, Apply(m, w, steps[0]), steps[1..], w')
  }

  // --------------------------------------------------------------------------------------- agreement

  /** Reading undoes writing, and inputs with one key have one value. */
  ghost predicate Faithful<I(!new), V>(m: Memo<I, V>) {
    && (forall i: I :: m.keyed(i) ==> m.decode(m.encode(m.value(i))) == Some(m.value(i)))
    && (forall i: I, j: I :: m.keyed(i) && m.keyed(j) && m.key(i) == m.key(j) ==> m.value(i) == m.value(j))
  }

  /** A text that can be read under key `k` is rejected, or holds the value of that key. */
  ghost predicate TextOk<I(!new), V>(m: Memo<I, V>, k: string, text: string) {
    forall i: I :: m.keyed(i) && m.key(i) == k ==> m.decode(text) == None || m.decode(text) == Some(m.value(i))
  }

  /** What may be on disk beforehand: nothing, directories of the retired format, or entries that the
      reader rejects or that are right. */
  ghost predicate Clean<I(!new), V>(m: Memo<I, V>, slots: map<string, Slot>) {
    forall k :: k in slots && slots[k].Dir? && slots[k].entry.Some? ==> TextOk(m, k, slots[k].entry.value)
  }

  function Input<I>(at: At<I>): Option<I> {
    match at
    case Idle => None
    case Discards(_, _) => None
    case _ => Some(at.input)
  }

  /** A process works on an input with a key, and any text it holds is one that may be read. */
  ghost predicate AtOk<I(!new), V>(m: Memo<I, V>, at: At<I>) {
    && (Input(at).Some? ==> m.keyed(Input(at).value))
    && (at.HasText? ==> TextOk(m, m.key(at.input), at.text))
  }

  ghost predicate ProcsOk<I(!new), V>(m: Memo<I, V>, w: World<I, V>) {
    forall p :: p in w.procs ==> AtOk(m, w.procs[p])
  }

  ghost predicate ResultsOk<I, V>(m: Memo<I, V>, w: World<I, V>) {
    forall n :: 0 <= n < |w.results| ==> w.results[n].1 == None || w.results[n].1 == Some(m.value(w.results[n].0))
  }

  lemma StoredTextOk<I(!new), V>(m: Memo<I, V>, i: I)
    requires Faithful(m) && m.keyed(i)
    ensures TextOk(m, m.key(i), m.encode(m.value(i)))
  {
  }

  lemma StepKeepsSlots<I(!new), V>(m: Memo<I, V>, w: World<I, V>, s: Step<I>)
    requires Faithful(m) && Clean(m, w.slots) && ProcsOk(m, w)
    ensures Clean(m, Apply(m, w, s).slots)
  {
    hide TextOk, Faithful;
    if s.Go? && Where(w, s.p).Checked? {
      StoredTextOk(m, Where(w, s.p).input);
    }
  }

  lemma NextAtOk<I(!new), V>(m: Memo<I, V>, w: World<I, V>, s: Step<I>)
    requires Clean(m, w.slots) && AtOk(m, Where(w, s.p)) && Enabled(m, w, s)
    ensures AtOk(m, Where(Apply(m, w, s), s.p))
  {
    hide TextOk, Clean, SlotOf;
    if s.Go? && Where(w, s.p).Reading? {
      ReadTextOk(m, w, Where(w, s.p).input);
    }
  }

  lemma OthersStay<I(!new), V>(m: Memo<I, V>, w: World<I, V>, s: Step<I>, p: nat)
    requires p != s.p
    ensures p in Apply(m, w, s).procs ==> p in w.procs && Apply(m, w, s).procs[p] == w.procs[p]
    ensures s.p in Apply(m, w, s).procs ==> Apply(m, w, s).procs[s.p] == Where(Apply(m, w, s), s.p)
  {
    hide SlotOf;
  }

  lemma IdleOk<I(!new), V>(m: Memo<I, V>)
    ensures AtOk(m, Idle)
  {
  }

  lemma StepKeepsProcs<I(!new), V>(m: Memo<I, V>, w: World<I, V>, s: Step<I>)
    requires Clean(m, w.slots) && ProcsOk(m, w) && Enabled(m, w, s)
    ensures ProcsOk(m, Apply(m, w, s))
  {
    hide AtOk, Clean, Apply, Enabled;
    IdleOk(m);
    NextAtOk(m, w, s);
    forall p | p in Apply(m, w, s).procs ensures AtOk(m, Apply(m, w, s).procs[p]) {
      if p != s.p { OthersStay(m, w, s, p); }
    }
  }

  lemma ReadTextOk<I(!new), V>(m: Memo<I, V>, w: World<I, V>, i: I)
    requires Clean(m, w.slots)
    ensures SlotOf(w, m.key(i)).Dir? && SlotOf(w, m.key(i)).entry.Some? ==> TextOk(m, m.key(i), SlotOf(w, m.key(i)).entry.value)
  {
    hide TextOk;
  }

  lemma StepKeepsResults<I(!new), V>(m: Memo<I, V>, w: World<I, V>, s: Step<I>)
    requires ProcsOk(m, w) && ResultsOk(m, w)
    ensures ResultsOk(m, Apply(m, w, s))
  {
    if s.Go? && Where(w, s.p).HasText? {
      var at := Where(w, s.p);
      assert AtOk(m, at) && TextOk(m, m.key(at.input), at.text);
    }
  }

  lemma {:induction false} RunKeepsResults<I(!new), V>(m: Memo<I, V>, w: World<I, V>, steps: seq<Step<I>>,
      w': World<I, V>)
    requires Faithful(m) && Clean(m, w.slots) && ProcsOk(m, w) && ResultsOk(m, w) && Run(m, w, steps, w')
    ensures ResultsOk(m, w')
    decreases |steps|
  {
    hide Faithful, Clean, ProcsOk, ResultsOk, Apply, Enabled;
    if steps != [] {
      StepKeepsSlots(m, w, steps[0]);
      StepKeepsProcs(m, w, steps[0]);
      StepKeepsResults(m, w, steps[0]);
      RunKeepsResults(m, Apply(m, w, steps[0]), steps[1..], w');
    }
  }

  /** Under every interleaving of stores, discards and lookups by any number of processes, starting
      from a clean disk: each lookup was a miss or returned exactly the value computed for its input. */
  lemma LookupsAgree<I(!new), V>(m: Memo<I, V>, slots: map<string, Slot>, steps: seq<Step<I>>, w: World<I, V>, n: nat)
    requires Faithful(m) && Clean(m, slots) && Run(m, World(slots, map[], []), steps, w) && n < |w.results|
    ensures w.results[n].1 == None || w.results[n].1 == Some(m.value(w.results[n].0))
  {
    RunKeepsResults(m, World(slots, map[], []), steps, w);
  }

  /** The probe comes after the failed read. What is there by then is discarded, so a lookup that finds
      nothing removes the complete, valid entry that another process stores in between. */
  lemma FreshEntryDiscarded<I(!new), V>(m: Memo<I, V>, w: World<I, V>, p: nat, q: nat, i: I)
    requires Faithful(m) && m.keyed(i) && p != q && SlotOf(w, m.key(i)).Absent? && Where(w, p).Idle? && Where(w, q).Idle?
    ensures var w1 := Apply(m, Apply(m, w, BeginLookup(p, i)), Go(p, false));
      var w2 := Apply(m, Apply(m, Apply(m, w1, BeginStore(q, i)), Go(q, false)), Go(q, false));
      var w3 := Apply(m, Apply(m, Apply(m, w2, Go(p, false)), Go(p, false)), Go(p, false));
      && SlotOf(w2, m.key(i)) == Dir(Some(m.encode(m.value(i))))
      && SlotOf(w3, m.key(i)).Absent? && w3.results == w.results + [(i, None)]
  {
    var a := Apply(m, w, BeginLookup(p, i));
    var w1 := Apply(m, a, Go(p, false));
    assert Where(w1, p) == Missing(i) && Where(w1, q) == Idle;
    var b := Apply(m, w1, BeginStore(q, i));
    var c := Apply(m, b, Go(q, false));
    assert Where(c, q) == Checked(i) && Where(c, p) == Missing(i);
    var w2 := Apply(m, c, Go(q, false));
    assert Where(w2, p) == Missing(i);
    var d := Apply(m, w2, Go(p, false));
    assert Where(d, p) == Discards(m.key(i), false);
    var e := Apply(m, d, Go(p, false));
    assert SlotOf(e, m.key(i)) == Dir(None) && Where(e, p) == Discards(m.key(i), true);
  }

  /** A discarded entry heals: once the directory is gone, an undisturbed store followed by a lookup
      of the same input is a hit. */
  lemma StoreThenHit<I(!new), V>(m: Memo<I, V>, w: World<I, V>, p: nat, i: I)
    requires Faithful(m) && m.keyed(i) && SlotOf(w, m.key(i)).Absent? && Where(w, p).Idle?
    ensures var w1 := Apply(m, Apply(m, Apply(m, w, BeginStore(p, i)), Go(p, false)), Go(p, false));
      var w2 := Apply(m, Apply(m, Apply(m, w1, BeginLookup(p, i)), Go(p, false)), Go(p, false));
      w2.results == w.results + [(i, Some(m.value(i)))]
  {
    var a := Apply(m, w, BeginStore(p, i));
    var b := Apply(m, a, Go(p, false));
    assert Where(b, p) == Checked(i);
    var w1 := Apply(m, b, Go(p, false));
    assert SlotOf(w1, m.key(i)) == Dir(Some(m.encode(m.value(i))));
    var c := Apply(m, w1, BeginLookup(p, i));
    var d := Apply(m, c, Go(p, false));
    assert Where(d, p) == HasText(i, m.encode(m.value(i)));
  }

  /** A complete entry stays, whoever stores or looks up, until somebody discards its key. */
  lemma EntryStays<I(!new), V>(m: Memo<I, V>, w: World<I, V>, s: Step<I>, k: string)
    requires SlotOf(w, k).Dir? && SlotOf(w, k).entry.Some?
    requires !(s.Go? && Where(w, s.p) == Discards(k, false))
    ensures SlotOf(Apply(m, w, s), k) == SlotOf(w, k)
  {
  }

  /** Who discards: a process whose own lookup has just missed on a text that does not decode, on a
      value it cannot use, or on a directory without its file. */
  lemma OnlyMissesDiscard<I(!new), V>(m: Memo<I, V>, w: World<I, V>, s: Step<I>, k: string)
    requires Enabled(m, w, s) && Where(w, s.p) != Discards(k, false) && Where(Apply(m, w, s), s.p) == Discards(k, false)
    ensures s.Go? && exists i :: (
      && Apply(m, w, s).results == w.results + [(i, None)] && m.key(i) == k
      && (|| (exists text :: Where(w, s.p) == HasText(i, text) && (m.decode(text) == None || s.fails))
          || (Where(w, s.p) == Missing(i) && SlotOf(w, k).Dir?)))
  {
    hide SlotOf;
    var at := Where(w, s.p);
    assert at.HasText? || at.Missing?;
    assert Apply(m, w, s).results == w.results + [(at.input, None)];
  }

  /** An undisturbed lookup of an entry that does not decode is a miss and removes the entry. */
  lemma BadEntryDiscarded<I(!new), V>(m: Memo<I, V>, w: World<I, V>, p: nat, i: I, text: string)
    requires m.keyed(i) && Where(w, p).Idle? && SlotOf(w, m.key(i)) == Dir(Some(text)) && m.decode(text) == None
    ensures var w2 := Apply(m, Apply(m, Apply(m, w, BeginLookup(p, i)), Go(p, false)), Go(p, false));
      var w4 := Apply(m, Apply(m, w2, Go(p, false)), Go(p, false));
      w2.results == w4.results == w.results + [(i, None)] && SlotOf(w4, m.key(i)).Absent? && Where(w4, p).Idle?
  {
    var a := Apply(m, w, BeginLookup(p, i));
    var b := Apply(m, a, Go(p, false));
    assert Where(b, p) == HasText(i, text);
    var w2 := Apply(m, b, Go(p, false));
    assert Where(w2, p) == Discards(m.key(i), false);
    var c := Apply(m, w2, Go(p, false));
    assert SlotOf(c, m.key(i)) == Dir(None) && Where(c, p) == Discards(m.key(i), true);
  }

  /** So is a directory without a complete file, left by a torn removal or by the retired format. */
  lemma EmptyEntryDiscarded<I(!new), V>(m: Memo<I, V>, w: World<I, V>, p: nat, i: I)
    requires m.keyed(i) && Where(w, p).Idle? && SlotOf(w, m.key(i)) == Dir(None)
    ensures var w2 := Apply(m, Apply(m, Apply(m, w, BeginLookup(p, i)), Go(p, false)), Go(p, false));
      var w4 := Apply(m, Apply(m, w2, Go(p, false)), Go(p, false));
      w2.results == w4.results == w.results + [(i, None)] && SlotOf(w4, m.key(i)).Absent? && Where(w4, p).Idle?
  {
    var a := Apply(m, w, BeginLookup(p, i));
    var b := Apply(m, a, Go(p, false));
    assert Where(b, p) == Missing(i);
    var w2 := Apply(m, b, Go(p, false));
    assert Where(w2, p) == Discards(m.key(i), false);
    var c := Apply(m, w2, Go(p, false));
    assert SlotOf(c, m.key(i)) == Dir(None) && Where(c, p) == Discards(m.key(i), true);
  }

  /** An undisturbed lookup of an entry that decodes to a usable value returns it and keeps the entry. */
  lemma GoodEntryHits<I(!new), V>(m: Memo<I, V>, w: World<I, V>, p: nat, i: I, text: string)
    requires m.keyed(i) && Where(w, p).Idle? && SlotOf(w, m.key(i)) == Dir(Some(text)) && m.decode(text).Some?
    ensures var w2 := Apply(m, Apply(m, Apply(m, w, BeginLookup(p, i)), Go(p, false)), Go(p, false));
      w2.results == w.results + [(i, m.decode(text))] && w2.slots == w.slots && Where(w2, p).Idle?
  {
    var a := Apply(m, w, BeginLookup(p, i));
    var b := Apply(m, a, Go(p, false));
    assert Where(b, p) == HasText(i, text);
  }
}
