/** The race for the cluster signing key (`peer_cache.py`), one file operation a step. */
module SigningKey {
  import opened Wrappers

  const KEY_PREFIX := "asm-suit-cluster-"
  const RELOAD_ATTEMPTS := 40

  /** The check of `_read_existing_signing_key`. */
  predicate Accepts(runId: string, publicKey: string) {
    publicKey != "" && (KEY_PREFIX + runId + ":" <= publicKey || KEY_PREFIX <= publicKey)
  }

  /** Any number of callers of `generate_signing_key` share one directory. */
  type Caller = nat

  /** `__signing-key`: an exclusive create makes an empty file, its content follows later. */
  datatype SecretFile = Absent | Created(owner: Caller) | Written(owner: Caller)

  /** Where a caller is inside `generate_signing_key`. */
  datatype At =
    | Start
    | SeenSecret
    | SeenBoth
    | Generated
    | WritesSecret
    | Publishes
    | Lost(attempts: nat)
    | Returned(publicKey: string)
    | Failed

  datatype World = World(secret: SecretFile, public: Option<string>, callers: map<Caller, At>)

  /** The run, and the public key that belongs to the secret each caller would generate. */
  datatype Setup = Setup(runId: string, keyOf: map<Caller, string>)

  /** What `nix key convert-secret-to-public` prints carries the key name. */
  predicate WellSetUp(u: Setup) {
    forall c :: c in u.keyOf ==> KEY_PREFIX + u.runId + ":" <= u.keyOf[c]
  }

  predicate WellFormed(u: Setup, w: World) {
    w.callers.Keys == u.keyOf.Keys && (!w.secret.Absent? ==> w.secret.owner in u.keyOf)
  }

  function Read(u: Setup, w: World): Option<string> {
    if w.public.Some? && Accepts(u.runId, w.public.value) then w.public else None
  }

  predicate Done(a: At) {
    a.Returned? || a.Failed?
  }

  /** The next file operation of caller `c`. */
  function Move(u: Setup, w: World, c: Caller): World
    requires WellFormed(u, w) && c in w.callers && !Done(w.callers[c])
  {
    match w.callers[c]
    case Start => w.(callers := w.callers[c := if w.secret.Absent? then Generated else SeenSecret])
    case SeenSecret => w.(callers := w.callers[c := if w.public.None? then Generated else SeenBoth])
    case SeenBoth =>
      w.(callers := w.callers[c := if Read(u, w).Some? then Returned(Read(u, w).value) else Generated])
    case Generated =>
      if w.secret.Absent? then w.(secret := Created(c), callers := w.callers[c := WritesSecret])
      else w.(callers := w.callers[c := Lost(RELOAD_ATTEMPTS)])
    case WritesSecret => w.(secret := Written(c), callers := w.callers[c := Publishes])
    case Publishes => w.(public := Some(u.keyOf[c]), callers := w.callers[c := Returned(u.keyOf[c])])
    case Lost(attempts) =>
      if attempts == 0 then w.(callers := w.callers[c := Failed])
      else if Read(u, w).Some? then w.(callers := w.callers[c := Returned(Read(u, w).value)])
      else w.(callers := w.callers[c := Lost(attempts - 1)])
  }

  /** A caller moves on, or dies wherever it is (a missing `nix`, a full disk, a killed process). */
  datatype Step = Moves(c: Caller) | Dies(c: Caller)

  predicate Enabled(u: Setup, w: World, s: Step) {
    WellFormed(u, w) && s.c in w.callers && !Done(w.callers[s.c])
  }

  function Apply(u: Setup, w: World, s: Step): World
    requires Enabled(u, w, s)
  {
    if s.Moves? then Move(u, w, s.c) else w.(callers := w.callers[s.c := Failed])
  }

  predicate Run(u: Setup, w: World, steps: seq<Step>, w': World)
    decreases |steps|
  {
    if steps == [] then w == w'
    else Enabled(u, w, steps[0]) && Run(u, Apply(u, w, steps[0]), steps[1..], w')
  }

  /** No secret on disk yet, and perhaps a public key left behind by something else. */
  function Begin(u: Setup, leftover: Option<string>): World {
    World(Absent, leftover, map c | c in u.keyOf :: Start)
  }

  /** The run id makes no difference: every key of the common prefix is accepted, and nothing else. */
  lemma RunIdIsIgnored(runId: string, publicKey: string)
    ensures Accepts(runId, publicKey) <==> "asm-suit-cluster-" <= publicKey
  {
    if KEY_PREFIX + runId + ":" <= publicKey {
      assert KEY_PREFIX <= KEY_PREFIX + runId + ":";
    }
  }

  // ------------------------------------------------------------------------------------ agreement

  /** Only the creator of the secret writes and publishes; whatever public key can be read, and
      whatever any caller returned, is the one of the secret on disk. */
  ghost predicate Agreed(u: Setup, leftover: Option<string>, w: World) {
    FilesAgree(u, leftover, w) && ReturnsAgree(u, w)
  }

  ghost predicate FilesAgree(u: Setup, leftover: Option<string>, w: World) {
    && WellFormed(u, w)
    && (forall c :: c in w.callers && w.callers[c].WritesSecret? ==> w.secret == Created(c))
    && (forall c :: c in w.callers && w.callers[c].Publishes? ==> w.secret == Written(c))
    && (w.public == leftover || (w.secret.Written? && w.public == Some(u.keyOf[w.secret.owner])))
  }

  ghost predicate ReturnsAgree(u: Setup, w: World)
    requires WellFormed(u, w)
  {
    forall c :: c in w.callers && w.callers[c].Returned? ==>
      w.secret.Written? && w.public == Some(w.callers[c].publicKey) && w.callers[c].publicKey == u.keyOf[w.secret.owner]
  }

  lemma MoveKeepsFiles(u: Setup, leftover: Option<string>, w: World, s: Step)
    requires FilesAgree(u, leftover, w) && Enabled(u, w, s)
    ensures FilesAgree(u, leftover, Apply(u, w, s))
  {
    hide Accepts, Read;
  }

  lemma MoveKeepsReturns(u: Setup, leftover: Option<string>, w: World, s: Step)
    requires leftover.None? || !Accepts(u.runId, leftover.value)
    requires FilesAgree(u, leftover, w) && ReturnsAgree(u, w) && Enabled(u, w, s)
    requires WellFormed(u, Apply(u, w, s))
    ensures ReturnsAgree(u, Apply(u, w, s))
  {
    hide Accepts;
  }

  lemma MoveKeepsAgreed(u: Setup, leftover: Option<string>, w: World, s: Step)
    requires leftover.None? || !Accepts(u.runId, leftover.value)
    requires Agreed(u, leftover, w) && Enabled(u, w, s)
    ensures Agreed(u, leftover, Apply(u, w, s))
  {
    hide Accepts, Apply, Enabled, ReturnsAgree;
    MoveKeepsFiles(u, leftover, w, s);
    MoveKeepsReturns(u, leftover, w, s);
  }

  lemma {:induction false} RunKeepsAgreed(u: Setup, leftover: Option<string>, w: World, steps: seq<Step>, w': World)
    requires leftover.None? || !Accepts(u.runId, leftover.value)
    requires Agreed(u, leftover, w) && Run(u, w, steps, w')
    ensures Agreed(u, leftover, w')
    decreases |steps|
  {
    hide Agreed, Apply, Enabled, Accepts;
    if steps != [] {
      MoveKeepsAgreed(u, leftover, w, steps[0]);
      RunKeepsAgreed(u, leftover, Apply(u, w, steps[0]), steps[1..], w');
    }
  }

  lemma {:induction false} RunKeepsFiles(u: Setup, leftover: Option<string>, w: World, steps: seq<Step>, w': World)
    requires FilesAgree(u, leftover, w) && Run(u, w, steps, w')
    ensures FilesAgree(u, leftover, w')
    decreases |steps|
  {
    hide FilesAgree, Apply, Enabled;
    if steps != [] {
      MoveKeepsFiles(u, leftover, w, steps[0]);
      RunKeepsFiles(u, leftover, Apply(u, w, steps[0]), steps[1..], w');
    }
  }

  /** In every reachable state, whether or not anyone has returned or somebody died half way: the
      public key on disk is the one of the secret on disk, or still what was there at the beginning. */
  lemma PairNeverMismatched(u: Setup, leftover: Option<string>, steps: seq<Step>, w: World)
    requires Run(u, Begin(u, leftover), steps, w)
    ensures WellFormed(u, w)
    ensures w.public == leftover || (w.secret.Written? && w.public == Some(u.keyOf[w.secret.owner]))
  {
    RunKeepsFiles(u, leftover, Begin(u, leftover), steps, w);
  }

  /** The secret is created once: whatever happens later, it keeps its owner and its content. */
  lemma {:induction false} SecretIsFinal(u: Setup, leftover: Option<string>, w: World, steps: seq<Step>, w': World)
    requires FilesAgree(u, leftover, w) && Run(u, w, steps, w') && !w.secret.Absent?
    ensures !w'.secret.Absent? && w'.secret.owner == w.secret.owner
    ensures w.secret.Written? ==> w'.secret == w.secret
    decreases |steps|
  {
    hide Read;
    if steps != [] {
      MoveKeepsFiles(u, leftover, w, steps[0]);
      SecretIsFinal(u, leftover, Apply(u, w, steps[0]), steps[1..], w');
    }
  }

  /** The hypothesis is needed: a public key left behind by any earlier run passes the prefix check,
      so a caller that looks while the secret is still empty returns it, and the winner another. */
  lemma LeftoverIsReturned(u: Setup, leftover: string, a: Caller, b: Caller) returns (steps: seq<Step>, w: World)
    requires Accepts(u.runId, leftover) && a in u.keyOf && b in u.keyOf && a != b && u.keyOf[a] != leftover
    ensures Run(u, Begin(u, Some(leftover)), steps, w) && w.callers.Keys == u.keyOf.Keys
    ensures w.secret == Written(a) && w.callers[a] == Returned(u.keyOf[a]) && w.callers[b] == Returned(leftover)
  {
    hide Accepts, Run, Move, Begin;
    var w0 := Begin(u, Some(leftover));
    BeginIs(u, Some(leftover));
    steps, w := CreatesSecret(u, w0, a);
    steps, w := ReadsLeftover(u, w0, steps, w, b);
    var w6 := RunNext(u, w0, steps, w, Moves(a));
    MovesOn(u, w, a);
    steps := steps + [Moves(a)];
    w := RunNext(u, w0, steps, w6, Moves(a));
    MovesOn(u, w6, a);
    steps := steps + [Moves(a)];
  }

  lemma BeginIs(u: Setup, leftover: Option<string>)
    ensures WellFormed(u, Begin(u, leftover)) && Begin(u, leftover).secret == Absent && Begin(u, leftover).public == leftover
    ensures forall c :: c in u.keyOf ==> Begin(u, leftover).callers[c] == Start
  {
  }

  /** The steps of the winner after its exclusive create. */
  lemma MovesOn(u: Setup, w: World, c: Caller)
    requires WellFormed(u, w) && c in w.callers && (w.callers[c].WritesSecret? || w.callers[c].Publishes?)
    ensures Move(u, w, c).callers == w.callers[c := if w.callers[c].WritesSecret? then Publishes else Returned(u.keyOf[c])]
    ensures w.callers[c].WritesSecret? ==> Move(u, w, c).secret == Written(c)
    ensures w.callers[c].Publishes? ==> Move(u, w, c).secret == w.secret
  {
  }

  lemma CreatesSecret(u: Setup, w0: World, a: Caller) returns (steps: seq<Step>, w: World)
    requires WellFormed(u, w0) && w0.secret == Absent && a in w0.callers && w0.callers[a] == Start
    ensures Run(u, w0, steps, w) && w == World(Created(a), w0.public, w0.callers[a := WritesSecret])
  {
    hide Run;
    NoSteps(u, w0);
    var w1 := RunNext(u, w0, [], w0, Moves(a));
    w := RunNext(u, w0, [] + [Moves(a)], w1, Moves(a));
    steps := [] + [Moves(a)] + [Moves(a)];
  }

  lemma ReadsLeftover(u: Setup, w0: World, steps: seq<Step>, w: World, b: Caller) returns (more: seq<Step>, w': World)
    requires Run(u, w0, steps, w) && WellFormed(u, w) && !w.secret.Absent?
    requires b in w.callers && w.callers[b] == Start && w.public.Some? && Accepts(u.runId, w.public.value)
    ensures Run(u, w0, more, w') && w' == w.(callers := w.callers[b := Returned(w.public.value)])
  {
    hide Run, Accepts;
    var w1 := RunNext(u, w0, steps, w, Moves(b));
    more := steps + [Moves(b)];
    var w2 := RunNext(u, w0, more, w1, Moves(b));
    more := more + [Moves(b)];
    w' := RunNext(u, w0, more, w2, Moves(b));
    more := more + [Moves(b)];
  }

  lemma NoSteps(u: Setup, w: World)
    ensures Run(u, w, [], w)
  {
  }

  lemma {:induction false} RunNext(u: Setup, w0: World, steps: seq<Step>, w: World, s: Step) returns (w': World)
    requires Run(u, w0, steps, w) && Enabled(u, w, s)
    ensures w' == Apply(u, w, s) && Run(u, w0, steps + [s], w')
    decreases |steps|
  {
    hide Apply, Enabled;
    w' := Apply(u, w, s);
    if steps == [] {
      assert ([] + [s])[1..] == [];
      NoSteps(u, w');
    } else {
      var w'' := RunNext(u, Apply(u, w0, steps[0]), steps[1..], w, s);
      assert (steps + [s])[1..] == steps[1..] + [s];
    }
  }

  /** A caller that lost the race fails its reload only while there is no acceptable public key; once
      the winner has published, its next read returns the winner's key. */
  lemma LoserReloadsPublished(u: Setup, w: World, c: Caller)
    requires WellSetUp(u) && WellFormed(u, w) && c in w.callers && w.callers[c].Lost? && w.callers[c].attempts > 0
    requires w.secret.Written? && w.public == Some(u.keyOf[w.secret.owner])
    ensures Move(u, w, c).callers[c] == Returned(u.keyOf[w.secret.owner])
  {
    var key := u.keyOf[w.secret.owner];
    assert KEY_PREFIX + u.runId + ":" <= key;
    assert key != "";
  }

  /** Starting with neither file (or with a leftover public key the reader rejects): under every
      interleaving, all callers that return got the public key of the one secret on disk. */
  lemma AllReturnTheSecretsKey(u: Setup, leftover: Option<string>, steps: seq<Step>, w: World, c: Caller)
    requires leftover.None? || !Accepts(u.runId, leftover.value)
    requires Run(u, Begin(u, leftover), steps, w) && c in w.callers && w.callers[c].Returned?
    ensures w.secret.Written? && w.secret.owner in u.keyOf
    ensures w.callers[c].publicKey == u.keyOf[w.secret.owner] && w.public == Some(u.keyOf[w.secret.owner])
  {
    RunKeepsAgreed(u, leftover, Begin(u, leftover), steps, w);
  }

  // -------------------------------------------------------------------------------------- reloads

  /** Caller `c` lost the race, looks at the public key, and goes on waiting. */
  predicate ReloadsInVain(w: World, s: Step, w': World) {
    && s.c in w.callers && s.c in w'.callers && w.callers[s.c].Lost? && w'.callers[s.c].Lost?
    && s.Moves? && (w.public.None? || !("asm-suit-cluster-" <= w.public.value))
  }

  function Reloads(u: Setup, w: World, steps: seq<Step>, c: Caller): nat
    decreases |steps|
  {
    if steps == [] || !Enabled(u, w, steps[0]) then 0
    else
      var w1 := Apply(u, w, steps[0]);
      (if steps[0].c == c && ReloadsInVain(w, steps[0], w1) then 1 else 0) + Reloads(u, w1, steps[1..], c)
  }

  /** How many vain reloads a caller has ahead of it before it fails. */
  function Ahead(a: At): nat {
    if a.Lost? then a.attempts else RELOAD_ATTEMPTS
  }

  predicate MayFail(a: At) {
    a.Start? || a.SeenSecret? || a.SeenBoth? || a.Generated? || a.Lost?
  }

  lemma StepTowardsFailure(u: Setup, w: World, s: Step, c: Caller)
    requires Enabled(u, w, s) && s != Dies(c) && c in w.callers
    ensures var w' := Apply(u, w, s);
      && c in w'.callers && WellFormed(u, w')
      && (Done(w.callers[c]) || !MayFail(w.callers[c]) ==> w'.callers[c].Failed? == w.callers[c].Failed?)
      && (!MayFail(w.callers[c]) && !w.callers[c].Failed? ==> !MayFail(w'.callers[c]))
      && (MayFail(w.callers[c]) && w'.callers[c].Failed? ==> Ahead(w.callers[c]) == 0)
      && (MayFail(w.callers[c]) && MayFail(w'.callers[c]) ==>
            Ahead(w.callers[c]) == Ahead(w'.callers[c]) + if s.c == c && ReloadsInVain(w, s, w') then 1 else 0)
      && (w'.callers[c].Failed? && s.c == c ==> !ReloadsInVain(w, s, w'))
  {
    RunIdIsIgnored(u.runId, if w.public.Some? then w.public.value else "");
    hide Accepts;
  }

  lemma {:induction false} CallersStay(u: Setup, w: World, steps: seq<Step>, w': World, c: Caller)
    requires Run(u, w, steps, w') && Dies(c) !in steps && c in w.callers && (MayFail(w.callers[c]) || !w.callers[c].Failed?)
    ensures c in w'.callers && (w'.callers[c].Failed? ==> MayFail(w.callers[c]) && Reloads(u, w, steps, c) == Ahead(w.callers[c]))
    decreases |steps|
  {
    hide Apply, Enabled, ReloadsInVain;
    if steps != [] {
      StepTowardsFailure(u, w, steps[0], c);
      var w1 := Apply(u, w, steps[0]);
      if w1.callers[c].Failed? {
        FailedStays(u, w1, steps[1..], w', c);
      } else {
        CallersStay(u, w1, steps[1..], w', c);
      }
    }
  }

  lemma {:induction false} FailedStays(u: Setup, w: World, steps: seq<Step>, w': World, c: Caller)
    requires Run(u, w, steps, w') && c in w.callers && w.callers[c].Failed?
    ensures c in w'.callers && w'.callers[c].Failed? && Reloads(u, w, steps, c) == 0
    decreases |steps|
  {
    if steps != [] {
      FailedStays(u, Apply(u, w, steps[0]), steps[1..], w', c);
    }
  }

  /** A caller that nothing kills fails only after it has lost the race and reloaded forty times, each
      time without an acceptable public key on disk. */
  lemma FailsOnlyAfterReloads(u: Setup, leftover: Option<string>, steps: seq<Step>, w: World, c: Caller)
    requires Run(u, Begin(u, leftover), steps, w) && Dies(c) !in steps && c in w.callers && w.callers[c].Failed?
    ensures Reloads(u, Begin(u, leftover), steps, c) == 40
  {
    hide Run, Begin;
    BeginIs(u, leftover);
    RunKeepsKeys(u, Begin(u, leftover), steps, w);
    CallersStay(u, Begin(u, leftover), steps, w, c);
  }

  lemma {:induction false} RunKeepsKeys(u: Setup, w: World, steps: seq<Step>, w': World)
    requires Run(u, w, steps, w')
    ensures w'.callers.Keys == w.callers.Keys
    decreases |steps|
  {
    if steps != [] {
      RunKeepsKeys(u, Apply(u, w, steps[0]), steps[1..], w');
    }
  }

  /** A caller that finds both files and an acceptable public key returns it after three reads, and
      writes nothing. */
  lemma ExistingPairIsReturned(u: Setup, w: World, c: Caller)
    requires WellFormed(u, w) && c in w.callers && w.callers[c].Start? && !w.secret.Absent?
    requires w.public.Some? && "asm-suit-cluster-" <= w.public.value
    ensures var w1 := Move(u, w, c);
      && WellFormed(u, w1) && c in w1.callers && !Done(w1.callers[c])
      && var w2 := Move(u, w1, c);
      && WellFormed(u, w2) && c in w2.callers && !Done(w2.callers[c])
      && Move(u, w2, c) == w.(callers := w.callers[c := Returned(w.public.value)])
  {
    hide Accepts;
    RunIdIsIgnored(u.runId, w.public.value);
    var w1 := Move(u, w, c);
    var w2 := Move(u, w1, c);
    assert w2.callers == w.callers[c := SeenBoth];
    assert Move(u, w2, c).callers == w.callers[c := Returned(w.public.value)];
  }
}
