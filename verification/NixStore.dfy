/** The parts of Nix the toolchain archives rely on: references, the requisites query, import. */
module NixStore {
  import opened Sequences
  import opened Wrappers

  /** The references of a path, fixed by its content. A path may refer to itself. */
  type Refs = string -> set<string>

  /** `nix-store --query --requisites seeds`: the non-blank lines, or `None` for a non-zero exit. */
  type Query = seq<string> -> Option<seq<string>>

  /** Every path comes after the paths it refers to. */
  predicate DepsFirst(refs: Refs, s: seq<string>) {
    forall i, r :: 0 <= i < |s| && r in refs(s[i]) ==> r == s[i] || r in s[..i]
  }

  predicate RefClosed(refs: Refs, c: set<string>) {
    forall p, r :: p in c && r in refs(p) ==> r in c
  }

  /** `list` is the closure of the seeds: the least reference-closed set over them, listed once
      each, dependencies first. */
  ghost predicate IsClosureOf(refs: Refs, seeds: seq<string>, list: seq<string>) {
    && Distinct(list)
    && DepsFirst(refs, list)
    && Elements(seeds) <= Elements(list)
    && forall c: set<string> :: RefClosed(refs, c) && Elements(seeds) <= c ==> Elements(list) <= c
  }

  /** The query tells the truth about the store whenever it exits with zero. */
  ghost predicate Faithful(refs: Refs, q: Query) {
    forall seeds :: q(seeds).Some? ==> IsClosureOf(refs, seeds, q(seeds).value)
  }

  /** `nix-store --import` (`workers/build_compilers_worker.py`): paths are registered in archive order,
      and a path whose references are not all registered makes the import fail. */
  function Import(refs: Refs, store: set<string>, archive: seq<string>): Option<set<string>> {
    if archive == [] then Some(store)
    else
      var n := |archive| - 1;
      match Import(refs, store, archive[..n])
      case None => None
      case Some(s) => if refs(archive[n]) <= s + {archive[n]} then Some(s + {archive[n]}) else None
  }

  // ----------------------------------------------------------------------------------- sequences

  /** The paths of `s` outside `drop`, in order. */
  function Without(s: seq<string>, drop: set<string>): (r: seq<string>)
    ensures forall p :: p in r <==> p in s && p !in drop
    ensures Distinct(s) ==> Distinct(r)
  {
    if s == [] then []
    else
      var n := |s| - 1;
      assert s == s[..n] + [s[n]];
      Without(s[..n], drop) + (if s[n] in drop then [] else [s[n]])
  }

  lemma ClosedOfDepsFirst(refs: Refs, s: seq<string>)
    requires DepsFirst(refs, s)
    ensures RefClosed(refs, Elements(s))
  {
  }

  lemma DepsFirstPrefix(refs: Refs, s: seq<string>, n: nat)
    requires DepsFirst(refs, s) && n <= |s|
    ensures DepsFirst(refs, s[..n])
  {
    forall i, r | 0 <= i < n && r in refs(s[..n][i]) ensures r == s[..n][i] || r in s[..n][..i] {
      assert s[..n][..i] == s[..i];
    }
  }

  // -------------------------------------------------------------------------------------- import

  lemma {:induction false} ImportAdds(refs: Refs, store: set<string>, archive: seq<string>)
    ensures Import(refs, store, archive).Some? ==> Import(refs, store, archive).value == store + Elements(archive)
  {
    if archive != [] {
      var n := |archive| - 1;
      ImportAdds(refs, store, archive[..n]);
      assert archive == archive[..n] + [archive[n]];
      ElementsConcat(archive[..n], [archive[n]]);
      assert Elements([archive[n]]) == {archive[n]};
    }
  }

  /** After a successful import nothing that was imported has a dangling reference. */
  lemma {:induction false} ImportedRefs(refs: Refs, store: set<string>, archive: seq<string>, p: string)
    requires Import(refs, store, archive).Some? && p in archive
    ensures refs(p) <= store + Elements(archive)
  {
    var n := |archive| - 1;
    assert archive == archive[..n] + [archive[n]];
    ImportAdds(refs, store, archive[..n]);
    if p in archive[..n] {
      ImportedRefs(refs, store, archive[..n], p);
    }
    ElementsConcat(archive[..n], [archive[n]]);
    assert Elements([archive[n]]) == {archive[n]};
  }

  /** What the removed paths owe the store: the references that point at them. */
  predicate Provided(refs: Refs, store: set<string>, list: seq<string>, drop: set<string>) {
    forall p, r :: p in list && p !in drop && r in refs(p) && r in drop ==> r in store
  }

  lemma ImportSnoc(refs: Refs, store: set<string>, archive: seq<string>, p: string, s: set<string>)
    requires Import(refs, store, archive) == Some(s) && refs(p) <= s + {p}
    ensures Import(refs, store, archive + [p]) == Some(s + {p})
  {
    assert (archive + [p])[..|archive|] == archive;
  }

  lemma LastRefs(refs: Refs, store: set<string>, list: seq<string>, drop: set<string>)
    requires list != [] && DepsFirst(refs, list) && Provided(refs, store, list, drop)
    requires list[|list| - 1] !in drop
    ensures refs(list[|list| - 1]) <= store + (Elements(list[..|list| - 1]) - drop) + {list[|list| - 1]}
  {
    var n := |list| - 1;
    assert list[n] in list;
    forall r | r in refs(list[n]) ensures r in store + (Elements(list[..n]) - drop) + {list[n]} {
      assert r == list[n] || r in list[..n];
    }
  }

  lemma {:induction false} ImportProvided(refs: Refs, store: set<string>, list: seq<string>, drop: set<string>)
    requires DepsFirst(refs, list) && Provided(refs, store, list, drop)
    ensures Import(refs, store, Without(list, drop)) == Some(store + (Elements(list) - drop))
  {
    hide DepsFirst, Import;
    if list == [] {
      NothingToImport(refs, store);
      assert store + (Elements(list) - drop) == store;
    } else {
      var n := |list| - 1;
      assert list == list[..n] + [list[n]];
      DepsFirstPrefix(refs, list, n);
      ImportProvided(refs, store, list[..n], drop);
      var s := store + (Elements(list[..n]) - drop);
      if list[n] in drop {
        assert Elements(list) - drop == Elements(list[..n]) - drop;
        assert Without(list, drop) == Without(list[..n], drop);
      } else {
        LastRefs(refs, store, list, drop);
        ImportSnoc(refs, store, Without(list[..n], drop), list[n], s);
        assert s + {list[n]} == store + (Elements(list) - drop);
      }
    }
  }

  lemma NothingToImport(refs: Refs, store: set<string>)
    ensures Import(refs, store, []) == Some(store)
  {
  }

  /** A closure stripped of `drop` can be imported exactly when the store already holds every
      stripped path that a kept one refers to; then nothing else is missing. */
  lemma ImportStripped(refs: Refs, store: set<string>, list: seq<string>, drop: set<string>)
    requires DepsFirst(refs, list)
    ensures Import(refs, store, Without(list, drop)).Some? <==> Provided(refs, store, list, drop)
    ensures Provided(refs, store, list, drop) ==>
      Import(refs, store, Without(list, drop)) == Some(store + (Elements(list) - drop))
  {
    if Provided(refs, store, list, drop) {
      ImportProvided(refs, store, list, drop);
    }
    if Import(refs, store, Without(list, drop)).Some? {
      forall p, r | p in list && p !in drop && r in refs(p) && r in drop ensures r in store {
        ImportedRefs(refs, store, Without(list, drop), p);
      }
    }
  }

  /** An unstripped closure can be imported anywhere. */
  lemma ImportClosure(refs: Refs, store: set<string>, list: seq<string>)
    requires DepsFirst(refs, list)
    ensures Import(refs, store, list) == Some(store + Elements(list))
  {
    WithoutNothing(list);
    ImportProvided(refs, store, list, {});
    assert Elements(list) - {} == Elements(list);
  }

  lemma {:induction false} WithoutNothing(s: seq<string>)
    ensures Without(s, {}) == s
  {
    if s != [] {
      var n := |s| - 1;
      assert s == s[..n] + [s[n]];
      WithoutKeeps(s, {});
      hide Without;
      WithoutNothing(s[..n]);
    }
  }

  lemma WithoutKeeps(s: seq<string>, drop: set<string>)
    requires s != [] && s[|s| - 1] !in drop
    ensures Without(s, drop) == Without(s[..|s| - 1], drop) + [s[|s| - 1]]
  {
  }

  lemma {:induction false} NothingLeft(s: seq<string>, drop: set<string>)
    requires forall p :: p in s ==> p in drop
    ensures Without(s, drop) == []
  {
    if s != [] {
      assert s[|s| - 1] in s;
      NothingLeft(s[..|s| - 1], drop);
    }
  }
}
