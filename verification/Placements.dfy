/** Placement gossip: the record a node appends to its own file (`peer_paths.py`), the aggregation of
    all nodes' files into one map of holders, and the differences between two such maps that the
    watcher hands to its subscribers (`peer_cache.py`). */
module Placements {
  import opened Wrappers
  import opened Cluster
  import opened Json
  import opened JsonSort
  import opened Sequences
  import J = JsonRoundTrip

  datatype Diff = Diff(added: Aggregate, removed: Aggregate)

  /** A directory entry; `lines` are its stripped lines, `None` when the file cannot be read. */
  datatype Entry = Entry(name: string, isFile: bool, lines: Option<seq<string>>)

  /** No outpath is listed without a holder. */
  predicate NoEmpty(m: Aggregate) {
    forall o :: o in m ==> m[o] != {}
  }

  // --------------------------------------------------------------------------------- aggregation

  predicate IsPlacementFile(e: Entry) {
    e.isFile && "_paths_" <= e.name && EndsWith(e.name, ".jsonl")
  }

  /** The holder and path a line records; malformed lines record nothing. */
  function Record(line: string): Option<(Outpath, Sid)> {
    match Parse(line)
    case Some(Obj(ms)) =>
      (match (Get(ms, "outpath"), Get(ms, "secondary_id"))
       case (Some(Str(o)), Some(Str(s))) => if o == "" || s == "" then None else Some((o, s))
       case _ => None)
    case _ => None
  }

  predicate LineSays(lines: seq<string>, o: Outpath, s: Sid) {
    exists j :: 0 <= j < |lines| && Record(lines[j]) == Some((o, s))
  }

  /** Some readable placement file has a line saying that `s` holds `o`. */
  predicate Listed(entries: seq<Entry>, o: Outpath, s: Sid) {
    exists i :: 0 <= i < |entries| && EntrySays(entries[i], o, s)
  }

  predicate EntrySays(e: Entry, o: Outpath, s: Sid) {
    IsPlacementFile(e) && e.lines.Some? && LineSays(e.lines.value, o, s)
  }

  /** A well-formed line: a JSON object with a path and a holder, neither of them empty. */
  predicate IsClaim(line: string, o: Outpath, s: Sid) {
    && o != "" && s != ""
    && match Parse(line)
       case Some(Obj(ms)) => Get(ms, "outpath") == Some(Str(o)) && Get(ms, "secondary_id") == Some(Str(s))
       case _ => false
  }

  /** Only regular files with the two name parts count, and of their lines only such claims. */
  lemma EntrySaysIff(e: Entry, o: Outpath, s: Sid)
    ensures EntrySays(e, o, s) <==>
      && e.isFile && "_paths_" <= e.name && |e.name| >= 6 && e.name[|e.name| - 6..] == ".jsonl"
      && e.lines.Some? && exists line :: line in e.lines.value && IsClaim(line, o, s)
  {
    hide Parse, Get;
    if e.lines.Some? {
      var lines := e.lines.value;
      forall line ensures Record(line) == Some((o, s)) <==> IsClaim(line, o, s) {}
      if LineSays(lines, o, s) {
        var j :| 0 <= j < |lines| && Record(lines[j]) == Some((o, s));
        assert lines[j] in lines;
      }
      if line :| line in lines && IsClaim(line, o, s) {
        var j :| 0 <= j < |lines| && lines[j] == line;
        assert Record(lines[j]) == Some((o, s));
      }
    }
  }

  /** `_read_all_placement_files`; `None` for a missing directory. */
  method ReadAllPlacementFiles(dir: Option<seq<Entry>>) returns (aggregate: Aggregate)
    ensures NoEmpty(aggregate)
    ensures forall o, s :: s in HoldersIn(aggregate, o) <==> dir.Some? && Listed(dir.value, o, s)
  {
    hide Record, IsPlacementFile, LineSays;
    aggregate := map[];
    if dir == None {
      return;
    }
    var entries := dir.value;
    for n := 0 to |entries|
      invariant NoEmpty(aggregate)
      invariant forall o, s :: s in HoldersIn(aggregate, o) <==> Listed(entries[..n], o, s)
    {
      ListedSnoc(entries, n);
      if !IsPlacementFile(entries[n]) {
        continue;
      }
      if entries[n].lines == None {
        continue;
      }
      aggregate := ReadLines(aggregate, entries[n].lines.value);
    }
    assert entries[..|entries|] == entries;
  }

  lemma ListedSnoc(entries: seq<Entry>, n: nat)
    requires n < |entries|
    ensures forall o, s :: Listed(entries[..n + 1], o, s) <==> Listed(entries[..n], o, s) || EntrySays(entries[n], o, s)
  {
    hide EntrySays;
    forall o, s ensures Listed(entries[..n + 1], o, s) <==> Listed(entries[..n], o, s) || EntrySays(entries[n], o, s) {
      assert entries[..n + 1][n] == entries[n] && forall i :: 0 <= i < n ==> entries[..n + 1][i] == entries[..n][i];
    }
  }

  /** `aggregate.setdefault(outpath, set()).add(sid)` for every line that records something. */
  method ReadLines(before: Aggregate, lines: seq<string>) returns (aggregate: Aggregate)
    requires NoEmpty(before)
    ensures NoEmpty(aggregate)
    ensures forall o, s :: s in HoldersIn(aggregate, o) <==> s in HoldersIn(before, o) || LineSays(lines, o, s)
  {
    hide Record;
    aggregate := before;
    for n := 0 to |lines|
      invariant NoEmpty(aggregate)
      invariant forall o, s :: s in HoldersIn(aggregate, o) <==> s in HoldersIn(before, o) || LineSays(lines[..n], o, s)
    {
      LineSaysSnoc(lines, n);
      var record := Record(lines[n]);
      if record == None {
        continue;
      }
      var (o, s) := record.value;
      aggregate := aggregate[o := HoldersIn(aggregate, o) + {s}];
    }
    assert lines[..|lines|] == lines;
  }

  lemma LineSaysSnoc(lines: seq<string>, n: nat)
    requires n < |lines|
    ensures forall o, s :: LineSays(lines[..n + 1], o, s) <==> LineSays(lines[..n], o, s) || Record(lines[n]) == Some((o, s))
  {
    hide Record;
    forall o, s ensures LineSays(lines[..n + 1], o, s) <==> LineSays(lines[..n], o, s) || Record(lines[n]) == Some((o, s)) {
      assert lines[..n + 1][n] == lines[n] && forall i :: 0 <= i < n ==> lines[..n + 1][i] == lines[..n][i];
    }
  }

  // -------------------------------------------------------------------------------------- records

  /** The record of `record_self_has`; `ts` is the clock reading, a float. */
  function RecordMembers(me: Sid, o: Outpath, drvPath: string, itemClass: string, ts: Numeral): seq<Member> {
    [ Member("secondary_id", Str(me)), Member("outpath", Str(o)), Member("drv_path", Str(drvPath)),
      Member("item_class", Str(itemClass)), Member("ts", Float(ts)) ]
  }

  /** `json.dumps(record, sort_keys=True)`. */
  function RecordLine(me: Sid, o: Outpath, drvPath: string, itemClass: string, ts: Numeral): string {
    Line(SortKeys(Obj(RecordMembers(me, o, drvPath, itemClass, ts))))
  }

  function FileOf(me: Sid): string {
    "_paths_" + me + ".jsonl"
  }

  /** One `write` in append mode; the file is created when it is missing. */
  function AppendLine(entries: seq<Entry>, name: string, line: string): seq<Entry>
    requires forall e :: e in entries && e.name == name ==> e.isFile && e.lines.Some?
  {
    if entries == [] then [Entry(name, true, Some([line]))]
    else if entries[0].name == name then [entries[0].(lines := Some(entries[0].lines.value + [line]))] + entries[1..]
    else [entries[0]] + AppendLine(entries[1..], name, line)
  }

  /** `record_self_has`, up to the push; empty arguments raise. */
  function RecordSelfHas(entries: seq<Entry>, me: Sid, o: Outpath, drvPath: string, itemClass: string, ts: Numeral):
      Outcome<seq<Entry>>
    requires forall e :: e in entries && e.name == FileOf(me) ==> e.isFile && e.lines.Some?
  {
    if o == "" || me == "" then Raised
    else Ok(AppendLine(entries, FileOf(me), RecordLine(me, o, drvPath, itemClass, ts)))
  }

  lemma RecordKeys(a: Json, b: Json, c: Json, d: Json, e: Json)
    ensures UniqueKeys([ Member("secondary_id", a), Member("outpath", b), Member("drv_path", c),
                         Member("item_class", d), Member("ts", e) ])
  {
    assert |"secondary_id"| == 12 && |"outpath"| == 7 && |"drv_path"| == 8 && |"item_class"| == 10 && |"ts"| == 2;
  }

  lemma RecordIsDict(me: Sid, o: Outpath, drvPath: string, itemClass: string, ts: Numeral)
    ensures UniqueKeys(RecordMembers(me, o, drvPath, itemClass, ts))
    ensures WellFormed(Obj(RecordMembers(me, o, drvPath, itemClass, ts)))
  {
    hide UniqueKeys;
    RecordKeys(Str(me), Str(o), Str(drvPath), Str(itemClass), Float(ts));
  }

  lemma LineReadsBack(ms: seq<Member>)
    requires WellFormed(Obj(ms))
    ensures SortKeys(Obj(ms)).Obj? && Parse(Line(SortKeys(Obj(ms)))) == Some(SortKeys(Obj(ms)))
  {
    hide Parse, Print, WellFormed;
    SortKeysIs(ms);
    SortKeepsWellFormed(Obj(ms));
    J.ParsePrint(SortKeys(Obj(ms)), Roomy);
  }

  lemma FieldReadsBack(ms: seq<Member>, i: nat)
    requires UniqueKeys(ms) && i < |ms| && ms[i].value.Str?
    ensures SortKeys(Obj(ms)).Obj? && Get(SortKeys(Obj(ms)).members, ms[i].key) == Some(ms[i].value)
  {
    hide Get;
    J.GetAt(ms, i);
    SortedLookup(ms, ms[i].key);
  }

  /** Reading back what a node writes, float time stamp included, gives exactly its claim. */
  lemma WrittenRecord(me: Sid, o: Outpath, drvPath: string, itemClass: string, ts: Numeral)
    ensures Record(RecordLine(me, o, drvPath, itemClass, ts)) == if o == "" || me == "" then None else Some((o, me))
  {
    hide Parse, Line, SortKeys, Get, WellFormed, UniqueKeys;
    var ms := RecordMembers(me, o, drvPath, itemClass, ts);
    RecordIsDict(me, o, drvPath, itemClass, ts);
    LineReadsBack(ms);
    FieldReadsBack(ms, 0);
    FieldReadsBack(ms, 1);
  }

  lemma OwnFile(me: Sid, lines: seq<string>)
    ensures IsPlacementFile(Entry(FileOf(me), true, Some(lines)))
  {
    var name := FileOf(me);
    assert name[..7] == "_paths_" && name[|name| - 6..] == ".jsonl";
  }

  lemma ListedHead(entries: seq<Entry>, o: Outpath, s: Sid)
    ensures Listed(entries, o, s) <==> entries != [] && (EntrySays(entries[0], o, s) || Listed(entries[1..], o, s))
  {
    hide EntrySays;
    if i :| 0 <= i < |entries| && EntrySays(entries[i], o, s) && i > 0 {
      assert EntrySays(entries[1..][i - 1], o, s);
    }
    if entries != [] {
      if i :| 0 <= i < |entries[1..]| && EntrySays(entries[1..][i], o, s) {
        assert EntrySays(entries[i + 1], o, s);
      }
    }
  }

  lemma EntryGains(me: Sid, lines: seq<string>, line: string, o: Outpath, s: Sid)
    ensures EntrySays(Entry(FileOf(me), true, Some(lines + [line])), o, s) <==>
      EntrySays(Entry(FileOf(me), true, Some(lines)), o, s) || Record(line) == Some((o, s))
  {
    hide Record, IsPlacementFile, LineSays;
    OwnFile(me, lines);
    OwnFile(me, lines + [line]);
    LineSaysSnoc(lines + [line], |lines|);
    assert (lines + [line])[..|lines|] == lines && (lines + [line])[..|lines| + 1] == lines + [line];
  }

  lemma NoLines(me: Sid, o: Outpath, s: Sid)
    ensures !EntrySays(Entry(FileOf(me), true, Some([])), o, s)
  {
  }

  lemma {:induction false} AppendedIsListed(entries: seq<Entry>, me: Sid, line: string, o: Outpath, s: Sid)
    requires forall e :: e in entries && e.name == FileOf(me) ==> e.isFile && e.lines.Some?
    ensures Listed(AppendLine(entries, FileOf(me), line), o, s) <==> Listed(entries, o, s) || Record(line) == Some((o, s))
  {
    hide Listed, EntrySays, Record, FileOf;
    var after := AppendLine(entries, FileOf(me), line);
    ListedHead(entries, o, s);
    ListedHead(after, o, s);
    if entries == [] {
      EntryGains(me, [], line, o, s);
      NoLines(me, o, s);
      assert [] + [line] == [line];
      assert after[0] == Entry(FileOf(me), true, Some([] + [line])) && after[1..] == [];
      ListedHead([], o, s);
    } else if entries[0].name == FileOf(me) {
      var lines := entries[0].lines.value;
      assert entries[0] == Entry(FileOf(me), true, Some(lines));
      assert after[0] == Entry(FileOf(me), true, Some(lines + [line])) && after[1..] == entries[1..];
      EntryGains(me, lines, line, o, s);
    } else {
      assert after[0] == entries[0] && after[1..] == AppendLine(entries[1..], FileOf(me), line);
      AppendedIsListed(entries[1..], me, line, o, s);
    }
  }

  /** After `record_self_has` every reader lists what it listed before, and this node as a holder of
      this path; nothing else. */
  lemma RecordSelfHasAdds(entries: seq<Entry>, me: Sid, o: Outpath, drvPath: string, itemClass: string, ts: Numeral,
      o': Outpath, s': Sid)
    requires forall e :: e in entries && e.name == FileOf(me) ==> e.isFile && e.lines.Some?
    ensures var after := RecordSelfHas(entries, me, o, drvPath, itemClass, ts);
      && (after.Ok? <==> o != "" && me != "")
      && (after.Ok? ==> (Listed(after.value, o', s') <==> Listed(entries, o', s') || (o' == o && s' == me)))
  {
    hide Listed, Record, RecordLine, FileOf;
    if o != "" && me != "" {
      WrittenRecord(me, o, drvPath, itemClass, ts);
      AppendedIsListed(entries, me, RecordLine(me, o, drvPath, itemClass, ts), o', s');
    }
  }

  // ---------------------------------------------------------------------------------------- diffs

  /** Per outpath, who is in `a` and not in `b`; outpaths with nobody are omitted. */
  function Gained(a: Aggregate, b: Aggregate): Aggregate {
    map o | o in a && a[o] - HoldersIn(b, o) != {} :: a[o] - HoldersIn(b, o)
  }

  function DiffOf(old_: Aggregate, new_: Aggregate): Diff {
    Diff(Gained(new_, old_), Gained(old_, new_))
  }

  /** `_compute_placement_diff`: one pass over the outpaths of both maps. */
  method ComputePlacementDiff(old_: Aggregate, new_: Aggregate) returns (d: Diff)
    ensures d == DiffOf(old_, new_)
  {
    hide Gained, PartOf;
    var added: Aggregate, removed: Aggregate := map[], map[];
    var rest := old_.Keys + new_.Keys;
    NothingVisited(new_, old_, rest);
    NothingVisited(old_, new_, rest);
    while rest != {}
      invariant PartOf(added, Gained(new_, old_), rest) && PartOf(removed, Gained(old_, new_), rest)
      decreases |rest|
    {
      var o :| o in rest;
      Visited(added, new_, old_, rest, o);
      Visited(removed, old_, new_, rest, o);
      rest := rest - {o};
      var gained := HoldersIn(new_, o) - HoldersIn(old_, o);
      var lost := HoldersIn(old_, o) - HoldersIn(new_, o);
      if gained != {} {
        added := added[o := gained];
      }
      if lost != {} {
        removed := removed[o := lost];
      }
    }
    PartIsAll(added, Gained(new_, old_));
    PartIsAll(removed, Gained(old_, new_));
    d := Diff(added, removed);
  }

  /** `part` is `all` without the keys still to be visited. */
  predicate PartOf(part: Aggregate, all: Aggregate, rest: set<Outpath>) {
    && (forall o :: o in part ==> o in all && o !in rest && part[o] == all[o])
    && (forall o :: o in all && o !in rest ==> o in part)
  }

  lemma NothingVisited(a: Aggregate, b: Aggregate, rest: set<Outpath>)
    requires a.Keys <= rest
    ensures PartOf(map[], Gained(a, b), rest)
  {
  }

  lemma Visited(part: Aggregate, a: Aggregate, b: Aggregate, rest: set<Outpath>, o: Outpath)
    requires PartOf(part, Gained(a, b), rest) && o in rest
    ensures var gained := HoldersIn(a, o) - HoldersIn(b, o);
      PartOf(if gained != {} then part[o := gained] else part, Gained(a, b), rest - {o})
  {
    assert o in Gained(a, b) <==> HoldersIn(a, o) - HoldersIn(b, o) != {};
  }

  lemma PartIsAll(part: Aggregate, all: Aggregate)
    requires PartOf(part, all, {})
    ensures part == all
  {
    assert part.Keys == all.Keys;
  }

  /** A subscriber's update: take the removed holders away, then add the new ones. */
  function Patch(view: Aggregate, d: Diff): Aggregate {
    map o | o in view.Keys + d.added.Keys && (HoldersIn(view, o) - HoldersIn(d.removed, o)) + HoldersIn(d.added, o) != {} ::
      (HoldersIn(view, o) - HoldersIn(d.removed, o)) + HoldersIn(d.added, o)
  }

  lemma SameHolders(a: Aggregate, b: Aggregate)
    requires NoEmpty(a) && NoEmpty(b) && forall o :: HoldersIn(a, o) == HoldersIn(b, o)
    ensures a == b
  {
    forall o ensures o in a <==> o in b {
      assert HoldersIn(a, o) == HoldersIn(b, o);
    }
    assert a.Keys == b.Keys;
    forall o | o in a ensures a[o] == b[o] {
      assert HoldersIn(a, o) == HoldersIn(b, o);
    }
  }

  lemma PatchHolders(view: Aggregate, d: Diff)
    ensures NoEmpty(Patch(view, d))
    ensures forall o :: HoldersIn(Patch(view, d), o) == (HoldersIn(view, o) - HoldersIn(d.removed, o)) + HoldersIn(d.added, o)
  {
  }

  /** A diff turns the old aggregate into the new one; applied to the new one, as happens to a
      subscriber that took its snapshot between swap and delivery, it changes nothing. */
  lemma PatchReconstructs(old_: Aggregate, new_: Aggregate)
    requires NoEmpty(old_) && NoEmpty(new_)
    ensures Patch(old_, DiffOf(old_, new_)) == new_
    ensures Patch(new_, DiffOf(old_, new_)) == new_
  {
    hide Patch, Gained, NoEmpty;
    var d := DiffOf(old_, new_);
    PatchHolders(old_, d);
    PatchHolders(new_, d);
    forall o ensures HoldersIn(Patch(old_, d), o) == HoldersIn(new_, o) && HoldersIn(Patch(new_, d), o) == HoldersIn(new_, o) {
      DiffHolders(old_, new_, o);
    }
    SameHolders(Patch(old_, d), new_);
    SameHolders(Patch(new_, d), new_);
  }

  /** Who gained and who lost a path, and no path without a change. */
  lemma DiffHolders(old_: Aggregate, new_: Aggregate, o: Outpath)
    ensures HoldersIn(DiffOf(old_, new_).added, o) == HoldersIn(new_, o) - HoldersIn(old_, o)
    ensures HoldersIn(DiffOf(old_, new_).removed, o) == HoldersIn(old_, o) - HoldersIn(new_, o)
    ensures o in DiffOf(old_, new_).added <==> HoldersIn(new_, o) - HoldersIn(old_, o) != {}
    ensures o in DiffOf(old_, new_).removed <==> HoldersIn(old_, o) - HoldersIn(new_, o) != {}
  {
  }

  /** A refresh that reports no diff saw no change. */
  lemma EmptyDiffIff(old_: Aggregate, new_: Aggregate)
    requires NoEmpty(old_) && NoEmpty(new_)
    ensures DiffOf(old_, new_) == Diff(map[], map[]) <==> old_ == new_
  {
    if old_ == new_ {
      assert Gained(old_, old_) == map[];
    } else if DiffOf(old_, new_) == Diff(map[], map[]) {
      forall o ensures HoldersIn(old_, o) == HoldersIn(new_, o) {
        assert o !in Gained(old_, new_) && o !in Gained(new_, old_);
      }
      SameHolders(old_, new_);
    }
  }
}
