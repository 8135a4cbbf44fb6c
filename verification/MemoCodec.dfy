/** The two entry payloads of the memo cache and their strict readers (`incremental_cache.py`). */
module MemoCodec {
  import opened Wrappers
  import opened Json
  import opened Decimals
  import opened JsonSort
  import J = JsonRoundTrip
  import Dicts

  const ENTRY_VERSION := 1

  type Pair = (string, string)

  /** What `enumerate_toolchains_only` returns; `drvs` is a dict in insertion order. */
  datatype Toolchains = Toolchains(pairs: seq<Pair>, drvs: seq<(Pair, string)>, aggregate: string)

  // --------------------------------------------------------------------------------------- writing

  function PairsJson(pairs: seq<Pair>): (r: seq<Json>)
    ensures |r| == |pairs| && forall i :: 0 <= i < |pairs| ==> r[i] == Arr([Str(pairs[i].0), Str(pairs[i].1)])
  {
    seq(|pairs|, i requires 0 <= i < |pairs| => Arr([Str(pairs[i].0), Str(pairs[i].1)]))
  }

  function DrvsJson(drvs: seq<(Pair, string)>): (r: seq<Json>)
    ensures |r| == |drvs|
    ensures forall i :: 0 <= i < |drvs| ==> r[i] == Arr([Str(drvs[i].0.0), Str(drvs[i].0.1), Str(drvs[i].1)])
  {
    seq(|drvs|, i requires 0 <= i < |drvs| => Arr([Str(drvs[i].0.0), Str(drvs[i].0.1), Str(drvs[i].1)]))
  }

  /** `_toolchains_payload`. */
  function ToolchainsPayload(t: Toolchains): seq<Member> {
    [ Member("version", Num(ENTRY_VERSION)), Member("kind", Str("toolchains")), Member("tc_pairs", Arr(PairsJson(t.pairs))),
      Member("tc_drvs", Arr(DrvsJson(t.drvs))), Member("tc_aggregate_drv", Str(t.aggregate)) ]
  }

  /** `_variants_payload`; `meta` maps each binary to its metadata dict. */
  function VariantsPayload(meta: seq<Member>): seq<Member> {
    [ Member("version", Num(ENTRY_VERSION)), Member("kind", Str("variants")), Member("per_binary_meta_raw", Obj(meta)) ]
  }

  /** The text of `entry.json`. */
  function EntryText(payload: seq<Member>): string {
    Pretty(SortKeys(Obj(payload)))
  }

  // --------------------------------------------------------------------------------------- reading

  /** `v == 1` as Python compares: also `true`, and every float that is 1. */
  predicate IsVersion(v: Json) {
    v == Num(ENTRY_VERSION) || v == Bool(true) || (v.Float? && IsOne(v.text))
  }

  /** `_load_subentry` on the text: a JSON object of this version. */
  function LoadPayload(text: string): Option<seq<Member>> {
    match Parse(text)
    case Some(Obj(ms)) => if Get(ms, "version").Some? && IsVersion(Get(ms, "version").value) then Some(ms) else None
    case _ => None
  }

  // ------------------------------------------------------------------------------------- versions

  /** `1.0` counts as version 1, `1.1` does not. */
  lemma OneAndOneTenth()
    ensures IsFloatText("1.0") && IsVersion(Float("1.0"))
    ensures IsFloatText("1.1") && !IsVersion(Float("1.1"))
  {
    VersionFraction("1.0", '0');
    VersionFraction("1.1", '1');
  }

  lemma VersionFraction(t: string, b: char)
    requires IsDigit(b) && t == ['1', '.', b]
    ensures IsFloatText(t) && (IsVersion(Float(t)) <==> b == '0')
  {
    hide DecimalValue, FloatRun;
    OneDigitFraction('1', b);
    assert |t| == 3 && t[0] == '1' && "NaN"[0] == 'N' && "Infinity"[0] == 'I' && "-Infinity"[0] == '-';
  }

  /** Which entries load: exactly those whose version compares equal to 1, `true` and `1.0` among them. */
  lemma LoadsIff(payload: seq<Member>)
    requires WellFormed(Obj(payload))
    ensures LoadPayload(Pretty(Obj(payload))) ==
      if Get(payload, "version").Some? && IsVersion(Get(payload, "version").value) then Some(payload) else None
    ensures Get(payload, "version") == Some(Bool(true)) ==> LoadPayload(Pretty(Obj(payload))) == Some(payload)
    ensures IsFloatText("1.0") && (Get(payload, "version") == Some(Float("1.0")) ==>
      LoadPayload(Pretty(Obj(payload))) == Some(payload))
  {
    hide Print, Parse, Get, WellFormed, IsOne;
    J.ParsePrint(Obj(payload), Indented);
    OneAndOneTenth();
  }

  // -------------------------------------------------------------------------------------- payloads

  function ReadPair(v: Json): Option<Pair> {
    if v.Arr? && |v.items| == 2 && v.items[0].Str? && v.items[1].Str? then Some((v.items[0].s, v.items[1].s)) else None
  }

  function ReadDrv(v: Json): Option<(Pair, string)> {
    if v.Arr? && |v.items| == 3 && v.items[0].Str? && v.items[1].Str? && v.items[2].Str?
    then Some(((v.items[0].s, v.items[1].s), v.items[2].s)) else None
  }

  function ReadPairs(items: seq<Json>): Outcome<seq<Pair>> {
    if items == [] then Ok([])
    else
      match (ReadPairs(items[..|items| - 1]), ReadPair(items[|items| - 1]))
      case (Ok(ps), Some(p)) => Ok(ps + [p])
      case _ => Raised
  }

  function ReadDrvs(items: seq<Json>): Outcome<seq<(Pair, string)>> {
    if items == [] then Ok([])
    else
      match (ReadDrvs(items[..|items| - 1]), ReadDrv(items[|items| - 1]))
      case (Ok(ds), Some(d)) => Ok(Dicts.Put(ds, d.0, d.1))
      case _ => Raised
  }

  function DecodeToolchains(ms: seq<Member>): Outcome<Toolchains> {
    match (Get(ms, "tc_pairs"), Get(ms, "tc_drvs"), Get(ms, "tc_aggregate_drv"))
    case (Some(Arr(pairs)), Some(Arr(drvs)), Some(Str(aggregate))) =>
      (match (ReadPairs(pairs), ReadDrvs(drvs))
       case (Ok(ps), Ok(ds)) => Ok(Toolchains(ps, ds, aggregate))
       case _ => Raised)
    case _ => Raised
  }

  /** `_toolchains_from_payload`. */
  method ToolchainsFromPayload(ms: seq<Member>) returns (r: Outcome<Toolchains>)
    ensures r == DecodeToolchains(ms)
  {
    hide ReadPair, ReadDrv, Get;
    var pairsRaw, drvsRaw, aggregate := Get(ms, "tc_pairs"), Get(ms, "tc_drvs"), Get(ms, "tc_aggregate_drv");
    if pairsRaw.None? || !pairsRaw.value.Arr? {
      return Raised;
    }
    if drvsRaw.None? || !drvsRaw.value.Arr? {
      return Raised;
    }
    if aggregate.None? || !aggregate.value.Str? {
      return Raised;
    }
    var pairItems, drvItems := pairsRaw.value.items, drvsRaw.value.items;
    var pairs: seq<Pair> := [];
    for n := 0 to |pairItems|
      invariant ReadPairs(pairItems[..n]) == Ok(pairs)
    {
      var entry := ReadPair(pairItems[n]);
      assert pairItems[..n + 1][..n] == pairItems[..n];
      if entry == None {
        PairsRaised(pairItems, n + 1);
        return Raised;
      }
      pairs := pairs + [entry.value];
    }
    assert pairItems[..|pairItems|] == pairItems;
    var drvs: seq<(Pair, string)> := [];
    for n := 0 to |drvItems|
      invariant ReadDrvs(drvItems[..n]) == Ok(drvs)
    {
      var entry := ReadDrv(drvItems[n]);
      assert drvItems[..n + 1][..n] == drvItems[..n];
      if entry == None {
        DrvsRaised(drvItems, n + 1);
        return Raised;
      }
      drvs := Dicts.Put(drvs, entry.value.0, entry.value.1);
    }
    assert drvItems[..|drvItems|] == drvItems;
    return Ok(Toolchains(pairs, drvs, aggregate.value.s));
  }

  lemma {:induction false} PairsRaised(items: seq<Json>, n: nat)
    requires n <= |items| && ReadPairs(items[..n]) == Raised
    ensures ReadPairs(items) == Raised
    decreases |items| - n
  {
    if n == |items| {
      assert items[..n] == items;
    } else {
      assert items[..n + 1][..n] == items[..n];
      PairsRaised(items, n + 1);
    }
  }

  lemma {:induction false} DrvsRaised(items: seq<Json>, n: nat)
    requires n <= |items| && ReadDrvs(items[..n]) == Raised
    ensures ReadDrvs(items) == Raised
    decreases |items| - n
  {
    if n == |items| {
      assert items[..n] == items;
    } else {
      assert items[..n + 1][..n] == items[..n];
      DrvsRaised(items, n + 1);
    }
  }

  predicate IsStrings(v: Json) {
    v.Arr? && forall i :: 0 <= i < |v.items| ==> v.items[i].Str?
  }

  /** The shape `enumerate_variants` gives one binary's metadata. */
  predicate IsMeta(v: Json) {
    && v.Obj?
    && HasKey(v.members, "archs") && HasKey(v.members, "sample_size")
    && HasKey(v.members, "sample_seed") && HasKey(v.members, "tier")
    && Get(v.members, "archs").Some? && IsStrings(Get(v.members, "archs").value)
  }

  predicate AllMeta(meta: seq<Member>) {
    forall i :: 0 <= i < |meta| ==> IsMeta(meta[i].value)
  }

  function DecodeVariants(ms: seq<Member>): Outcome<seq<Member>> {
    match Get(ms, "per_binary_meta_raw")
    case Some(Obj(raw)) => if AllMeta(raw) then Ok(raw) else Raised
    case _ => Raised
  }

  /** `_variants_from_payload`. */
  method VariantsFromPayload(ms: seq<Member>) returns (r: Outcome<seq<Member>>)
    requires WellFormed(Obj(ms))
    ensures r == DecodeVariants(ms)
  {
    hide IsMeta, Get;
    var raw := Get(ms, "per_binary_meta_raw");
    if raw.None? || !raw.value.Obj? {
      return Raised;
    }
    var members := raw.value.members;
    var out: seq<Member> := [];
    for n := 0 to |members|
      invariant out == members[..n] && forall i :: 0 <= i < n ==> IsMeta(members[i].value)
    {
      if !IsMeta(members[n].value) {
        return Raised;
      }
      out := out + [members[n]];
    }
    assert members[..|members|] == members;
    return Ok(out);
  }

  // ----------------------------------------------------------------------------------- round trips

  lemma StringsSorted(items: seq<Json>)
    requires forall i :: 0 <= i < |items| ==> items[i].Str?
    ensures SortKeys(Arr(items)) == Arr(items)
  {
  }

  lemma ListsSorted(items: seq<Json>)
    requires forall i :: 0 <= i < |items| ==> IsStrings(items[i])
    ensures SortKeys(Arr(items)) == Arr(items)
  {
    forall i | 0 <= i < |items| ensures SortKeys(items[i]) == items[i] {
      StringsSorted(items[i].items);
    }
  }

  lemma {:induction false} PairsRead(pairs: seq<Pair>)
    ensures ReadPairs(PairsJson(pairs)) == Ok(pairs)
  {
    if pairs != [] {
      var n := |pairs| - 1;
      PairsRead(pairs[..n]);
      assert PairsJson(pairs)[..n] == PairsJson(pairs[..n]);
      assert pairs == pairs[..n] + [pairs[n]];
    }
  }

  lemma {:induction false} DrvsRead(drvs: seq<(Pair, string)>)
    requires Dicts.UniqueKeys(drvs)
    ensures ReadDrvs(DrvsJson(drvs)) == Ok(drvs)
  {
    hide Dicts.Put, Dicts.UniqueKeys;
    if drvs != [] {
      var n := |drvs| - 1;
      Dicts.PutLast(drvs);
      DrvsRead(drvs[..n]);
      assert DrvsJson(drvs)[..n] == DrvsJson(drvs[..n]);
    }
  }

  lemma ToolchainsWellFormed(t: Toolchains)
    ensures WellFormed(Obj(ToolchainsPayload(t)))
  {
    hide PairsJson, DrvsJson;
    assert |"version"| == 7 && |"kind"| == 4 && |"tc_pairs"| == 8 && |"tc_drvs"| == 7 && |"tc_aggregate_drv"| == 16;
    assert "version"[0] == 'v' && "tc_drvs"[0] == 't';
    NestedWellFormed(PairsJson(t.pairs));
    NestedWellFormed(DrvsJson(t.drvs));
  }

  lemma NestedWellFormed(items: seq<Json>)
    requires forall i :: 0 <= i < |items| ==> IsStrings(items[i])
    ensures WellFormed(Arr(items))
  {
  }

  lemma LoadStored(payload: seq<Member>)
    requires WellFormed(Obj(payload)) && Get(payload, "version") == Some(Num(ENTRY_VERSION))
    ensures LoadPayload(EntryText(payload)) == Some(SortKeys(Obj(payload)).members)
  {
    hide Print, Parse, SortKeys, Get, WellFormed;
    SortKeepsWellFormed(Obj(payload));
    J.ParsePrint(SortKeys(Obj(payload)), Indented);
    VersionStays(payload);
    SortIsObject(payload);
  }

  lemma SortIsObject(payload: seq<Member>)
    ensures SortKeys(Obj(payload)).Obj?
  {
  }

  lemma VersionStays(payload: seq<Member>)
    requires WellFormed(Obj(payload)) && Get(payload, "version") == Some(Num(ENTRY_VERSION))
    ensures Get(SortKeys(Obj(payload)).members, "version") == Some(Num(ENTRY_VERSION))
  {
    SortedLookup(payload, "version");
  }

  lemma SortedAtIndex(payload: seq<Member>, i: nat)
    requires UniqueKeys(payload) && i < |payload|
    ensures Get(SortKeys(Obj(payload)).members, payload[i].key) == Some(SortKeys(payload[i].value))
  {
    hide SortKeys;
    J.GetAt(payload, i);
    SortedLookup(payload, payload[i].key);
  }

  /** The toolchains codec is exact: pairs and drvs come back in their order. */
  lemma ToolchainsRoundTrip(t: Toolchains)
    requires Dicts.UniqueKeys(t.drvs)
    ensures var loaded := LoadPayload(EntryText(ToolchainsPayload(t)));
      loaded.Some? && DecodeToolchains(loaded.value) == Ok(t)
  {
    hide SortKeys, Get, ReadPairs, ReadDrvs, PairsJson, DrvsJson, Dicts.UniqueKeys, EntryText, LoadPayload, WellFormed,
        UniqueKeys;
    var payload := ToolchainsPayload(t);
    ToolchainsWellFormed(t);
    assert UniqueKeys(payload) by { DictKeys(payload); }
    J.GetAt(payload, 0);
    LoadStored(payload);
    SortedAtIndex(payload, 2);
    SortedAtIndex(payload, 3);
    SortedAtIndex(payload, 4);
    ListsSorted(PairsJson(t.pairs));
    ListsSorted(DrvsJson(t.drvs));
    TextSorted(t.aggregate);
    PairsRead(t.pairs);
    DrvsRead(t.drvs);
  }

  lemma DictKeys(payload: seq<Member>)
    requires WellFormed(Obj(payload))
    ensures UniqueKeys(payload)
  {
  }

  lemma TextSorted(s: string)
    ensures SortKeys(Str(s)) == Str(s)
  {
  }

  lemma MetaSorted(v: Json)
    requires WellFormed(v)
    ensures IsMeta(SortKeys(v)) <==> IsMeta(v)
  {
    if v.Obj? {
      SortedLookup(v.members, "archs");
      SortedLookup(v.members, "sample_size");
      SortedLookup(v.members, "sample_seed");
      SortedLookup(v.members, "tier");
      if Get(v.members, "archs").Some? { StringsStay(Get(v.members, "archs").value); }
    }
  }

  lemma StringsStay(v: Json)
    ensures IsStrings(SortKeys(v)) <==> IsStrings(v)
  {
    if v.Arr? {
      var items := SortKeys(v).items;
      assert |items| == |v.items|;
      assert forall i :: 0 <= i < |v.items| ==> items[i] == SortKeys(v.items[i]);
      forall i | 0 <= i < |v.items| ensures items[i].Str? <==> v.items[i].Str? {
        assert items[i] == SortKeys(v.items[i]);
      }
    }
  }

  lemma AllMetaSorted(meta: seq<Member>)
    requires WellFormed(Obj(meta))
    ensures AllMeta(SortMembers(SortValues(meta))) <==> AllMeta(meta)
  {
    hide IsMeta, SortKeys, Get, Insert;
    var vs := SortValues(meta);
    SortedMembers(vs);
    var r := SortMembers(vs);
    forall i | 0 <= i < |meta| ensures IsMeta(vs[i].value) <==> IsMeta(meta[i].value) {
      MetaSorted(meta[i].value);
    }
    if AllMeta(meta) {
      forall i | 0 <= i < |r| ensures IsMeta(r[i].value) { assert r[i] in vs; }
    }
    if AllMeta(r) {
      forall i | 0 <= i < |meta| ensures IsMeta(meta[i].value) { assert vs[i] in r; }
    }
  }

  /** The variants codec: what was stored is loaded exactly when every binary has the metadata shape
      of `enumerate_variants`, and then equals it as a Python dict. */
  lemma VariantsRoundTrip(meta: seq<Member>)
    requires WellFormed(Obj(meta))
    ensures var loaded := LoadPayload(EntryText(VariantsPayload(meta)));
      && loaded.Some?
      && DecodeVariants(loaded.value) == (if AllMeta(meta) then Ok(SortKeys(Obj(meta)).members) else Raised)
      && Same(Obj(meta), Obj(SortKeys(Obj(meta)).members))
  {
    var payload := VariantsPayload(meta);
    VariantsWellFormed(meta);
    hide SortKeys, Get, AllMeta, Same, EntryText, LoadPayload;
    J.GetAt(payload, 0);
    LoadStored(payload);
    SortedAtIndex(payload, 2);
    SortKeysIs(meta);
    AllMetaSorted(meta);
    SortedIsSame(Obj(meta));
  }

  lemma VariantsWellFormed(meta: seq<Member>)
    requires WellFormed(Obj(meta))
    ensures WellFormed(Obj(VariantsPayload(meta)))
  {
    assert |"version"| == 7 && |"kind"| == 4 && |"per_binary_meta_raw"| == 19;
  }

  // --------------------------------------------------------------------------------- strict reading

  /** Of whole numbers only 1 is the version, of the truth values only `true`; a text, a list, an object
      or `null` never is. */
  lemma VersionKinds(v: Json)
    ensures v.Num? ==> (IsVersion(v) <==> v.n == 1)
    ensures v.Bool? ==> (IsVersion(v) <==> v.b)
    ensures v.Null? || v.Str? || v.Arr? || v.Obj? ==> !IsVersion(v)
  {
    hide IsOne;
  }

  /** A text loads exactly when it parses to an object with such a version. */
  lemma LoadsOnly(text: string, ms: seq<Member>)
    ensures LoadPayload(text) == Some(ms) <==>
      Parse(text) == Some(Obj(ms)) && Get(ms, "version").Some? && IsVersion(Get(ms, "version").value)
  {
    hide Parse, Get, IsVersion;
  }

  lemma {:induction false} PairsInverse(items: seq<Json>)
    ensures ReadPairs(items).Ok? ==> items == PairsJson(ReadPairs(items).value)
  {
    if items != [] && ReadPairs(items).Ok? {
      var n := |items| - 1;
      PairsInverse(items[..n]);
      PairInverse(items[n]);
      var ps, p := ReadPairs(items[..n]).value, ReadPair(items[n]).value;
      assert PairsJson(ps + [p]) == PairsJson(ps) + [Arr([Str(p.0), Str(p.1)])];
      assert items == items[..n] + [items[n]];
    }
  }

  lemma PairInverse(v: Json)
    ensures ReadPair(v).Some? ==> v == Arr([Str(ReadPair(v).value.0), Str(ReadPair(v).value.1)])
  {
    if ReadPair(v).Some? {
      assert v.items == [v.items[0], v.items[1]];
    }
  }

  /** Exactly the lists of two-text items are pairs. */
  lemma PairsExactly(items: seq<Json>, pairs: seq<Pair>)
    ensures ReadPairs(items) == Ok(pairs) <==> items == PairsJson(pairs)
  {
    hide ReadPairs, PairsJson;
    PairsInverse(items);
    PairsRead(pairs);
  }

  /** A list of drvs is read exactly when every item is three texts, into a dict: no key twice, and for
      each key the value given last. */
  lemma {:induction false} DrvsExactly(items: seq<Json>)
    ensures ReadDrvs(items).Ok? <==> forall i :: 0 <= i < |items| ==> ReadDrv(items[i]).Some?
    ensures ReadDrvs(items).Ok? ==> Dicts.UniqueKeys(ReadDrvs(items).value)
    ensures ReadDrvs(items).Ok? ==> forall d :: d in ReadDrvs(items).value <==> IsLast(items, d)
  {
    hide ReadDrv, Dicts.UniqueKeys, IsLast;
    if items == [] {
      NoDrvs();
    } else {
      var n := |items| - 1;
      var rest := items[..n];
      DrvsExactly(rest);
      assert forall i :: 0 <= i < n ==> rest[i] == items[i];
      if ReadDrvs(rest).Ok? && ReadDrv(items[n]).Some? {
        var d := ReadDrv(items[n]).value;
        assert (d.0, d.1) == d;
        forall x ensures x in Dicts.Put(ReadDrvs(rest).value, d.0, d.1) <==> IsLast(items, x) {
          Dicts.PutMember(ReadDrvs(rest).value, d.0, d.1, x);
          LastSnoc(items, x);
        }
        Dicts.PutKeepsUnique(ReadDrvs(rest).value, d.0, d.1);
      }
    }
  }

  /** Item `i` is three texts that give `d`, and no later item has its key. */
  predicate LastAt(items: seq<Json>, i: nat, d: (Pair, string)) {
    i < |items| && ReadDrv(items[i]) == Some(d)
    && forall j :: i < j < |items| && ReadDrv(items[j]).Some? ==> ReadDrv(items[j]).value.0 != d.0
  }

  predicate IsLast(items: seq<Json>, d: (Pair, string)) {
    exists i: nat :: i < |items| && LastAt(items, i, d)
  }

  lemma NoDrvs()
    ensures Dicts.UniqueKeys<Pair, string>([]) && forall d :: !IsLast([], d)
  {
  }

  lemma LastSnoc(items: seq<Json>, d: (Pair, string))
    requires items != [] && ReadDrv(items[|items| - 1]).Some?
    ensures var last := ReadDrv(items[|items| - 1]).value;
      IsLast(items, d) <==> d == last || (d.0 != last.0 && IsLast(items[..|items| - 1], d))
  {
    hide ReadDrv;
    var n := |items| - 1;
    var rest, last := items[..n], ReadDrv(items[n]).value;
    assert LastAt(items, n, last);
    if i: nat :| i < |items| && LastAt(items, i, d) && i < n {
      assert LastAt(rest, i, d);
    }
    if i: nat :| i < |rest| && LastAt(rest, i, d) && d.0 != last.0 {
      assert LastAt(items, i, d);
    }
  }

  predicate IsTriple(v: Json) {
    v.Arr? && |v.items| == 3 && forall i :: 0 <= i < 3 ==> v.items[i].Str?
  }

  /** A toolchains payload is read exactly when it has the three fields, with pairs, triples and a text. */
  lemma ToolchainsExactly(ms: seq<Member>)
    ensures DecodeToolchains(ms).Ok? <==>
      match (Get(ms, "tc_pairs"), Get(ms, "tc_drvs"), Get(ms, "tc_aggregate_drv"))
      case (Some(Arr(pairs)), Some(Arr(drvs)), Some(Str(_))) =>
        (exists ps :: pairs == PairsJson(ps)) && (forall i :: 0 <= i < |drvs| ==> IsTriple(drvs[i]))
      case _ => false
  {
    hide Get, ReadPairs, ReadDrvs, PairsJson, IsTriple, ReadDrv;
    match (Get(ms, "tc_pairs"), Get(ms, "tc_drvs"), Get(ms, "tc_aggregate_drv"))
    case (Some(Arr(pairs)), Some(Arr(drvs)), Some(Str(aggregate))) =>
      PairsInverse(pairs);
      forall ps | pairs == PairsJson(ps) ensures ReadPairs(pairs).Ok? { PairsExactly(pairs, ps); }
      DrvsExactly(drvs);
      forall i | 0 <= i < |drvs| ensures ReadDrv(drvs[i]).Some? <==> IsTriple(drvs[i]) { TripleIs(drvs[i]); }
    case _ =>
  }

  lemma TripleIs(v: Json)
    ensures ReadDrv(v).Some? <==> IsTriple(v)
  {
    if v.Arr? && |v.items| == 3 {
      assert IsTriple(v) <==> v.items[0].Str? && v.items[1].Str? && v.items[2].Str?;
    }
  }

  /** A variants payload is read exactly when every binary's metadata is an object with the four fields,
      the first of them a list of texts; it is handed on as it is. */
  lemma VariantsExactly(ms: seq<Member>, raw: seq<Member>)
    ensures DecodeVariants(ms) == Ok(raw) <==>
      && Get(ms, "per_binary_meta_raw") == Some(Obj(raw))
      && forall i :: 0 <= i < |raw| ==> HasShape(raw[i].value)
  {
    hide Get, HasKey;
    forall v ensures IsMeta(v) <==> HasShape(v) {}
  }

  predicate HasShape(v: Json) {
    match v
    case Obj(ms) =>
      && Get(ms, "sample_size").Some? && Get(ms, "sample_seed").Some? && Get(ms, "tier").Some?
      && (match Get(ms, "archs")
          case Some(Arr(archs)) => forall i :: 0 <= i < |archs| ==> archs[i].Str?
          case _ => false)
    case _ => false
  }
}
