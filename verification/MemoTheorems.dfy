/** The two namespaces of the memo cache, with their real keys and codecs (`incremental_cache.py`). */
module MemoTheorems {
  import opened Wrappers
  import opened Json
  import opened JsonSort
  import Dicts
  import opened CacheKey
  import opened MemoCodec
  import opened MemoCache

  datatype Request = Request(repo: Repo, axes: Axes)

  function KeyOf(sha256: Bytes -> string, r: Request): string {
    match SubentryPreimage(r.repo, r.axes)
    case Ok(bytes) => sha256(bytes)
    case Raised => ""
  }

  predicate Keyed(r: Request) {
    SubentryPreimage(r.repo, r.axes).Ok?
  }

  function ReadToolchains(text: string): Option<Toolchains> {
    match LoadPayload(text)
    case None => None
    case Some(ms) => match DecodeToolchains(ms) case Ok(t) => Some(t) case Raised => None
  }

  function ReadVariants(text: string): Option<seq<Member>> {
    match LoadPayload(text)
    case None => None
    case Some(ms) => match DecodeVariants(ms) case Ok(meta) => Some(meta) case Raised => None
  }

  function ToolchainText(t: Toolchains): string {
    EntryText(ToolchainsPayload(t))
  }

  function VariantText(meta: seq<Member>): string {
    EntryText(VariantsPayload(meta))
  }

  /** An enumeration sees the repository and the canonical axes, nothing else. */
  type Enumeration<T> = (Repo, Axes) -> T

  function ToolchainMemo(sha256: Bytes -> string, enumerate: Enumeration<Toolchains>): Memo<Request, Toolchains> {
    Memo((r: Request) => Keyed(r), (r: Request) => KeyOf(sha256, r), (r: Request) => enumerate(r.repo, Canonical(r.axes)),
      (t: Toolchains) => ToolchainText(t), (text: string) => ReadToolchains(text))
  }

  /** The metadata dict with its keys in order, as it is read back. */
  function Sorted(meta: seq<Member>): seq<Member> {
    SortMembers(SortValues(meta))
  }

  function VariantMemo(sha256: Bytes -> string, enumerate: Enumeration<seq<Member>>): Memo<Request, seq<Member>> {
    Memo((r: Request) => Keyed(r), (r: Request) => KeyOf(sha256, r), (r: Request) => Sorted(enumerate(r.repo, Canonical(r.axes))),
      (meta: seq<Member>) => VariantText(meta), (text: string) => ReadVariants(text))
  }

  ghost predicate CollisionFree(sha256: Bytes -> string) {
    forall a: Bytes, b: Bytes :: sha256(a) == sha256(b) ==> a == b
  }

  /** Requests with one key see the same repository and the same canonical axes. */
  lemma SameKeySameInputs(sha256: Bytes -> string, r: Request, s: Request)
    requires CollisionFree(sha256)
    ensures Keyed(r) && Keyed(s) && KeyOf(sha256, r) == KeyOf(sha256, s) ==>
      r.repo == s.repo && Canonical(r.axes) == Canonical(s.axes)
  {
    hide SubentryPreimage, SameAxes, Canonical;
    SubentryKeyIff(r.repo, r.axes, s.repo, s.axes);
    CanonicalIff(r.axes, s.axes);
  }

  lemma ToolchainMemoFaithful(sha256: Bytes -> string, enumerate: Enumeration<Toolchains>)
    requires CollisionFree(sha256) && forall r: Repo, a: Axes :: Dicts.UniqueKeys(enumerate(r, a).drvs)
    ensures Faithful(ToolchainMemo(sha256, enumerate))
  {
    hide KeyOf, Keyed, CollisionFree, LoadPayload, EntryText, DecodeToolchains, ToolchainsPayload, Canonical;
    var m := ToolchainMemo(sha256, enumerate);
    forall r: Request | m.keyed(r) ensures m.decode(m.encode(m.value(r))) == Some(m.value(r)) {
      ToolchainsRoundTrip(enumerate(r.repo, Canonical(r.axes)));
    }
    forall r: Request, s: Request | m.keyed(r) && m.keyed(s) && m.key(r) == m.key(s) ensures m.value(r) == m.value(s) {
      SameKeySameInputs(sha256, r, s);
    }
  }

  /** Every `lookup_toolchains`, by any process at any time, is a miss or returns exactly the triple
      the enumeration gives for its inputs. */
  lemma ToolchainsCacheAgrees(sha256: Bytes -> string, enumerate: Enumeration<Toolchains>, slots: map<string, Slot>,
      steps: seq<Step<Request>>, w: World<Request, Toolchains>, n: nat)
    requires CollisionFree(sha256) && forall r: Repo, a: Axes :: Dicts.UniqueKeys(enumerate(r, a).drvs)
    requires Clean(ToolchainMemo(sha256, enumerate), slots)
    requires Run(ToolchainMemo(sha256, enumerate), World(slots, map[], []), steps, w) && n < |w.results|
    ensures var (r, found) := w.results[n];
      found == None || found == Some(enumerate(r.repo, Canonical(r.axes)))
  {
    hide KeyOf, Keyed, CollisionFree, Clean, Run, Faithful, Canonical;
    ToolchainMemoFaithful(sha256, enumerate);
    LookupsAgree(ToolchainMemo(sha256, enumerate), slots, steps, w, n);
  }

  /** Reading back an entry that was written from an already sorted dict gives that dict. */
  lemma SortedRoundTrip(meta: seq<Member>)
    requires WellFormed(Obj(meta)) && AllMeta(meta)
    ensures ReadVariants(VariantText(Sorted(meta))) == Some(Sorted(meta))
    ensures VariantText(Sorted(meta)) == VariantText(meta)
  {
    hide SortMembers, SortValues, LoadPayload, EntryText, DecodeVariants, VariantsPayload, Same, WellFormed;
    var v, w := Obj(meta), Obj(Sorted(meta));
    SortKeysIs(meta);
    SortedIsSame(v);
    SortKeepsWellFormed(v);
    SameSorted(v, w);
    SortKeysIs(Sorted(meta));
    assert Sorted(Sorted(meta)) == Sorted(meta);
    AllMetaSorted(meta);
    VariantsRoundTrip(Sorted(meta));
    SameText(meta, Sorted(meta));
  }

  lemma SameText(a: seq<Member>, b: seq<Member>)
    requires SortKeys(Obj(a)) == SortKeys(Obj(b))
    ensures VariantText(a) == VariantText(b)
  {
    hide Print, Insert;
    var p, q := VariantsPayload(a), VariantsPayload(b);
    assert SortValues(p)[2].value == SortKeys(Obj(a)) && SortValues(q)[2].value == SortKeys(Obj(b));
    assert SortValues(p) == SortValues(q);
  }

  lemma VariantMemoFaithful(sha256: Bytes -> string, enumerate: Enumeration<seq<Member>>)
    requires CollisionFree(sha256)
    requires forall r: Repo, a: Axes :: WellFormed(Obj(enumerate(r, a))) && AllMeta(enumerate(r, a))
    ensures Faithful(VariantMemo(sha256, enumerate))
  {
    hide KeyOf, Keyed, CollisionFree, ReadVariants, VariantText, Canonical, Sorted, WellFormed, AllMeta;
    var m := VariantMemo(sha256, enumerate);
    forall r: Request | m.keyed(r) ensures m.decode(m.encode(m.value(r))) == Some(m.value(r)) {
      SortedRoundTrip(enumerate(r.repo, Canonical(r.axes)));
    }
    forall r: Request, s: Request | m.keyed(r) && m.keyed(s) && m.key(r) == m.key(s) ensures m.value(r) == m.value(s) {
      SameKeySameInputs(sha256, r, s);
    }
  }

  /** Every `lookup_variants` is a miss or returns a dict equal to the one the enumeration gives for
      its inputs. */
  lemma VariantsCacheAgrees(sha256: Bytes -> string, enumerate: Enumeration<seq<Member>>, slots: map<string, Slot>,
      steps: seq<Step<Request>>, w: World<Request, seq<Member>>, n: nat)
    requires CollisionFree(sha256)
    requires forall r: Repo, a: Axes :: WellFormed(Obj(enumerate(r, a))) && AllMeta(enumerate(r, a))
    requires Clean(VariantMemo(sha256, enumerate), slots)
    requires Run(VariantMemo(sha256, enumerate), World(slots, map[], []), steps, w) && n < |w.results|
    ensures var (r, found) := w.results[n];
      found == None || Same(Obj(enumerate(r.repo, Canonical(r.axes))), Obj(found.value))
  {
    hide KeyOf, Keyed, CollisionFree, Clean, Run, Faithful, Canonical, Same, WellFormed, AllMeta;
    VariantMemoFaithful(sha256, enumerate);
    LookupsAgree(VariantMemo(sha256, enumerate), slots, steps, w, n);
    var meta := enumerate(w.results[n].0.repo, Canonical(w.results[n].0.axes));
    SortKeysIs(meta);
    SortedIsSame(Obj(meta));
  }
}
