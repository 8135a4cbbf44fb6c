/** The memo-cache key (`incremental_cache.py`): canonical axes, the length-prefixed preimage of the
    hash, and when two invocations share a key. */
module CacheKey {
  import opened Wrappers
  import opened Json
  import opened JsonSort
  import J = JsonRoundTrip
  import Order = StringOrder
  import Utf8

  type Bytes = seq<Utf8.Byte>

  // ----------------------------------------------------------------------------------------- axes

  /** The invocation values an enumeration reads; a list is `None` for "all". */
  datatype Axes =
    | ToolchainAxes(sysName: string, archs: Option<seq<string>>)
    | VariantAxes(sysName: string, packages: Option<seq<string>>, archs: Option<seq<string>>, sample: int, seed: string)

  /** `_canonical_str_tuple`. */
  function CanonicalTuple(values: Option<seq<string>>): Option<seq<string>> {
    if values == None then None else Some(Order.SortedSet(values.value))
  }

  /** `from_values`. */
  function Canonical(a: Axes): Axes {
    match a
    case ToolchainAxes(sys, archs) => ToolchainAxes(sys, CanonicalTuple(archs))
    case VariantAxes(sys, packages, archs, sample, seed) =>
      VariantAxes(sys, CanonicalTuple(packages), CanonicalTuple(archs), sample, seed)
  }

  predicate SameList(a: Option<seq<string>>, b: Option<seq<string>>) {
    a.Some? == b.Some? && (a.Some? ==> (set x | x in a.value) == (set x | x in b.value))
  }

  /** Same kind and scalars; lists compared as sets, "all" different from every list. */
  predicate SameAxes(a: Axes, b: Axes) {
    match (a, b)
    case (ToolchainAxes(s, x), ToolchainAxes(t, y)) => s == t && SameList(x, y)
    case (VariantAxes(s, p, x, n, seed), VariantAxes(t, q, y, m, other)) =>
      s == t && SameList(p, q) && SameList(x, y) && n == m && seed == other
    case _ => false
  }

  function Strings(ss: seq<string>): (r: seq<Json>)
    ensures |r| == |ss| && forall i :: 0 <= i < |ss| ==> r[i] == Str(ss[i])
  {
    seq(|ss|, i requires 0 <= i < |ss| => Str(ss[i]))
  }

  function ListJson(values: Option<seq<string>>): Json {
    if values == None then Null else Arr(Strings(values.value))
  }

  /** `{"kind": KIND, **asdict(self)}`. */
  function AxesMembers(a: Axes): seq<Member> {
    match a
    case ToolchainAxes(sys, archs) =>
      [Member("kind", Str("toolchains")), Member("sys_name", Str(sys)), Member("archs", ListJson(archs))]
    case VariantAxes(sys, packages, archs, sample, seed) =>
      [Member("kind", Str("variants")), Member("sys_name", Str(sys)), Member("packages", ListJson(packages)),
       Member("archs", ListJson(archs)), Member("variant_sample", Num(sample)), Member("variant_seed", Str(seed))]
  }

  /** `canonical_bytes` of the axes as given on the command line. */
  function CanonicalBytes(a: Axes): Bytes {
    Utf8.Encode(Compact(SortKeys(Obj(AxesMembers(Canonical(a))))))
  }

  lemma AxesUnique(a: Axes)
    ensures UniqueKeys(AxesMembers(a)) && WellFormed(Obj(AxesMembers(a)))
  {
    hide Strings;
    assert "archs"[0] == 'a' && "kind"[0] == 'k' && "sys_name"[0] == 's' && "packages"[0] == 'p';
    assert |"variant_sample"| == 14 && |"variant_seed"| == 12;
    forall x: Option<seq<string>> ensures WellFormed(ListJson(x)) { ListWellFormed(x); }
  }

  lemma ListWellFormed(x: Option<seq<string>>)
    ensures WellFormed(ListJson(x))
  {
  }

  lemma ListSorted(x: Option<seq<string>>)
    ensures SortKeys(ListJson(x)) == ListJson(x)
  {
    if x.Some? {
      assert forall i :: 0 <= i < |x.value| ==> SortKeys(Strings(x.value)[i]) == Str(x.value[i]);
    }
  }

  lemma ListInjective(x: Option<seq<string>>, y: Option<seq<string>>)
    requires ListJson(x) == ListJson(y)
    ensures x == y
  {
    if x.Some? {
      assert Strings(x.value) == Strings(y.value);
      forall i | 0 <= i < |x.value| ensures x.value[i] == y.value[i] {
        assert Strings(x.value)[i] == Strings(y.value)[i];
      }
      assert x.value == y.value;
    }
  }

  /** The field `k` of the sorted object. */
  function Field(a: Axes, k: string): Option<Json> {
    Get(SortKeys(Obj(AxesMembers(a))).members, k)
  }

  lemma FieldIs(a: Axes, k: string, i: nat)
    requires i < |AxesMembers(a)| && AxesMembers(a)[i].key == k
    ensures Field(a, k) == Some(SortKeys(AxesMembers(a)[i].value))
  {
    hide SortKeys, AxesMembers;
    AxesUnique(a);
    J.GetAt(AxesMembers(a), i);
    SortedLookup(AxesMembers(a), k);
  }

  lemma ToolchainFields(sys: string, archs: Option<seq<string>>)
    ensures var a := ToolchainAxes(sys, archs);
      Field(a, "kind") == Some(Str("toolchains")) && Field(a, "sys_name") == Some(Str(sys)) && Field(a, "archs") == Some(ListJson(archs))
  {
    hide Field, ListJson;
    var a := ToolchainAxes(sys, archs);
    FieldIs(a, "kind", 0);
    FieldIs(a, "sys_name", 1);
    FieldIs(a, "archs", 2);
    ListSorted(archs);
  }

  lemma VariantFields(sys: string, packages: Option<seq<string>>, archs: Option<seq<string>>, sample: int, seed: string)
    ensures var a := VariantAxes(sys, packages, archs, sample, seed);
      && Field(a, "kind") == Some(Str("variants")) && Field(a, "sys_name") == Some(Str(sys))
      && Field(a, "packages") == Some(ListJson(packages)) && Field(a, "archs") == Some(ListJson(archs))
      && Field(a, "variant_sample") == Some(Num(sample)) && Field(a, "variant_seed") == Some(Str(seed))
  {
    hide Field, ListJson;
    var a := VariantAxes(sys, packages, archs, sample, seed);
    FieldIs(a, "kind", 0);
    FieldIs(a, "sys_name", 1);
    FieldIs(a, "packages", 2);
    FieldIs(a, "archs", 3);
    FieldIs(a, "variant_sample", 4);
    FieldIs(a, "variant_seed", 5);
    ListSorted(packages);
    ListSorted(archs);
  }

  lemma SortedAxesInjective(a: Axes, b: Axes)
    requires SortKeys(Obj(AxesMembers(a))) == SortKeys(Obj(AxesMembers(b)))
    ensures a == b
  {
    hide ListJson, AxesMembers, SortKeys;
    assert forall k :: Field(a, k) == Field(b, k);
    hide Field;
    AxesFields(a);
    AxesFields(b);
    assert Field(a, "kind") == Field(b, "kind");
    match a
    case ToolchainAxes(_, x) =>
      ListInjective(x, b.archs);
    case VariantAxes(_, p, x, _, _) =>
      ListInjective(x, b.archs);
      ListInjective(p, b.packages);
  }

  lemma AxesFields(a: Axes)
    ensures Field(a, "sys_name") == Some(Str(a.sysName)) && Field(a, "archs") == Some(ListJson(a.archs))
    ensures Field(a, "kind") == Some(Str(if a.ToolchainAxes? then "toolchains" else "variants"))
    ensures a.VariantAxes? ==>
      && Field(a, "packages") == Some(ListJson(a.packages))
      && Field(a, "variant_sample") == Some(Num(a.sample)) && Field(a, "variant_seed") == Some(Str(a.seed))
  {
    hide Field, ListJson;
    match a
    case ToolchainAxes(s, x) => ToolchainFields(s, x);
    case VariantAxes(s, p, x, n, seed) => VariantFields(s, p, x, n, seed);
  }

  lemma CanonicalList(x: Option<seq<string>>, y: Option<seq<string>>)
    ensures CanonicalTuple(x) == CanonicalTuple(y) <==> SameList(x, y)
  {
    hide Order.SortedSet;
    if x.Some? && y.Some? {
      Order.SortedSetCanonical(x.value, y.value);
      SameElements(x.value, y.value);
    }
  }

  lemma SameElements(x: seq<string>, y: seq<string>)
    ensures (set e | e in x) == (set e | e in y) <==> forall e :: e in x <==> e in y
  {
    var s, t := set e | e in x, set e | e in y;
    assert forall e :: e in s <==> e in x;
    assert forall e :: e in t <==> e in y;
  }

  lemma CanonicalIff(a: Axes, b: Axes)
    ensures Canonical(a) == Canonical(b) <==> SameAxes(a, b)
  {
    hide CanonicalTuple, SameList;
    CanonicalList(a.archs, b.archs);
    if a.VariantAxes? && b.VariantAxes? {
      CanonicalList(a.packages, b.packages);
    }
  }

  /** Two invocations serialise their axes alike exactly when the axes mean the same. */
  lemma CanonicalBytesIff(a: Axes, b: Axes)
    ensures CanonicalBytes(a) == CanonicalBytes(b) <==> SameAxes(a, b)
  {
    hide AxesMembers, SortKeys, Canonical, SameAxes, Print;
    CanonicalIff(a, b);
    if CanonicalBytes(a) == CanonicalBytes(b) {
      var v, w := SortKeys(Obj(AxesMembers(Canonical(a)))), SortKeys(Obj(AxesMembers(Canonical(b))));
      Utf8.EncodeInjective(Compact(v), Compact(w));
      AxesUnique(Canonical(a));
      AxesUnique(Canonical(b));
      SortKeepsWellFormed(Obj(AxesMembers(Canonical(a))));
      SortKeepsWellFormed(Obj(AxesMembers(Canonical(b))));
      J.PrintInjective(v, w, Tight);
      SortedAxesInjective(Canonical(a), Canonical(b));
    }
  }

  // ------------------------------------------------------------------------------------- preimage

  /** `InputHashInputs`. */
  datatype Inputs = Inputs(flakeLock: Bytes, gitRev: string, gitDiff: Bytes, invocation: Bytes)

  const LENGTH_LIMIT := 0x1_0000_0000_0000_0000

  function Power(k: nat): nat {
    if k == 0 then 1 else 256 * Power(k - 1)
  }

  /** `n.to_bytes(k, "big")`, for an `n` that fits. */
  function BigEndian(n: nat, k: nat): (bs: Bytes)
    requires n < Power(k)
    ensures |bs| == k
  {
    if k == 0 then [] else BigEndian(n / 256, k - 1) + [n % 256]
  }

  lemma {:induction false} BigEndianInjective(m: nat, n: nat, k: nat)
    requires m < Power(k) && n < Power(k) && BigEndian(m, k) == BigEndian(n, k)
    ensures m == n
  {
    if k > 0 {
      var a, b := BigEndian(m / 256, k - 1), BigEndian(n / 256, k - 1);
      assert BigEndian(m, k)[..k - 1] == a && BigEndian(n, k)[..k - 1] == b;
      assert BigEndian(m, k)[k - 1] == BigEndian(n, k)[k - 1];
      BigEndianInjective(m / 256, n / 256, k - 1);
    }
  }

  lemma PowerEight()
    ensures Power(8) == LENGTH_LIMIT
  {
    assert Power(4) == 0x1_0000_0000;
    assert Power(8) == 256 * (256 * (256 * (256 * Power(4))));
  }

  /** One field: tag, eight-byte length, content. An `OverflowError` is `Raised`. */
  function Prefixed(tag: string, content: Bytes): Outcome<Bytes> {
    if |content| < LENGTH_LIMIT then
      PowerEight();
      Ok(Utf8.Encode(tag) + BigEndian(|content|, 8) + content)
    else Raised
  }

  function Join4(a: Outcome<Bytes>, b: Outcome<Bytes>, c: Outcome<Bytes>, d: Outcome<Bytes>): Outcome<Bytes> {
    if a.Ok? && b.Ok? && c.Ok? && d.Ok? then Ok(a.value + (b.value + (c.value + d.value))) else Raised
  }

  /** The bytes `compute_input_hash` feeds to SHA-256. */
  function Preimage(i: Inputs): Outcome<Bytes> {
    Join4(Prefixed("flake_lock:", i.flakeLock), Prefixed("git_rev:", Utf8.Encode(i.gitRev)),
      Prefixed("git_diff:", i.gitDiff), Prefixed("invocation:", i.invocation))
  }

  /** `compute_input_hash`, with the hash function abstract. */
  method ComputeInputHash(i: Inputs, sha256: Bytes -> string) returns (r: Outcome<string>)
    ensures r == match Preimage(i) case Ok(bytes) => Ok(sha256(bytes)) case Raised => Raised
    ensures r.Ok? <==>
      && |i.flakeLock| < 0x1_0000_0000_0000_0000 && |Utf8.Encode(i.gitRev)| < 0x1_0000_0000_0000_0000
      && |i.gitDiff| < 0x1_0000_0000_0000_0000 && |i.invocation| < 0x1_0000_0000_0000_0000
  {
    hide BigEndian, Utf8.Encode, Power;
    PowerEight();
    var fed: Bytes := [];
    var gitRevBytes := Utf8.Encode(i.gitRev);
    if |i.flakeLock| >= LENGTH_LIMIT {
      return Raised;
    }
    fed := fed + Utf8.Encode("flake_lock:") + BigEndian(|i.flakeLock|, 8) + i.flakeLock;
    if |gitRevBytes| >= LENGTH_LIMIT {
      return Raised;
    }
    ghost var a := fed;
    fed := fed + Utf8.Encode("git_rev:") + BigEndian(|gitRevBytes|, 8) + gitRevBytes;
    if |i.gitDiff| >= LENGTH_LIMIT {
      return Raised;
    }
    ghost var b := Utf8.Encode("git_rev:") + BigEndian(|gitRevBytes|, 8) + gitRevBytes;
    fed := fed + Utf8.Encode("git_diff:") + BigEndian(|i.gitDiff|, 8) + i.gitDiff;
    if |i.invocation| >= LENGTH_LIMIT {
      return Raised;
    }
    ghost var c := Utf8.Encode("git_diff:") + BigEndian(|i.gitDiff|, 8) + i.gitDiff;
    fed := fed + Utf8.Encode("invocation:") + BigEndian(|i.invocation|, 8) + i.invocation;
    ghost var d := Utf8.Encode("invocation:") + BigEndian(|i.invocation|, 8) + i.invocation;
    assert a == Prefixed("flake_lock:", i.flakeLock).value;
    assert fed == a + (b + (c + d));
    return Ok(sha256(fed));
  }

  /** A prefixed field ends where it says, whatever follows. */
  lemma PrefixedSplits(tag: string, x: Bytes, y: Bytes, restX: Bytes, restY: Bytes)
    requires Prefixed(tag, x).Ok? && Prefixed(tag, y).Ok?
    requires Prefixed(tag, x).value + restX == Prefixed(tag, y).value + restY
    ensures x == y && restX == restY
  {
    hide BigEndian, Utf8.Encode, Power;
    PowerEight();
    var t := Utf8.Encode(tag);
    var k := |t|;
    var left, right := Prefixed(tag, x).value + restX, Prefixed(tag, y).value + restY;
    assert left[k..k + 8] == BigEndian(|x|, 8) && right[k..k + 8] == BigEndian(|y|, 8);
    BigEndianInjective(|x|, |y|, 8);
    assert left[k + 8..k + 8 + |x|] == x && right[k + 8..k + 8 + |y|] == y;
    assert left[k + 8 + |x|..] == restX && right[k + 8 + |y|..] == restY;
  }

  /** The four-field concatenation determines its fields. */
  lemma PreimageInjective(i: Inputs, j: Inputs)
    ensures Preimage(i).Ok? && Preimage(i) == Preimage(j) ==> i == j
  {
    hide Prefixed, Utf8.Encode;
    if Preimage(i).Ok? && Preimage(i) == Preimage(j) {
      var a, b, c, d := Prefixed("flake_lock:", i.flakeLock).value, Prefixed("git_rev:", Utf8.Encode(i.gitRev)).value,
        Prefixed("git_diff:", i.gitDiff).value, Prefixed("invocation:", i.invocation).value;
      var e, f, g, h := Prefixed("flake_lock:", j.flakeLock).value, Prefixed("git_rev:", Utf8.Encode(j.gitRev)).value,
        Prefixed("git_diff:", j.gitDiff).value, Prefixed("invocation:", j.invocation).value;
      PrefixedSplits("flake_lock:", i.flakeLock, j.flakeLock, b + (c + d), f + (g + h));
      PrefixedSplits("git_rev:", Utf8.Encode(i.gitRev), Utf8.Encode(j.gitRev), c + d, g + h);
      PrefixedSplits("git_diff:", i.gitDiff, j.gitDiff, d, h);
      assert d + [] == d && h + [] == h;
      PrefixedSplits("invocation:", i.invocation, j.invocation, [], []);
      Utf8.EncodeInjective(i.gitRev, j.gitRev);
    }
  }

  // ------------------------------------------------------------------------------------------ keys

  datatype Repo = Repo(flakeLock: Bytes, gitRev: string, gitDiff: Bytes)

  /** `compute_subentry_key` without the hash. */
  function SubentryPreimage(r: Repo, a: Axes): Outcome<Bytes> {
    Preimage(Inputs(r.flakeLock, r.gitRev, r.gitDiff, CanonicalBytes(a)))
  }

  /** Keys are equal exactly when lock, revision, diff, entry kind and effective axes are. */
  lemma SubentryKeyIff(r: Repo, a: Axes, s: Repo, b: Axes)
    ensures SubentryPreimage(r, a).Ok? && SubentryPreimage(s, b).Ok? ==>
      (SubentryPreimage(r, a) == SubentryPreimage(s, b) <==> r == s && SameAxes(a, b))
  {
    hide CanonicalBytes, SameAxes, Preimage;
    CanonicalBytesIff(a, b);
    PreimageInjective(Inputs(r.flakeLock, r.gitRev, r.gitDiff, CanonicalBytes(a)),
      Inputs(s.flakeLock, s.gitRev, s.gitDiff, CanonicalBytes(b)));
  }
}
