/** The wire protocol of the dependency_graph -> build handoff: descriptors, batch and summary
    messages, and the strict decoder (`streamed_spawn.py`). */
module SpawnCodec {
  import opened Wrappers
  import opened Json
  import Dicts
  import J = JsonRoundTrip
  import JsonText
  import Utf8

  const WIRE_VERSION := 1
  const DEFAULT_MAX_MESSAGE_BYTES := 100 * 1024
  const MAX_BATCH_DESCRIPTORS := 200

  type Bytes = seq<Utf8.Byte>

  /** The payload dict, or one that holds a value `json.dumps` raises `TypeError` for. */
  datatype Payload = Native(members: seq<Member>) | NotSerializable

  datatype Descriptor = Descriptor(
    kind: string,
    taskId: string,
    name: string,
    payload: Payload,
    dependsOn: seq<string>,
    buildCompilersDependsOn: seq<string>,
    priorityHint: int)
  {
    /** A Python dict never holds one key twice. */
    predicate Valid() {
      payload.Native? ==> WellFormed(Obj(payload.members))
    }
  }

  datatype Message =
    | SpawnBatch(seqNo: nat, descriptors: seq<Descriptor>)
    | Summary(total: nat, batches: nat, counters: seq<(string, int)>)

  // -------------------------------------------------------------------------------- descriptors

  const DESCRIPTOR_FIELDS := {
    "kind", "task_id", "name", "payload", "depends_on", "build_compilers_depends_on", "priority_hint"}

  function Strings(ss: seq<string>): seq<Json> {
    seq(|ss|, i requires 0 <= i < |ss| => Str(ss[i]))
  }

  function DescriptorMembers(d: Descriptor): seq<Member>
    requires d.payload.Native?
  {
    [ Member("kind", Str(d.kind)),
      Member("task_id", Str(d.taskId)),
      Member("name", Str(d.name)),
      Member("payload", Obj(d.payload.members)),
      Member("depends_on", Arr(Strings(d.dependsOn))),
      Member("build_compilers_depends_on", Arr(Strings(d.buildCompilersDependsOn))),
      Member("priority_hint", Num(d.priorityHint)) ]
  }

  function EncodeDescriptor(d: Descriptor): Json
    requires d.payload.Native?
  {
    Obj(DescriptorMembers(d))
  }

  /** `_encode_descriptor_str`: a `TypeError` of the payload surfaces as `ValueError`. */
  function EncodeDescriptorText(d: Descriptor): Outcome<string> {
    if d.payload.Native? then Ok(Compact(EncodeDescriptor(d))) else Raised
  }

  function Keys(ms: seq<Member>): set<string> {
    set i | 0 <= i < |ms| :: ms[i].key
  }

  function GetString(ms: seq<Member>, k: string): Outcome<string> {
    match Get(ms, k)
    case Some(Str(s)) => Ok(s)
    case _ => Raised
  }

  /** A list whose every item is a `str`. */
  function ReadStrings(items: seq<Json>): Outcome<seq<string>> {
    if items == [] then Ok([])
    else if !items[0].Str? then Raised
    else
      match ReadStrings(items[1..])
      case Raised => Raised
      case Ok(rest) => Ok([items[0].s] + rest)
  }

  function GetStrings(ms: seq<Member>, k: string): Outcome<seq<string>> {
    match Get(ms, k)
    case Some(Arr(items)) => ReadStrings(items)
    case _ => Raised
  }

  /** `_check_int(..., non_negative=True)`: a JSON `true` is not an int here. */
  function GetNat(ms: seq<Member>, k: string): Outcome<nat> {
    match Get(ms, k)
    case Some(Num(n)) => if n >= 0 then Ok(n) else Raised
    case _ => Raised
  }

  function DecodeDescriptor(v: Json): Outcome<Descriptor> {
    if !v.Obj? || Keys(v.members) != DESCRIPTOR_FIELDS then Raised
    else
      var ms := v.members;
      match (GetString(ms, "kind"), GetString(ms, "task_id"), GetString(ms, "name"), Get(ms, "payload"))
      case (Ok(kind), Ok(taskId), Ok(name), Some(Obj(payload))) =>
        (match (GetStrings(ms, "depends_on"), GetStrings(ms, "build_compilers_depends_on"), GetNat(ms, "priority_hint"))
         case (Ok(deps), Ok(compilers), Ok(hint)) =>
           Ok(Descriptor(kind, taskId, name, Native(payload), deps, compilers, hint))
         case _ => Raised)
      case _ => Raised
  }

  function DecodeDescriptors(items: seq<Json>): Outcome<seq<Descriptor>> {
    if items == [] then Ok([])
    else
      match (DecodeDescriptor(items[0]), DecodeDescriptors(items[1..]))
      case (Ok(d), Ok(ds)) => Ok([d] + ds)
      case _ => Raised
  }

  // ----------------------------------------------------------------------------------- messages

  function EncodedItems(ds: seq<Descriptor>): (items: seq<Json>)
    requires forall i :: 0 <= i < |ds| ==> ds[i].payload.Native?
    ensures |items| == |ds|
  {
    seq(|ds|, i requires 0 <= i < |ds| => EncodeDescriptor(ds[i]))
  }

  function BatchMembers(seqNo: int, items: seq<Json>): seq<Member> {
    [ Member("v", Num(WIRE_VERSION)),
      Member("kind", Str("spawn_batch")),
      Member("seq", Num(seqNo)),
      Member("descriptors", Arr(items)) ]
  }

  /** The batch message as the documented JSON object. */
  function BatchJson(seqNo: int, ds: seq<Descriptor>): Json
    requires forall i :: 0 <= i < |ds| ==> ds[i].payload.Native?
  {
    Obj(BatchMembers(seqNo, EncodedItems(ds)))
  }

  /** `_batch_envelope`: the batch object with an empty descriptor list. */
  function Envelope(seqNo: int): string {
    Compact(Obj(BatchMembers(seqNo, [])))
  }

  /** `",".join(parts)`. */
  function Join(parts: seq<string>): string {
    if parts == [] then ""
    else if |parts| == 1 then parts[0]
    else parts[0] + "," + Join(parts[1..])
  }

  function Texts(items: seq<Json>): (ts: seq<string>)
    ensures |ts| == |items|
  {
    seq(|items|, i requires 0 <= i < |items| => Compact(items[i]))
  }

  function CounterMembers(counters: seq<(string, int)>): (ms: seq<Member>)
    ensures |ms| == |counters|
  {
    seq(|counters|, i requires 0 <= i < |counters| => Member(counters[i].0, Num(counters[i].1)))
  }

  function SummaryMembers(total: int, batches: int, counters: seq<(string, int)>): seq<Member> {
    [ Member("v", Num(WIRE_VERSION)),
      Member("kind", Str("summary")),
      Member("total", Num(total)),
      Member("batches", Num(batches)),
      Member("counters", Obj(CounterMembers(counters))) ]
  }

  function ReadCounters(ms: seq<Member>): Outcome<seq<(string, int)>> {
    if ms == [] then Ok([])
    else if !ms[0].value.Num? then Raised
    else
      match ReadCounters(ms[1..])
      case Raised => Raised
      case Ok(rest) => Ok([(ms[0].key, ms[0].value.n)] + rest)
  }

  function DecodeBatch(ms: seq<Member>): Outcome<Message> {
    if Keys(ms) != {"v", "kind", "seq", "descriptors"} then Raised
    else
      match (GetNat(ms, "seq"), Get(ms, "descriptors"))
      case (Ok(seqNo), Some(Arr(items))) =>
        (match DecodeDescriptors(items)
         case Ok(ds) => Ok(SpawnBatch(seqNo, ds))
         case Raised => Raised)
      case _ => Raised
  }

  function DecodeSummary(ms: seq<Member>): Outcome<Message> {
    if Keys(ms) != {"v", "kind", "total", "batches", "counters"} then Raised
    else
      match (GetNat(ms, "total"), GetNat(ms, "batches"), Get(ms, "counters"))
      case (Ok(total), Ok(batches), Some(Obj(raw))) =>
        (match ReadCounters(raw)
         case Ok(counters) => Ok(Summary(total, batches, counters))
         case Raised => Raised)
      case _ => Raised
  }

  /** `decode_spawn_message` on the parsed JSON value. */
  function DecodeValue(v: Json): Outcome<Message> {
    if !v.Obj? || Get(v.members, "v") != Some(Num(WIRE_VERSION)) then Raised
    else
      match GetString(v.members, "kind")
      case Raised => Raised
      case Ok(kind) =>
        if kind == "spawn_batch" then DecodeBatch(v.members)
        else if kind == "summary" then DecodeSummary(v.members)
        else Raised
  }

  /** `decode_spawn_message`: `ValueError` on any malformation, at the byte, JSON or field level. */
  function DecodeMessage(data: Bytes): Outcome<Message> {
    match Utf8.Decode(data)
    case None => Raised
    case Some(text) =>
      match Parse(text)
      case None => Raised
      case Some(v) => DecodeValue(v)
  }

  // -------------------------------------------------------------------- descriptor round trip

  lemma DescriptorKeys(d: Descriptor)
    requires d.payload.Native?
    ensures UniqueKeys(DescriptorMembers(d))
    ensures Keys(DescriptorMembers(d)) == DESCRIPTOR_FIELDS
  {
    var ms := DescriptorMembers(d);
    assert ms[0].key == "kind" && ms[1].key == "task_id" && ms[2].key == "name" && ms[3].key == "payload";
    assert ms[4].key == "depends_on" && ms[5].key == "build_compilers_depends_on" && ms[6].key == "priority_hint";
    forall i, j | 0 <= i < j < |ms| ensures ms[i].key != ms[j].key {
      assert "kind"[0] != "name"[0] && "task_id"[0] != "payload"[0];
      assert |ms[0].key| == 4 && |ms[1].key| == 7 && |ms[2].key| == 4 && |ms[3].key| == 7;
      assert |ms[4].key| == 10 && |ms[5].key| == 26 && |ms[6].key| == 13;
    }
    forall k ensures k in Keys(ms) <==> k in DESCRIPTOR_FIELDS {
      if k in DESCRIPTOR_FIELDS {
        assert exists i :: 0 <= i < 7 && ms[i].key == k;
      }
    }
  }

  lemma {:induction false} ReadWrittenStrings(ss: seq<string>)
    ensures ReadStrings(Strings(ss)) == Ok(ss)
  {
    if ss != [] {
      assert Strings(ss)[1..] == Strings(ss[1..]);
      ReadWrittenStrings(ss[1..]);
      assert [ss[0]] + ss[1..] == ss;
    }
  }

  /** Strict decoding accepts an encoded descriptor exactly when its hint is non-negative, and then
      returns it unchanged. The encoder makes no such test. */
  lemma DescriptorRoundTrip(d: Descriptor)
    requires d.payload.Native?
    ensures DecodeDescriptor(EncodeDescriptor(d)) == if d.priorityHint >= 0 then Ok(d) else Raised
  {
    hide DESCRIPTOR_FIELDS, Get, Strings, ReadStrings, Keys;
    var ms := DescriptorMembers(d);
    DescriptorKeys(d);
    J.GetAt(ms, 0);
    J.GetAt(ms, 1);
    J.GetAt(ms, 2);
    J.GetAt(ms, 3);
    J.GetAt(ms, 4);
    J.GetAt(ms, 5);
    J.GetAt(ms, 6);
    ReadWrittenStrings(d.dependsOn);
    ReadWrittenStrings(d.buildCompilersDependsOn);
  }

  lemma DecodedFields(v: Json, d: Descriptor)
    requires DecodeDescriptor(v) == Ok(d)
    ensures v.Obj? && Keys(v.members) == DESCRIPTOR_FIELDS
    ensures d.payload.Native? && d.priorityHint >= 0
    ensures var ms := v.members;
      Get(ms, "kind") == Some(Str(d.kind)) && Get(ms, "task_id") == Some(Str(d.taskId)) && Get(ms, "name") == Some(Str(d.name))
      && Get(ms, "payload") == Some(Obj(d.payload.members))
      && Get(ms, "depends_on") == Some(Arr(Strings(d.dependsOn)))
      && Get(ms, "build_compilers_depends_on") == Some(Arr(Strings(d.buildCompilersDependsOn)))
      && Get(ms, "priority_hint") == Some(Num(d.priorityHint))
  {
    hide DESCRIPTOR_FIELDS, Get, Strings, ReadStrings;
    ReadStringsOnly(v.members, "depends_on");
    ReadStringsOnly(v.members, "build_compilers_depends_on");
  }

  lemma FieldsDecode(v: Json, d: Descriptor)
    requires d.payload.Native? && d.priorityHint >= 0 && v.Obj? && Keys(v.members) == DESCRIPTOR_FIELDS
    requires forall k | k in DESCRIPTOR_FIELDS :: Get(v.members, k) == Get(DescriptorMembers(d), k)
    ensures DecodeDescriptor(v) == Ok(d)
  {
    hide Get, Strings, ReadStrings, Keys;
    var ms := DescriptorMembers(d);
    DescriptorKeys(d);
    J.GetAt(ms, 0);
    J.GetAt(ms, 1);
    J.GetAt(ms, 2);
    J.GetAt(ms, 3);
    J.GetAt(ms, 4);
    J.GetAt(ms, 5);
    J.GetAt(ms, 6);
    ReadWrittenStrings(d.dependsOn);
    ReadWrittenStrings(d.buildCompilersDependsOn);
  }

  /** Strictness: exactly what is the encoding of `d`, as a dict, decodes to `d`. */
  lemma DecodedIsEncoded(v: Json, d: Descriptor)
    requires WellFormed(v)
    ensures DecodeDescriptor(v) == Ok(d) <==>
      && d.payload.Native? && d.priorityHint >= 0
      && v.Obj? && Keys(v.members) == DESCRIPTOR_FIELDS
      && forall k | k in DESCRIPTOR_FIELDS :: Get(v.members, k) == Get(DescriptorMembers(d), k)
    ensures DecodeDescriptor(v) == Ok(d) ==> d.Valid()
  {
    hide DESCRIPTOR_FIELDS, WellFormed, DecodeDescriptor, Get, Strings, Keys;
    if d.payload.Native? && d.priorityHint >= 0 && v.Obj? && Keys(v.members) == DESCRIPTOR_FIELDS
      && forall k | k in DESCRIPTOR_FIELDS :: Get(v.members, k) == Get(DescriptorMembers(d), k)
    {
      FieldsDecode(v, d);
    }
    if DecodeDescriptor(v) == Ok(d) {
      DecodedFields(v, d);
      PayloadWellFormed(v);
      FieldsMatch(v, d);
    }
  }

  lemma FieldsMatch(v: Json, d: Descriptor)
    requires DecodeDescriptor(v) == Ok(d) && v.Obj? && d.payload.Native?
    ensures forall k | k in DESCRIPTOR_FIELDS :: Get(v.members, k) == Get(DescriptorMembers(d), k)
  {
    hide DESCRIPTOR_FIELDS, DecodeDescriptor, Get, Strings;
    DecodedFields(v, d);
    DescriptorKeys(d);
    var es := DescriptorMembers(d);
    forall k | k in DESCRIPTOR_FIELDS ensures Get(v.members, k) == Get(es, k) {
      var i :| 0 <= i < |es| && es[i].key == k;
      J.GetAt(es, i);
    }
  }

  lemma PayloadWellFormed(v: Json)
    requires WellFormed(v) && v.Obj?
    ensures forall k :: Get(v.members, k).Some? ==> WellFormed(Get(v.members, k).value)
  {
    forall k | Get(v.members, k).Some? ensures WellFormed(Get(v.members, k).value) {
      var i :| 0 <= i < |v.members| && v.members[i].key == k;
      J.GetAt(v.members, i);
    }
  }

  lemma {:induction false} ReadStringsInverse(items: seq<Json>)
    ensures ReadStrings(items).Ok? ==> Strings(ReadStrings(items).value) == items
  {
    if items != [] {
      ReadStringsInverse(items[1..]);
    }
  }

  lemma ReadStringsOnly(ms: seq<Member>, k: string)
    ensures GetStrings(ms, k).Ok? ==> Get(ms, k) == Some(Arr(Strings(GetStrings(ms, k).value)))
  {
    if GetStrings(ms, k).Ok? {
      ReadStringsInverse(Get(ms, k).value.items);
    }
  }

  // ------------------------------------------------------------------------------------- splice

  /** Everything of a batch message before its descriptor list. */
  function BatchHead(seqNo: int): string {
    "{" + PrintMember(Member("v", Num(WIRE_VERSION)), Tight, 1) + "," + PrintMember(Member("kind", Str("spawn_batch")), Tight, 1)
    + "," + PrintMember(Member("seq", Num(seqNo)), Tight, 1) + "," + (Quote("descriptors") + ":")
  }

  lemma PrintCons(m: Member, ms: seq<Member>)
    requires ms != []
    ensures PrintMembers([m] + ms, Tight, 1) == PrintMember(m, Tight, 1) + "," + PrintMembers(ms, Tight, 1)
  {
    hide PrintMember;
    assert ([m] + ms)[1..] == ms;
  }

  lemma PrintFour(a: Member, b: Member, c: Member, d: Member)
    ensures Compact(Obj([a, b, c, d])) == "{" + PrintMember(a, Tight, 1) + "," + PrintMember(b, Tight, 1) + ","
      + PrintMember(c, Tight, 1) + "," + PrintMember(d, Tight, 1) + "}"
  {
    assert PrintMembers([d], Tight, 1) == PrintMember(d, Tight, 1);
    hide PrintMember, PrintMembers;
    PrintCons(c, [d]);
    assert [c] + [d] == [c, d];
    PrintCons(b, [c, d]);
    assert [b] + [c, d] == [b, c, d];
    PrintCons(a, [b, c, d]);
    assert [a] + [b, c, d] == [a, b, c, d];
    FlattenFour(PrintMember(a, Tight, 1), PrintMember(b, Tight, 1), PrintMember(c, Tight, 1), PrintMember(d, Tight, 1));
  }

  lemma FlattenFour(a: string, b: string, c: string, d: string)
    ensures "{" + "" + (a + "," + (b + "," + (c + "," + d))) + "" + "}" == "{" + a + "," + b + "," + c + "," + d + "}"
  {
    assert c + "," + d == c + ("," + d);
    assert b + "," + (c + "," + d) == b + "," + c + "," + d;
    assert a + "," + (b + "," + c + "," + d) == a + "," + b + "," + c + "," + d;
  }

  lemma {:induction false} CompactHasNoLevel(v: Json, level: nat)
    ensures Print(v, Tight, level) == Compact(v)
    decreases v, 0
  {
    match v
    case Arr(items) =>
      if items != [] {
        ItemsJoined(items, level + 1);
        ItemsJoined(items, 1);
      }
    case Obj(ms) =>
      if ms != [] {
        MembersHaveNoLevel(ms, level + 1);
      }
    case _ =>
  }

  /** The printed list is the comma-join of the separately printed items. */
  lemma {:induction false} ItemsJoined(items: seq<Json>, level: nat)
    requires items != []
    ensures PrintItems(items, Tight, level) == Join(Texts(items))
    decreases items, 1
  {
    hide Print;
    CompactHasNoLevel(items[0], level);
    if |items| > 1 {
      ItemsJoined(items[1..], level);
      assert Texts(items)[1..] == Texts(items[1..]);
    }
  }

  lemma {:induction false} MembersHaveNoLevel(ms: seq<Member>, level: nat)
    requires ms != []
    ensures PrintMembers(ms, Tight, level) == PrintMembers(ms, Tight, 1)
    decreases ms, 1
  {
    hide Print;
    CompactHasNoLevel(ms[0].value, level);
    CompactHasNoLevel(ms[0].value, 1);
    if |ms| > 1 {
      MembersHaveNoLevel(ms[1..], level);
    }
  }

  lemma ListText(items: seq<Json>)
    ensures Print(Arr(items), Tight, 1) == "[" + Join(Texts(items)) + "]"
  {
    hide PrintItems, Texts;
    if items == [] {
      assert |Texts(items)| == 0;
    } else {
      ItemsJoined(items, 2);
    }
  }

  lemma BatchText(seqNo: int, items: seq<Json>)
    ensures Compact(Obj(BatchMembers(seqNo, items))) == BatchHead(seqNo) + "[" + Join(Texts(items)) + "]}"
  {
    var v, kind, n, d := Member("v", Num(WIRE_VERSION)), Member("kind", Str("spawn_batch")), Member("seq", Num(seqNo)),
      Member("descriptors", Arr(items));
    PrintFour(v, kind, n, d);
    ListText(items);
    assert PrintMember(d, Tight, 1) == Quote("descriptors") + ":" + ("[" + Join(Texts(items)) + "]") by {
      hide Print, Quote, Texts, Join;
    }
    assert BatchMembers(seqNo, items) == [v, kind, n, d];
    hide Print, PrintMember, Quote, Texts, Join;
    FlattenList("{" + PrintMember(v, Tight, 1) + "," + PrintMember(kind, Tight, 1) + "," + PrintMember(n, Tight, 1) + ",",
      Quote("descriptors") + ":", Join(Texts(items)));
  }

  lemma FlattenList(head: string, key: string, list: string)
    ensures head + (key + ("[" + list + "]")) + "}" == head + key + "[" + list + "]}"
  {
  }

  /** The text the encoder splices together is the printed batch object. */
  lemma SpliceIsPrint(seqNo: int, ds: seq<Descriptor>, parts: seq<string>)
    requires forall i :: 0 <= i < |ds| ==> ds[i].payload.Native?
    requires |parts| == |ds| && forall i :: 0 <= i < |ds| ==> Ok(parts[i]) == EncodeDescriptorText(ds[i])
    ensures |Envelope(seqNo)| >= 2
    ensures Envelope(seqNo)[..|Envelope(seqNo)| - 2] + Join(parts) + "]}" == Compact(BatchJson(seqNo, ds))
    ensures |Compact(BatchJson(seqNo, ds))| == |Envelope(seqNo)| + |Join(parts)|
  {
    hide Compact, BatchHead;
    assert Texts(EncodedItems(ds)) == parts;
    BatchText(seqNo, EncodedItems(ds));
    BatchText(seqNo, []);
    var e := Envelope(seqNo);
    assert e == BatchHead(seqNo) + "[" + "" + "]}";
    assert e[..|e| - 2] == BatchHead(seqNo) + "[";
  }

  lemma HeadMonotone(a: nat, b: nat)
    requires a <= b
    ensures |BatchHead(a)| <= |BatchHead(b)|
  {
    hide NatText;
    JsonText.NatTextMonotone(a, b);
    assert |PrintMember(Member("seq", Num(a)), Tight, 1)| <= |PrintMember(Member("seq", Num(b)), Tight, 1)| by {
      hide Quote;
    }
    hide PrintMember, Quote;
  }

  /** The envelope never gets shorter as `seq` counts up. */
  lemma EnvelopeMonotone(a: nat, b: nat)
    requires a <= b
    ensures |Envelope(a)| <= |Envelope(b)|
  {
    hide BatchHead, Texts, Compact, BatchMembers;
    HeadMonotone(a, b);
    BatchText(a, []);
    BatchText(b, []);
  }

  // ----------------------------------------------------------------------- message round trips

  lemma BatchKeys(seqNo: int, items: seq<Json>)
    ensures UniqueKeys(BatchMembers(seqNo, items))
    ensures Keys(BatchMembers(seqNo, items)) == {"v", "kind", "seq", "descriptors"}
  {
    var ms := BatchMembers(seqNo, items);
    assert ms[0].key == "v" && ms[1].key == "kind" && ms[2].key == "seq" && ms[3].key == "descriptors";
    forall k ensures k in Keys(ms) <==> k in {"v", "kind", "seq", "descriptors"} {
      if k in {"v", "kind", "seq", "descriptors"} {
        assert exists i :: 0 <= i < 4 && ms[i].key == k;
      }
    }
  }

  predicate AllValid(ds: seq<Descriptor>) {
    forall i :: 0 <= i < |ds| ==> ds[i].payload.Native? && ds[i].Valid()
  }

  predicate AllHintsNonNegative(ds: seq<Descriptor>) {
    forall i :: 0 <= i < |ds| ==> ds[i].priorityHint >= 0
  }

  lemma {:induction false} DecodeEncodedItems(ds: seq<Descriptor>)
    requires AllValid(ds)
    ensures DecodeDescriptors(EncodedItems(ds)) == if AllHintsNonNegative(ds) then Ok(ds) else Raised
  {
    hide EncodeDescriptor, DecodeDescriptor;
    if ds != [] {
      DescriptorRoundTrip(ds[0]);
      assert EncodedItems(ds)[1..] == EncodedItems(ds[1..]);
      DecodeEncodedItems(ds[1..]);
      assert [ds[0]] + ds[1..] == ds;
      assert AllHintsNonNegative(ds) <==> ds[0].priorityHint >= 0 && AllHintsNonNegative(ds[1..]) by {
        if AllHintsNonNegative(ds[1..]) && ds[0].priorityHint >= 0 {
          forall i | 0 <= i < |ds| ensures ds[i].priorityHint >= 0 {
            assert i > 0 ==> ds[1..][i - 1] == ds[i];
          }
        }
      }
    }
  }

  lemma BatchWellFormed(seqNo: int, ds: seq<Descriptor>)
    requires AllValid(ds)
    ensures WellFormed(BatchJson(seqNo, ds))
  {
    var items := EncodedItems(ds);
    forall i | 0 <= i < |items| ensures WellFormed(items[i]) {
      DescriptorWellFormed(ds[i]);
    }
    BatchKeys(seqNo, items);
    var ms := BatchMembers(seqNo, items);
    assert WellFormed(Arr(items));
    assert ms[3].value == Arr(items);
  }

  lemma DescriptorWellFormed(d: Descriptor)
    requires d.payload.Native? && d.Valid()
    ensures WellFormed(EncodeDescriptor(d))
  {
    DescriptorKeys(d);
    var ms := DescriptorMembers(d);
    forall i | 0 <= i < |ms| ensures WellFormed(ms[i].value) {
      assert WellFormed(ms[3].value);
      assert WellFormed(ms[4].value) && WellFormed(ms[5].value);
    }
  }

  lemma DecodeBatchValue(seqNo: nat, ds: seq<Descriptor>)
    requires AllValid(ds)
    ensures DecodeValue(BatchJson(seqNo, ds)) == if AllHintsNonNegative(ds) then Ok(SpawnBatch(seqNo, ds)) else Raised
  {
    hide EncodedItems, DecodeDescriptors, AllHintsNonNegative, Keys, Get;
    var items := EncodedItems(ds);
    var ms := BatchMembers(seqNo, items);
    BatchKeys(seqNo, items);
    J.GetAt(ms, 0);
    J.GetAt(ms, 1);
    J.GetAt(ms, 2);
    J.GetAt(ms, 3);
    DecodeEncodedItems(ds);
  }

  /** One batch message on the wire: exact exactly when every hint is non-negative. */
  lemma BatchRoundTrip(seqNo: nat, ds: seq<Descriptor>)
    requires AllValid(ds)
    ensures DecodeMessage(Utf8.Encode(Compact(BatchJson(seqNo, ds))))
      == if AllHintsNonNegative(ds) then Ok(SpawnBatch(seqNo, ds)) else Raised
  {
    hide DecodeValue, AllHintsNonNegative, BatchJson, Parse, Print;
    var v := BatchJson(seqNo, ds);
    BatchWellFormed(seqNo, ds);
    J.WireRoundTrip(v, Tight);
    Utf8.DecodeEncode(Compact(v));
    DecodeBatchValue(seqNo, ds);
  }

  lemma {:induction false} ReadWrittenCounters(counters: seq<(string, int)>)
    ensures ReadCounters(CounterMembers(counters)) == Ok(counters)
  {
    if counters != [] {
      assert CounterMembers(counters)[1..] == CounterMembers(counters[1..]);
      ReadWrittenCounters(counters[1..]);
      assert [counters[0]] + counters[1..] == counters;
    }
  }

  lemma SummaryKeys(total: int, batches: int, counters: seq<(string, int)>)
    ensures UniqueKeys(SummaryMembers(total, batches, counters))
    ensures Keys(SummaryMembers(total, batches, counters)) == {"v", "kind", "total", "batches", "counters"}
  {
    hide CounterMembers;
    var ms := SummaryMembers(total, batches, counters);
    assert ms[0].key == "v" && ms[1].key == "kind" && ms[2].key == "total" && ms[3].key == "batches" && ms[4].key == "counters";
    forall i, j | 0 <= i < j < |ms| ensures ms[i].key != ms[j].key {
      assert |ms[0].key| == 1 && |ms[1].key| == 4 && |ms[2].key| == 5 && |ms[3].key| == 7 && |ms[4].key| == 8;
    }
    forall k ensures k in Keys(ms) <==> k in {"v", "kind", "total", "batches", "counters"} {
      if k in {"v", "kind", "total", "batches", "counters"} {
        assert exists i :: 0 <= i < 5 && ms[i].key == k;
      }
    }
  }

  /** The summary message on the wire. */
  lemma SummaryRoundTrip(total: nat, batches: nat, counters: seq<(string, int)>)
    requires Dicts.UniqueKeys(counters)
    ensures DecodeMessage(Utf8.Encode(Compact(Obj(SummaryMembers(total, batches, counters)))))
      == Ok(Summary(total, batches, counters))
  {
    hide Keys, Parse, Print, Utf8.Decode, Utf8.Encode, ReadCounters, Get;
    var ms := SummaryMembers(total, batches, counters);
    var v := Obj(ms);
    SummaryKeys(total, batches, counters);
    assert WellFormed(Obj(CounterMembers(counters)));
    assert WellFormed(v);
    J.WireRoundTrip(v, Tight);
    Utf8.DecodeEncode(Compact(v));
    J.GetAt(ms, 0);
    J.GetAt(ms, 1);
    J.GetAt(ms, 2);
    J.GetAt(ms, 3);
    J.GetAt(ms, 4);
    ReadWrittenCounters(counters);
  }

  // --------------------------------------------------------------------------------- strict reading

  lemma {:induction false} ItemsDecode(items: seq<Json>, ds: seq<Descriptor>)
    ensures DecodeDescriptors(items) == Ok(ds) <==>
      |items| == |ds| && forall i :: 0 <= i < |ds| ==> DecodeDescriptor(items[i]) == Ok(ds[i])
  {
    hide DecodeDescriptor;
    if items != [] && ds != [] {
      ItemsDecode(items[1..], ds[1..]);
      assert [ds[0]] + ds[1..] == ds;
      assert forall i :: 0 < i < |ds| ==> ds[i] == ds[1..][i - 1];
      assert forall i :: 0 < i < |items| ==> items[i] == items[1..][i - 1];
    }
  }

  /** Exactly these objects are batches: four fields and no other, version one, a non-negative number, and
      a list of which every item is a strict descriptor. */
  lemma DecodesToBatch(v: Json, seqNo: nat, ds: seq<Descriptor>)
    ensures DecodeValue(v) == Ok(SpawnBatch(seqNo, ds)) <==>
      && v.Obj? && Keys(v.members) == {"v", "kind", "seq", "descriptors"}
      && Get(v.members, "v") == Some(Num(1)) && Get(v.members, "kind") == Some(Str("spawn_batch"))
      && Get(v.members, "seq") == Some(Num(seqNo))
      && match Get(v.members, "descriptors")
         case Some(Arr(items)) => |items| == |ds| && forall i :: 0 <= i < |ds| ==> DecodeDescriptor(items[i]) == Ok(ds[i])
         case _ => false
  {
    hide Get, Keys, DecodeDescriptors, DecodeDescriptor, DecodeSummary;
    if v.Obj? { SummaryIsNoBatch(v); }
    if v.Obj? && Get(v.members, "descriptors").Some? && Get(v.members, "descriptors").value.Arr? {
      ItemsDecode(Get(v.members, "descriptors").value.items, ds);
    }
  }

  lemma SummaryIsNoBatch(v: Json)
    requires v.Obj?
    ensures DecodeSummary(v.members).Ok? ==> DecodeSummary(v.members).value.Summary?
    ensures DecodeBatch(v.members).Ok? ==> DecodeBatch(v.members).value.SpawnBatch?
  {
    hide Get, Keys, DecodeDescriptors, ReadCounters;
  }

  lemma {:induction false} ReadCountersInverse(ms: seq<Member>, counters: seq<(string, int)>)
    ensures ReadCounters(ms) == Ok(counters) <==> ms == CounterMembers(counters)
  {
    if ms == [] || counters == [] {
    } else {
      ReadCountersInverse(ms[1..], counters[1..]);
      assert CounterMembers(counters)[1..] == CounterMembers(counters[1..]);
      assert ms == [ms[0]] + ms[1..] && counters == [counters[0]] + counters[1..];
      assert CounterMembers(counters) == [CounterMembers(counters)[0]] + CounterMembers(counters)[1..];
    }
  }

  /** Exactly these objects are summaries: five fields and no other, version one, non-negative totals, and
      counters that are all whole numbers. */
  lemma DecodesToSummary(v: Json, total: nat, batches: nat, counters: seq<(string, int)>)
    ensures DecodeValue(v) == Ok(Summary(total, batches, counters)) <==>
      && v.Obj? && Keys(v.members) == {"v", "kind", "total", "batches", "counters"}
      && Get(v.members, "v") == Some(Num(1)) && Get(v.members, "kind") == Some(Str("summary"))
      && Get(v.members, "total") == Some(Num(total)) && Get(v.members, "batches") == Some(Num(batches))
      && Get(v.members, "counters") == Some(Obj(CounterMembers(counters)))
  {
    hide Get, Keys, DecodeBatch, ReadCounters, CounterMembers;
    if v.Obj? {
      SummaryIsNoBatch(v);
      if Get(v.members, "counters").Some? && Get(v.members, "counters").value.Obj? {
        ReadCountersInverse(Get(v.members, "counters").value.members, counters);
      }
    }
  }

  /** Whatever decodes is the UTF-8 of a text that parses to such an object. */
  lemma DecodedMessage(data: Bytes)
    ensures DecodeMessage(data).Ok? <==>
      exists text, v :: data == Utf8.Encode(text) && Parse(text) == Some(v) && WellFormed(v) && DecodeValue(v).Ok?
  {
    hide Parse, DecodeValue, WellFormed, Utf8.Encode, Utf8.Decode;
    Utf8.EncodeDecoded(data);
    if DecodeMessage(data).Ok? {
      var text := Utf8.Decode(data).value;
      J.ParseWellFormed(text);
      assert data == Utf8.Encode(text) && WellFormed(Parse(text).value);
    }
    forall text | data == Utf8.Encode(text) ensures Utf8.Decode(data) == Some(text) {
      Utf8.DecodeEncode(text);
    }
  }
}
