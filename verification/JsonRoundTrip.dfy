/** `json.loads(json.dumps(v)) == v`, in every layout, and that the parser only makes proper dicts. */
module JsonRoundTrip {
  import opened Wrappers
  import opened Json
  import opened JsonText
  import Utf8

  // -------------------------------------------------------------------------------- the theorem

  lemma {:induction false} ParsePrinted(v: Json, layout: Layout, level: nat, rest: string)
    requires WellFormed(v)
    requires !ContinuesNumber(rest)
    ensures ParseValue(Print(v, layout, level) + rest) == Done(v, rest)
    decreases v, 0
  {
    hide ParseItems, ParseMembers, ParseValue, Print, PrintItems, PrintMembers, Collapse;
    if v == Arr([]) || v == Obj([]) {
      EmptyBrackets(v, layout, level, rest);
    } else if v.Arr? {
      var t := PrintItems(v.items, layout, level + 1) + (Break(layout, level) + "]" + rest);
      PrintItemsStart(v.items, layout, level + 1);
      ParsePrintedItems(v.items, layout, level + 1, level, rest);
      ArrayText(v.items, layout, level, rest, t);
    } else if v.Obj? {
      var t := PrintMembers(v.members, layout, level + 1) + (Break(layout, level) + "}" + rest);
      PrintMembersStart(v.members, layout, level + 1);
      ParsePrintedMembers(v.members, layout, level + 1, level, rest);
      ObjectText(v.members, layout, level, rest, t);
      CollapseUnique(v.members);
    } else {
      ParseScalar(v, layout, level, rest);
    }
  }

  lemma Regroup(a: string, b: string, c: string, d: string, e: string, f: string)
    ensures a + b + c + d + e + f == a + (b + (c + (d + e + f)))
  {
  }

  lemma ArrayText(items: seq<Json>, layout: Layout, level: nat, rest: string, t: string)
    requires items != []
    requires t == PrintItems(items, layout, level + 1) + (Break(layout, level) + "]" + rest)
    requires t != "" && !IsSpace(t[0]) && t[0] != ']'
    requires ParseItems(t) == Done(items, rest)
    ensures ParseValue(Print(Arr(items), layout, level) + rest) == Done(Arr(items), rest)
  {
    hide ParseValue, ParseItems, PrintItems, Break, SkipSpace;
    assert SkipSpace(t) == t by { FirstNotSpace(t); }
    var gap := Break(layout, level + 1);
    Regroup("[", gap, PrintItems(items, layout, level + 1), Break(layout, level), "]", rest);
    SkipBreak(layout, level + 1, t);
    OpenArray(gap, t);
  }

  lemma ObjectText(ms: seq<Member>, layout: Layout, level: nat, rest: string, t: string)
    requires ms != []
    requires t == PrintMembers(ms, layout, level + 1) + (Break(layout, level) + "}" + rest)
    requires t != "" && !IsSpace(t[0]) && t[0] != '}'
    requires ParseMembers(t) == Done(ms, rest)
    ensures ParseValue(Print(Obj(ms), layout, level) + rest) == Done(Obj(Collapse(ms)), rest)
  {
    hide ParseValue, ParseMembers, PrintMembers, Collapse, Break, SkipSpace;
    assert SkipSpace(t) == t by { FirstNotSpace(t); }
    var gap := Break(layout, level + 1);
    Regroup("{", gap, PrintMembers(ms, layout, level + 1), Break(layout, level), "}", rest);
    SkipBreak(layout, level + 1, t);
    OpenObject(gap, t);
  }

  lemma PrintItemsStart(items: seq<Json>, layout: Layout, level: nat)
    requires items != []
    ensures var t := PrintItems(items, layout, level); t != "" && !IsSpace(t[0]) && t[0] != ']'
  {
    PrintStart(items[0], layout, level);
  }

  lemma PrintMembersStart(ms: seq<Member>, layout: Layout, level: nat)
    requires ms != []
    ensures var t := PrintMembers(ms, layout, level); t != "" && t[0] == '\"'
  {
  }

  lemma MoreItems(items: seq<Json>, layout: Layout, level: nat, close: string)
    requires |items| > 1
    ensures PrintItems(items, layout, level) + close
         == Print(items[0], layout, level) + ("," + (Gap(layout, level) + (PrintItems(items[1..], layout, level) + close)))
  {
    hide Print;
  }

  lemma OnlyItem(item: Json, layout: Layout, level: nat, outer: nat, rest: string)
    requires var close := Break(layout, outer) + "]" + rest;
      ParseValue(Print(item, layout, level) + close) == Done(item, close)
    ensures ParseItems(PrintItems([item], layout, level) + (Break(layout, outer) + "]" + rest)) == Done([item], rest)
  {
    hide ParseItems, ParseValue, Print, Break, SkipSpace, ContinuesNumber;
    var close := Break(layout, outer) + "]" + rest;
    assert close == Break(layout, outer) + ("]" + rest);
    AfterElement(layout, outer, ']', rest);
    LastItem(Print(item, layout, level) + close, item, close, rest);
  }

  lemma JoinItems(items: seq<Json>, layout: Layout, level: nat, close: string, rest: string)
    requires |items| > 1
    requires var tail := "," + (Gap(layout, level) + (PrintItems(items[1..], layout, level) + close));
      ParseValue(Print(items[0], layout, level) + tail) == Done(items[0], tail)
    requires ParseItems(PrintItems(items[1..], layout, level) + close) == Done(items[1..], rest)
    ensures ParseItems(PrintItems(items, layout, level) + close) == Done(items, rest)
  {
    hide ParseItems, ParseValue, Print, PrintItems, Gap, SkipSpace, IsSpace;
    var t := PrintItems(items[1..], layout, level) + close;
    var tail := "," + (Gap(layout, level) + t);
    MoreItems(items, layout, level, close);
    assert tail[1..] == Gap(layout, level) + t;
    PrintItemsStart(items[1..], layout, level);
    SkipGap(layout, level, t);
    FirstNotSpace(t);
    NextItem(Print(items[0], layout, level) + tail, items[0], tail, items[1..], rest);
    assert [items[0]] + items[1..] == items;
  }

  lemma {:induction false} ParsePrintedItems(items: seq<Json>, layout: Layout, level: nat, outer: nat, rest: string)
    requires items != []
    requires forall i :: 0 <= i < |items| ==> WellFormed(items[i])
    ensures ParseItems(PrintItems(items, layout, level) + (Break(layout, outer) + "]" + rest)) == Done(items, rest)
    decreases items, 1
  {
    hide ParseItems, ParseValue, Print, PrintItems, Break, Gap, WellFormed, ContinuesNumber, SkipSpace;
    var close := Break(layout, outer) + "]" + rest;
    if |items| == 1 {
      assert close == Break(layout, outer) + ("]" + rest);
      AfterElement(layout, outer, ']', rest);
      ParsePrinted(items[0], layout, level, close);
      OnlyItem(items[0], layout, level, outer, rest);
      assert items == [items[0]];
    } else {
      var tail := "," + (Gap(layout, level) + (PrintItems(items[1..], layout, level) + close));
      assert !ContinuesNumber(tail) by { CommaEnds(tail); }
      ParsePrinted(items[0], layout, level, tail);
      ParsePrintedItems(items[1..], layout, level, outer, rest);
      JoinItems(items, layout, level, close, rest);
    }
  }

  lemma CommaEnds(tail: string)
    requires tail != "" && tail[0] == ','
    ensures !ContinuesNumber(tail)
  {
  }

  lemma MemberText(m: Member, layout: Layout, level: nat, rest: string)
    ensures PrintMember(m, layout, level) + rest == Quote(m.key) + (Colon(layout) + (Print(m.value, layout, level) + rest))
  {
    hide Quote, Print, Colon;
  }

  lemma {:induction false} ParsePrintedMember(m: Member, layout: Layout, level: nat, rest: string)
    requires WellFormed(m.value)
    requires !ContinuesNumber(rest)
    ensures ParseMember(PrintMember(m, layout, level) + rest) == Done(m, rest)
    decreases m, 1
  {
    hide ParseMember, ParseValue, ParseStringBody, Quote, Print, PrintMember, Colon, WellFormed, ContinuesNumber, SkipSpace;
    var v := Print(m.value, layout, level) + rest;
    var t := Colon(layout) + v;
    MemberText(m, layout, level, rest);
    ParseQuoted(m.key, t);
    SkipColon(layout, m.value, level, rest);
    ParsePrinted(m.value, layout, level, rest);
    ReadMember(Quote(m.key) + t, m, t, v, rest);
  }

  lemma ReadMember(s: string, m: Member, t: string, v: string, rest: string)
    requires s != "" && s[0] == '\"' && ParseStringBody(s[1..]) == Done(m.key, t)
    requires SkipSpace(t) == t && t != "" && t[0] == ':' && SkipSpace(t[1..]) == v
    requires ParseValue(v) == Done(m.value, rest)
    ensures ParseMember(s) == Done(m, rest)
  {
  }

  lemma SkipColon(layout: Layout, value: Json, level: nat, rest: string)
    ensures var v := Print(value, layout, level) + rest;
      var t := Colon(layout) + v;
      SkipSpace(t) == t && t != "" && t[0] == ':' && SkipSpace(t[1..]) == v
  {
    var v := Print(value, layout, level) + rest;
    var t := Colon(layout) + v;
    PrintStart(value, layout, level);
    if !layout.Tight? {
      assert t[1..][1..] == v;
    } else {
      assert t[1..] == v;
    }
  }

  lemma MoreMembers(ms: seq<Member>, layout: Layout, level: nat, close: string)
    requires |ms| > 1
    ensures PrintMembers(ms, layout, level) + close
         == PrintMember(ms[0], layout, level) + ("," + (Gap(layout, level) + (PrintMembers(ms[1..], layout, level) + close)))
  {
    hide PrintMember;
  }

  lemma OnlyMember(m: Member, layout: Layout, level: nat, outer: nat, rest: string)
    requires var close := Break(layout, outer) + "}" + rest;
      ParseMember(PrintMember(m, layout, level) + close) == Done(m, close)
    ensures ParseMembers(PrintMembers([m], layout, level) + (Break(layout, outer) + "}" + rest)) == Done([m], rest)
  {
    hide ParseMembers, ParseMember, PrintMember, Break, SkipSpace, ContinuesNumber;
    var close := Break(layout, outer) + "}" + rest;
    assert close == Break(layout, outer) + ("}" + rest);
    AfterElement(layout, outer, '}', rest);
    LastMember(PrintMember(m, layout, level) + close, m, close, rest);
  }

  lemma JoinMembers(ms: seq<Member>, layout: Layout, level: nat, close: string, rest: string)
    requires |ms| > 1
    requires var tail := "," + (Gap(layout, level) + (PrintMembers(ms[1..], layout, level) + close));
      ParseMember(PrintMember(ms[0], layout, level) + tail) == Done(ms[0], tail)
    requires ParseMembers(PrintMembers(ms[1..], layout, level) + close) == Done(ms[1..], rest)
    ensures ParseMembers(PrintMembers(ms, layout, level) + close) == Done(ms, rest)
  {
    hide ParseMembers, ParseMember, PrintMember, PrintMembers, Gap, SkipSpace;
    var t := PrintMembers(ms[1..], layout, level) + close;
    var tail := "," + (Gap(layout, level) + t);
    MoreMembers(ms, layout, level, close);
    assert tail[1..] == Gap(layout, level) + t;
    PrintMembersStart(ms[1..], layout, level);
    SkipGap(layout, level, t);
    FirstNotSpace(t);
    NextMember(PrintMember(ms[0], layout, level) + tail, ms[0], tail, ms[1..], rest);
    assert [ms[0]] + ms[1..] == ms;
  }

  lemma {:induction false} ParsePrintedMembers(ms: seq<Member>, layout: Layout, level: nat, outer: nat, rest: string)
    requires ms != []
    requires forall i :: 0 <= i < |ms| ==> WellFormed(ms[i].value)
    ensures ParseMembers(PrintMembers(ms, layout, level) + (Break(layout, outer) + "}" + rest)) == Done(ms, rest)
    decreases ms, 2
  {
    hide ParseMembers, ParseMember, PrintMember, PrintMembers, Break, Gap, WellFormed, ContinuesNumber, SkipSpace;
    var close := Break(layout, outer) + "}" + rest;
    if |ms| == 1 {
      assert close == Break(layout, outer) + ("}" + rest);
      AfterElement(layout, outer, '}', rest);
      ParsePrintedMember(ms[0], layout, level, close);
      OnlyMember(ms[0], layout, level, outer, rest);
      assert ms == [ms[0]];
    } else {
      var tail := "," + (Gap(layout, level) + (PrintMembers(ms[1..], layout, level) + close));
      assert !ContinuesNumber(tail) by { CommaEnds(tail); }
      ParsePrintedMember(ms[0], layout, level, tail);
      ParsePrintedMembers(ms[1..], layout, level, outer, rest);
      JoinMembers(ms, layout, level, close, rest);
    }
  }

  /** `json.loads` undoes `json.dumps`, whichever separators were used. */
  lemma ParsePrint(v: Json, layout: Layout)
    requires WellFormed(v)
    ensures Parse(Print(v, layout, 0)) == Some(v)
  {
    var t := Print(v, layout, 0);
    assert t + "" == t;
    PrintStart(v, layout, 0);
    ParsePrinted(v, layout, 0, "");
  }

  /** Two values with the same text are the same value. */
  lemma PrintInjective(v: Json, w: Json, layout: Layout)
    requires WellFormed(v) && WellFormed(w)
    requires Print(v, layout, 0) == Print(w, layout, 0)
    ensures v == w
  {
    ParsePrint(v, layout);
    ParsePrint(w, layout);
  }

  // ------------------------------------------------------------------------------- dict algebra

  lemma {:induction false} PutAppends(ms: seq<Member>, m: Member)
    requires !HasKey(ms, m.key)
    ensures Put(ms, m) == ms + [m]
  {
    if ms != [] {
      assert ms[0].key != m.key;
      forall i | 0 <= i < |ms[1..]| ensures ms[1..][i].key != m.key {
        assert ms[1..][i] == ms[i + 1];
      }
      PutAppends(ms[1..], m);
      assert [ms[0]] + (ms[1..] + [m]) == ms + [m];
    }
  }

  lemma {:induction false} CollapseUnique(ms: seq<Member>)
    requires UniqueKeys(ms)
    ensures Collapse(ms) == ms
  {
    if ms != [] {
      var k := |ms| - 1;
      CollapseUnique(ms[..k]);
      PutAppends(ms[..k], ms[k]);
      assert ms[..k] + [ms[k]] == ms;
    }
  }

  /** In a dict, the member at position `i` is the one its key looks up. */
  lemma {:induction false} GetAt(ms: seq<Member>, i: nat)
    requires UniqueKeys(ms) && i < |ms|
    ensures Get(ms, ms[i].key) == Some(ms[i].value)
  {
    if i > 0 {
      assert ms[0].key != ms[i].key;
      GetAt(ms[1..], i - 1);
      assert ms[1..][i - 1] == ms[i];
    }
  }

  // ------------------------------------------------------------------- the parser only makes dicts

  lemma {:induction false} PutKeys(ms: seq<Member>, m: Member, k: string)
    ensures HasKey(Put(ms, m), k) <==> HasKey(ms, k) || k == m.key
  {
    HasKeyHead(Put(ms, m), k);
    HasKeyHead(ms, k);
    if ms != [] && ms[0].key != m.key {
      PutKeys(ms[1..], m, k);
    }
  }

  lemma HasKeyHead(ms: seq<Member>, k: string)
    ensures HasKey(ms, k) <==> ms != [] && (ms[0].key == k || HasKey(ms[1..], k))
  {
    if i :| 0 <= i < |ms| && ms[i].key == k && i > 0 {
      assert ms[1..][i - 1].key == k;
    }
    if ms != [] {
      if i :| 0 <= i < |ms[1..]| && ms[1..][i].key == k {
        assert ms[i + 1].key == k;
      }
    }
  }

  lemma {:induction false} PutKeepsDict(ms: seq<Member>, m: Member)
    requires UniqueKeys(ms)
    requires WellFormed(m.value) && forall i :: 0 <= i < |ms| ==> WellFormed(ms[i].value)
    ensures UniqueKeys(Put(ms, m))
    ensures forall i :: 0 <= i < |Put(ms, m)| ==> WellFormed(Put(ms, m)[i].value)
  {
    hide WellFormed;
    if ms != [] && ms[0].key != m.key {
      var t := Put(ms[1..], m);
      PutKeepsDict(ms[1..], m);
      PutKeys(ms[1..], m, ms[0].key);
      assert !HasKey(t, ms[0].key);
    }
  }

  /** The value of the last item with key `k`. */
  function LastValue(ps: seq<Member>, k: string): Option<Json> {
    if ps == [] then None
    else if ps[|ps| - 1].key == k then Some(ps[|ps| - 1].value)
    else LastValue(ps[..|ps| - 1], k)
  }

  lemma {:induction false} GetPut(ms: seq<Member>, m: Member, k: string)
    ensures Get(Put(ms, m), k) == if k == m.key then Some(m.value) else Get(ms, k)
  {
    if ms == [] {
      assert Get([m][1..], k) == None;
    } else if ms[0].key == m.key {
      assert Put(ms, m)[1..] == ms[1..];
    } else {
      GetPut(ms[1..], m, k);
    }
  }

  /** A parsed object has, for each key, the value that was written last. */
  lemma {:induction false} CollapseKeepsLast(ps: seq<Member>, k: string)
    ensures Get(Collapse(ps), k) == LastValue(ps, k)
  {
    if ps != [] {
      CollapseKeepsLast(ps[..|ps| - 1], k);
      GetPut(Collapse(ps[..|ps| - 1]), ps[|ps| - 1], k);
    }
  }

  lemma {:induction false} CollapseIsDict(ps: seq<Member>)
    requires forall i :: 0 <= i < |ps| ==> WellFormed(ps[i].value)
    ensures UniqueKeys(Collapse(ps))
    ensures forall i :: 0 <= i < |Collapse(ps)| ==> WellFormed(Collapse(ps)[i].value)
  {
    if ps != [] {
      var k := |ps| - 1;
      CollapseIsDict(ps[..k]);
      PutKeepsDict(Collapse(ps[..k]), ps[k]);
    }
  }

  lemma ScalarParsed(s: string)
    requires s == "" || (s[0] != '[' && s[0] != '{')
    ensures ParseValue(s).Done? ==> !ParseValue(s).value.Arr? && !ParseValue(s).value.Obj?
  {
    hide ParseNat, FloatRun, ParseStringBody, ParseItems, ParseMembers;
  }

  lemma ArrayParsed(s: string)
    requires s != "" && s[0] == '['
    ensures var t, v := SkipSpace(s[1..]), ParseValue(s);
      v.Done? ==> (v.value == Arr([]) || (ParseItems(t).Done? && v.value == Arr(ParseItems(t).value)))
  {
    hide ParseItems, SkipSpace;
  }

  lemma ObjectParsed(s: string)
    requires s != "" && s[0] == '{'
    ensures var t, v := SkipSpace(s[1..]), ParseValue(s);
      v.Done? ==> (v.value == Obj([]) || (ParseMembers(t).Done? && v.value == Obj(Collapse(ParseMembers(t).value))))
  {
    hide ParseMembers, SkipSpace, Collapse;
  }

  lemma {:induction false} ParsedValueWellFormed(s: string)
    ensures ParseValue(s).Done? ==> WellFormed(ParseValue(s).value)
    decreases |s|, 0
  {
    hide ParseValue, ParseItems, ParseMembers, Collapse;
    if s != "" && s[0] == '[' {
      ArrayParsed(s);
      ParsedItemsWellFormed(SkipSpace(s[1..]));
    } else if s != "" && s[0] == '{' {
      var t := SkipSpace(s[1..]);
      ObjectParsed(s);
      ParsedMembersWellFormed(t);
      if ParseMembers(t).Done? {
        CollapseIsDict(ParseMembers(t).value);
      }
    } else {
      ScalarParsed(s);
    }
  }

  lemma {:induction false} ParsedItemsWellFormed(s: string)
    ensures ParseItems(s).Done? ==>
      forall i :: 0 <= i < |ParseItems(s).value| ==> WellFormed(ParseItems(s).value[i])
    decreases |s|, 1
  {
    ParsedValueWellFormed(s);
    var p := ParseValue(s);
    if p.Done? {
      var t := SkipSpace(p.rest);
      if t != "" && t[0] == ',' {
        ParsedItemsWellFormed(SkipSpace(t[1..]));
      }
    }
  }

  lemma {:induction false} ParsedMembersWellFormed(s: string)
    ensures ParseMembers(s).Done? ==>
      forall i :: 0 <= i < |ParseMembers(s).value| ==> WellFormed(ParseMembers(s).value[i].value)
    decreases |s|, 1
  {
    if s != "" && s[0] == '\"' {
      var key := ParseStringBody(s[1..]);
      if key.Done? {
        var t := SkipSpace(key.rest);
        if t != "" && t[0] == ':' {
          ParsedValueWellFormed(SkipSpace(t[1..]));
        }
      }
    }
    var p := ParseMember(s);
    if p.Done? {
      var t := SkipSpace(p.rest);
      if t != "" && t[0] == ',' {
        ParsedMembersWellFormed(SkipSpace(t[1..]));
      }
    }
  }

  /** Whatever text is given, the parser returns a proper Python value: no key occurs twice. */
  lemma ParseWellFormed(s: string)
    ensures Parse(s).Some? ==> WellFormed(Parse(s).value)
  {
    ParsedValueWellFormed(SkipSpace(s));
  }

  // -------------------------------------------------------------------------------- output bytes

  /** `ensure_ascii` makes the byte length of every printed value its character count. */
  lemma PrintedByteLength(v: Json, layout: Layout)
    ensures |Utf8.Encode(Print(v, layout, 0))| == |Print(v, layout, 0)|
  {
    PrintAscii(v, layout, 0);
    Utf8.AsciiEncoding(Print(v, layout, 0));
  }

  /** The whole wire: bytes to text to value undoes value to text to bytes. */
  lemma WireRoundTrip(v: Json, layout: Layout)
    requires WellFormed(v)
    ensures var wire := Utf8.Encode(Print(v, layout, 0));
      Utf8.Decode(wire).Some? && Parse(Utf8.Decode(wire).value) == Some(v)
  {
    Utf8.DecodeEncode(Print(v, layout, 0));
    ParsePrint(v, layout);
  }
}
