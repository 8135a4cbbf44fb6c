/** The pieces of JSON text, one at a time: what the parser makes of a printed number, string, word or
    run of white space, how it opens and closes arrays and objects, and that everything printed is
    ASCII. Each lemma is about the text of one token followed by any other text; the round trip of
    whole values is put together from them. */
module JsonText {
  import opened Wrappers
  import opened Json
  import Utf8

  // ------------------------------------------------------------------------------------ numbers

  lemma {:induction false} NatTextDigits(n: nat)
    ensures forall i :: 0 <= i < |NatText(n)| ==> IsDigit(NatText(n)[i])
    ensures NatText(n)[0] == '0' ==> n == 0
    ensures NatValue(NatText(n)) == n
  {
    if n >= 10 {
      NatTextDigits(n / 10);
      var t := NatText(n);
      assert t[..|t| - 1] == NatText(n / 10);
    }
  }

  lemma ParsePrintedNat(n: nat, rest: string)
    requires !ContinuesNumber(rest)
    ensures ParseNat(NatText(n) + rest) == Done(n, rest)
  {
    NatTextDigits(n);
    var t := NatText(n);
    DigitRunIs(t, rest);
    assert (t + rest)[..|t|] == t && (t + rest)[|t|..] == rest;
  }

  /** More digits never means a smaller number: what makes the envelope grow with `seq`. */
  lemma {:induction false} NatTextMonotone(a: nat, b: nat)
    requires a <= b
    ensures |NatText(a)| <= |NatText(b)|
  {
    if b >= 10 && a >= 10 {
      NatTextMonotone(a / 10, b / 10);
    }
  }

  // ------------------------------------------------------------------------------------ strings

  lemma HexDigitOf(d: int)
    requires 0 <= d < 16
    ensures HexDigit(HexChar(d)) == Some(d)
  {
  }

  lemma ParsePrintedHex4(n: int, rest: string)
    requires 0 <= n < 0x1_0000
    ensures ParseHex4(Hex4(n) + rest) == Some(n)
  {
    HexDigitOf(n / 4096);
    HexDigitOf(n / 256 % 16);
    HexDigitOf(n / 16 % 16);
    HexDigitOf(n % 16);
    assert n / 4096 == n / 256 / 16 && n / 256 == n / 16 / 16;
  }

  lemma UnescapePair(n: int, t: string)
    requires 0x1_0000 <= n < 0x11_0000
    ensures var u, w := 0xD800 + (n - 0x1_0000) / 1024, 0xDC00 + (n - 0x1_0000) % 1024;
      UnescapeUnicode(Hex4(u) + "\\u" + Hex4(w) + t) == Done(n as char, t)
  {
    hide Hex4, ParseHex4;
    var u, w := 0xD800 + (n - 0x1_0000) / 1024, 0xDC00 + (n - 0x1_0000) % 1024;
    var tail := Hex4(w) + t;
    var s := Hex4(u) + "\\u" + Hex4(w) + t;
    assert s == Hex4(u) + ("\\u" + tail);
    ParsePrintedHex4(u, "\\u" + tail);
    assert s[6..] == tail;
    ParsePrintedHex4(w, t);
    assert s[10..] == t;
    assert PairValue(u, w) as int == n;
  }

  lemma UnescapeShort(c: char, t: string)
    requires ShortForm(c).Some?
    ensures UnescapeChar(EscapeChar(c) + t) == Done(c, t)
  {
    var s := EscapeChar(c) + t;
    assert s[2..] == t;
  }

  lemma UnescapePlain(c: char, t: string)
    requires ShortForm(c).None? && 0x20 <= c as int < 0x7F
    ensures UnescapeChar(EscapeChar(c) + t) == Done(c, t)
  {
    var s := EscapeChar(c) + t;
    assert s[1..] == t;
  }

  lemma UnescapeLong(c: char, t: string)
    requires ShortForm(c).None? && !(0x20 <= c as int < 0x7F)
    ensures UnescapeChar(EscapeChar(c) + t) == Done(c, t)
  {
    hide Hex4, ParseHex4, UnescapeUnicode;
    var n := c as int;
    var s := EscapeChar(c) + t;
    if n < 0x1_0000 {
      assert s[2..] == Hex4(n) + t;
      UnescapeUnit(n, t);
    } else {
      var u, w := 0xD800 + (n - 0x1_0000) / 1024, 0xDC00 + (n - 0x1_0000) % 1024;
      assert s[2..] == Hex4(u) + "\\u" + Hex4(w) + t;
      UnescapePair(n, t);
    }
    assert s[0] == '\\' && s[1] == 'u';
  }

  lemma UnescapeUnit(n: int, t: string)
    requires 0 <= n < 0xD800 || 0xE000 <= n < 0x1_0000
    ensures UnescapeUnicode(Hex4(n) + t) == Done(n as char, t)
  {
    hide Hex4, ParseHex4;
    ParsePrintedHex4(n, t);
    assert (Hex4(n) + t)[4..] == t;
  }

  lemma UnescapeEscaped(c: char, t: string)
    ensures UnescapeChar(EscapeChar(c) + t) == Done(c, t)
  {
    hide UnescapeChar, EscapeChar;
    if ShortForm(c).Some? {
      UnescapeShort(c, t);
    } else if 0x20 <= c as int < 0x7F {
      UnescapePlain(c, t);
    } else {
      UnescapeLong(c, t);
    }
  }

  /** One escaped character at the front of a string literal. */
  lemma ParseStringStep(c: char, t: string)
    ensures ParseStringBody(EscapeChar(c) + t) ==
      match ParseStringBody(t) case Done(cs, rest) => Done([c] + cs, rest) case Fail => Fail
  {
    hide UnescapeChar;
    UnescapeEscaped(c, t);
    NotAQuote(c);
    assert (EscapeChar(c) + t)[0] == EscapeChar(c)[0];
  }

  lemma NotAQuote(c: char)
    ensures EscapeChar(c)[0] != '\"'
  {
  }

  lemma EndOfString(rest: string)
    ensures ParseStringBody("\"" + rest) == Done("", rest)
  {
    assert ("\"" + rest)[1..] == rest;
  }

  lemma {:induction false} ParseEscaped(cs: string, rest: string)
    ensures ParseStringBody(Escape(cs) + "\"" + rest) == Done(cs, rest)
  {
    hide ParseStringBody, EscapeChar;
    var s := Escape(cs) + "\"" + rest;
    if cs == "" {
      assert s == "\"" + rest;
      EndOfString(rest);
    } else {
      var t := Escape(cs[1..]) + "\"" + rest;
      assert s == EscapeChar(cs[0]) + t;
      ParseStringStep(cs[0], t);
      ParseEscaped(cs[1..], rest);
      assert [cs[0]] + cs[1..] == cs;
    }
  }

  lemma ParseQuoted(cs: string, rest: string)
    ensures Quote(cs) + rest != "" && (Quote(cs) + rest)[0] == '\"'
    ensures ParseStringBody((Quote(cs) + rest)[1..]) == Done(cs, rest)
  {
    assert (Quote(cs) + rest)[1..] == Escape(cs) + "\"" + rest;
    ParseEscaped(cs, rest);
  }

  // -------------------------------------------------------------------------------- white space

  lemma {:induction false} SkipSpaces(n: nat, t: string)
    ensures SkipSpace(Spaces(n) + t) == SkipSpace(t)
  {
    if n == 0 {
      assert Spaces(n) + t == t;
    } else {
      assert (Spaces(n) + t)[1..] == Spaces(n - 1) + t;
      SkipSpaces(n - 1, t);
    }
  }

  lemma SkipBreak(layout: Layout, level: nat, t: string)
    ensures SkipSpace(Break(layout, level) + t) == SkipSpace(t)
  {
    if layout.Indented? {
      assert (Break(layout, level) + t)[1..] == Spaces(2 * level) + t;
      SkipSpaces(2 * level, t);
    } else {
      assert Break(layout, level) + t == t;
    }
  }

  lemma SkipGap(layout: Layout, level: nat, t: string)
    ensures SkipSpace(Gap(layout, level) + t) == SkipSpace(t)
  {
    if layout.Roomy? {
      assert (" " + t)[1..] == t;
    } else {
      SkipBreak(layout, level, t);
    }
  }

  lemma FirstNotSpace(t: string)
    requires t != "" && !IsSpace(t[0])
    ensures SkipSpace(t) == t
  {
  }

  /** A printed value starts with its own first token, never with white space or a delimiter. */
  lemma PrintStart(v: Json, layout: Layout, level: nat)
    ensures var t := Print(v, layout, level);
      t != "" && !IsSpace(t[0]) && t[0] != ']' && t[0] != '}'
  {
    hide NatText, Escape, PrintItems, PrintMembers, Break, IsDigit;
    match v
    case Num(n) => IntStart(n);
    case Float(t) => NumeralStart(t);
    case _ =>
  }

  lemma FloatRunStart(t: string)
    requires FloatRun(t) > 0
    ensures IsDigit(t[0])
  {
  }

  lemma NumeralStart(t: Numeral)
    ensures t != "" && (IsDigit(t[0]) || t[0] in "-NI")
    ensures !IsSpace(t[0]) && t[0] != ']' && t[0] != '}'
  {
    hide FloatRun;
    if t !in FLOAT_WORDS && t[0] != '-' { FloatRunStart(t); }
  }

  lemma IntStart(n: int)
    ensures IntText(n) != "" && (IsDigit(IntText(n)[0]) || IntText(n)[0] == '-')
    ensures if n >= 0 then IntText(n)[0] != '-' else |IntText(n)| > 1 && IntText(n)[1] != 'I'
    ensures !IsSpace(IntText(n)[0]) && IntText(n)[0] != ']' && IntText(n)[0] != '}'
  {
    NatTextDigits(if n < 0 then -n else n);
  }

  // ----------------------------------------------------------------------------------- literals

  lemma ParsePrintedWord(v: Json, rest: string)
    requires v.Null? || v.Bool?
    ensures ParseWord(Print(v, Tight, 0) + rest) == Done(v, rest)
  {
    var t := Print(v, Tight, 0);
    assert (t + rest)[..|t|] == t && (t + rest)[|t|..] == rest;
    assert t <= t + rest;
    assert (t + rest)[0] == t[0];
  }

  lemma IntIsNoFloat(n: nat, rest: string)
    requires !ContinuesNumber(rest)
    ensures FloatRun(NatText(n) + rest) == 0
  {
    NatTextDigits(n);
    var t := NatText(n);
    DigitRunIs(t, rest);
    assert (t + rest)[|t|..] == rest;
    assert IntRun(t + rest) == |t|;
  }

  lemma NumberIsParsed(s: string)
    requires s != "" && StartsNumber(s)
    ensures ParseValue(s) == ParseNumber(s)
  {
    hide ParseNumber, ParseWord, ParseItems, ParseMembers, ParseStringBody, SkipSpace;
  }

  lemma FloatIsParsed(s: string, k: nat)
    requires s != "" && 0 < k <= |s| && !ContinuesNumber(s[k..])
    requires k == if s[0] == '-' then 1 + FloatRun(s[1..]) else FloatRun(s)
    requires IsFloatText(s[..k])
    requires FloatRun(if s[0] == '-' then s[1..] else s) > 0
    ensures ParseNumber(s) == Done(Float(s[..k]), s[k..])
  {
    hide FloatRun, ContinuesNumber, ParseNat, IsFloatText;
  }

  /** A float reads back as its own text. */
  lemma ParsePrintedFloat(t: Numeral, rest: string)
    requires !ContinuesNumber(rest)
    ensures ParseValue(t + rest) == Done(Float(t), rest)
  {
    hide FloatRun, ContinuesNumber, ParseValue, ParseNumber;
    var s := t + rest;
    assert s[..|t|] == t && s[|t|..] == rest;
    if t in FLOAT_WORDS {
      FloatWord(t, rest);
    } else {
      if t[0] == '-' {
        var u := t[1..];
        FloatRunNonEmpty(u);
        FloatRunLocal(u, rest);
        assert u[..|u|] == u && s[1..] == u + rest;
        FloatRunStart(u);
        assert s[1] == u[0];
      } else {
        FloatRunNonEmpty(t);
        FloatRunLocal(t, rest);
        assert t[..|t|] == t;
        FloatRunStart(t);
      }
      FloatIsParsed(s, |t|);
      NumberIsParsed(s);
    }
  }

  lemma FloatRunNonEmpty(t: string)
    requires t != "" && FloatRun(t) == |t|
    ensures FloatRun(t) > 0
  {
  }

  lemma WordIsReached(s: string)
    requires s != "" && s[0] != '\"' && s[0] != '[' && s[0] != '{' && !StartsNumber(s)
    ensures ParseValue(s) == ParseWord(s)
  {
    hide ParseNumber, ParseWord, ParseItems, ParseMembers, ParseStringBody, SkipSpace;
  }

  lemma ReadWord(t: Numeral, s: string)
    requires t in FLOAT_WORDS && t <= s
    ensures ParseWord(s) == Done(Float(t), s[|t|..])
  {
    assert s[0] == t[0] && s[1] == t[1];
  }

  lemma FloatWord(t: Numeral, rest: string)
    requires t in FLOAT_WORDS
    ensures ParseValue(t + rest) == Done(Float(t), rest)
  {
    hide ParseValue, ParseWord;
    var s := t + rest;
    assert s[..|t|] == t && s[|t|..] == rest && t <= s;
    assert s[0] == t[0] && s[1] == t[1];
    WordIsReached(s);
    ReadWord(t, s);
  }

  lemma ParsePrintedInt(n: int, rest: string)
    requires !ContinuesNumber(rest)
    ensures var s := IntText(n) + rest; (IsDigit(s[0]) || s[0] == '-') && ParseNumber(s) == Done(Num(n), rest)
  {
    hide ParseNat, NatText, IsDigit, ContinuesNumber, FloatRun;
    var s := IntText(n) + rest;
    IntStart(n);
    IntIsNoFloat(if n < 0 then -n else n, rest);
    if n < 0 {
      assert s[1..] == NatText(-n) + rest;
      ParsePrintedNat(-n, rest);
    } else {
      ParsePrintedNat(n, rest);
      assert s[0] == NatText(n)[0];
    }
  }

  lemma WordIsParsed(v: Json, rest: string)
    requires v.Null? || v.Bool?
    ensures ParseValue(Print(v, Tight, 0) + rest) == Done(v, rest)
  {
    hide ParseWord;
    ParsePrintedWord(v, rest);
    assert (Print(v, Tight, 0) + rest)[0] == Print(v, Tight, 0)[0];
  }

  lemma StringIsParsed(s: string)
    requires s != "" && s[0] == '\"'
    ensures ParseValue(s) == match ParseStringBody(s[1..]) case Fail => Fail case Done(cs, rest) => Done(Str(cs), rest)
  {
    hide ParseStringBody;
  }

  lemma ParseScalar(v: Json, layout: Layout, level: nat, rest: string)
    requires !v.Arr? && !v.Obj?
    requires !ContinuesNumber(rest)
    ensures ParseValue(Print(v, layout, level) + rest) == Done(v, rest)
  {
    hide ParseNat, ParseFloat, FloatRun, NatText, ParseStringBody, Escape, ParseItems, ParseMembers, ParseNumber;
    hide ParseValue, ParseWord, IntText, Quote, ContinuesNumber, IsDigit;
    match v
    case Float(t) => ParsePrintedFloat(t, rest);
    case Null => WordIsParsed(v, rest);
    case Bool(_) => WordIsParsed(v, rest);
    case Num(n) =>
      ParsePrintedInt(n, rest);
      IntStart(n);
      NumberIsParsed(IntText(n) + rest);
    case Str(cs) =>
      ParseQuoted(cs, rest);
      StringIsParsed(Quote(cs) + rest);
    case _ =>
  }

  // ------------------------------------------------------------------------ brackets and braces

  lemma OpenArray(gap: string, t: string)
    requires SkipSpace(gap + t) == t && t != "" && t[0] != ']'
    ensures ParseValue("[" + (gap + t)) ==
      (match ParseItems(t) case Fail => Fail case Done(items, rest) => Done(Arr(items), rest))
  {
    assert ("[" + (gap + t))[1..] == gap + t;
  }

  lemma OpenObject(gap: string, t: string)
    requires SkipSpace(gap + t) == t && t != "" && t[0] != '}'
    ensures ParseValue("{" + (gap + t)) ==
      (match ParseMembers(t) case Fail => Fail case Done(ms, rest) => Done(Obj(Collapse(ms)), rest))
  {
    assert ("{" + (gap + t))[1..] == gap + t;
  }

  lemma EmptyBrackets(v: Json, layout: Layout, level: nat, rest: string)
    requires v == Arr([]) || v == Obj([])
    ensures ParseValue(Print(v, layout, level) + rest) == Done(v, rest)
  {
    var s := Print(v, layout, level) + rest;
    assert s[1..][1..] == rest;
  }

  lemma LastItem(s: string, v: Json, rest: string, t: string)
    requires ParseValue(s) == Done(v, rest) && SkipSpace(rest) == "]" + t
    ensures ParseItems(s) == Done([v], t)
  {
  }

  lemma NextItem(s: string, v: Json, rest: string, vs: seq<Json>, t: string)
    requires ParseValue(s) == Done(v, rest) && rest != "" && rest[0] == ','
    requires ParseItems(SkipSpace(rest[1..])) == Done(vs, t)
    ensures ParseItems(s) == Done([v] + vs, t)
  {
    hide ParseValue;
    assert SkipSpace(rest) == rest;
  }

  lemma LastMember(s: string, m: Member, rest: string, t: string)
    requires ParseMember(s) == Done(m, rest) && SkipSpace(rest) == "}" + t
    ensures ParseMembers(s) == Done([m], t)
  {
  }

  lemma NextMember(s: string, m: Member, rest: string, ms: seq<Member>, t: string)
    requires ParseMember(s) == Done(m, rest) && rest != "" && rest[0] == ','
    requires ParseMembers(SkipSpace(rest[1..])) == Done(ms, t)
    ensures ParseMembers(s) == Done([m] + ms, t)
  {
    hide ParseMember;
    assert SkipSpace(rest) == rest;
  }

  /** What follows a printed element inside a container: nothing that would extend a number. */
  lemma AfterElement(layout: Layout, level: nat, c: char, t: string)
    requires c == ',' || c == ']' || c == '}'
    ensures SkipSpace(Break(layout, level) + ([c] + t)) == [c] + t
    ensures !ContinuesNumber(Break(layout, level) + ([c] + t))
  {
    SkipBreak(layout, level, [c] + t);
    if !layout.Indented? {
      assert Break(layout, level) + ([c] + t) == [c] + t;
    }
  }

  // -------------------------------------------------------------------------------- output bytes

  lemma NatTextAscii(n: nat)
    ensures Utf8.IsAscii(NatText(n))
  {
    NatTextDigits(n);
  }

  lemma FloatRunAscii(t: string)
    requires FloatRun(t) == |t|
    ensures Utf8.IsAscii(t)
  {
    hide IntRun, FracRun, ExpRun, Utf8.IsAscii;
    if t == "" {
      NothingAscii();
    } else {
      var i := IntRun(t);
      var f := FracRun(t[i..]);
      RunsAscii(t);
      RunsAscii(t[i..]);
      RunsAscii(t[i..][f..]);
      var e := ExpRun(t[i..][f..]);
      NothingAscii();
      ConcatAscii(t[..i], t[i..][..f], t[i..][f..][..e], "", "");
      assert t == t[..i] + t[i..][..f] + t[i..][f..][..e] + "" + "";
    }
  }

  lemma NothingAscii()
    ensures Utf8.IsAscii("")
  {
  }

  lemma RunsAscii(s: string)
    ensures Utf8.IsAscii(s[..IntRun(s)]) && Utf8.IsAscii(s[..FracRun(s)]) && Utf8.IsAscii(s[..ExpRun(s)])
  {
    ExpAscii(s);
  }

  lemma ExpAscii(s: string)
    ensures Utf8.IsAscii(s[..ExpRun(s)])
  {
    if ExpRun(s) > 0 {
      var sign := SignRun(s[1..]);
      assert forall k :: 1 + sign <= k < ExpRun(s) ==> s[k] == s[1 + sign..][k - 1 - sign];
      assert s[1] == s[1..][0];
    }
  }

  lemma NumeralAscii(t: Numeral)
    ensures Utf8.IsAscii(t)
  {
    hide FloatRun;
    if t !in FLOAT_WORDS {
      if t[0] == '-' {
        FloatRunAscii(t[1..]);
        assert t == ['-'] + t[1..];
      } else {
        FloatRunAscii(t);
      }
    }
  }

  lemma {:induction false} EscapeAscii(s: string)
    ensures Utf8.IsAscii(Escape(s))
  {
    if s != "" {
      EscapeAscii(s[1..]);
      EscapeCharAscii(s[0]);
    }
  }

  lemma Hex4Ascii(n: int)
    requires 0 <= n < 0x1_0000
    ensures Utf8.IsAscii(Hex4(n))
  {
    assert forall d :: 0 <= d < 16 ==> (HexChar(d) as int) < 0x80;
  }

  lemma EscapeCharAscii(c: char)
    ensures Utf8.IsAscii(EscapeChar(c))
  {
    hide Hex4;
    var n := c as int;
    if n < 0x1_0000 {
      Hex4Ascii(n);
    } else {
      Hex4Ascii(0xD800 + (n - 0x1_0000) / 1024);
      Hex4Ascii(0xDC00 + (n - 0x1_0000) % 1024);
    }
  }

  lemma BreakAscii(layout: Layout, level: nat)
    ensures Utf8.IsAscii(Break(layout, level)) && Utf8.IsAscii(Break(layout, level + 1))
    ensures Utf8.IsAscii(Gap(layout, level))
  {
  }

  lemma ConcatAscii(a: string, b: string, c: string, d: string, e: string)
    requires Utf8.IsAscii(a) && Utf8.IsAscii(b) && Utf8.IsAscii(c) && Utf8.IsAscii(d) && Utf8.IsAscii(e)
    ensures Utf8.IsAscii(a + b + c + d + e)
  {
  }

  lemma {:induction false} PrintAscii(v: Json, layout: Layout, level: nat)
    ensures Utf8.IsAscii(Print(v, layout, level))
    decreases v, 0
  {
    hide NatText, Escape, PrintItems, PrintMembers, Break;
    match v
    case Num(n) => NatTextAscii(if n < 0 then -n else n);
    case Float(t) => NumeralAscii(t);
    case Str(s) => EscapeAscii(s);
    case Arr(items) =>
      if items != [] {
        BreakAscii(layout, level);
        PrintItemsAscii(items, layout, level + 1);
        ConcatAscii("[", Break(layout, level + 1), PrintItems(items, layout, level + 1), Break(layout, level), "]");
      }
    case Obj(ms) =>
      if ms != [] {
        BreakAscii(layout, level);
        PrintMembersAscii(ms, layout, level + 1);
        ConcatAscii("{", Break(layout, level + 1), PrintMembers(ms, layout, level + 1), Break(layout, level), "}");
      }
    case _ =>
  }

  lemma {:induction false} PrintItemsAscii(items: seq<Json>, layout: Layout, level: nat)
    requires items != []
    ensures Utf8.IsAscii(PrintItems(items, layout, level))
    decreases items, 1
  {
    PrintAscii(items[0], layout, level);
    if |items| > 1 {
      PrintItemsAscii(items[1..], layout, level);
    }
  }

  lemma {:induction false} PrintMembersAscii(ms: seq<Member>, layout: Layout, level: nat)
    requires ms != []
    ensures Utf8.IsAscii(PrintMembers(ms, layout, level))
    decreases ms, 1
  {
    hide Escape, Print, Break, PrintMember;
    MemberAscii(ms[0], layout, level);
    if |ms| > 1 {
      PrintMembersAscii(ms[1..], layout, level);
      BreakAscii(layout, level);
      ConcatAscii(PrintMember(ms[0], layout, level), ",", Gap(layout, level), PrintMembers(ms[1..], layout, level), "");
    }
  }

  lemma {:induction false} MemberAscii(m: Member, layout: Layout, level: nat)
    ensures Utf8.IsAscii(PrintMember(m, layout, level))
    decreases m, 1
  {
    hide Escape, Print;
    EscapeAscii(m.key);
    PrintAscii(m.value, layout, level);
  }
}
